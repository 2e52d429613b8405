/** When a node gets a replacement certificate, and how long the certificate stream sleeps. */
module CertLifecycle {
  import opened Text
  import opened RegistryModel

  const HOUR := 3_600_000_000_000
  const DAY := 24 * HOUR
  const PROMOTION_GRACE := HOUR

  datatype Lifecycle = Lifecycle(validFor: int, renewBefore: int, pollInterval: int)

  /** A parsed certificate, as far as the lifecycle looks at it. */
  datatype Cert = Cert(commonName: string, notAfter: int)

  /** `deadline` is the end of the window in which the issued certificate may be promoted. */
  datatype Decision = Unusable | NotDue | Due(deadline: int)

  /** Non-positive settings fall back to the defaults. */
  function NewLifecycle(rotationDays: int, renewBefore: int, pollInterval: int): (c: Lifecycle)
    ensures c.validFor > 0 && c.renewBefore > 0 && c.pollInterval > 0
  {
    Lifecycle(
      (if rotationDays <= 0 then 90 else rotationDays) * DAY,
      if renewBefore <= 0 then 7 * DAY else renewBefore,
      if pollInterval <= 0 then HOUR else pollInterval)
  }

  function Max(a: int, b: int): int {
    if a < b then b else a
  }

  /** `parse` stands for the certificate parser. */
  function NextDueUpdate(c: Lifecycle, parse: Bytes -> Option<Cert>, node: Node, now: int): Decision {
    var current := parse(node.cert);
    if current.None? || current.value.commonName != node.name then Unusable
    else if HasActivePending(node, now) then NotDue
    else if now + c.renewBefore < current.value.notAfter then NotDue
    else Due(Max(current.value.notAfter, now + PROMOTION_GRACE))
  }

  function DelayUntilDue(c: Lifecycle, parse: Bytes -> Option<Cert>, node: Node, now: int): int {
    var current := parse(node.cert);
    if current.None? then 0
    else if HasActivePending(node, now) then c.pollInterval
    else
      var delay := current.value.notAfter - c.renewBefore - now;
      if delay < 0 then 0 else if delay > c.pollInterval then c.pollInterval else delay
  }

  /** The loop neither spins nor oversleeps: at one clock reading, "not due" comes with a positive wait of
      at most the poll interval, and with nothing pending the wait ends no later than the renewal time. */
  lemma NotDueWaits(c: Lifecycle, parse: Bytes -> Option<Cert>, node: Node, now: int)
    requires c.pollInterval > 0 && NextDueUpdate(c, parse, node, now).NotDue?
    ensures 0 < DelayUntilDue(c, parse, node, now) <= c.pollInterval
    ensures !HasActivePending(node, now) ==>
              now + DelayUntilDue(c, parse, node, now) <= parse(node.cert).value.notAfter - c.renewBefore
  {}

  /** The wait is exact: the poll interval while a replacement is pending, and otherwise the shorter of the poll
      interval and the time to renewal. */
  lemma WaitIsExact(c: Lifecycle, parse: Bytes -> Option<Cert>, node: Node, now: int)
    requires c.pollInterval > 0 && NextDueUpdate(c, parse, node, now).NotDue?
    ensures var wait := DelayUntilDue(c, parse, node, now);
            var pending := node.pending != "" && node.overlapUntil != 0 && now < node.overlapUntil;
            && (pending ==> wait == c.pollInterval)
            && (!pending ==>
                  var renewal := parse(node.cert).value.notAfter - c.renewBefore;
                  && (renewal - now <= c.pollInterval ==> now + wait == renewal)
                  && (renewal - now > c.pollInterval ==> wait == c.pollInterval))
  {}

  /** A replacement is due exactly for a certificate that parses and names the node, with no window open, once the
      renewal lead reaches its end; its deadline is the old expiry or one hour from now, whichever is later. */
  lemma DueExactlyWhen(c: Lifecycle, parse: Bytes -> Option<Cert>, node: Node, now: int)
    ensures var d := NextDueUpdate(c, parse, node, now);
            var pending := node.pending != "" && node.overlapUntil != 0 && now < node.overlapUntil;
            && (d.Unusable? <==> parse(node.cert).None? || parse(node.cert).value.commonName != node.name)
            && (!d.Unusable? ==> (d.Due? <==> !pending && now + c.renewBefore >= parse(node.cert).value.notAfter))
            && (d.Due? ==>
                  var expiry := parse(node.cert).value.notAfter;
                  && (expiry >= now + 3_600_000_000_000 ==> d.deadline == expiry)
                  && (expiry < now + 3_600_000_000_000 ==> d.deadline == now + 3_600_000_000_000))
  {}

  /** Settings that are left out: ninety days, seven days and one hour. */
  lemma Defaults(rotationDays: int, renewBefore: int, pollInterval: int)
    ensures var c := NewLifecycle(rotationDays, renewBefore, pollInterval);
            && (rotationDays > 0 ==> c.validFor == rotationDays * 86_400_000_000_000)
            && (rotationDays <= 0 ==> c.validFor == 90 * 86_400_000_000_000)
            && c.renewBefore == (if renewBefore > 0 then renewBefore else 7 * 86_400_000_000_000)
            && c.pollInterval == (if pollInterval > 0 then pollInterval else 3_600_000_000_000)
  {}

  /** The two questions agree: a usable certificate without pending replacement is due exactly when the
      wait is zero. */
  lemma DueExactlyWhenNoWait(c: Lifecycle, parse: Bytes -> Option<Cert>, node: Node, now: int)
    requires c.pollInterval > 0 && !NextDueUpdate(c, parse, node, now).Unusable?
    ensures NextDueUpdate(c, parse, node, now).Due? <==> DelayUntilDue(c, parse, node, now) == 0
  {}

  /** A due decision carries a window that outlives both the old certificate and the grace hour, and the
      registry accepts it at every clock reading inside the window. */
  lemma DueIsAccepted(c: Lifecycle, parse: Bytes -> Option<Cert>, r: Registry, name: string, cert: Bytes, now: int, later: int)
    requires Valid(r) && name in r.byName && cert != ""
    requires NextDueUpdate(c, parse, r.byName[name], now).Due?
    requires 0 <= now <= later < NextDueUpdate(c, parse, r.byName[name], now).deadline
    ensures var deadline := NextDueUpdate(c, parse, r.byName[name], now).deadline;
            && deadline >= now + PROMOTION_GRACE && deadline >= parse(r.byName[name].cert).value.notAfter
            && AllowError(r, name, cert, deadline, later).None?
            && HasActivePending(Allow(r, name, cert, deadline, later).byName[name], later)
  {}

  // ----- After an issue -----

  /** Events that do not end the node's rollover: no promotion, no clearing of the pending certificate, no removal
      and no further grant that is accepted. Refused registrations and grants count among them. */
  predicate LeavesRollover(r: Registry, e: Event, name: string)
    requires name in r.byName
  {
    match e
    case OnRegister(node, now) =>
      node.name == name ==> node.cert == r.byName[name].cert || RegisterError(r, node, now).Some?
    case OnAllow(n, cert, until, now) => n == name ==> AllowError(r, name, cert, until, now).Some?
    case OnClear(n, cert) => n == name ==> cert != "" && cert != r.byName[name].pending
    case OnHeartbeat(n, pubkey, endpointHost, protocol) => true
    case OnRemove(n) => n != name
  }

  /** Each event leaves the rollover alone in the registry that it meets. */
  predicate AllLeaveRollover(r: Registry, events: seq<Event>, name: string) {
    forall i :: 0 <= i < |events| ==>
      name in After(r, events[..i]).byName && LeavesRollover(After(r, events[..i]), events[i], name)
  }

  function After(r: Registry, events: seq<Event>): Registry {
    if events == [] then r else Apply(After(r, events[..|events| - 1]), events[|events| - 1])
  }

  ghost predicate SameRollover(a: Node, b: Node) {
    a.name == b.name && a.cert == b.cert && a.pending == b.pending && a.overlapUntil == b.overlapUntil
  }

  lemma ApplyLeavesRollover(r: Registry, e: Event, name: string)
    requires name in r.byName && r.byName[name].name == name && LeavesRollover(r, e, name)
    ensures name in Apply(r, e).byName && SameRollover(r.byName[name], Apply(r, e).byName[name])
  {}

  lemma {:induction false} AfterLeavesRollover(r: Registry, events: seq<Event>, name: string)
    requires name in r.byName && r.byName[name].name == name && AllLeaveRollover(r, events, name)
    ensures name in After(r, events).byName && SameRollover(r.byName[name], After(r, events).byName[name])
  {
    hide LeavesRollover, Apply;
    if events != [] {
      var front := events[..|events| - 1];
      forall i | 0 <= i < |front|
        ensures name in After(r, front[..i]).byName && LeavesRollover(After(r, front[..i]), front[i], name)
      {
        assert front[..i] == events[..i] && front[i] == events[i];
      }
      AfterLeavesRollover(r, front, name);
      assert events[..|events| - 1] == front && LeavesRollover(After(r, front), events[|events| - 1], name);
      ApplyLeavesRollover(After(r, front), events[|events| - 1], name);
    }
  }

  /** One issue per window: once a replacement is granted, whatever else happens in the registry, the loop
      finds nothing due before the window closes, so two issues are at least the grace hour apart. */
  lemma OneIssuePerWindow(c: Lifecycle, parse: Bytes -> Option<Cert>, r: Registry, name: string, cert: Bytes,
                          now: int, later: int, events: seq<Event>, t: int)
    requires Valid(r) && name in r.byName && cert != ""
    requires NextDueUpdate(c, parse, r.byName[name], now).Due?
    requires 0 <= now <= later < NextDueUpdate(c, parse, r.byName[name], now).deadline
    requires AllLeaveRollover(Allow(r, name, cert, NextDueUpdate(c, parse, r.byName[name], now).deadline, later), events, name)
    ensures var deadline := NextDueUpdate(c, parse, r.byName[name], now).deadline;
            var r' := After(Allow(r, name, cert, deadline, later), events);
            && name in r'.byName
            && (NextDueUpdate(c, parse, r'.byName[name], t).Due? ==> t >= deadline >= now + PROMOTION_GRACE)
  {
    var deadline := NextDueUpdate(c, parse, r.byName[name], now).deadline;
    DueIsAccepted(c, parse, r, name, cert, now, later);
    var granted := Allow(r, name, cert, deadline, later);
    AfterLeavesRollover(granted, events, name);
  }

  /** Renewal settles exactly when certificates live longer than the renewal lead: a certificate issued at
      `issued` and pinned with nothing pending is due at `now` if and only if the lead reaches its end. With a
      lead as long as the lifetime every promoted certificate is due at once. */
  lemma PromotedCertDueExactlyWhen(c: Lifecycle, parse: Bytes -> Option<Cert>, node: Node, issued: int, now: int)
    requires parse(node.cert) == Some(Cert(node.name, issued + c.validFor)) && node.pending == ""
    ensures NextDueUpdate(c, parse, node, now).Due? <==> now - issued >= c.validFor - c.renewBefore
  {}

  /** The settings that the constructor accepts allow that: with one day of validity and the default lead a promoted
      certificate is due at every reading of the clock since it was issued. */
  lemma ShortRotationIsAlwaysDue(parse: Bytes -> Option<Cert>, node: Node, issued: int, now: int)
    requires parse(node.cert) == Some(Cert(node.name, issued + NewLifecycle(1, 0, 0).validFor)) && node.pending == ""
    requires now >= issued
    ensures NextDueUpdate(NewLifecycle(1, 0, 0), parse, node, now).Due?
  {}
}
