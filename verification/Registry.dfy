/** The identity registry as a value: one pinned certificate per node, and at most one
    pending replacement with the time until which it may be promoted. Times are
    nanoseconds, 0 standing for the unset time. */
module RegistryModel {
  import opened Text

  type Bytes = string

  datatype Role = Client | Master | Egress | Ingress | Balancer | Unknown(name: string)

  datatype Node = Node(
    name: string,
    roles: seq<Role>,
    overlayIP: string,
    region: string,
    cert: Bytes,
    pending: Bytes,
    overlapUntil: int,
    registeredAt: int,
    pubkey: Bytes,
    endpointHost: string,
    protocol: string)

  datatype Error =
    | EmptyName | EmptyRoles | BadRoles | NoCert | NoOverlay | NotFound
    | OverlayDup | NameDup | OverlayMove | PendingCert | Overlap

  datatype Registry = Registry(byName: map<string, Node>, byOverlay: map<string, string>)

  const EMPTY := Registry(map[], map[])

  /** Known roles only, and a client is nothing but a client. */
  predicate Composable(roles: seq<Role>) {
    && roles != []
    && (forall r :: r in roles ==> !r.Unknown?)
    && (Client in roles ==> forall r :: r in roles ==> r == Client)
  }

  predicate IsMaster(n: Node) {
    Master in n.roles
  }

  /** `byName` and `byOverlay` are inverse to each other. */
  ghost predicate Valid(r: Registry) {
    && (forall n :: n in r.byName ==>
          var node := r.byName[n];
          && node.name == n && n != "" && node.cert != "" && node.overlayIP != "" && Composable(node.roles)
          && node.overlayIP in r.byOverlay && r.byOverlay[node.overlayIP] == n)
    && (forall o :: o in r.byOverlay ==> r.byOverlay[o] in r.byName && r.byName[r.byOverlay[o]].overlayIP == o)
  }

  predicate HasActivePending(n: Node, now: int) {
    n.pending != "" && n.overlapUntil != 0 && n.overlapUntil > now
  }

  predicate CanPromote(prev: Node, cert: Bytes, now: int) {
    && prev.pending != "" && prev.pending == cert
    && prev.overlapUntil != 0 && prev.overlapUntil > now
  }

  function RegisterError(r: Registry, node: Node, now: int): Option<Error> {
    if node.name == "" then Some(EmptyName)
    else if node.roles == [] then Some(EmptyRoles)
    else if !Composable(node.roles) then Some(BadRoles)
    else if node.cert == "" then Some(NoCert)
    else if node.overlayIP == "" then Some(NoOverlay)
    else if node.overlayIP in r.byOverlay && r.byOverlay[node.overlayIP] != node.name then Some(OverlayDup)
    else if node.name !in r.byName then None
    else
      var prev := r.byName[node.name];
      if prev.cert != node.cert && !CanPromote(prev, node.cert, now) then Some(NameDup)
      else if prev.overlayIP != node.overlayIP then Some(OverlayMove)
      else None
  }

  /** The record a successful registration stores. */
  function Stored(r: Registry, node: Node, now: int): Node {
    if node.name !in r.byName then node.(pending := "", overlapUntil := 0, registeredAt := now)
    else
      var prev := r.byName[node.name];
      var keeps := prev.cert == node.cert;
      node.(
        pending := if keeps then prev.pending else "",
        overlapUntil := if keeps then prev.overlapUntil else 0,
        pubkey := if node.pubkey == "" then prev.pubkey else node.pubkey,
        endpointHost := if node.endpointHost == "" then prev.endpointHost else node.endpointHost,
        protocol := if node.protocol == "" then prev.protocol else node.protocol,
        registeredAt := prev.registeredAt)
  }

  function Register(r: Registry, node: Node, now: int): Registry {
    if RegisterError(r, node, now).Some? then r
    else Registry(r.byName[node.name := Stored(r, node, now)], r.byOverlay[node.overlayIP := node.name])
  }

  /** `now` is read before the lock is taken. */
  function AllowError(r: Registry, name: string, cert: Bytes, until: int, now: int): Option<Error> {
    if name == "" then Some(EmptyName)
    else if cert == "" then Some(NoCert)
    else if until == 0 || until <= now then Some(Overlap)
    else if name !in r.byName then Some(NotFound)
    else if HasActivePending(r.byName[name], now) && r.byName[name].pending != cert then Some(PendingCert)
    else None
  }

  function Allow(r: Registry, name: string, cert: Bytes, until: int, now: int): Registry {
    if AllowError(r, name, cert, until, now).Some? then r
    else r.(byName := r.byName[name := r.byName[name].(pending := cert, overlapUntil := until)])
  }

  function Clear(r: Registry, name: string, cert: Bytes): Registry {
    if name !in r.byName || (cert != "" && r.byName[name].pending != cert) then r
    else r.(byName := r.byName[name := r.byName[name].(pending := "", overlapUntil := 0)])
  }

  function Heartbeat(r: Registry, name: string, pubkey: Bytes, endpointHost: string, protocol: string): Registry {
    if name !in r.byName then r
    else
      var n := r.byName[name];
      r.(byName := r.byName[name := n.(
        pubkey := if pubkey == "" then n.pubkey else pubkey,
        endpointHost := if endpointHost == "" then n.endpointHost else endpointHost,
        protocol := if protocol == "" then n.protocol else protocol)])
  }

  function Remove(r: Registry, name: string): Registry {
    if name !in r.byName then r
    else Registry(r.byName - {name}, r.byOverlay - {r.byName[name].overlayIP})
  }

  // ----- Runs -----

  datatype Event =
    | OnRegister(node: Node, now: int)
    | OnAllow(name: string, cert: Bytes, until: int, now: int)
    | OnClear(name: string, cert: Bytes)
    | OnHeartbeat(name: string, pubkey: Bytes, endpointHost: string, protocol: string)
    | OnRemove(name: string)

  function Apply(r: Registry, e: Event): Registry {
    match e
    case OnRegister(node, now) => Register(r, node, now)
    case OnAllow(name, cert, until, now) => Allow(r, name, cert, until, now)
    case OnClear(name, cert) => Clear(r, name, cert)
    case OnHeartbeat(name, pubkey, endpointHost, protocol) => Heartbeat(r, name, pubkey, endpointHost, protocol)
    case OnRemove(name) => Remove(r, name)
  }

  function Run(events: seq<Event>): Registry {
    if events == [] then EMPTY else Apply(Run(events[..|events| - 1]), events[|events| - 1])
  }

  lemma RegisterKeepsValid(r: Registry, node: Node, now: int)
    requires Valid(r)
    ensures Valid(Register(r, node, now))
  {
    if RegisterError(r, node, now).None? {
      var r' := Register(r, node, now);
      forall n | n in r'.byName && n != node.name ensures r'.byName[n].overlayIP != node.overlayIP {}
    }
  }

  lemma RemoveKeepsValid(r: Registry, name: string)
    requires Valid(r)
    ensures Valid(Remove(r, name))
  {
    if name in r.byName {
      var r' := Remove(r, name);
      forall n | n in r'.byName ensures r'.byName[n].overlayIP in r'.byOverlay {}
    }
  }

  lemma ApplyKeepsValid(r: Registry, e: Event)
    requires Valid(r)
    ensures Valid(Apply(r, e))
  {
    if e.OnRegister? {
      RegisterKeepsValid(r, e.node, e.now);
    } else if e.OnRemove? {
      RemoveKeepsValid(r, e.name);
    } else {
      hide Valid;
      SameIdentityKeepsValid(r, Apply(r, e));
    }
  }

  /** Names and overlays stay inverse to each other through every run. */
  lemma {:induction false} RunIsValid(events: seq<Event>)
    ensures Valid(Run(events))
  {
    hide Apply, Composable;
    if events != [] {
      RunIsValid(events[..|events| - 1]);
      ApplyKeepsValid(Run(events[..|events| - 1]), events[|events| - 1]);
    }
  }

  ghost predicate SameIdentity(r: Registry, r': Registry) {
    && r'.byOverlay == r.byOverlay && r'.byName.Keys == r.byName.Keys
    && forall n :: n in r.byName ==>
         var a, b := r.byName[n], r'.byName[n];
         a.name == b.name && a.cert == b.cert && a.overlayIP == b.overlayIP && a.roles == b.roles
  }

  lemma SameIdentityKeepsValid(r: Registry, r': Registry)
    requires Valid(r) && SameIdentity(r, r')
    ensures Valid(r')
  {}

  // ----- Certificate pinning -----

  /** Event j granted `cert` to `name` until `until`, and the node has not been removed since. */
  ghost predicate Granted(events: seq<Event>, j: nat, name: string, cert: Bytes, until: int) {
    && j < |events|
    && events[j].OnAllow? && events[j].name == name && events[j].cert == cert && events[j].until == until
    && AllowError(Run(events[..j]), name, cert, until, events[j].now).None?
    && forall k :: j < k < |events| ==> events[k] != OnRemove(name)
  }

  lemma GrantedLonger(events: seq<Event>, e: Event, j: nat, name: string, cert: Bytes, until: int)
    requires Granted(events, j, name, cert, until) && e != OnRemove(name)
    ensures Granted(events + [e], j, name, cert, until)
  {
    assert (events + [e])[..j] == events[..j];
    hide Run, AllowError;
  }

  /** A pending certificate always stems from a grant to that very node, with that very window. */
  lemma {:induction false} PendingWasGranted(events: seq<Event>, name: string) returns (j: nat)
    requires name in Run(events).byName && Run(events).byName[name].pending != ""
    ensures Granted(events, j, name, Run(events).byName[name].pending, Run(events).byName[name].overlapUntil)
  {
    var init, e := events[..|events| - 1], events[|events| - 1];
    assert events == init + [e];
    var r := Run(init);
    var n := Apply(r, e).byName[name];
    if e.OnAllow? && e.name == name && AllowError(r, name, e.cert, e.until, e.now).None? {
      j := |init|;
      assert events[..j] == init;
    } else {
      assert name in r.byName && r.byName[name].pending == n.pending && r.byName[name].overlapUntil == n.overlapUntil;
      j := PendingWasGranted(init, name);
      GrantedLonger(init, e, j, name, n.pending, n.overlapUntil);
    }
  }

  /** Pinning: as long as a node is not removed, its certificate changes only when the node
      registers with one that an earlier grant named for it, and only inside that grant's window. */
  lemma PinnedCertChangesOnlyByGrant(events: seq<Event>, e: Event, name: string) returns (j: nat)
    requires name in Run(events).byName && name in Run(events + [e]).byName
    requires Run(events).byName[name].cert != Run(events + [e]).byName[name].cert
    ensures e.OnRegister? && e.node.name == name && Run(events + [e]).byName[name].cert == e.node.cert
    ensures j < |events| && events[j].OnAllow?
    ensures Granted(events, j, name, e.node.cert, events[j].until) && e.now < events[j].until
    ensures Run(events + [e]).byName[name].pending == ""
  {
    assert (events + [e])[..|events|] == events;
    var r := Run(events);
    assert Run(events + [e]) == Apply(r, e);
    assert r.byName[name].pending == e.node.cert;
    j := PendingWasGranted(events, name);
  }

  /** At most one replacement is open: while one is, a grant of another fails and changes
      nothing; and a grant that succeeds over a different one finds its window closed. */
  lemma OneOpenReplacement(r: Registry, name: string, cert: Bytes, until: int, now: int)
    requires name in r.byName && r.byName[name].pending != "" && r.byName[name].pending != cert
    ensures HasActivePending(r.byName[name], now) ==> Allow(r, name, cert, until, now) == r
    ensures AllowError(r, name, cert, until, now).None? ==>
              r.byName[name].overlapUntil <= now || r.byName[name].overlapUntil == 0
  {}

  /** Registering again with the pinned certificate keeps the pending one; registering with the
      pending one inside its window pins it and leaves nothing pending. */
  lemma ReRegistration(r: Registry, node: Node, now: int)
    requires Valid(r) && node.name in r.byName && RegisterError(r, node, now).None?
    ensures var prev, cur := r.byName[node.name], Register(r, node, now).byName[node.name];
            && cur.registeredAt == prev.registeredAt && cur.overlayIP == prev.overlayIP
            && (node.cert == prev.cert ==> cur.pending == prev.pending && cur.overlapUntil == prev.overlapUntil)
            && (node.cert != prev.cert ==>
                  HasActivePending(prev, now) && node.cert == prev.pending && cur.cert == node.cert && !HasActivePending(cur, now))
            && Register(r, node, now).byOverlay == r.byOverlay
  {}
}

/** When each registry operation is accepted, and what it leaves, field by field. */
module RegistryLaws {
  import opened Text
  import opened RegistryModel

  /** A replacement is pending and its window is open. */
  predicate Open(n: Node, now: int) {
    n.pending != "" && n.overlapUntil != 0 && now < n.overlapUntil
  }

  predicate GoodRoles(roles: seq<Role>) {
    && |roles| > 0
    && (forall i :: 0 <= i < |roles| ==> !roles[i].Unknown?)
    && ((exists i :: 0 <= i < |roles| && roles[i] == Client) ==> forall i :: 0 <= i < |roles| ==> roles[i] == Client)
  }

  /** The registration is complete, its overlay is nobody else's, and a known node comes back with its overlay and
      either its pinned certificate or the pending one while the window is open. */
  ghost predicate Acceptable(r: Registry, node: Node, now: int) {
    && node.name != "" && node.cert != "" && node.overlayIP != "" && GoodRoles(node.roles)
    && (forall n <- r.byName :: r.byName[n].overlayIP == node.overlayIP ==> n == node.name)
    && (node.name in r.byName ==>
          var prev := r.byName[node.name];
          && prev.overlayIP == node.overlayIP
          && (prev.cert == node.cert || (Open(prev, now) && prev.pending == node.cert)))
  }

  ghost predicate OtherNodesAlone(r: Registry, r': Registry, name: string) {
    forall n :: n != name ==> (n in r'.byName <==> n in r.byName) && (n in r.byName ==> r'.byName[n] == r.byName[n])
  }

  /** The stored record: identity and roles as sent; key, endpoint and protocol as sent or, when left empty, as they
      were; registration time, and with the pinned certificate the pending one, as they were. */
  ghost predicate StoredFrom(cur: Node, node: Node, prev: Option<Node>, now: int) {
    && cur.name == node.name && cur.roles == node.roles && cur.overlayIP == node.overlayIP
    && cur.region == node.region && cur.cert == node.cert
    && (prev.None? ==>
          && cur.pubkey == node.pubkey && cur.endpointHost == node.endpointHost && cur.protocol == node.protocol
          && cur.registeredAt == now && cur.pending == "" && cur.overlapUntil == 0)
    && (prev.Some? ==>
          && (node.pubkey != "" ==> cur.pubkey == node.pubkey)
          && (node.pubkey == "" ==> cur.pubkey == prev.value.pubkey)
          && (node.endpointHost != "" ==> cur.endpointHost == node.endpointHost)
          && (node.endpointHost == "" ==> cur.endpointHost == prev.value.endpointHost)
          && (node.protocol != "" ==> cur.protocol == node.protocol)
          && (node.protocol == "" ==> cur.protocol == prev.value.protocol)
          && cur.registeredAt == prev.value.registeredAt
          && (prev.value.cert == node.cert ==> cur.pending == prev.value.pending && cur.overlapUntil == prev.value.overlapUntil)
          && (prev.value.cert != node.cert ==> cur.pending == "" && cur.overlapUntil == 0))
  }

  lemma RolesAgree(roles: seq<Role>)
    ensures Composable(roles) <==> GoodRoles(roles)
    ensures Composable(roles) ==> roles != []
  {
    if Composable(roles) {
      assert forall i :: 0 <= i < |roles| ==> roles[i] in roles;
    }
    if GoodRoles(roles) {
      forall x | x in roles ensures !x.Unknown? && (Client in roles ==> x == Client) {
        var i :| 0 <= i < |roles| && roles[i] == x;
        if Client in roles {
          var j :| 0 <= j < |roles| && roles[j] == Client;
        }
      }
    }
  }

  lemma RegisterAcceptsExactlyWhen(r: Registry, node: Node, now: int)
    requires Valid(r)
    ensures var r' := Register(r, node, now);
            && (RegisterError(r, node, now).None? <==> Acceptable(r, node, now))
            && (!Acceptable(r, node, now) ==> r' == r)
            && (Acceptable(r, node, now) ==>
                  && OtherNodesAlone(r, r', node.name) && node.name in r'.byName
                  && StoredFrom(r'.byName[node.name], node,
                                if node.name in r.byName then Some(r.byName[node.name]) else None, now))
  {
    RolesAgree(node.roles);
    hide GoodRoles, Composable;
    if node.overlayIP in r.byOverlay {
      var n := r.byOverlay[node.overlayIP];
      assert n in r.byName && r.byName[n].overlayIP == node.overlayIP;
    }
  }

  /** A grant is accepted for a known node and a future deadline, unless another certificate's window is open; it sets
      the pending certificate and its deadline and nothing else. */
  lemma AllowAcceptsExactlyWhen(r: Registry, name: string, cert: Bytes, until: int, now: int)
    ensures var r' := Allow(r, name, cert, until, now);
            var accepted := name != "" && cert != "" && until != 0 && now < until && name in r.byName
                            && (Open(r.byName[name], now) ==> r.byName[name].pending == cert);
            && (AllowError(r, name, cert, until, now).None? <==> accepted)
            && (!accepted ==> r' == r)
            && (accepted ==>
                  && OtherNodesAlone(r, r', name) && r'.byOverlay == r.byOverlay
                  && name in r'.byName && r'.byName[name] == r.byName[name].(pending := cert, overlapUntil := until))
  {
  }

  /** Clearing forgets the pending certificate, any one when none is named and only the named one otherwise. */
  lemma ClearForgetsPending(r: Registry, name: string, cert: Bytes)
    ensures var r' := Clear(r, name, cert);
            && OtherNodesAlone(r, r', name) && r'.byOverlay == r.byOverlay
            && (name in r'.byName <==> name in r.byName)
            && (name in r.byName ==>
                  r'.byName[name] == if cert == "" || cert == r.byName[name].pending
                                     then r.byName[name].(pending := "", overlapUntil := 0) else r.byName[name])
  {
  }

  /** A heartbeat replaces what it carries and keeps the rest. */
  lemma HeartbeatRefreshes(r: Registry, name: string, pubkey: Bytes, endpointHost: string, protocol: string)
    requires name in r.byName
    ensures var r' := Heartbeat(r, name, pubkey, endpointHost, protocol);
            && OtherNodesAlone(r, r', name) && r'.byOverlay == r.byOverlay && name in r'.byName
            && var prev, cur := r.byName[name], r'.byName[name];
            && cur == prev.(pubkey := cur.pubkey, endpointHost := cur.endpointHost, protocol := cur.protocol)
            && (pubkey != "" ==> cur.pubkey == pubkey) && (pubkey == "" ==> cur.pubkey == prev.pubkey)
            && (endpointHost != "" ==> cur.endpointHost == endpointHost)
            && (endpointHost == "" ==> cur.endpointHost == prev.endpointHost)
            && (protocol != "" ==> cur.protocol == protocol) && (protocol == "" ==> cur.protocol == prev.protocol)
  {
  }

  /** Removal forgets the node and frees its overlay, and nothing else. */
  lemma RemoveForgets(r: Registry, name: string)
    requires Valid(r)
    ensures var r' := Remove(r, name);
            && OtherNodesAlone(r, r', name) && name !in r'.byName
            && forall o :: o in r'.byOverlay <==> o in r.byOverlay && r.byOverlay[o] != name
  {
    hide Composable;
  }
}

/** The registry object. */
module RegistryStore {
  import opened Text
  import opened RegistryModel
  import Sorting

  ghost predicate InRegion(r: Registry, region: string, name: string) {
    name in r.byName && IsMaster(r.byName[name]) && (region == "" || r.byName[name].region == region)
  }

  class RegistryObject {
    var byName: map<string, Node>
    var byOverlay: map<string, string>

    function State(): Registry
      reads this
    {
      Registry(byName, byOverlay)
    }

    constructor ()
      ensures State() == RegistryModel.EMPTY
    {
      byName, byOverlay := map[], map[];
    }

    method Register(input: Node, now: int) returns (err: Option<Error>)
      requires Valid(State())
      modifies this
      ensures State() == RegistryModel.Register(old(State()), input, now) && Valid(State())
      ensures err == RegisterError(old(State()), input, now)
    {
      RegisterKeepsValid(State(), input, now);
      hide Valid;
      if input.name == "" { return Some(EmptyName); }
      if |input.roles| == 0 { return Some(EmptyRoles); }
      if !Composable(input.roles) { return Some(BadRoles); }
      if input.cert == "" { return Some(NoCert); }
      if input.overlayIP == "" { return Some(NoOverlay); }
      var node := input.(pending := "", overlapUntil := 0);
      if node.overlayIP in byOverlay && byOverlay[node.overlayIP] != node.name {
        return Some(OverlayDup);
      }
      if node.name in byName {
        var prev := byName[node.name];
        if prev.cert == node.cert {
          node := node.(pending := prev.pending, overlapUntil := prev.overlapUntil);
        } else if !CanPromote(prev, node.cert, now) {
          return Some(NameDup);
        }
        if prev.overlayIP != node.overlayIP {
          return Some(OverlayMove);
        }
        if node.pubkey == "" { node := node.(pubkey := prev.pubkey); }
        if node.endpointHost == "" { node := node.(endpointHost := prev.endpointHost); }
        if node.protocol == "" { node := node.(protocol := prev.protocol); }
        node := node.(registeredAt := prev.registeredAt);
      } else {
        node := node.(registeredAt := now);
      }
      assert node == Stored(State(), input, now);
      byName := byName[node.name := node];
      byOverlay := byOverlay[node.overlayIP := node.name];
      err := None;
    }

    method AllowCertRollover(name: string, cert: Bytes, until: int, now: int) returns (err: Option<Error>)
      requires Valid(State())
      modifies this`byName
      ensures State() == Allow(old(State()), name, cert, until, now) && Valid(State())
      ensures err == AllowError(old(State()), name, cert, until, now)
    {
      ApplyKeepsValid(State(), OnAllow(name, cert, until, now));
      hide Valid;
      if name == "" { return Some(EmptyName); }
      if cert == "" { return Some(NoCert); }
      if until == 0 || until <= now { return Some(Overlap); }
      if name !in byName { return Some(NotFound); }
      var node := byName[name];
      if HasActivePending(node, now) && node.pending != cert { return Some(PendingCert); }
      byName := byName[name := node.(pending := cert, overlapUntil := until)];
      err := None;
    }

    method Remove(name: string) returns (err: Option<Error>)
      requires Valid(State())
      modifies this
      ensures State() == RegistryModel.Remove(old(State()), name) && Valid(State())
      ensures err == if name in old(byName) then None else Some(NotFound)
    {
      RemoveKeepsValid(State(), name);
      hide Valid;
      if name !in byName { return Some(NotFound); }
      byOverlay := byOverlay - {byName[name].overlayIP};
      byName := byName - {name};
      err := None;
    }

    /** Every master of the region once, in name order; the empty region means all of them. */
    method MastersInRegion(region: string) returns (out: seq<string>)
      requires Valid(State())
      ensures forall n :: n in out <==> InRegion(State(), region, n)
      ensures forall i, j :: 0 <= i < j < |out| ==> out[i] != out[j]
      ensures Sorting.Ordered(out, AtMost)
    {
      hide Composable;
      var todo := byName.Keys;
      ghost var done: set<string> := {};
      out := [];
      while todo != {}
        invariant todo <= byName.Keys
        invariant forall n :: n in done <==> n in byName.Keys - todo && InRegion(State(), region, n)
        invariant multiset(out) == multiset(done)
      {
        var n :| n in todo;
        todo := todo - {n};
        var node := byName[n];
        if (region == "" || node.region == region) && Master in node.roles {
          out := out + [node.name];
          done := done + {n};
        }
      }
      AtMostIsTotalOrder();
      out := Sorting.Sort(out, AtMost);
      ListsEachOnce(out, done);
    }
  }

  lemma ListsEachOnce(s: seq<string>, elements: set<string>)
    requires multiset(s) == multiset(elements)
    ensures forall n :: n in s <==> n in elements
    ensures forall i, j :: 0 <= i < j < |s| ==> s[i] != s[j]
  {
    forall n ensures n in s <==> n in elements {
      assert n in s <==> n in multiset(s);
    }
    forall i, j | 0 <= i < j < |s| ensures s[i] != s[j] {
      Sorting.NoRepeats(s, elements, i, j);
    }
  }
}
