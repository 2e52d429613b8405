/** The ownership ledger: which master owns each overlay /32, as a value. Every locked
    section of the control plane's ledger is one function here. */
module LedgerModel {
  import opened Text

  datatype Entry = Entry(
    overlayIP: string,
    owner: string,
    reassignedAt: int,
    previousOwner: string,
    reason: string,
    version: nat)

  datatype Error = OverlayInvalid | EmptyMaster | NotFound | OwnerChanged

  /** `version` counts the successful mutations. */
  datatype Ledger = Ledger(entries: map<string, Entry>, version: nat)

  const EMPTY := Ledger(map[], 0)

  predicate ValidEntry(key: string, e: Entry) {
    && e.overlayIP == key
    && ParseIPv4(key).Some?
    && e.owner != ""
    && e.version >= 1
  }

  ghost predicate Valid(l: Ledger) {
    forall k :: k in l.entries ==> ValidEntry(k, l.entries[k])
  }

  /** The entry a successful reassignment leaves at `ip`. */
  function Written(l: Ledger, ip: string, newOwner: string, reason: string, now: int): Entry {
    if ip in l.entries
    then l.entries[ip].(owner := newOwner, previousOwner := l.entries[ip].owner, reason := reason,
                        reassignedAt := now, version := l.entries[ip].version + 1)
    else Entry(ip, newOwner, now, "", reason, 1)
  }

  /** `expected` is the owner a compare-and-set caller demands; None writes unconditionally. */
  function ReassignError(l: Ledger, ip: string, expected: Option<string>, newOwner: string): Option<Error> {
    if newOwner == "" then Some(EmptyMaster)
    else if ParseIPv4(ip).None? then Some(OverlayInvalid)
    else if expected.None? then None
    else if ip !in l.entries then Some(NotFound)
    else if l.entries[ip].owner != expected.value then Some(OwnerChanged)
    else None
  }

  function Reassign(l: Ledger, ip: string, expected: Option<string>, newOwner: string, reason: string, now: int): Ledger {
    if ReassignError(l, ip, expected, newOwner).Some? then l
    else Ledger(l.entries[ip := Written(l, ip, newOwner, reason, now)], l.version + 1)
  }

  function Remove(l: Ledger, ip: string): Ledger {
    if ip in l.entries then Ledger(l.entries - {ip}, l.version + 1) else l
  }

  // ----- What a mutation does, entry by entry -----

  /** Only the entry at `ip` may differ. */
  ghost predicate OthersAlone(l: Ledger, l': Ledger, ip: string) {
    forall k :: k != ip ==> (k in l'.entries <==> k in l.entries) && (k in l.entries ==> l'.entries[k] == l.entries[k])
  }

  /** The ledger after a write: one version on, and the entry names its new and its previous owner. */
  ghost predicate WroteEntry(l: Ledger, l': Ledger, ip: string, newOwner: string, reason: string, now: int) {
    && l'.version == l.version + 1 && OthersAlone(l, l', ip) && ip in l'.entries
    && var e := l'.entries[ip];
    && e.owner == newOwner && e.reason == reason && e.reassignedAt == now
    && e.overlayIP == (if ip in l.entries then l.entries[ip].overlayIP else ip)
    && e.version == (if ip in l.entries then l.entries[ip].version + 1 else 1)
    && e.previousOwner == (if ip in l.entries then l.entries[ip].owner else "")
  }

  /** Without an expected owner a write always happens; with one it happens exactly when that owner holds the
      overlay. A bad address or an empty owner is refused, and a refusal changes nothing. */
  lemma ReassignWritesExactlyWhen(l: Ledger, ip: string, expected: Option<string>, newOwner: string, reason: string, now: int)
    ensures var l' := Reassign(l, ip, expected, newOwner, reason, now);
            var accepted := newOwner != "" && ParseIPv4(ip).Some?
                            && (expected.None? || (ip in l.entries && l.entries[ip].owner == expected.value));
            && (accepted ==> WroteEntry(l, l', ip, newOwner, reason, now))
            && (!accepted ==> l' == l)
            && (ReassignError(l, ip, expected, newOwner).None? <==> accepted)
  {
    hide ParseIPv4;
  }

  /** Which refusal is reported, in the order in which the reasons are looked at. */
  lemma ReassignRefusals(l: Ledger, ip: string, expected: Option<string>, newOwner: string)
    ensures var e := ReassignError(l, ip, expected, newOwner);
            && (e == Some(EmptyMaster) <==> newOwner == "")
            && (e == Some(OverlayInvalid) <==> newOwner != "" && ParseIPv4(ip).None?)
            && (newOwner != "" && ParseIPv4(ip).Some? && expected.Some? ==>
                  && (e == Some(NotFound) <==> ip !in l.entries)
                  && (e == Some(OwnerChanged) <==> ip in l.entries && l.entries[ip].owner != expected.value))
  {
    hide ParseIPv4;
  }

  /** A removal takes exactly its own entry, and is a mutation only when there was one. */
  lemma RemoveTakesOne(l: Ledger, ip: string)
    ensures var l' := Remove(l, ip);
            && ip !in l'.entries && OthersAlone(l, l', ip)
            && l'.version == l.version + if ip in l.entries then 1 else 0
  {
  }

  // ----- Snapshots -----

  ghost predicate StrictlyAscending(s: seq<Entry>) {
    forall i, j :: 0 <= i < j < |s| ==> Less(s[i].overlayIP, s[j].overlayIP)
  }

  /** `s` lists exactly the entries of `m`, in key order. */
  ghost predicate IsSnapshot(s: seq<Entry>, m: map<string, Entry>) {
    && StrictlyAscending(s)
    && (forall i :: 0 <= i < |s| ==> s[i].overlayIP in m && m[s[i].overlayIP] == s[i])
    && (forall k :: k in m ==> m[k] in s)
  }

  ghost predicate Keyed(m: map<string, Entry>) {
    forall k :: k in m ==> m[k].overlayIP == k
  }

  lemma {:induction false} GreatestKey(m: map<string, Entry>) returns (k: string)
    requires m != map[]
    ensures HasGreatest(m, k)
    decreases |m|
  {
    k :| k in m;
    var rest := m - {k};
    if rest != map[] {
      var top := GreatestKey(rest);
      LessTotal(k, top);
      forall j | j in m && j != k && Less(top, k) ensures Less(j, k) {
        if j != top { LessTransitive(j, top, k); }
      }
      if Less(k, top) {
        forall j | j in m ensures j == top || Less(j, top) {}
        k := top;
      }
    } else {
      assert forall j :: j in m && j != k ==> j in rest;
    }
  }

  ghost predicate HasGreatest(m: map<string, Entry>, k: string) {
    k in m && forall j :: j in m ==> j == k || Less(j, k)
  }

  lemma GreatestExists(m: map<string, Entry>)
    requires m != map[]
    ensures exists k :: HasGreatest(m, k)
  {
    var k := GreatestKey(m);
  }

  ghost function SnapshotOf(m: map<string, Entry>): seq<Entry>
    decreases |m|
  {
    if m == map[] then []
    else
      GreatestExists(m);
      var k :| HasGreatest(m, k);
      SnapshotOf(m - {k}) + [m[k]]
  }

  lemma SnapshotOfStep(m: map<string, Entry>, k: string)
    requires HasGreatest(m, k)
    ensures SnapshotOf(m) == SnapshotOf(m - {k}) + [m[k]]
  {
    GreatestExists(m);
    var g :| HasGreatest(m, g) && SnapshotOf(m) == SnapshotOf(m - {g}) + [m[g]];
    if g != k {
      LessTransitive(g, k, g);
      LessIrreflexive(g);
    }
  }

  lemma {:induction false} SnapshotOfIsSnapshot(m: map<string, Entry>)
    requires Keyed(m)
    ensures IsSnapshot(SnapshotOf(m), m)
    decreases |m|
  {
    if m != map[] {
      var k := GreatestKey(m);
      SnapshotOfStep(m, k);
      var rest := SnapshotOf(m - {k});
      SnapshotOfIsSnapshot(m - {k});
      var s := SnapshotOf(m);
      forall j | j in m ensures m[j] in s {
        if j == k { assert s[|rest|] == m[k]; } else { assert (m - {k})[j] in rest; }
      }
    }
  }

  lemma SnapshotEndsWithGreatest(s: seq<Entry>, m: map<string, Entry>, k: string)
    requires Keyed(m) && IsSnapshot(s, m) && HasGreatest(m, k)
    ensures s != [] && s[|s| - 1] == m[k]
    ensures IsSnapshot(s[..|s| - 1], m - {k})
  {
    var i :| 0 <= i < |s| && s[i] == m[k];
    var last := s[|s| - 1].overlayIP;
    if i < |s| - 1 {
      LessTransitive(k, last, k);
      LessIrreflexive(k);
    }
    var init := s[..|s| - 1];
    forall j | 0 <= j < |init| ensures init[j].overlayIP != k {
      LessIrreflexive(k);
    }
    forall j | j in m - {k} ensures (m - {k})[j] in init {
      var x :| 0 <= x < |s| && s[x] == m[j];
      assert s[x].overlayIP == j != k;
      assert init[x] == m[j];
    }
  }

  lemma SnapshotMember(s: seq<Entry>, m: map<string, Entry>, e: Entry)
    requires IsSnapshot(s, m) && e in s
    ensures e.overlayIP in m
  {}

  /** The sorted listing of a map is unique, so any code that lists and sorts returns it. */
  lemma {:induction false} SnapshotUnique(s: seq<Entry>, m: map<string, Entry>)
    requires Keyed(m) && IsSnapshot(s, m)
    ensures s == SnapshotOf(m)
    decreases |m|
  {
    if m != map[] {
      var k := GreatestKey(m);
      SnapshotEndsWithGreatest(s, m, k);
      var init, rest := s[..|s| - 1], m - {k};
      assert s == init + [m[k]];
      assert init == SnapshotOf(rest) by { SnapshotUnique(init, rest); }
      SnapshotOfStep(m, k);
    } else if s != [] {
      SnapshotMember(s, m, s[0]);
    }
  }

  // ----- What every run keeps -----

  datatype Op =
    | DoReassign(ip: string, expected: Option<string>, newOwner: string, reason: string, now: int)
    | DoRemove(ip: string)

  function Apply(l: Ledger, op: Op): Ledger {
    match op
    case DoReassign(ip, expected, newOwner, reason, now) => Reassign(l, ip, expected, newOwner, reason, now)
    case DoRemove(ip) => Remove(l, ip)
  }

  function Run(l: Ledger, ops: seq<Op>): Ledger {
    if ops == [] then l else Apply(Run(l, ops[..|ops| - 1]), ops[|ops| - 1])
  }

  lemma ApplyKeepsValid(l: Ledger, op: Op)
    requires Valid(l)
    ensures Valid(Apply(l, op))
  {}

  lemma {:induction false} RunKeepsValid(l: Ledger, ops: seq<Op>)
    requires Valid(l)
    ensures Valid(Run(l, ops))
  {
    if ops != [] {
      RunKeepsValid(l, ops[..|ops| - 1]);
      ApplyKeepsValid(Run(l, ops[..|ops| - 1]), ops[|ops| - 1]);
    }
  }

  ghost function VersionSum(m: map<string, Entry>): nat
    decreases |m|
  {
    if m == map[] then 0
    else
      var k :| k in m;
      VersionSum(m - {k}) + m[k].version
  }

  lemma {:induction false} VersionSumWithout(m: map<string, Entry>, k: string)
    requires k in m
    ensures VersionSum(m) == VersionSum(m - {k}) + m[k].version
    decreases |m|
  {
    var p :| p in m && VersionSum(m) == VersionSum(m - {p}) + m[p].version;
    if p != k {
      VersionSumWithout(m - {p}, k);
      VersionSumWithout(m - {k}, p);
      assert m - {p} - {k} == m - {k} - {p};
    }
  }

  /** A removed entry takes its own version with it, and the removal is one more mutation. */
  function StepCredit(l: Ledger, op: Op): nat {
    if op.DoRemove? && op.ip in l.entries then l.entries[op.ip].version + 1 else 0
  }

  function RemovedCredit(l: Ledger, ops: seq<Op>): nat {
    if ops == [] then 0
    else RemovedCredit(l, ops[..|ops| - 1]) + StepCredit(Run(l, ops[..|ops| - 1]), ops[|ops| - 1])
  }

  lemma ApplyAccounting(l: Ledger, op: Op)
    ensures var l' := Apply(l, op);
            l'.version - VersionSum(l'.entries) == l.version - VersionSum(l.entries) + StepCredit(l, op)
  {
    if op.DoReassign? && ReassignError(l, op.ip, op.expected, op.newOwner).None? {
      var l' := Apply(l, op);
      VersionSumWithout(l'.entries, op.ip);
      assert l'.entries - {op.ip} == l.entries - {op.ip};
      if op.ip in l.entries {
        VersionSumWithout(l.entries, op.ip);
      } else {
        assert l.entries - {op.ip} == l.entries;
      }
    } else if op.DoRemove? && op.ip in l.entries {
      VersionSumWithout(l.entries, op.ip);
    }
  }

  /** Conservation: after every run the ledger version is the sum of the live entry
      versions plus, for each removal, the removed entry's version plus one. */
  lemma {:induction false} VersionConservation(ops: seq<Op>)
    ensures Run(EMPTY, ops).version == VersionSum(Run(EMPTY, ops).entries) + RemovedCredit(EMPTY, ops)
  {
    if ops != [] {
      VersionConservation(ops[..|ops| - 1]);
      ApplyAccounting(Run(EMPTY, ops[..|ops| - 1]), ops[|ops| - 1]);
    }
  }
}

/** The mutable ledger object. A successful mutation returns the notification that the
    source hands to its listener only after it has released the lock. */
module LedgerStore {
  import opened Text
  import opened LedgerModel
  import Sorting

  datatype Notification = Notification(snapshot: seq<Entry>, version: nat)

  predicate KeyAtMost(a: Entry, b: Entry) {
    AtMost(a.overlayIP, b.overlayIP)
  }

  lemma KeyAtMostIsTotalOrder()
    ensures Sorting.TotalOrder(KeyAtMost)
  {
    AtMostIsTotalOrder();
  }

  /** Any ordered arrangement of a keyed map's entries is its snapshot. */
  lemma OrderedListingIsSnapshot(s: seq<Entry>, m: map<string, Entry>)
    requires Keyed(m)
    requires multiset(s) == multiset(m.Values)
    requires Sorting.Ordered(s, KeyAtMost)
    ensures s == SnapshotOf(m)
  {
    forall i | 0 <= i < |s| ensures s[i].overlayIP in m && m[s[i].overlayIP] == s[i] {
      assert s[i] in multiset(s);
      assert s[i] in m.Values;
    }
    forall k | k in m ensures m[k] in s {
      assert m[k] in m.Values;
      assert m[k] in multiset(s);
    }
    forall i, j | 0 <= i < j < |s| ensures Less(s[i].overlayIP, s[j].overlayIP) {
      Sorting.NoRepeats(s, m.Values, i, j);
      assert KeyAtMost(s[i], s[j]);
      LessTotal(s[i].overlayIP, s[j].overlayIP);
    }
    SnapshotUnique(s, m);
  }

  function Owned(l: Ledger, master: string): map<string, Entry> {
    map k | k in l.entries && l.entries[k].owner == master :: l.entries[k]
  }

  method SortedEntries(m: map<string, Entry>) returns (out: seq<Entry>)
    requires Keyed(m)
    ensures out == SnapshotOf(m)
  {
    out := [];
    var todo := m.Keys;
    ghost var done: set<Entry> := {};
    while todo != {}
      invariant todo <= m.Keys
      invariant done == set k | k in m && k !in todo :: m[k]
      invariant multiset(out) == multiset(done)
    {
      var k :| k in todo;
      out := out + [m[k]];
      assert m[k] !in done;
      todo, done := todo - {k}, done + {m[k]};
    }
    assert done == m.Values;
    KeyAtMostIsTotalOrder();
    out := Sorting.Sort(out, KeyAtMost);
    OrderedListingIsSnapshot(out, m);
  }

  class LedgerObject {
    var entries: map<string, Entry>
    var version: nat

    function State(): Ledger
      reads this
    {
      Ledger(entries, version)
    }

    constructor ()
      ensures State() == EMPTY
    {
      entries, version := map[], 0;
    }

    method ReassignLocked(overlayIP: string, expectedOwner: Option<string>, newOwner: string, reason: string, now: int)
      returns (r: Result<nat, Error>, call: Option<Notification>)
      requires Valid(State())
      modifies this
      ensures Valid(State())
      ensures State() == Reassign(old(State()), overlayIP, expectedOwner, newOwner, reason, now)
      ensures r.Ok? <==> ReassignError(old(State()), overlayIP, expectedOwner, newOwner).None?
      ensures r.Ok? ==> r.value == entries[overlayIP].version
                        && call == Some(Notification(SnapshotOf(entries), version))
      ensures r.Err? ==> Some(r.error) == ReassignError(old(State()), overlayIP, expectedOwner, newOwner) && call.None?
    {
      hide ParseIPv4, SnapshotOf;
      if newOwner == "" {
        return Err(EmptyMaster), None;
      }
      if ParseIPv4(overlayIP).None? {
        return Err(OverlayInvalid), None;
      }
      var entry := Entry(overlayIP, "", 0, "", "", 0);
      if overlayIP in entries {
        entry := entries[overlayIP];
        if expectedOwner.Some? && entry.owner != expectedOwner.value {
          return Err(OwnerChanged), None;
        }
        entry := entry.(previousOwner := entry.owner);
      } else if expectedOwner.Some? {
        return Err(NotFound), None;
      }
      entry := entry.(owner := newOwner, reason := reason, reassignedAt := now, version := entry.version + 1);
      assert entry == Written(State(), overlayIP, newOwner, reason, now);
      entries := entries[overlayIP := entry];
      version := version + 1;
      var snapshot := SortedEntries(entries);
      r, call := Ok(entry.version), Some(Notification(snapshot, version));
    }

    method RemoveLocked(overlayIP: string) returns (ok: bool, call: Option<Notification>)
      requires Valid(State())
      modifies this
      ensures Valid(State())
      ensures State() == Remove(old(State()), overlayIP)
      ensures ok <==> overlayIP in old(entries)
      ensures call == if ok then Some(Notification(SnapshotOf(entries), version)) else None
    {
      if overlayIP !in entries {
        return false, None;
      }
      entries := entries - {overlayIP};
      version := version + 1;
      var snapshot := SortedEntries(entries);
      ok, call := true, Some(Notification(snapshot, version));
    }

    method OwnedBy(master: string) returns (out: seq<Entry>)
      requires Valid(State())
      ensures out == SnapshotOf(Owned(State(), master))
    {
      out := SortedEntries(Owned(State(), master));
    }

    method Snapshot() returns (out: seq<Entry>, v: nat)
      requires Valid(State())
      ensures out == SnapshotOf(entries) && v == version
    {
      out := SortedEntries(entries);
      v := version;
    }
  }
}
