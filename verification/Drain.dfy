/** Draining a master. The drain lists the source's entries under the lock, then writes
    each one back in its own locked section; other ledger calls may run in between. */
module DrainModel {
  import opened Text
  import opened LedgerModel
  import opened LedgerStore

  datatype Drain = Drain(source: string, owned: seq<Entry>, next: nat, count: nat, aborted: bool)

  datatype State = State(ledger: Ledger, drain: Drain)

  /** `Env` is any other caller's ledger operation; `Move` is the drain's own next entry,
      for which the chooser answered `choice`. */
  datatype Step =
    | Env(op: Op)
    | Move(choice: string, reason: string, now: int)

  ghost function Start(l: Ledger, source: string): State {
    State(l, Drain(source, SnapshotOf(Owned(l, source)), 0, 0, false))
  }

  predicate Finished(d: Drain) {
    d.aborted || d.next >= |d.owned|
  }

  function Next(s: State, step: Step): State {
    var d := s.drain;
    match step
    case Env(op) => s.(ledger := Apply(s.ledger, op))
    case Move(choice, reason, now) =>
      if Finished(d) then s
      else if choice == "" then s.(drain := d.(aborted := true))
      else if choice == d.source then s.(drain := d.(next := d.next + 1))
      else
        var ip := d.owned[d.next].overlayIP;
        match ReassignError(s.ledger, ip, Some(d.source), choice)
        case None =>
          State(Reassign(s.ledger, ip, Some(d.source), choice, reason, now), d.(next := d.next + 1, count := d.count + 1))
        case Some(OwnerChanged) => s.(drain := d.(next := d.next + 1))
        case Some(NotFound) => s.(drain := d.(next := d.next + 1))
        case Some(_) => s.(drain := d.(aborted := true))
  }

  function Run(s: State, steps: seq<Step>): State {
    if steps == [] then s else Next(Run(s, steps[..|steps| - 1]), steps[|steps| - 1])
  }

  /** The drain's step wrote the ledger. */
  predicate Writes(s: State, step: Step) {
    step.Move? && Next(s, step).ledger != s.ledger
  }

  function WriteCount(s: State, steps: seq<Step>): nat {
    if steps == [] then 0
    else
      var init := steps[..|steps| - 1];
      WriteCount(s, init) + if Writes(Run(s, init), steps[|steps| - 1]) then 1 else 0
  }

  // ----- What one entry of the loop does -----

  /** Every overlay to be drained is an IPv4 address, so a write is never refused for its address. */
  ghost predicate GoodList(d: Drain) {
    forall i :: 0 <= i < |d.owned| ==> ParseIPv4(d.owned[i].overlayIP).Some?
  }

  /**
   * One entry of an unfinished drain. An empty choice aborts it. Choosing the source, or an overlay that meanwhile
   * has another owner or is gone, passes to the next entry without a write. Otherwise the overlay is written.
   */
  lemma MoveFate(s: State, choice: string, reason: string, now: int)
    requires !Finished(s.drain) && GoodList(s.drain)
    ensures var d, s' := s.drain, Next(s, Move(choice, reason, now));
            var ip := d.owned[d.next].overlayIP;
            var held := ip in s.ledger.entries && s.ledger.entries[ip].owner == d.source;
            && (choice == "" ==> s' == State(s.ledger, d.(aborted := true)))
            && (choice != "" && (choice == d.source || !held) ==> s' == State(s.ledger, d.(next := d.next + 1)))
            && (choice != "" && choice != d.source && held ==>
                  && s'.drain == d.(next := d.next + 1, count := d.count + 1)
                  && WroteEntry(s.ledger, s'.ledger, ip, choice, reason, now))
  {
    hide ParseIPv4;
    var ip := s.drain.owned[s.drain.next].overlayIP;
    ReassignWritesExactlyWhen(s.ledger, ip, Some(s.drain.source), choice, reason, now);
    ReassignRefusals(s.ledger, ip, Some(s.drain.source), choice);
  }

  lemma StartListIsGood(l: Ledger, source: string)
    requires Valid(l)
    ensures GoodList(Start(l, source).drain)
  {
    SnapshotOfIsSnapshot(Owned(l, source));
    hide SnapshotOf, ParseIPv4;
  }

  lemma {:induction false} RunKeepsList(s: State, steps: seq<Step>)
    ensures Run(s, steps).drain.owned == s.drain.owned && Run(s, steps).drain.source == s.drain.source
  {
    hide ParseIPv4, ReassignError;
    if steps != [] {
      RunKeepsList(s, steps[..|steps| - 1]);
    }
  }

  /** Over every interleaving: a drain is aborted exactly by an empty choice for an entry that it still had to move. */
  lemma AbortsExactlyWhen(l: Ledger, source: string, steps: seq<Step>, step: Step)
    requires Valid(l)
    ensures var before, after := Run(Start(l, source), steps).drain, Run(Start(l, source), steps + [step]).drain;
            after.aborted <==> before.aborted || (step.Move? && step.choice == "" && before.next < |before.owned|)
  {
    hide SnapshotOf, ParseIPv4, ReassignError;
    var s := Run(Start(l, source), steps);
    assert (steps + [step])[..|steps|] == steps;
    StartListIsGood(l, source);
    RunKeepsList(Start(l, source), steps);
    if step.Move? && !Finished(s.drain) {
      MoveFate(s, step.choice, step.reason, step.now);
    }
  }

  // ----- The race is a run of ledger operations -----

  /** The ledger operation of a step, if it makes one. */
  function OpsOf(s: State, step: Step): seq<Op> {
    match step
    case Env(op) => [op]
    case Move(choice, reason, now) =>
      if Writes(s, step) && s.drain.next < |s.drain.owned|
      then [DoReassign(s.drain.owned[s.drain.next].overlayIP, Some(s.drain.source), choice, reason, now)]
      else []
  }

  function LedgerOps(s: State, steps: seq<Step>): seq<Op> {
    if steps == [] then []
    else
      var front := steps[..|steps| - 1];
      LedgerOps(s, front) + OpsOf(Run(s, front), steps[|steps| - 1])
  }

  lemma NextIsOps(s: State, step: Step)
    ensures Next(s, step).ledger == LedgerModel.Run(s.ledger, OpsOf(s, step))
  {
    hide ParseIPv4;
    var ops := OpsOf(s, step);
    if ops != [] {
      assert ops[..0] == [] && LedgerModel.Run(s.ledger, []) == s.ledger;
    }
  }

  lemma {:induction false} RunConcat(l: Ledger, a: seq<Op>, b: seq<Op>)
    ensures LedgerModel.Run(l, a + b) == LedgerModel.Run(LedgerModel.Run(l, a), b)
    decreases |b|
  {
    hide Apply;
    if b == [] {
      assert a + b == a;
    } else {
      RunConcat(l, a, b[..|b| - 1]);
      assert (a + b)[..|a + b| - 1] == a + b[..|b| - 1];
    }
  }

  /** Every interleaving of a drain with other writers leaves the ledger that a plain run of operations leaves. */
  lemma {:induction false} RaceIsLedgerRun(s: State, steps: seq<Step>)
    ensures Run(s, steps).ledger == LedgerModel.Run(s.ledger, LedgerOps(s, steps))
  {
    hide Next, Apply, OpsOf;
    if steps != [] {
      var front, step := steps[..|steps| - 1], steps[|steps| - 1];
      RaceIsLedgerRun(s, front);
      NextIsOps(Run(s, front), step);
      RunConcat(s.ledger, LedgerOps(s, front), OpsOf(Run(s, front), step));
    }
  }

  /** So the version balance holds through the race, from any ledger that operations before it left. */
  lemma RaceConservesVersions(before: seq<Op>, source: string, steps: seq<Step>)
    ensures var start := Start(LedgerModel.Run(EMPTY, before), source);
            var l := Run(start, steps).ledger;
            l.version == VersionSum(l.entries) + RemovedCredit(EMPTY, before + LedgerOps(start, steps))
  {
    hide LedgerModel.Run, Run, LedgerOps, SnapshotOf;
    var start := Start(LedgerModel.Run(EMPTY, before), source);
    RaceIsLedgerRun(start, steps);
    RunConcat(EMPTY, before, LedgerOps(start, steps));
    VersionConservation(before + LedgerOps(start, steps));
  }

  /** Whatever ran in between, a drain write takes one overlay, from the source, at that
      moment, and leaves every other entry alone. */
  lemma DrainTakesOnlyFromSource(s: State, step: Step)
    requires Writes(s, step)
    ensures var d, l, l' := s.drain, s.ledger, Next(s, step).ledger;
            && d.next < |d.owned|
            && var ip := d.owned[d.next].overlayIP;
            && ip in l.entries && l.entries[ip].owner == d.source != step.choice
            && l'.entries.Keys == l.entries.Keys
            && (forall k :: k in l.entries && k != ip ==> l'.entries[k] == l.entries[k])
            && l'.entries[ip].owner == step.choice
            && l'.entries[ip].previousOwner == d.source
            && l'.entries[ip].version == l.entries[ip].version + 1
            && l'.version == l.version + 1
  {}

  /** The count the drain returns is the number of writes it made. */
  lemma {:induction false} DrainCountsItsWrites(s: State, steps: seq<Step>)
    ensures Run(s, steps).drain.count == s.drain.count + WriteCount(s, steps)
  {
    if steps != [] {
      DrainCountsItsWrites(s, steps[..|steps| - 1]);
    }
  }

  /** Overlays that another caller handed to the source during the run. */
  function GivenTo(source: string, steps: seq<Step>): set<string> {
    set step | step in steps && step.Env? && step.op.DoReassign? && step.op.newOwner == source :: step.op.ip
  }

  ghost predicate NeverChoosesSource(source: string, steps: seq<Step>) {
    forall step :: step in steps && step.Move? ==> step.choice != source
  }

  ghost predicate AwaitsDrain(d: Drain, k: string) {
    exists j :: d.next <= j < |d.owned| && d.owned[j].overlayIP == k
  }

  ghost predicate Covered(s: State, given: set<string>) {
    && (forall j :: 0 <= j < |s.drain.owned| ==> ParseIPv4(s.drain.owned[j].overlayIP).Some?)
    && (!s.drain.aborted ==>
          forall k :: k in s.ledger.entries && s.ledger.entries[k].owner == s.drain.source && k !in given
            ==> AwaitsDrain(s.drain, k))
  }

  lemma StartCovered(l: Ledger, source: string)
    requires Valid(l)
    ensures Covered(Start(l, source), {})
  {
    hide ParseIPv4, SnapshotOf;
    var m := Owned(l, source);
    SnapshotOfIsSnapshot(m);
    var d := Start(l, source).drain;
    forall k | k in l.entries && l.entries[k].owner == source ensures AwaitsDrain(d, k) {
      assert m[k] in d.owned;
      var j :| 0 <= j < |d.owned| && d.owned[j] == m[k];
      assert d.owned[j].overlayIP == k;
    }
  }

  lemma NextCovered(s: State, step: Step, given: set<string>)
    requires Covered(s, given)
    requires step.Move? ==> step.choice != s.drain.source
    ensures Covered(Next(s, step), given + GivenTo(s.drain.source, [step]))
  {
    hide ParseIPv4;
    var s', given' := Next(s, step), given + GivenTo(s.drain.source, [step]);
    assert step in [step];
    forall k | !s'.drain.aborted && k in s'.ledger.entries && s'.ledger.entries[k].owner == s.drain.source && k !in given'
      ensures AwaitsDrain(s'.drain, k)
    {
      if step.Env? && step.op.DoReassign? && step.op.newOwner == s.drain.source {
        assert step.op.ip in GivenTo(s.drain.source, [step]);
      }
      assert AwaitsDrain(s.drain, k);
      var j :| s.drain.next <= j < |s.drain.owned| && s.drain.owned[j].overlayIP == k;
      assert s'.drain.next <= j;
    }
  }

  lemma {:induction false} RunCovered(l: Ledger, source: string, steps: seq<Step>)
    requires Valid(l) && NeverChoosesSource(source, steps)
    ensures Run(Start(l, source), steps).drain.source == source
    ensures Covered(Run(Start(l, source), steps), GivenTo(source, steps))
  {
    if steps == [] {
      StartCovered(l, source);
      assert GivenTo(source, []) == {};
    } else {
      var init, last := steps[..|steps| - 1], steps[|steps| - 1];
      assert steps == init + [last];
      RunCovered(l, source, init);
      NextCovered(Run(Start(l, source), init), last, GivenTo(source, init));
      assert GivenTo(source, steps) == GivenTo(source, init) + GivenTo(source, [last]);
    }
  }

  /** Under any interference, when a drain completes the source owns nothing except what
      another caller handed to it while the drain was running. */
  lemma DrainLeavesOnlyWhatWasGiven(l: Ledger, source: string, steps: seq<Step>, k: string)
    requires Valid(l) && NeverChoosesSource(source, steps)
    requires var s := Run(Start(l, source), steps); Finished(s.drain) && !s.drain.aborted
    requires var m := Run(Start(l, source), steps).ledger.entries; k in m && m[k].owner == source
    ensures k in GivenTo(source, steps)
  {
    RunCovered(l, source, steps);
  }

  // ----- A drain that nothing interrupts -----

  /** The first `n` listed entries have been rewritten as the chooser said; nothing else moved. */
  ghost predicate MovedUpTo(l: Ledger, l': Ledger, owned: seq<Entry>, moves: seq<Step>, n: nat)
    requires n <= |owned| && n <= |moves| && forall j :: 0 <= j < |moves| ==> moves[j].Move?
  {
    && l'.version == l.version + n
    && l'.entries.Keys == l.entries.Keys
    && (forall j :: 0 <= j < n ==>
          var ip := owned[j].overlayIP;
          ip in l'.entries && l'.entries[ip] == Written(l, ip, moves[j].choice, moves[j].reason, moves[j].now))
    && (forall k :: k in l.entries && (forall j :: 0 <= j < n ==> owned[j].overlayIP != k)
          ==> l'.entries[k] == l.entries[k])
  }

  ghost predicate ChoosesOthers(source: string, moves: seq<Step>) {
    forall j :: 0 <= j < |moves| ==> moves[j].Move? && moves[j].choice != "" && moves[j].choice != source
  }

  ghost predicate ListsOwned(l: Ledger, source: string, owned: seq<Entry>) {
    && (forall i, j :: 0 <= i < j < |owned| ==> owned[i].overlayIP != owned[j].overlayIP)
    && (forall i :: 0 <= i < |owned| ==>
          var ip := owned[i].overlayIP;
          ip in l.entries && l.entries[ip] == owned[i] && owned[i].owner == source && ParseIPv4(ip).Some?)
  }

  lemma StartListsOwned(l: Ledger, source: string)
    requires Valid(l)
    ensures ListsOwned(l, source, Start(l, source).drain.owned)
  {
    var m, owned := Owned(l, source), Start(l, source).drain.owned;
    SnapshotOfIsSnapshot(m);
    forall i, j | 0 <= i < j < |owned| ensures owned[i].overlayIP != owned[j].overlayIP {
      LessIrreflexive(owned[i].overlayIP);
    }
  }

  lemma UninterruptedMove(l: Ledger, l': Ledger, source: string, owned: seq<Entry>, moves: seq<Step>, n: nat)
    requires ListsOwned(l, source, owned) && ChoosesOthers(source, moves)
    requires n < |owned| && n < |moves| && MovedUpTo(l, l', owned, moves, n)
    ensures var s' := Next(State(l', Drain(source, owned, n, n, false)), moves[n]);
            s'.drain == Drain(source, owned, n + 1, n + 1, false) && MovedUpTo(l, s'.ledger, owned, moves, n + 1)
  {
    hide ParseIPv4;
    var ip := owned[n].overlayIP;
    assert l'.entries[ip] == l.entries[ip];
    var e := Written(l, ip, moves[n].choice, moves[n].reason, moves[n].now);
    var l'' := Next(State(l', Drain(source, owned, n, n, false)), moves[n]).ledger;
    assert l'' == Ledger(l'.entries[ip := e], l'.version + 1);
  }

  lemma {:induction false} UninterruptedDrainUpTo(l: Ledger, source: string, moves: seq<Step>, n: nat)
    requires Valid(l) && ChoosesOthers(source, moves)
    requires n <= |moves| && n <= |Start(l, source).drain.owned|
    ensures var s := Run(Start(l, source), moves[..n]);
            s.drain == Start(l, source).drain.(next := n, count := n)
            && MovedUpTo(l, s.ledger, s.drain.owned, moves, n)
  {
    hide ParseIPv4, SnapshotOf, Next, MovedUpTo, ListsOwned;
    if n == 0 {
      NothingMoved(l, Start(l, source).drain.owned, moves);
    } else {
      UninterruptedDrainUpTo(l, source, moves, n - 1);
      assert moves[..n][..n - 1] == moves[..n - 1] && moves[..n][n - 1] == moves[n - 1];
      StartListsOwned(l, source);
      var s := Run(Start(l, source), moves[..n - 1]);
      UninterruptedMove(l, s.ledger, source, s.drain.owned, moves, n - 1);
      assert s == State(s.ledger, Drain(source, s.drain.owned, n - 1, n - 1, false));
    }
  }

  lemma NothingMoved(l: Ledger, owned: seq<Entry>, moves: seq<Step>)
    requires forall j :: 0 <= j < |moves| ==> moves[j].Move?
    ensures MovedUpTo(l, l, owned, moves, 0)
  {
  }

  function RoundRobin(masters: seq<string>, i: nat): string {
    if masters == [] then "" else masters[i % |masters|]
  }

  /** The moves of a drain whose chooser deals `masters` in turn. No masters, or no chooser at all,
      stops the drain at its first entry. */
  function Moves(masters: seq<string>, reason: string, clock: nat -> int, n: nat): (r: seq<Step>)
    ensures |r| == n && forall j :: 0 <= j < n ==> r[j] == Move(RoundRobin(masters, j), reason, clock(j))
  {
    seq(n, j requires 0 <= j < n => Move(RoundRobin(masters, j), reason, clock(j)))
  }
}

/** The control plane's drain loop and its round-robin chooser. */
module DrainLoop {
  import opened Text
  import opened LedgerModel
  import opened LedgerStore
  import opened DrainModel

  class Chooser {
    const masters: seq<string>
    var calls: nat

    constructor (masters: seq<string>)
      ensures this.masters == masters && calls == 0
    {
      this.masters, calls := masters, 0;
    }

    method Choose() returns (m: string)
      modifies this
      ensures m == RoundRobin(masters, old(calls)) && calls == old(calls) + 1
    {
      m := if |masters| == 0 then "" else masters[calls % |masters|];
      calls := calls + 1;
    }
  }

  function MastersOf(chooser: Chooser?): seq<string> {
    if chooser == null then [] else chooser.masters
  }

  /** One turn of the loop for the entry the drain has reached. */
  method DrainEntry(ledger: LedgerObject, d: DrainModel.Drain, choice: string, reason: string, now: int)
    returns (wrote: bool, aborted: bool)
    requires Valid(ledger.State())
    requires !Finished(d)
    modifies ledger
    ensures Valid(ledger.State())
    ensures var d' := if aborted then d.(aborted := true)
                      else d.(next := d.next + 1, count := if wrote then d.count + 1 else d.count);
            DrainModel.Next(State(old(ledger.State()), d), Move(choice, reason, now)) == State(ledger.State(), d')
  {
    hide ParseIPv4, SnapshotOf;
    if choice == "" {
      return false, true;
    }
    if choice == d.source {
      return false, false;
    }
    var r, call := ledger.ReassignLocked(d.owned[d.next].overlayIP, Some(d.source), choice, reason, now);
    wrote := r.Ok?;
    aborted := r.Err? && r.error != OwnerChanged && r.error != NotFound;
  }

  method Drain(ledger: LedgerObject, source: string, reason: string, chooser: Chooser?, clock: nat -> int)
    returns (count: nat, ok: bool)
    requires Valid(ledger.State())
    requires chooser != null ==> chooser.calls == 0
    modifies ledger, chooser
    ensures Valid(ledger.State())
    ensures var start := Start(old(ledger.State()), source);
            var end := DrainModel.Run(start, Moves(MastersOf(chooser), reason, clock, |start.drain.owned|));
            ledger.State() == end.ledger && count == end.drain.count && ok == !end.drain.aborted
  {
    hide ParseIPv4, SnapshotOf, DrainModel.Next, Valid;
    var owned := ledger.OwnedBy(source);
    ghost var start := Start(ledger.State(), source);
    ghost var moves := Moves(MastersOf(chooser), reason, clock, |owned|);
    count := 0;
    for i := 0 to |owned|
      invariant Valid(ledger.State())
      invariant chooser != null ==> chooser.calls == i
      invariant DrainModel.Run(start, moves[..i]) == State(ledger.State(), DrainModel.Drain(source, owned, i, count, false))
    {
      assert moves[..i + 1][..i] == moves[..i];
      var choice := "";
      if chooser != null {
        choice := chooser.Choose();
      }
      assert moves[i] == Move(choice, reason, clock(i));
      var d := DrainModel.Drain(source, owned, i, count, false);
      var wrote, aborted := DrainEntry(ledger, d, choice, reason, clock(i));
      if aborted {
        AbortIsFinal(start, moves, i + 1);
        return count, false;
      }
      if wrote {
        count := count + 1;
      }
    }
    assert moves[..|owned|] == moves;
    ok := true;
  }

  lemma {:induction false} AbortIsFinal(s: State, moves: seq<Step>, i: nat)
    requires i <= |moves| && forall j :: 0 <= j < |moves| ==> moves[j].Move?
    requires DrainModel.Run(s, moves[..i]).drain.aborted
    ensures DrainModel.Run(s, moves) == DrainModel.Run(s, moves[..i])
    decreases |moves| - i
  {
    if i == |moves| {
      assert moves[..i] == moves;
    } else {
      assert moves[..i + 1][..i] == moves[..i];
      AbortIsFinal(s, moves, i + 1);
    }
  }
}
