/** How evenly a round-robin deals n turns to m players. */
module RoundRobinShares {
  import opened Arithmetic

  /** The turns among the first n that fall to player i. */
  function Turns(n: nat, m: nat, i: nat): set<nat>
    requires m > 0
  {
    set j: nat | j < n && j % m == i
  }

  lemma TurnsBelow(n: nat, m: nat, i: nat)
    requires m > 0
    ensures forall j :: j in Turns(n, m, i) ==> j < n
  {
  }

  lemma {:induction false} TurnsCount(n: nat, m: nat, i: nat)
    requires i < m
    ensures |Turns(n, m, i)| == n / m + if i < n % m then 1 else 0
  {
    if n == 0 {
      assert Turns(0, m, i) == {};
    } else {
      TurnsCount(n - 1, m, i);
      DivModStep(n - 1, m);
      if (n - 1) % m == i {
        assert Turns(n, m, i) == Turns(n - 1, m, i) + {n - 1};
      } else {
        assert Turns(n, m, i) == Turns(n - 1, m, i);
      }
    }
  }

  /** The image of a set of positions under an injective naming has as many elements. */
  lemma {:induction false} ImageSize(turns: set<nat>, names: seq<string>)
    requires forall j :: j in turns ==> j < |names|
    requires forall i, j :: 0 <= i < j < |names| ==> names[i] != names[j]
    ensures |set j | j in turns :: names[j]| == |turns|
  {
    var image := set j | j in turns :: names[j];
    if turns != {} {
      var t :| t in turns;
      ImageSize(turns - {t}, names);
      var rest := set j | j in turns - {t} :: names[j];
      assert image == rest + {names[t]};
      assert names[t] !in rest;
    } else {
      assert image == {};
    }
  }
}

/** Removing a node: its overlays go to surviving masters, then it leaves the registry. */
module Decommission {
  import opened Text
  import L = LedgerModel
  import opened LedgerStore
  import R = RegistryModel
  import opened RegistryStore
  import opened DrainModel
  import opened DrainLoop
  import opened RoundRobinShares

  ghost function OthersIn(r: R.Registry, region: string, name: string): set<string> {
    set n | n in r.byName && n != name && InRegion(r, region, n)
  }

  /** Masters other than the leaving node: those of its region, or everywhere if there are none. */
  ghost function Survivors(r: R.Registry, name: string): set<string>
    requires name in r.byName
  {
    var near := OthersIn(r, r.byName[name].region, name);
    if near != {} then near else OthersIn(r, "", name)
  }

  /** A registered master other than the leaving node. */
  ghost predicate OtherMaster(r: R.Registry, name: string, n: string) {
    n != name && n in r.byName && exists i :: 0 <= i < |r.byName[n].roles| && r.byName[n].roles[i] == R.Master
  }

  /** The leaving node has a region, and `n` is in it. */
  ghost predicate Near(r: R.Registry, name: string, n: string)
    requires name in r.byName
  {
    n in r.byName && r.byName[name].region != "" && r.byName[n].region == r.byName[name].region
  }

  /** Who takes over: the other masters of the node's region when there is one, and all other masters otherwise. */
  lemma SurvivorsExactly(r: R.Registry, name: string, n: string)
    requires name in r.byName
    ensures n in Survivors(r, name) <==>
            OtherMaster(r, name, n) && ((exists m :: OtherMaster(r, name, m) && Near(r, name, m)) ==> Near(r, name, n))
  {
    forall m ensures m in OthersIn(r, "", name) <==> OtherMaster(r, name, m) {}
    var region := r.byName[name].region;
    var near := OthersIn(r, region, name);
    forall m ensures m in near <==> OtherMaster(r, name, m) && (region == "" || Near(r, name, m)) {}
    hide OtherMaster, OthersIn;
    if exists m :: OtherMaster(r, name, m) && Near(r, name, m) {
      var m :| OtherMaster(r, name, m) && Near(r, name, m);
      assert m in near;
    }
    if near != {} {
      var m :| m in near;
    }
  }

  /** The overlays that went from the leaving node to `to`. */
  ghost function Gain(l: L.Ledger, l': L.Ledger, name: string, to: string): set<string> {
    set k | k in l.entries && l.entries[k].owner == name && k in l'.entries && l'.entries[k].owner == to
  }

  /** The whole effect on the ledger. */
  ghost predicate HandedOver(l: L.Ledger, l': L.Ledger, name: string, survivors: set<string>, count: nat) {
    && l'.entries.Keys == l.entries.Keys
    && (forall k :: k in l'.entries ==> l'.entries[k].owner != name)
    && l'.version == l.version + count
    && count == |Owned(l, name)|
    && (forall k :: k in l.entries && l.entries[k].owner != name ==> l'.entries[k] == l.entries[k])
    && (forall k :: k in l.entries && l.entries[k].owner == name ==> TakenOver(l.entries[k], l'.entries[k], survivors))
    && (forall a, b :: a in survivors && b in survivors ==> |Gain(l, l', name, a)| <= |Gain(l, l', name, b)| + 1)
  }

  ghost predicate TakenOver(e: L.Entry, e': L.Entry, survivors: set<string>) {
    && e'.owner in survivors
    && e'.overlayIP == e.overlayIP
    && e'.previousOwner == e.owner
    && e'.version == e.version + 1
    && e'.reason == "decommission"
  }

  lemma SnapshotSize(m: map<string, L.Entry>)
    requires L.Keyed(m)
    ensures |L.SnapshotOf(m)| == |m|
    decreases |m|
  {
    if m != map[] {
      var k := L.GreatestKey(m);
      L.SnapshotOfStep(m, k);
      SnapshotSize(m - {k});
      assert m.Keys == (m - {k}).Keys + {k};
    }
  }

  ghost predicate ListsMasters(c: seq<string>, survivors: set<string>) {
    && (forall n :: n in c <==> n in survivors)
    && (forall i, j :: 0 <= i < j < |c| ==> c[i] != c[j])
  }

  /** What the drained ledger says about one entry of the leaving node. */
  lemma HandedOverEntry(l: L.Ledger, l': L.Ledger, owned: seq<L.Entry>, moves: seq<Step>, j: nat)
    requires |moves| == |owned| && (forall i :: 0 <= i < |moves| ==> moves[i].Move?) && j < |owned|
    requires MovedUpTo(l, l', owned, moves, |owned|)
    requires owned[j].overlayIP in l.entries && l.entries[owned[j].overlayIP] == owned[j]
    ensures var ip := owned[j].overlayIP;
            l'.entries[ip] == owned[j].(owner := moves[j].choice, previousOwner := owned[j].owner, reason := moves[j].reason,
                                        reassignedAt := moves[j].now, version := owned[j].version + 1)
  {}

  function Names(owned: seq<L.Entry>): (r: seq<string>)
    ensures |r| == |owned| && forall j :: 0 <= j < |r| ==> r[j] == owned[j].overlayIP
  {
    seq(|owned|, j requires 0 <= j < |owned| => owned[j].overlayIP)
  }

  /** A survivor's gain is its turns of the round robin. */
  lemma GainIsTurns(l: L.Ledger, l': L.Ledger, name: string, owned: seq<L.Entry>, c: seq<string>, i: nat)
    requires i < |c| && forall a, b :: 0 <= a < b < |c| ==> c[a] != c[b]
    requires ListsOwned(l, name, owned)
    requires forall k :: k in l.entries && l.entries[k].owner == name ==> l.entries[k] in owned
    requires forall j :: 0 <= j < |owned| ==>
               owned[j].overlayIP in l'.entries && l'.entries[owned[j].overlayIP].owner == c[j % |c|]
    requires forall k :: k in l.entries ==> l.entries[k].overlayIP == k
    ensures |Gain(l, l', name, c[i])| == |owned| / |c| + if i < |owned| % |c| then 1 else 0
  {
    hide ParseIPv4, Turns;
    var turns := Turns(|owned|, |c|, i);
    TurnsBelow(|owned|, |c|, i);
    var gain := set j | j in turns :: Names(owned)[j];
    TurnsCount(|owned|, |c|, i);
    ImageSize(turns, Names(owned));
    forall k | k in Gain(l, l', name, c[i]) ensures k in gain {
      var j :| 0 <= j < |owned| && owned[j] == l.entries[k];
      TurnOwner(c, j, i, |owned|);
      assert Names(owned)[j] == k;
    }
    forall k | k in gain ensures k in Gain(l, l', name, c[i]) {
      var j :| j in turns && Names(owned)[j] == k;
      TurnOwner(c, j, i, |owned|);
    }
    assert gain == Gain(l, l', name, c[i]);
  }

  lemma TurnOwner(c: seq<string>, j: nat, i: nat, n: nat)
    requires i < |c| && forall a, b :: 0 <= a < b < |c| ==> c[a] != c[b]
    ensures j in Turns(n, |c|, i) <==> j < n && c[j % |c|] == c[i]
  {
    assert 0 <= j % |c| < |c|;
  }

  lemma OwnedListing(l: L.Ledger, name: string)
    requires L.Valid(l)
    ensures var owned := Start(l, name).drain.owned;
            && ListsOwned(l, name, owned)
            && |owned| == |Owned(l, name)|
            && forall k :: k in l.entries && l.entries[k].owner == name ==> l.entries[k] in owned
  {
    StartListsOwned(l, name);
    SnapshotSize(Owned(l, name));
    L.SnapshotOfIsSnapshot(Owned(l, name));
    hide L.SnapshotOf, ParseIPv4;
    forall k | k in l.entries && l.entries[k].owner == name ensures l.entries[k] in Start(l, name).drain.owned {
      assert Owned(l, name)[k] == l.entries[k];
    }
  }

  /** The state in which a drain that deals out `masters` ends. */
  ghost function DrainEnd(l: L.Ledger, name: string, masters: seq<string>, clock: nat -> int): State {
    DrainModel.Run(Start(l, name), Moves(masters, "decommission", clock, |Start(l, name).drain.owned|))
  }

  ghost predicate EndsFairly(l: L.Ledger, end: State, name: string, survivors: set<string>) {
    !end.drain.aborted && HandedOver(l, end.ledger, name, survivors, end.drain.count)
  }

  /** The uninterrupted drain with a round robin over the survivors is a fair handover. */
  lemma DrainHandsOver(l: L.Ledger, name: string, c: seq<string>, survivors: set<string>, clock: nat -> int)
    requires L.Valid(l) && ListsMasters(c, survivors) && c != [] && "" !in survivors && name !in survivors
    ensures EndsFairly(l, DrainEnd(l, name, c, clock), name, survivors)
  {
    hide L.SnapshotOf, L.Valid, ParseIPv4, DrainModel.Next, DrainModel.Run, HandedOver, ListsMasters, ListsOwned;
    var owned := Start(l, name).drain.owned;
    var moves := Moves(c, "decommission", clock, |owned|);
    OwnedListing(l, name);
    MovesDealSurvivors(c, survivors, name, moves, clock);
    assert moves[..|owned|] == moves;
    UninterruptedDrainUpTo(l, name, moves, |owned|);
    hide MovedUpTo, ChoosesOthers;
    RewrittenIsHandedOver(l, DrainEnd(l, name, c, clock).ledger, name, c, survivors, owned, moves);
  }

  lemma MovesDealSurvivors(c: seq<string>, survivors: set<string>, name: string, moves: seq<Step>, clock: nat -> int)
    requires ListsMasters(c, survivors) && c != [] && "" !in survivors && name !in survivors
    requires moves == Moves(c, "decommission", clock, |moves|)
    ensures ChoosesOthers(name, moves)
    ensures forall j :: 0 <= j < |moves| ==> moves[j].choice == c[j % |c|] && moves[j].reason == "decommission"
  {
    forall j | 0 <= j < |moves| ensures moves[j].choice in survivors {
      assert c[j % |c|] in c;
    }
  }

  lemma RewrittenIsHandedOver(l: L.Ledger, l': L.Ledger, name: string, c: seq<string>, survivors: set<string>,
                              owned: seq<L.Entry>, moves: seq<Step>)
    requires L.Valid(l) && ListsMasters(c, survivors) && name !in survivors && c != [] && |moves| == |owned| == |Owned(l, name)|
    requires ListsOwned(l, name, owned) && forall k :: k in l.entries && l.entries[k].owner == name ==> l.entries[k] in owned
    requires forall j :: 0 <= j < |moves| ==> moves[j].Move? && moves[j].choice == c[j % |c|] && moves[j].reason == "decommission"
    requires MovedUpTo(l, l', owned, moves, |owned|)
    ensures HandedOver(l, l', name, survivors, |owned|)
  {
    hide ParseIPv4, Owned;
    forall k | k in l.entries && l.entries[k].owner == name ensures TakenOver(l.entries[k], l'.entries[k], survivors) {
      var j :| 0 <= j < |owned| && owned[j] == l.entries[k];
      HandedOverEntry(l, l', owned, moves, j);
      assert moves[j].choice in c;
    }
    forall j | 0 <= j < |owned| ensures l'.entries[owned[j].overlayIP].owner == c[j % |c|] {
      HandedOverEntry(l, l', owned, moves, j);
    }
    forall a, b | a in survivors && b in survivors ensures |Gain(l, l', name, a)| <= |Gain(l, l', name, b)| + 1 {
      var x :| 0 <= x < |c| && c[x] == a;
      var y :| 0 <= y < |c| && c[y] == b;
      GainIsTurns(l, l', name, owned, c, x);
      GainIsTurns(l, l', name, owned, c, y);
    }
  }

  method FilterOut(names: seq<string>, exclude: string) returns (out: seq<string>)
    requires forall i, j :: 0 <= i < j < |names| ==> names[i] != names[j]
    ensures forall n :: n in out <==> n in names && n != exclude
    ensures forall i, j :: 0 <= i < j < |out| ==> out[i] != out[j]
  {
    out := [];
    for k := 0 to |names|
      invariant forall n :: n in out <==> n in names[..k] && n != exclude
      invariant forall i, j :: 0 <= i < j < |out| ==> out[i] != out[j]
    {
      if names[k] != exclude {
        assert names[k] !in names[..k];
        out := out + [names[k]];
      }
    }
  }

  method Candidates(registry: RegistryObject, name: string) returns (c: seq<string>)
    requires R.Valid(registry.State()) && name in registry.byName
    ensures ListsMasters(c, Survivors(registry.State(), name))
  {
    hide R.Valid;
    var near := registry.MastersInRegion(registry.byName[name].region);
    c := FilterOut(near, name);
    if |c| == 0 {
      assert OthersIn(registry.State(), registry.byName[name].region, name) == {};
      var all := registry.MastersInRegion("");
      c := FilterOut(all, name);
    } else {
      assert c[0] in near && c[0] in OthersIn(registry.State(), registry.byName[name].region, name);
    }
  }

  /** Succeeds exactly for a registered node that owns nothing or leaves a master behind. Then the
      node is gone, owns nothing, and its overlays were dealt evenly to the survivors; otherwise
      nothing has changed. */
  method DecommissionNode(registry: RegistryObject, ledger: LedgerObject, name: string, clock: nat -> int)
    returns (success: bool, count: nat)
    requires R.Valid(registry.State()) && L.Valid(ledger.State())
    modifies registry, ledger
    ensures R.Valid(registry.State()) && L.Valid(ledger.State())
    ensures success <==> name in old(registry.byName)
                         && (Owned(old(ledger.State()), name) == map[] || Survivors(old(registry.State()), name) != {})
    ensures !success ==> registry.State() == old(registry.State()) && ledger.State() == old(ledger.State())
    ensures success ==> registry.State() == R.Remove(old(registry.State()), name)
                        && HandedOver(old(ledger.State()), ledger.State(), name, Survivors(old(registry.State()), name), count)
  {
    hide L.SnapshotOf, L.Valid, ParseIPv4, DrainModel.Run, HandedOver, ListsMasters, Survivors, R.Valid, Moves, Owned;
    if name == "" || name !in registry.byName {
      NoEmptyName(registry.State());
      return false, 0;
    }
    var owned := ledger.OwnedBy(name);
    OwnedSize(ledger.State(), name);
    ghost var survivors := Survivors(registry.State(), name);
    var chooser: Chooser? := null;
    if |owned| > 0 {
      var c := Candidates(registry, name);
      CandidatesFacts(registry.State(), name, c);
      if |c| == 0 {
        return false, 0;
      }
      DrainHandsOver(ledger.State(), name, c, survivors, clock);
      chooser := new Chooser(c);
    } else {
      NothingToHandOver(ledger.State(), name, survivors, clock);
    }
    assert EndsFairly(ledger.State(), DrainEnd(ledger.State(), name, MastersOf(chooser), clock), name, survivors);
    count, success := DrainLoop.Drain(ledger, name, "decommission", chooser, clock);
    if success {
      var err := registry.Remove(name);
      success := err.None?;
    }
  }

  lemma NoEmptyName(r: R.Registry)
    requires R.Valid(r)
    ensures "" !in r.byName
  {}

  lemma OwnedSize(l: L.Ledger, name: string)
    requires L.Valid(l)
    ensures |L.SnapshotOf(Owned(l, name))| == |Owned(l, name)|
  {
    hide L.SnapshotOf, ParseIPv4;
    SnapshotSize(Owned(l, name));
  }

  lemma CandidatesFacts(r: R.Registry, name: string, c: seq<string>)
    requires R.Valid(r) && name in r.byName && ListsMasters(c, Survivors(r, name))
    ensures "" !in Survivors(r, name) && name !in Survivors(r, name)
    ensures c == [] <==> Survivors(r, name) == {}
  {
    if c != [] { assert c[0] in Survivors(r, name); }
  }

  lemma NothingToHandOver(l: L.Ledger, name: string, survivors: set<string>, clock: nat -> int)
    requires L.Valid(l) && |Owned(l, name)| == 0
    ensures EndsFairly(l, DrainEnd(l, name, [], clock), name, survivors)
  {
    OwnedSize(l, name);
    hide L.SnapshotOf, ParseIPv4;
    assert Moves([], "decommission", clock, 0) == [];
    assert forall k :: k in l.entries && l.entries[k].owner == name ==> k in Owned(l, name);
    forall a ensures Gain(l, l, name, a) == {} {}
  }
}
