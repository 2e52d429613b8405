/** The weighted cyclic scheduler: each target stands in the ring as often as its weight says, and a
    cursor walks the ring, skipping unhealthy targets. */
module WeightedRing {
  import opened Text
  import opened Arithmetic

  datatype Egress = Egress(id: string, target: string, weight: int)

  /** Health by target id; a target that was never probed counts as healthy. */
  type Health = map<string, bool>

  predicate IsHealthy(h: Health, e: Egress) {
    e.id !in h || h[e.id]
  }

  function Repeat(e: Egress, n: nat): (r: seq<Egress>)
    ensures |r| == n && forall i :: 0 <= i < n ==> r[i] == e
  {
    seq(n, i requires 0 <= i < n => e)
  }

  function Expand(es: seq<Egress>): seq<Egress> {
    if es == [] then []
    else Expand(es[..|es| - 1]) + if es[|es| - 1].weight > 0 then Repeat(es[|es| - 1], es[|es| - 1].weight) else []
  }

  ghost predicate WellFormed(es: seq<Egress>) {
    && es != []
    && (forall i :: 0 <= i < |es| ==> es[i].weight > 0)
    && (forall i, j :: 0 <= i < j < |es| ==> es[i].id != es[j].id)
  }

  function Healthy(ring: seq<Egress>, h: Health): seq<Egress> {
    if ring == [] then []
    else (if IsHealthy(h, ring[0]) then [ring[0]] else []) + Healthy(ring[1..], h)
  }

  /** The first healthy place at or after `cursor` among the next `left` places. */
  function FirstHealthy(ring: seq<Egress>, h: Health, cursor: nat, left: nat): (p: Option<nat>)
    requires ring != []
    ensures p.Some? ==> cursor <= p.value < cursor + left && IsHealthy(h, ring[p.value % |ring|])
    ensures p.Some? ==> forall q :: cursor <= q < p.value ==> !IsHealthy(h, ring[q % |ring|])
    ensures p.None? ==> forall q :: cursor <= q < cursor + left ==> !IsHealthy(h, ring[q % |ring|])
    decreases left
  {
    if left == 0 then None
    else if IsHealthy(h, ring[cursor % |ring|]) then Some(cursor)
    else FirstHealthy(ring, h, cursor + 1, left - 1)
  }

  /** One scheduling decision: the target, if any, and where the cursor stands afterwards. */
  function Pick(ring: seq<Egress>, h: Health, cursor: nat): (Option<Egress>, nat) {
    if ring == [] then (None, cursor)
    else
      var p := FirstHealthy(ring, h, cursor, |ring|);
      if p.None? then (None, cursor + |ring|) else (Some(ring[p.value % |ring|]), p.value + 1)
  }

  /** What `n` decisions in a row choose, while the ring and the health stay as they are. */
  function Picks(ring: seq<Egress>, h: Health, cursor: nat, n: nat): seq<Egress>
    decreases n
  {
    if n == 0 then []
    else
      var (e, cursor') := Pick(ring, h, cursor);
      (if e.Some? then [e.value] else []) + Picks(ring, h, cursor', n - 1)
  }

  // ----- One round of the ring -----

  function Window(ring: seq<Egress>, cursor: nat, k: nat): (r: seq<Egress>)
    requires ring != []
    ensures |r| == k && forall i :: 0 <= i < k ==> r[i] == ring[(cursor + i) % |ring|]
  {
    seq(k, i requires 0 <= i < k => ring[(cursor + i) % |ring|])
  }

  lemma FirstHealthyUnique(ring: seq<Egress>, h: Health, c: nat, left: nat, p: nat)
    requires ring != [] && c <= p < c + left && IsHealthy(h, ring[p % |ring|])
    requires forall q :: c <= q < p ==> !IsHealthy(h, ring[q % |ring|])
    ensures FirstHealthy(ring, h, c, left) == Some(p)
  {
    hide FirstHealthy;
    var r := FirstHealthy(ring, h, c, left);
    assert r.Some? ==> IsHealthy(h, ring[r.value % |ring|]);
  }

  /** A healthy place is at most one round away. */
  lemma HealthyWithinRound(ring: seq<Egress>, h: Health, c: nat, p: nat) returns (q: nat)
    requires ring != [] && IsHealthy(h, ring[p % |ring|])
    ensures c <= q < c + |ring| && IsHealthy(h, ring[q % |ring|])
  {
    var n := |ring|;
    q := c + (p + n - c % n) % n;
    ModRound(c, p, n);
  }

  lemma ModRound(c: nat, p: nat, n: nat)
    requires n > 0
    ensures 0 <= (p + n - c % n) % n < n
    ensures (c + (p + n - c % n) % n) % n == p % n
  {
    var d := (p + n - c % n) % n;
    var k := (p + n - c % n) / n;
    assert p + n - c % n == n * k + d;
    assert c == n * (c / n) + c % n;
    assert c + d == p + n * (1 + c / n - k);
    ModAddMultiple(p, n, 1 + c / n - k);
  }

  lemma PickTakes(ring: seq<Egress>, h: Health, c: nat)
    requires ring != [] && IsHealthy(h, ring[c % |ring|])
    ensures Pick(ring, h, c) == (Some(ring[c % |ring|]), c + 1)
  {}

  /** A round without a healthy place picks nothing and takes the cursor once around. */
  lemma PickFails(ring: seq<Egress>, h: Health, c: nat)
    requires ring != [] && forall i :: 0 <= i < |ring| ==> !IsHealthy(h, ring[i])
    ensures Pick(ring, h, c) == (None, c + |ring|)
  {
    hide FirstHealthy;
    forall q: nat ensures !IsHealthy(h, ring[q % |ring|]) {
      assert 0 <= q % |ring| < |ring|;
    }
  }

  lemma PickSkips(ring: seq<Egress>, h: Health, c: nat, p: nat)
    requires ring != [] && !IsHealthy(h, ring[c % |ring|]) && IsHealthy(h, ring[p % |ring|])
    ensures Pick(ring, h, c) == Pick(ring, h, c + 1)
  {
    hide FirstHealthy;
    var n := |ring|;
    var q := HealthyWithinRound(ring, h, c + 1, p);
    var r := FirstHealthy(ring, h, c + 1, n);
    assert r.Some?;
    assert (c + n) % n == c % n by { ModAddMultiple(c, n, 1); }
    assert r.value != c + n;
    FirstHealthyUnique(ring, h, c, n, r.value);
  }

  /** The healthy places of a stretch of the ring are what the next decisions choose, in order. */
  lemma {:induction false} PicksWindow(ring: seq<Egress>, h: Health, c: nat, k: nat)
    requires ring != []
    ensures Picks(ring, h, c, |Healthy(Window(ring, c, k), h)|) == Healthy(Window(ring, c, k), h)
    decreases k
  {
    hide FirstHealthy, Pick;
    if k > 0 {
      PicksWindow(ring, h, c + 1, k - 1);
      var rest := Window(ring, c + 1, k - 1);
      assert Window(ring, c, k)[1..] == rest;
      if IsHealthy(h, ring[c % |ring|]) {
        PickTakes(ring, h, c);
      } else if Healthy(rest, h) != [] {
        var i := HealthyIndex(rest, h);
        PickSkips(ring, h, c, c + 1 + i);
      }
    }
  }

  lemma {:induction false} HealthyIndex(s: seq<Egress>, h: Health) returns (i: nat)
    requires Healthy(s, h) != []
    ensures i < |s| && IsHealthy(h, s[i])
  {
    if IsHealthy(h, s[0]) {
      i := 0;
    } else {
      i := HealthyIndex(s[1..], h);
      i := i + 1;
    }
  }

  lemma Associate(a: seq<Egress>, b: seq<Egress>, c: seq<Egress>)
    ensures a + (b + c) == (a + b) + c
  {
  }

  lemma {:induction false} HealthyConcat(a: seq<Egress>, b: seq<Egress>, h: Health)
    ensures Healthy(a + b, h) == Healthy(a, h) + Healthy(b, h)
  {
    hide IsHealthy;
    if a == [] {
      assert a + b == b;
    } else {
      HealthyConcat(a[1..], b, h);
      assert (a + b)[1..] == a[1..] + b && (a + b)[0] == a[0];
      var head := if IsHealthy(h, a[0]) then [a[0]] else [];
      Associate(head, Healthy(a[1..], h), Healthy(b, h));
    }
  }

  function WeightSum(es: seq<Egress>): int {
    if es == [] then 0 else WeightSum(es[..|es| - 1]) + es[|es| - 1].weight
  }

  /** The ring lists the targets in order, each as many times in a row as its weight. */
  lemma {:induction false} RingOrder(es: seq<Egress>, i: nat, j: nat)
    requires forall k :: 0 <= k < |es| ==> es[k].weight > 0
    requires i < |es| && j < es[i].weight
    ensures |Expand(es)| == WeightSum(es)
    ensures 0 <= WeightSum(es[..i]) + j < WeightSum(es) && Expand(es)[WeightSum(es[..i]) + j] == es[i]
  {
    hide Repeat;
    var front := es[..|es| - 1];
    if front != [] {
      RingOrder(front, if i < |front| then i else 0, if i < |front| then j else 0);
    }
    if i < |front| {
      assert front[..i] == es[..i];
    } else {
      assert es[..i] == front;
    }
  }

  lemma WindowIsRotation(ring: seq<Egress>, c: nat)
    requires ring != []
    ensures var r := c % |ring|; Window(ring, c, |ring|) == ring[r..] + ring[..r]
  {
    var n := |ring|;
    var r := c % n;
    var w, rotated := Window(ring, c, n), ring[r..] + ring[..r];
    forall i | 0 <= i < n ensures w[i] == rotated[i] {
      ModOffset(c, i, n);
    }
  }

  /** Fairness: from any cursor, as many decisions as there are healthy places choose every healthy place
      exactly once. */
  lemma RoundIsFair(ring: seq<Egress>, h: Health, cursor: nat)
    requires ring != []
    ensures multiset(Picks(ring, h, cursor, |Healthy(ring, h)|)) == multiset(Healthy(ring, h))
  {
    hide Picks, Healthy;
    var r := cursor % |ring|;
    PicksWindow(ring, h, cursor, |ring|);
    WindowIsRotation(ring, cursor);
    HealthyConcat(ring[r..], ring[..r], h);
    HealthyConcat(ring[..r], ring[r..], h);
    assert ring == ring[..r] + ring[r..];
  }

  // ----- In terms of targets and weights -----

  lemma {:induction false} HealthyRepeat(e: Egress, n: nat, h: Health)
    ensures Healthy(Repeat(e, n), h) == if IsHealthy(h, e) then Repeat(e, n) else []
  {
    if n > 0 {
      HealthyRepeat(e, n - 1, h);
      assert Repeat(e, n)[1..] == Repeat(e, n - 1);
      assert [e] + Repeat(e, n - 1) == Repeat(e, n);
    }
  }

  lemma {:induction false} RepeatCount(e: Egress, n: nat, x: Egress)
    ensures multiset(Repeat(e, n))[x] == if x == e then n else 0
  {
    if n > 0 {
      RepeatCount(e, n - 1, x);
      assert Repeat(e, n) == Repeat(e, n - 1) + [e];
    }
  }

  /** A target's places: its weight if it is listed and healthy, none otherwise. */
  lemma {:induction false} PlacesOf(es: seq<Egress>, h: Health, x: Egress)
    requires forall i :: 0 <= i < |es| ==> es[i].weight > 0
    requires forall i, j :: 0 <= i < j < |es| ==> es[i].id != es[j].id
    ensures multiset(Healthy(Expand(es), h))[x] == if x in es && IsHealthy(h, x) then x.weight else 0
  {
    if es != [] {
      var init, e := es[..|es| - 1], es[|es| - 1];
      PlacesOf(init, h, x);
      HealthyConcat(Expand(init), Repeat(e, e.weight), h);
      HealthyRepeat(e, e.weight, h);
      RepeatCount(e, e.weight, x);
      hide Healthy, Repeat;
      assert x in es <==> x in init || x == e;
      assert e !in init;
    }
  }

  function HealthyWeight(es: seq<Egress>, h: Health): nat {
    if es == [] then 0
    else
      var e := es[|es| - 1];
      HealthyWeight(es[..|es| - 1], h) + if IsHealthy(h, e) && e.weight > 0 then e.weight else 0
  }

  lemma {:induction false} HealthyWeightIsPlaces(es: seq<Egress>, h: Health)
    requires forall i :: 0 <= i < |es| ==> es[i].weight > 0
    ensures |Healthy(Expand(es), h)| == HealthyWeight(es, h)
  {
    if es != [] {
      var init, e := es[..|es| - 1], es[|es| - 1];
      HealthyWeightIsPlaces(init, h);
      HealthyConcat(Expand(init), Repeat(e, e.weight), h);
      HealthyRepeat(e, e.weight, h);
      hide Healthy, Repeat;
    }
  }

  /** Any H decisions in a row, H being the total weight of the healthy targets, choose each healthy target
      exactly as often as its weight says and no unhealthy one, wherever the cursor stood. */
  lemma EachTargetGetsItsWeight(es: seq<Egress>, h: Health, cursor: nat, x: Egress)
    requires WellFormed(es)
    ensures var ring := Expand(es);
            multiset(Picks(ring, h, cursor, HealthyWeight(es, h)))[x] == if x in es && IsHealthy(h, x) then x.weight else 0
  {
    hide Picks, Healthy;
    PlacesOf(es, h, x);
    HealthyWeightIsPlaces(es, h);
    if Expand(es) != [] {
      RoundIsFair(Expand(es), h, cursor);
    } else {
      NoPlaces(h, cursor);
    }
  }

  lemma NoPlaces(h: Health, cursor: nat)
    ensures Healthy([], h) == [] && Picks([], h, cursor, 0) == []
  {}
}

/** Flow keys and the text that identifies a flow. */
module FlowKeys {
  import opened Text

  datatype FlowKey = FlowKey(source: string, destination: string, protocol: string, sourcePort: int, destinationPort: int)

  function Parts(k: FlowKey): seq<string> {
    [TrimSpace(k.source), TrimSpace(k.destination), TrimSpace(k.protocol), Itoa(k.sourcePort), Itoa(k.destinationPort)]
  }

  function FlowId(k: FlowKey): string {
    Join(Parts(k), '|')
  }

  /** A key without any content belongs to no flow. */
  predicate IsBlank(k: FlowKey) {
    TrimSpace(k.source) == "" && TrimSpace(k.destination) == "" && TrimSpace(k.protocol) == "" && k.sourcePort == 0 && k.destinationPort == 0
  }

  predicate BarFree(k: FlowKey) {
    '|' !in k.source && '|' !in k.destination && '|' !in k.protocol
  }

  predicate NoBlanks(s: string) {
    forall i :: 0 <= i < |s| ==> !IsSpace(s[i])
  }

  predicate KeyWithoutBlanks(k: FlowKey) {
    NoBlanks(k.source) && NoBlanks(k.destination) && NoBlanks(k.protocol)
  }

  function Bars(s: string): nat {
    if s == "" then 0 else (if s[0] == '|' then 1 else 0) + Bars(s[1..])
  }

  lemma {:induction false} BarsConcat(a: string, b: string)
    ensures Bars(a + b) == Bars(a) + Bars(b)
  {
    if a == "" {
      assert a + b == b;
    } else {
      BarsConcat(a[1..], b);
      assert (a + b)[1..] == a[1..] + b;
    }
  }

  lemma {:induction false} BarsZero(s: string)
    ensures Bars(s) == 0 <==> '|' !in s
  {
    if s != "" {
      BarsZero(s[1..]);
      assert s == [s[0]] + s[1..];
    }
  }

  /** Joining puts one bar between neighbours. */
  lemma BarsJoin(parts: seq<string>)
    requires |parts| == 5
    ensures Bars(Join(parts, '|')) == Bars(parts[0]) + Bars(parts[1]) + Bars(parts[2]) + Bars(parts[3]) + Bars(parts[4]) + 4
  {
    hide Bars, Join;
    var p1, p2, p3, p4 := parts[1..], parts[2..], parts[3..], parts[4..];
    assert p1[1..] == p2 && p2[1..] == p3 && p3[1..] == p4;
    BarsJoinStep(parts);
    BarsJoinStep(p1);
    BarsJoinStep(p2);
    BarsJoinStep(p3);
    BarsJoinStep(p4);
  }

  lemma BarsJoinStep(parts: seq<string>)
    requires |parts| >= 1
    ensures Bars(Join(parts, '|')) == Bars(parts[0]) + if |parts| == 1 then 0 else 1 + Bars(Join(parts[1..], '|'))
  {
    if |parts| > 1 {
      var rest := Join(parts[1..], '|');
      BarsConcat(parts[0] + ['|'], rest);
      BarsConcat(parts[0], ['|']);
      assert Bars(['|']) == 1;
    }
  }

  lemma {:induction false} TrimKeepsBars(s: string)
    ensures '|' in TrimSpace(s) <==> '|' in s
  {
    if s != "" {
      if IsSpace(s[0]) {
        TrimKeepsBars(s[1..]);
        assert s == [s[0]] + s[1..];
      } else if IsSpace(s[|s| - 1]) {
        TrimKeepsBars(s[..|s| - 1]);
        assert s == s[..|s| - 1] + [s[|s| - 1]];
      }
    }
  }

  /** Four bars or more; exactly four when no text has one. */
  lemma BarsOfId(k: FlowKey)
    ensures Bars(FlowId(k)) == 4 <==> BarFree(k)
  {
    hide Bars, TrimSpace, Itoa, Join;
    TrimKeepsBars(k.source);
    TrimKeepsBars(k.destination);
    TrimKeepsBars(k.protocol);
    BarsJoin(Parts(k));
    forall i | 0 <= i < 5 ensures Bars(Parts(k)[i]) == 0 <==> '|' !in Parts(k)[i] {
      BarsZero(Parts(k)[i]);
    }
    assert '|' !in Parts(k)[3] && '|' !in Parts(k)[4];
  }

  lemma SplitId(k: FlowKey)
    requires BarFree(k)
    ensures Split(FlowId(k), '|') == Parts(k)
  {
    TrimKeepsBars(k.source);
    TrimKeepsBars(k.destination);
    TrimKeepsBars(k.protocol);
    hide TrimSpace, Itoa, Join, Split;
    SplitJoin(Parts(k), '|');
  }

  lemma ItoaInjective(a: int, b: int)
    ensures Itoa(a) == Itoa(b) ==> a == b
  {
    DecimalRoundTrip(if a < 0 then -a else a);
    DecimalRoundTrip(if b < 0 then -b else b);
    hide Decimal, DecimalValue;
    if a < 0 { assert Itoa(a)[1..] == Decimal(-a) && Itoa(a)[0] == '-'; }
    if b < 0 { assert Itoa(b)[1..] == Decimal(-b) && Itoa(b)[0] == '-'; }
  }

  ghost predicate SameFlow(a: FlowKey, b: FlowKey) {
    && TrimSpace(a.source) == TrimSpace(b.source) && TrimSpace(a.destination) == TrimSpace(b.destination)
    && TrimSpace(a.protocol) == TrimSpace(b.protocol)
    && a.sourcePort == b.sourcePort && a.destinationPort == b.destinationPort
  }

  lemma SameParts(a: FlowKey, b: FlowKey)
    ensures Parts(a) == Parts(b) <==> SameFlow(a, b)
  {
    ItoaInjective(a.sourcePort, b.sourcePort);
    ItoaInjective(a.destinationPort, b.destinationPort);
    hide TrimSpace, Itoa;
    assert Parts(a) == Parts(b) ==> forall i :: 0 <= i < 5 ==> Parts(a)[i] == Parts(b)[i];
  }

  /** The id of a key without bars belongs to no other flow, whatever the other key's texts. */
  lemma FlowIdIdentifies(a: FlowKey, b: FlowKey)
    requires BarFree(a)
    ensures FlowId(a) == FlowId(b) <==> SameFlow(a, b)
  {
    hide FlowId, Parts, Bars, SameFlow;
    SameParts(a, b);
    BarsOfId(a);
    BarsOfId(b);
    SplitId(a);
    if BarFree(b) {
      SplitId(b);
    }
    IdOfParts(a, b);
  }

  lemma IdOfParts(a: FlowKey, b: FlowKey)
    ensures Parts(a) == Parts(b) ==> FlowId(a) == FlowId(b)
  {
  }

  lemma {:induction false} TrimWithoutBlanks(s: string)
    requires NoBlanks(s)
    ensures TrimSpace(s) == s
  {
  }

  lemma JoinTwo(parts: seq<string>)
    requires |parts| >= 3
    ensures Join(parts, '|') == (parts[0] + ['|'] + parts[1]) + ['|'] + Join(parts[2..], '|')
  {
    assert parts[1..][1..] == parts[2..];
  }

  lemma BarsAssociate(x: string, y: string, z: string)
    ensures (x + ['|'] + y) + ['|'] + z == x + ['|'] + (y + ['|'] + z)
  {
  }

  /** Moving a bar from one field to the next does not change the joined text. */
  lemma SlideFirst(x: string, y: string, z: string, p: string, s: string, d: string)
    ensures Join([x + ['|'] + y, z, p, s, d], '|') == Join([x, y + ['|'] + z, p, s, d], '|')
  {
    hide Join;
    var a, b := [x + ['|'] + y, z, p, s, d], [x, y + ['|'] + z, p, s, d];
    JoinTwo(a);
    JoinTwo(b);
    assert a[2..] == b[2..];
    BarsAssociate(x, y, z);
  }

  lemma SlideSecond(o: string, x: string, y: string, z: string, s: string, d: string)
    ensures Join([o, x + ['|'] + y, z, s, d], '|') == Join([o, x, y + ['|'] + z, s, d], '|')
  {
    var a, b := [o, x + ['|'] + y, z, s, d], [o, x, y + ['|'] + z, s, d];
    assert Join(a, '|') == o + ['|'] + Join(a[1..], '|') && Join(b, '|') == o + ['|'] + Join(b[1..], '|');
    hide Join;
    JoinTwo(a[1..]);
    JoinTwo(b[1..]);
    assert a[1..][2..] == b[1..][2..];
    BarsAssociate(x, y, z);
  }

  lemma BarSplits(s: string) returns (x: string, y: string)
    requires '|' in s && NoBlanks(s)
    ensures s == x + ['|'] + y && NoBlanks(x) && NoBlanks(y)
  {
    hide IsSpace;
    var i :| 0 <= i < |s| && s[i] == '|';
    x, y := s[..i], s[i + 1..];
  }

  lemma NoBlanksAround(x: string, y: string)
    requires NoBlanks(x) && NoBlanks(y)
    ensures NoBlanks(x + ['|'] + y)
  {
  }

  lemma PartsWithoutBlanks(k: FlowKey)
    requires KeyWithoutBlanks(k)
    ensures Parts(k) == [k.source, k.destination, k.protocol, Itoa(k.sourcePort), Itoa(k.destinationPort)]
  {
    hide NoBlanks, TrimSpace, Itoa;
    TrimWithoutBlanks(k.source);
    TrimWithoutBlanks(k.destination);
    TrimWithoutBlanks(k.protocol);
  }

  /** A key with a bar in a text and no blanks shares its id with another flow. */
  lemma BarIsShared(a: FlowKey) returns (b: FlowKey)
    requires KeyWithoutBlanks(a) && !BarFree(a)
    ensures FlowId(b) == FlowId(a) && !SameFlow(a, b)
  {
    hide NoBlanks, Itoa, Join, TrimSpace;
    PartsWithoutBlanks(a);
    var s, d := Itoa(a.sourcePort), Itoa(a.destinationPort);
    if '|' in a.source {
      var x, y := BarSplits(a.source);
      NoBlanksAround(y, a.destination);
      b := a.(source := x, destination := y + ['|'] + a.destination);
      SlideFirst(x, y, a.destination, a.protocol, s, d);
    } else if '|' in a.destination {
      var x, y := BarSplits(a.destination);
      NoBlanksAround(a.source, x);
      b := a.(source := a.source + ['|'] + x, destination := y);
      SlideFirst(a.source, x, y, a.protocol, s, d);
    } else {
      var x, y := BarSplits(a.protocol);
      NoBlanksAround(a.destination, x);
      b := a.(destination := a.destination + ['|'] + x, protocol := y);
      SlideSecond(a.source, a.destination, x, y, s, d);
    }
    PartsWithoutBlanks(b);
    TrimWithoutBlanks(a.destination);
    TrimWithoutBlanks(b.destination);
    assert |a.destination| != |b.destination|;
  }

  /** For keys without blanks: the id belongs to one flow exactly when no text has a bar. */
  lemma FlowIdUniqueExactlyWhen(a: FlowKey)
    requires KeyWithoutBlanks(a)
    ensures (forall b :: FlowId(b) == FlowId(a) ==> SameFlow(a, b)) <==> BarFree(a)
  {
    hide FlowId, SameFlow, NoBlanks;
    if BarFree(a) {
      forall b ensures FlowId(b) == FlowId(a) ==> SameFlow(a, b) {
        FlowIdIdentifies(a, b);
      }
    } else {
      var b := BarIsShared(a);
      assert FlowId(b) == FlowId(a) && !SameFlow(a, b);
    }
  }
}

/** The balancer's decision engine as a value. */
module BalancerModel {
  import opened Text
  import Arithmetic
  import opened WeightedRing
  import opened FlowKeys

  datatype Mode = Dumb | Labeled

  datatype Label = Dscp(value: int) | FwMark(value: int)

  datatype Flow = Flow(egressID: string, expiresAt: int)

  datatype Request = Request(key: FlowKey, dscp: int, fwmark: int)

  datatype Fallback = NoFallback | TargetMissing | TargetUnhealthy

  datatype Decision = Decision(egress: Egress, sticky: bool, fallback: Fallback, expiresAt: int)

  datatype Engine = Engine(
    mode: Mode,
    labels: map<Label, string>,
    idle: int,
    cursor: nat,
    flows: map<string, Flow>,
    egresses: seq<Egress>,
    health: Health)

  ghost predicate Valid(e: Engine) {
    WellFormed(e.egresses) && e.idle > 0
  }

  function Lookup(es: seq<Egress>, id: string): (r: Option<Egress>)
    ensures r.Some? ==> r.value in es && r.value.id == id
    ensures r.None? ==> forall x :: x in es ==> x.id != id
  {
    if es == [] then None
    else if es[|es| - 1].id == id then Some(es[|es| - 1])
    else Lookup(es[..|es| - 1], id)
  }

  function Live(flows: map<string, Flow>, now: int): map<string, Flow> {
    map k | k in flows && now < flows[k].expiresAt :: flows[k]
  }

  function FlowOf(key: FlowKey): Option<string> {
    if IsBlank(key) then None else Some(FlowId(key))
  }

  function Record(e: Engine, id: Option<string>, x: Egress, now: int): Engine {
    if id.None? then e else e.(flows := e.flows[id.value := Flow(x.id, now + e.idle)])
  }

  function Forget(e: Engine, id: Option<string>): Engine {
    if id.None? then e else e.(flows := e.flows - {id.value})
  }

  function HealthyById(e: Engine, id: string): Option<Egress> {
    var x := Lookup(e.egresses, id);
    if x.Some? && IsHealthy(e.health, x.value) then x else None
  }

  function StickyTarget(e: Engine, id: Option<string>): Option<Egress> {
    if id.None? || id.value !in e.flows then None else HealthyById(e, e.flows[id.value].egressID)
  }

  /** DSCP is looked up before the firewall mark. */
  function MappedEgress(e: Engine, req: Request): Option<string> {
    if req.dscp > 0 && Dscp(req.dscp) in e.labels then Some(e.labels[Dscp(req.dscp)])
    else if req.fwmark > 0 && FwMark(req.fwmark) in e.labels then Some(e.labels[FwMark(req.fwmark)])
    else None
  }

  function LabelTarget(e: Engine, req: Request): (Option<Egress>, Fallback) {
    var id := if e.mode == Labeled then MappedEgress(e, req) else None;
    if id.None? then (None, NoFallback)
    else if Lookup(e.egresses, id.value).None? then (None, TargetMissing)
    else if HealthyById(e, id.value).None? then (None, TargetUnhealthy)
    else (HealthyById(e, id.value), NoFallback)
  }

  function Select(e: Engine, req: Request, now: int): (Option<Decision>, Engine) {
    var live := e.(flows := Live(e.flows, now));
    var id := FlowOf(req.key);
    var sticky := StickyTarget(live, id);
    if sticky.Some? then
      (Some(Decision(sticky.value, true, NoFallback, now + e.idle)), Record(live, id, sticky.value, now))
    else
      var cleared := Forget(live, id);
      var (target, why) := LabelTarget(cleared, req);
      if target.Some? then
        (Some(Decision(target.value, false, NoFallback, now + e.idle)), Record(cleared, id, target.value, now))
      else
        var (picked, cursor) := Pick(Expand(e.egresses), e.health, e.cursor);
        var moved := cleared.(cursor := cursor);
        if picked.None? then (None, moved)
        else (Some(Decision(picked.value, false, why, now + e.idle)), Record(moved, id, picked.value, now))
  }

  // ----- What every decision keeps -----

  lemma {:induction false} ExpandHolds(es: seq<Egress>, x: Egress)
    requires forall i :: 0 <= i < |es| ==> es[i].weight > 0
    ensures x in Expand(es) <==> x in es
  {
    hide Repeat;
    if es != [] {
      var front, last := es[..|es| - 1], es[|es| - 1];
      ExpandHolds(front, x);
      RepeatHolds(last, last.weight, x);
      assert x in es <==> x in front || x == last by { assert es == front + [last]; }
    }
  }

  lemma RepeatHolds(e: Egress, n: int, x: Egress)
    requires n > 0
    ensures x in Repeat(e, n) <==> x == e
  {
    assert Repeat(e, n)[0] == e;
  }

  lemma PickNone(ring: seq<Egress>, h: Health, cursor: nat, i: nat)
    requires i < |ring| && Pick(ring, h, cursor).0.None?
    ensures !IsHealthy(h, ring[i])
  {
    hide FirstHealthy;
    if IsHealthy(h, ring[i]) {
      Arithmetic.DivModUnique(i, |ring|, 0, i);
      var q := HealthyWithinRound(ring, h, cursor, i);
    }
  }

  lemma PickFailsExactlyWhen(es: seq<Egress>, h: Health, cursor: nat)
    requires WellFormed(es)
    ensures Pick(Expand(es), h, cursor).0.None? <==> forall x :: x in es ==> !IsHealthy(h, x)
    ensures var p := Pick(Expand(es), h, cursor).0; p.Some? ==> p.value in es && IsHealthy(h, p.value)
  {
    var ring := Expand(es);
    assert ring != [] by { ExpandHolds(es, es[0]); }
    var p := Pick(ring, h, cursor).0;
    if p.Some? {
      ExpandHolds(es, p.value);
    } else {
      forall x | x in es ensures !IsHealthy(h, x) {
        ExpandHolds(es, x);
        var i :| 0 <= i < |ring| && ring[i] == x;
        PickNone(ring, h, cursor, i);
      }
    }
  }

  /** A decision fails exactly when every target is unhealthy, and never names an unhealthy or unknown one. */
  lemma SelectFailsExactlyWhen(e: Engine, req: Request, now: int)
    requires Valid(e)
    ensures Select(e, req, now).0.None? <==> forall x :: x in e.egresses ==> !IsHealthy(e.health, x)
    ensures var d := Select(e, req, now).0; d.Some? ==> d.value.egress in e.egresses && IsHealthy(e.health, d.value.egress)
  {
    PickFailsExactlyWhen(e.egresses, e.health, e.cursor);
    LabelTargetIsHealthy(Forget(e.(flows := Live(e.flows, now)), FlowOf(req.key)), req);
    hide Pick, WellFormed, FlowOf, LabelTarget, Lookup;
  }

  lemma LabelTargetIsHealthy(e: Engine, req: Request)
    ensures var t := LabelTarget(e, req).0; t.Some? ==> t.value in e.egresses && IsHealthy(e.health, t.value)
  {
    hide MappedEgress, Lookup;
  }

  /** After every call, successful or not, each stored flow entry expires strictly later than now. */
  lemma EntriesOutliveNow(e: Engine, req: Request, now: int)
    requires Valid(e)
    ensures var e' := Select(e, req, now).1;
            Valid(e') && forall k :: k in e'.flows ==> now < e'.flows[k].expiresAt
  {
    hide Pick, Expand, WellFormed, FlowOf, MappedEgress, Lookup;
  }

  /** An anonymous request in dumb mode is one decision of the ring, so runs of them are dealt fairly. */
  lemma AnonymousSelectIsPick(e: Engine, req: Request, now: int)
    requires e.mode == Dumb && IsBlank(req.key)
    ensures var (d, e') := Select(e, req, now);
            var (x, cursor) := Pick(Expand(e.egresses), e.health, e.cursor);
            (d.Some? <==> x.Some?) && (d.Some? ==> d.value.egress == x.value) && e'.cursor == cursor
  {
    assert FlowOf(req.key).None?;
    var ring := Expand(e.egresses);
    var live := e.(flows := Live(e.flows, now));
    assert Forget(live, None) == live && LabelTarget(live, req) == (None, NoFallback);
    var (x, cursor) := Pick(ring, e.health, e.cursor);
    hide Pick, FlowOf, LabelTarget;
    assert Select(e, req, now).1.cursor == cursor;
  }

  // ----- Stickiness over runs -----

  datatype Op = DoSelect(req: Request, now: int) | SetHealth(id: string, healthy: bool) | Replace(egresses: seq<Egress>)

  function Apply(e: Engine, op: Op): Engine {
    match op
    case DoSelect(req, now) => Select(e, req, now).1
    case SetHealth(id, healthy) => e.(health := e.health[id := healthy])
    case Replace(egresses) => e.(egresses := egresses)
  }

  function Run(e: Engine, ops: seq<Op>): Engine {
    if ops == [] then e else Apply(Run(e, ops[..|ops| - 1]), ops[|ops| - 1])
  }

  /** Another flow's request, or a change of health or targets, made no later than `until`. */
  predicate LeavesFlow(op: Op, id: string, until: int) {
    op.DoSelect? ==> FlowOf(op.req.key) != Some(id) && op.now < until
  }

  lemma ApplyLeavesFlow(e: Engine, op: Op, id: string)
    requires id in e.flows && LeavesFlow(op, id, e.flows[id].expiresAt)
    ensures id in Apply(e, op).flows && Apply(e, op).flows[id] == e.flows[id]
    ensures Apply(e, op).idle == e.idle
  {
    hide Pick, Expand, FlowOf, MappedEgress, Lookup;
  }

  lemma {:induction false} RunLeavesFlow(e: Engine, ops: seq<Op>, id: string)
    requires id in e.flows && forall op :: op in ops ==> LeavesFlow(op, id, e.flows[id].expiresAt)
    ensures id in Run(e, ops).flows && Run(e, ops).flows[id] == e.flows[id]
    ensures Run(e, ops).idle == e.idle
  {
    hide Apply, LeavesFlow;
    if ops != [] {
      RunLeavesFlow(e, ops[..|ops| - 1], id);
      ApplyLeavesFlow(Run(e, ops[..|ops| - 1]), ops[|ops| - 1], id);
    }
  }

  /** Stickiness: a flow that comes back within its idle window, with its target still present and healthy,
      gets the same target, whatever other flows, probes and target changes happened in between; and its
      window starts afresh. */
  lemma FlowSticks(e: Engine, first: Request, t: int, ops: seq<Op>, again: Request, t': int)
    requires Valid(e) && FlowOf(first.key).Some? && FlowOf(again.key) == FlowOf(first.key)
    requires Select(e, first, t).0.Some? && t <= t' < t + e.idle
    requires forall op :: op in ops ==> LeavesFlow(op, FlowOf(first.key).value, t + e.idle)
    requires var e2 := Run(Select(e, first, t).1, ops);
             HealthyById(e2, Select(e, first, t).0.value.egress.id).Some?
    ensures var d := Select(e, first, t).0.value;
            var (d2, e3) := Select(Run(Select(e, first, t).1, ops), again, t');
            && d2.Some? && d2.value.egress.id == d.egress.id && d2.value.sticky
            && e3.flows[FlowOf(first.key).value] == Flow(d.egress.id, t' + e.idle)
  {
    var id := FlowOf(first.key).value;
    var (d, e1) := Select(e, first, t);
    assert id in e1.flows && e1.flows[id] == Flow(d.value.egress.id, t + e.idle) && e1.idle == e.idle by {
      SelectRecords(e, first, t);
    }
    hide Pick, Expand, FlowOf, MappedEgress, Lookup, Run, LeavesFlow;
    RunLeavesFlow(e1, ops, id);
  }

  lemma SelectRecords(e: Engine, req: Request, now: int)
    requires FlowOf(req.key).Some? && Select(e, req, now).0.Some?
    ensures var (d, e') := Select(e, req, now);
            && FlowOf(req.key).value in e'.flows && e'.idle == e.idle
            && e'.flows[FlowOf(req.key).value] == Flow(d.value.egress.id, now + e.idle)
  {
    hide Pick, Expand, FlowOf, MappedEgress, Lookup;
  }
}

/** Which target a decision names, case by case, in terms of the engine's data. */
module SelectionLaws {
  import opened Text
  import opened WeightedRing
  import opened FlowKeys
  import opened BalancerModel

  /** Never probed, or found healthy when last probed. */
  predicate Up(e: Engine, x: Egress) {
    x.id in e.health ==> e.health[x.id]
  }

  predicate HasKey(k: FlowKey) {
    || TrimSpace(k.source) != "" || TrimSpace(k.destination) != "" || TrimSpace(k.protocol) != ""
    || k.sourcePort != 0 || k.destinationPort != 0
  }

  /** The request's flow was sent to `x`, its entry has not expired, and `x` is present and up. */
  ghost predicate Sticks(e: Engine, req: Request, now: int, x: Egress) {
    && HasKey(req.key) && FlowId(req.key) in e.flows
    && var entry := e.flows[FlowId(req.key)];
    && now < entry.expiresAt && x in e.egresses && x.id == entry.egressID && Up(e, x)
  }

  ghost predicate NothingSticks(e: Engine, req: Request, now: int) {
    forall x :: !Sticks(e, req, now, x)
  }

  /** The label that counts: a positive DSCP value with a mapping, else a positive firewall mark with one. */
  predicate Labels(e: Engine, req: Request, l: Label) {
    && e.mode == Labeled && l in e.labels
    && match l
       case Dscp(v) => v == req.dscp && v > 0
       case FwMark(v) => v == req.fwmark && v > 0 && (req.dscp <= 0 || Dscp(req.dscp) !in e.labels)
  }

  /** The decision names `x`. */
  ghost predicate Names(e: Engine, req: Request, now: int, x: Egress, sticky: bool) {
    var (d, e') := Select(e, req, now);
    d == Some(Decision(x, sticky, NoFallback, now + e.idle)) && e'.cursor == e.cursor
  }

  /** The decision is the next healthy place of the ring, with this fallback reason. */
  ghost predicate FromRing(e: Engine, req: Request, now: int, why: Fallback) {
    var (d, e') := Select(e, req, now);
    var (x, cursor) := Pick(Expand(e.egresses), e.health, e.cursor);
    && e'.cursor == cursor
    && d == if x.None? then None else Some(Decision(x.value, false, why, now + e.idle))
  }

  lemma LookupFinds(es: seq<Egress>, id: string, x: Egress)
    requires WellFormed(es) && x in es && x.id == id
    ensures Lookup(es, id) == Some(x)
  {
    var y := Lookup(es, id).value;
    var i :| 0 <= i < |es| && es[i] == x;
    var j :| 0 <= j < |es| && es[j] == y;
  }

  lemma StickyIs(e: Engine, req: Request, now: int)
    requires Valid(e)
    ensures var t := StickyTarget(e.(flows := Live(e.flows, now)), FlowOf(req.key));
            && (t.Some? ==> Sticks(e, req, now, t.value))
            && (forall x :: Sticks(e, req, now, x) ==> t == Some(x))
  {
    hide TrimSpace, FlowId, Lookup;
    forall x | Sticks(e, req, now, x)
      ensures StickyTarget(e.(flows := Live(e.flows, now)), FlowOf(req.key)) == Some(x)
    {
      LookupFinds(e.egresses, x.id, x);
    }
  }

  /** A flow that sticks keeps its target, and the ring does not move. */
  lemma StickyTargetIsNamed(e: Engine, req: Request, now: int, x: Egress)
    requires Valid(e) && Sticks(e, req, now, x)
    ensures Names(e, req, now, x, true)
  {
    StickyIs(e, req, now);
    hide StickyTarget, Pick, Expand, LabelTarget, FlowOf, Sticks;
  }

  lemma LabelTargetIs(e: Engine, req: Request, l: Label, x: Option<Egress>)
    requires WellFormed(e.egresses) && Labels(e, req, l)
    requires x.Some? ==> x.value in e.egresses && x.value.id == e.labels[l]
    requires x.None? ==> forall y <- e.egresses :: y.id != e.labels[l]
    ensures LabelTarget(e, req) ==
            if x.None? then (None, TargetMissing)
            else if Up(e, x.value) then (x, NoFallback)
            else (None, TargetUnhealthy)
  {
    hide Lookup;
    if x.Some? {
      LookupFinds(e.egresses, e.labels[l], x.value);
    }
  }

  lemma UnstuckSelect(e: Engine, req: Request, now: int)
    requires Valid(e) && NothingSticks(e, req, now)
    ensures var (target, why) := LabelTarget(e, req);
            if target.Some? then Names(e, req, now, target.value, false) else FromRing(e, req, now, why)
  {
    StickyIs(e, req, now);
    hide StickyTarget, Pick, Expand, FlowOf, Sticks, Lookup;
    var live := e.(flows := Live(e.flows, now));
    assert StickyTarget(live, FlowOf(req.key)).None?;
    assert LabelTarget(Forget(live, FlowOf(req.key)), req) == LabelTarget(e, req);
    hide LabelTarget;
  }

  /** In labelled mode a label sends the request to its target when that is present and up, without moving the
      ring; otherwise the ring answers, and the reason says whether the target was missing or unhealthy. */
  lemma LabelDecides(e: Engine, req: Request, now: int, l: Label)
    requires Valid(e) && NothingSticks(e, req, now) && Labels(e, req, l)
    ensures forall x <- e.egresses :: x.id == e.labels[l] && Up(e, x) ==> Names(e, req, now, x, false)
    ensures forall x <- e.egresses :: x.id == e.labels[l] && !Up(e, x) ==> FromRing(e, req, now, TargetUnhealthy)
    ensures (forall x <- e.egresses :: x.id != e.labels[l]) ==> FromRing(e, req, now, TargetMissing)
  {
    UnstuckSelect(e, req, now);
    hide Labels, LabelTarget, Names, FromRing, NothingSticks, WellFormed;
    forall x | x in e.egresses && x.id == e.labels[l]
      ensures if Up(e, x) then Names(e, req, now, x, false) else FromRing(e, req, now, TargetUnhealthy)
    {
      LabelTargetIs(e, req, l, Some(x));
    }
    if forall x <- e.egresses :: x.id != e.labels[l] {
      LabelTargetIs(e, req, l, None);
    }
  }

  /** Without a label that counts the ring answers, and nothing is reported as a fallback. */
  lemma RingDecides(e: Engine, req: Request, now: int)
    requires Valid(e) && NothingSticks(e, req, now) && forall l :: !Labels(e, req, l)
    ensures FromRing(e, req, now, NoFallback)
  {
    assert !Labels(e, req, Dscp(req.dscp)) && !Labels(e, req, FwMark(req.fwmark));
    assert LabelTarget(e, req) == (None, NoFallback);
    UnstuckSelect(e, req, now);
    hide *;
  }

  /** A decision records its own flow and leaves every other live flow alone; expired flows are gone. */
  lemma OnlyOwnFlowChanges(e: Engine, req: Request, now: int, k: string)
    ensures var (d, e') := Select(e, req, now);
            && (HasKey(req.key) && k == FlowId(req.key) && d.Some? ==>
                  k in e'.flows && e'.flows[k] == Flow(d.value.egress.id, now + e.idle))
            && (!(HasKey(req.key) && k == FlowId(req.key)) ==>
                  && (k in e'.flows <==> k in e.flows && now < e.flows[k].expiresAt)
                  && (k in e'.flows ==> e'.flows[k] == e.flows[k]))
            && e'.egresses == e.egresses && e'.health == e.health && e'.labels == e.labels && e'.mode == e.mode
            && e'.idle == e.idle
  {
    hide Pick, Expand, Lookup, LabelTarget, TrimSpace, FlowId;
  }

  /** A probe result decides the health of its own target and of no other. */
  lemma ProbeDecidesHealth(e: Engine, id: string, healthy: bool, x: Egress)
    ensures IsHealthy(Apply(e, SetHealth(id, healthy)).health, x) == if x.id == id then healthy else Up(e, x)
  {
  }
}

/** The engine object and the construction of its target snapshot. */
module Balancer {
  import opened Text
  import opened WeightedRing
  import opened FlowKeys
  import opened BalancerModel

  datatype TargetError = NoTargets | BadID | BadTarget | BadWeight | DuplicateID

  /** `validTarget` stands for the check that the endpoint is an address with a port. */
  function NormalizeTarget(x: Egress, validTarget: string -> bool): Result<Egress, TargetError> {
    var id := TrimSpace(x.id);
    var target := TrimSpace(x.target);
    if id == "" || exists i :: 0 <= i < |id| && id[i] in " \t\r\n=," then Err(BadID)
    else if !validTarget(target) then Err(BadTarget)
    else if x.weight <= 0 then Err(BadWeight)
    else Ok(Egress(id, target, x.weight))
  }

  lemma NormalizedFacts(x: Egress, validTarget: string -> bool)
    ensures var r := NormalizeTarget(x, validTarget);
            var id := TrimSpace(x.id);
            && (r.Ok? <==>
                  && id != "" && ' ' !in id && '\t' !in id && '\r' !in id && '\n' !in id && '=' !in id && ',' !in id
                  && validTarget(TrimSpace(x.target)) && x.weight > 0)
            && (r.Ok? ==> r.value.id == id && r.value.target == TrimSpace(x.target) && r.value.weight == x.weight > 0)
  {
    hide TrimSpace;
    var id, bad := TrimSpace(x.id), " \t\r\n=,";
    assert bad[0] == ' ' && bad[1] == '\t' && bad[2] == '\r' && bad[3] == '\n' && bad[4] == '=' && bad[5] == ',';
  }

  ghost predicate Refused(egresses: seq<Egress>, validTarget: string -> bool, i: nat) {
    i < |egresses| && NormalizeTarget(egresses[i], validTarget).Err?
  }

  ghost predicate SameID(egresses: seq<Egress>, i: nat, j: nat) {
    i < j < |egresses| && TrimSpace(egresses[i].id) == TrimSpace(egresses[j].id)
  }

  /** The first targets, normalized, with distinct ids. */
  ghost predicate NormalizedSoFar(egresses: seq<Egress>, validTarget: string -> bool, out: seq<Egress>) {
    && |out| <= |egresses|
    && (forall i :: 0 <= i < |out| ==> NormalizeTarget(egresses[i], validTarget) == Ok(out[i]))
    && (forall i, j :: 0 <= i < j < |out| ==> out[i].id != out[j].id)
  }

  lemma NormalizedIsWellFormed(egresses: seq<Egress>, validTarget: string -> bool, out: seq<Egress>)
    requires out != [] && NormalizedSoFar(egresses, validTarget, out)
    ensures WellFormed(out)
  {
    hide NormalizeTarget;
    forall i | 0 <= i < |out| ensures out[i].weight > 0 {
      NormalizedFacts(egresses[i], validTarget);
    }
  }

  function IDs(es: seq<Egress>): set<string> {
    set e <- es :: e.id
  }

  lemma DuplicateFound(egresses: seq<Egress>, validTarget: string -> bool, out: seq<Egress>, id: string)
    requires NormalizedSoFar(egresses, validTarget, out) && |out| < |egresses|
    requires id == TrimSpace(egresses[|out|].id) && id in IDs(out)
    ensures exists i: nat, j: nat :: SameID(egresses, i, j)
  {
    hide NormalizeTarget, TrimSpace;
    var e :| e in out && e.id == id;
    var k :| 0 <= k < |out| && out[k] == e;
    NormalizedFacts(egresses[k], validTarget);
    assert SameID(egresses, k, |out|);
  }

  lemma OneMore(egresses: seq<Egress>, validTarget: string -> bool, out: seq<Egress>, next: Egress)
    requires NormalizedSoFar(egresses, validTarget, out) && |out| < |egresses|
    requires NormalizeTarget(egresses[|out|], validTarget) == Ok(next) && next.id !in IDs(out)
    ensures NormalizedSoFar(egresses, validTarget, out + [next])
    ensures IDs(out + [next]) == IDs(out) + {next.id}
  {
    hide NormalizeTarget;
    assert forall i :: 0 <= i < |out| ==> out[i].id in IDs(out);
  }

  /** A snapshot lists each id once with a positive weight, and its ring repeats each target by weight. */
  method NewSnapshot(egresses: seq<Egress>, validTarget: string -> bool)
    returns (r: Result<(seq<Egress>, seq<Egress>), TargetError>)
    ensures r.Ok? ==> WellFormed(r.value.0) && r.value.1 == Expand(r.value.0)
    ensures r.Ok? ==> |r.value.0| == |egresses| && NormalizedSoFar(egresses, validTarget, r.value.0)
    ensures r.Err? ==> egresses == [] || (exists i: nat :: Refused(egresses, validTarget, i))
                       || (exists i: nat, j: nat :: SameID(egresses, i, j))
  {
    hide TrimSpace, NormalizeTarget, IDs, NormalizedSoFar, SameID;
    if |egresses| == 0 {
      return Err(NoTargets);
    }
    var normalized: seq<Egress> := [];
    var ids: set<string> := {};
    assert NormalizedSoFar(egresses, validTarget, []) && IDs([]) == {} by { NothingYet(egresses, validTarget); }
    for i := 0 to |egresses|
      invariant |normalized| == i && NormalizedSoFar(egresses, validTarget, normalized)
      invariant ids == IDs(normalized)
    {
      var next := NormalizeTarget(egresses[i], validTarget);
      NormalizedFacts(egresses[i], validTarget);
      if next.Err? {
        assert Refused(egresses, validTarget, i);
        return Err(next.error);
      }
      if next.value.id in ids {
        DuplicateFound(egresses, validTarget, normalized, next.value.id);
        return Err(DuplicateID);
      }
      OneMore(egresses, validTarget, normalized, next.value);
      normalized := normalized + [next.value];
      ids := ids + {next.value.id};
    }
    NormalizedIsWellFormed(egresses, validTarget, normalized);
    var weighted := ExpandLoop(normalized);
    r := Ok((normalized, weighted));
  }

  lemma NothingYet(egresses: seq<Egress>, validTarget: string -> bool)
    ensures NormalizedSoFar(egresses, validTarget, []) && IDs([]) == {}
  {
  }

  method ExpandLoop(normalized: seq<Egress>) returns (weighted: seq<Egress>)
    ensures weighted == Expand(normalized)
  {
    weighted := [];
    for i := 0 to |normalized|
      invariant weighted == Expand(normalized[..i])
    {
      var egress := normalized[i];
      assert normalized[..i + 1][..i] == normalized[..i];
      ghost var before := weighted;
      var k := 0;
      while k < egress.weight
        invariant 0 <= k && (egress.weight > 0 ==> k <= egress.weight) && (egress.weight <= 0 ==> k == 0)
        invariant weighted == before + Repeat(egress, k)
      {
        assert Repeat(egress, k) + [egress] == Repeat(egress, k + 1);
        weighted := weighted + [egress];
        k := k + 1;
      }
    }
    assert normalized[..|normalized|] == normalized;
  }

  class EngineObject {
    const mode: Mode
    const labels: map<Label, string>
    const idle: int
    var cursor: nat
    var flows: map<string, Flow>
    var egresses: seq<Egress>
    var ring: seq<Egress>
    var health: Health

    function State(): Engine
      reads this
    {
      Engine(mode, labels, idle, cursor, flows, egresses, health)
    }

    ghost predicate Consistent()
      reads this
    {
      BalancerModel.Valid(State()) && ring == Expand(egresses)
    }

    /** A non-positive idle time falls back to thirty seconds. */
    constructor (mode: Mode, labels: map<Label, string>, flowIdle: int, egresses: seq<Egress>)
      requires WellFormed(egresses)
      ensures Consistent() && cursor == 0 && flows == map[] && health == map[]
      ensures this.mode == mode && this.labels == labels && this.egresses == egresses
      ensures idle == if flowIdle <= 0 then 30_000_000_000 else flowIdle
    {
      this.mode, this.labels := mode, labels;
      idle := if flowIdle <= 0 then 30_000_000_000 else flowIdle;
      cursor, flows, health := 0, map[], map[];
      this.egresses := egresses;
      ring := [];
      new;
      var weighted := ExpandLoop(egresses);
      ring := weighted;
    }

    method ExpireFlows(now: int)
      modifies this`flows
      ensures flows == Live(old(flows), now)
    {
      ghost var all := flows;
      var todo := flows.Keys;
      while todo != {}
        invariant todo <= all.Keys
        invariant flows == map k | k in all && (k in todo || now < all[k].expiresAt) :: all[k]
      {
        var k :| k in todo;
        if flows[k].expiresAt <= now {
          flows := flows - {k};
        }
        todo := todo - {k};
      }
    }

    method NextHealthyDumb() returns (picked: Option<Egress>)
      modifies this`cursor
      ensures (picked, cursor) == Pick(ring, health, old(cursor))
    {
      if |ring| == 0 {
        return None;
      }
      for i := 0 to |ring|
        invariant cursor == old(cursor) + i
        invariant FirstHealthy(ring, health, old(cursor), |ring|) == FirstHealthy(ring, health, cursor, |ring| - i)
      {
        var candidate := ring[cursor % |ring|];
        cursor := cursor + 1;
        if IsHealthy(health, candidate) {
          return Some(candidate);
        }
      }
      picked := None;
    }

    method RecordFlow(id: Option<string>, x: Egress, now: int)
      modifies this`flows
      ensures State() == Record(old(State()), id, x, now)
    {
      if id.Some? {
        flows := flows[id.value := Flow(x.id, now + idle)];
      }
    }

    method Select(req: Request, now: int) returns (d: Option<Decision>)
      requires Consistent()
      modifies this`cursor, this`flows
      ensures (d, State()) == BalancerModel.Select(old(State()), req, now) && Consistent()
    {
      hide Pick, WellFormed, FlowId, Lookup, IsBlank;
      ghost var e := State();
      ExpireFlows(now);
      var id := FlowOf(req.key);
      if id.Some? && id.value in flows {
        var target := Lookup(egresses, flows[id.value].egressID);
        if target.Some? && IsHealthy(health, target.value) {
          RecordFlow(id, target.value, now);
          return Some(Decision(target.value, true, NoFallback, now + idle));
        }
        flows := flows - {id.value};
      }
      assert State() == Forget(e.(flows := Live(e.flows, now)), id);
      var target, why := FromLabel(req);
      if target.Some? {
        RecordFlow(id, target.value, now);
        return Some(Decision(target.value, false, NoFallback, now + idle));
      }
      var picked := NextHealthyDumb();
      if picked.None? {
        return None;
      }
      RecordFlow(id, picked.value, now);
      d := Some(Decision(picked.value, false, why, now + idle));
    }

    method FromLabel(req: Request) returns (target: Option<Egress>, why: Fallback)
      ensures (target, why) == LabelTarget(State(), req)
    {
      hide Lookup;
      target, why := None, NoFallback;
      if mode == Labeled {
        var id := MappedEgress(State(), req);
        if id.Some? {
          var found := Lookup(egresses, id.value);
          if found.None? {
            why := TargetMissing;
          } else if IsHealthy(health, found.value) {
            target := found;
          } else {
            why := TargetUnhealthy;
          }
        }
      }
    }
  }
}
