/** The client's view of ownership. Updates are whole snapshots with a version; the first
    one on a stream is taken as it is, a later one only when its version is newer. */
module ClientState {
  import opened LedgerModel

  datatype ClientEntry = ClientEntry(overlayIP: string, owner: string, reassignedAtUnix: int, reason: string)

  datatype Update = Update(entries: seq<Entry>, version: nat, full: bool)

  /** `version` may come from a cache that outlived another control-plane process. */
  datatype Client = Client(ownership: seq<ClientEntry>, version: int, snapshotSeen: bool)

  /** The wire form drops the previous owner and the entry version. */
  function ToWire(e: Entry): ClientEntry {
    ClientEntry(e.overlayIP, e.owner, e.reassignedAt / 1_000_000_000, e.reason)
  }

  function View(entries: seq<Entry>): seq<ClientEntry> {
    seq(|entries|, i requires 0 <= i < |entries| => ToWire(entries[i]))
  }

  /** The client's entry tells the owner, the reason and the time in whole seconds of the ledger's. */
  ghost predicate Tells(c: ClientEntry, k: string, e: Entry) {
    && c.overlayIP == k && c.owner == e.owner && c.reason == e.reason
    && c.reassignedAtUnix * 1_000_000_000 <= e.reassignedAt < (c.reassignedAtUnix + 1) * 1_000_000_000
  }

  lemma WireTells(e: Entry)
    ensures Tells(ToWire(e), e.overlayIP, e)
  {
  }

  function WithOwnership(c: Client, u: Update): Client {
    if u.version <= c.version then c else c.(ownership := View(u.entries), version := u.version)
  }

  function WithOwnershipSnapshot(c: Client, u: Update): Client {
    Client(View(u.entries), u.version, true)
  }

  function Absorb(c: Client, u: Update): Client {
    if c.snapshotSeen then WithOwnership(c, u) else WithOwnershipSnapshot(c, u)
  }

  function AbsorbAll(c: Client, us: seq<Update>): Client {
    if us == [] then c else Absorb(AbsorbAll(c, us[..|us| - 1]), us[|us| - 1])
  }

  /** One version, one content. */
  ghost predicate VersionDetermines(us: seq<Update>) {
    forall i, j :: 0 <= i < |us| && 0 <= j < |us| && us[i].version == us[j].version ==> us[i].entries == us[j].entries
  }

  ghost predicate Newest(us: seq<Update>, u: Update) {
    u in us && forall i :: 0 <= i < |us| ==> us[i].version <= u.version
  }

  /** After a stream's messages the client holds the newest of them. */
  lemma {:induction false} AbsorbAllHoldsNewest(c: Client, us: seq<Update>) returns (u: Update)
    requires us != [] && (c.snapshotSeen ==> forall i :: 0 <= i < |us| ==> us[i].version > c.version)
    ensures Newest(us, u)
    ensures AbsorbAll(c, us) == Client(View(u.entries), u.version, true)
  {
    var init, last := us[..|us| - 1], us[|us| - 1];
    assert us == init + [last];
    if init == [] {
      u := last;
    } else {
      u := AbsorbAllHoldsNewest(c, init);
      if last.version > u.version {
        u := last;
      }
    }
  }

  /** And its list tells that message entry by entry. */
  lemma AbsorbAllTellsNewest(c: Client, us: seq<Update>) returns (u: Update)
    requires us != [] && (c.snapshotSeen ==> forall i :: 0 <= i < |us| ==> us[i].version > c.version)
    ensures Newest(us, u) && AbsorbAll(c, us).version == u.version
    ensures var list := AbsorbAll(c, us).ownership;
            |list| == |u.entries| && forall i :: 0 <= i < |list| ==> Tells(list[i], u.entries[i].overlayIP, u.entries[i])
  {
    hide Tells, AbsorbAll, Newest;
    u := AbsorbAllHoldsNewest(c, us);
    forall i | 0 <= i < |u.entries| ensures Tells(View(u.entries)[i], u.entries[i].overlayIP, u.entries[i]) {
      WireTells(u.entries[i]);
    }
  }

  /** Reordering the messages of a stream does not change where the client ends. */
  lemma AbsorbAllOrderFree(c: Client, us: seq<Update>, vs: seq<Update>)
    requires !c.snapshotSeen && multiset(us) == multiset(vs) && VersionDetermines(us)
    ensures AbsorbAll(c, us) == AbsorbAll(c, vs)
  {
    assert |us| == |multiset(us)| == |multiset(vs)| == |vs|;
    if us != [] {
      var u := AbsorbAllHoldsNewest(c, us);
      var v := AbsorbAllHoldsNewest(c, vs);
      assert v in multiset(us) && u in multiset(vs);
      assert v in us && u in vs;
    }
  }
}

/** The whole ownership protocol with its interleavings: ledger mutations, listener calls that
    run after the lock is released and so may overtake each other, one observed stream with its
    client, and any number of other subscribers. Each locked section is one step. */
module OwnershipProtocol {
  import opened Text
  import opened LedgerModel
  import Fanout = FanoutModel
  import opened ClientState

  /** The server side of the observed stream: it takes its snapshot, sends it, and only
      then subscribes. */
  datatype Stream = NotOpen | Taken(first: Update) | Sent(first: Update) | Live(first: Update, c: nat) | Over

  datatype System = System(
    ledger: Ledger,
    history: seq<map<string, Entry>>,   // the ledger's content at each version
    calls: set<Update>,                 // listener calls that have not reached the broadcaster
    world: Fanout.World<Update>,
    stream: Stream,
    wire: seq<Update>,                  // sent on the stream, not yet received
    client: Client,
    absorbed: seq<Update>)              // what the client has received

  datatype Step =
    | Mutate(op: Op)
    | Call(u: Update)
    | Other(step: Fanout.Step<Update>)
    | Open
    | SendFirst
    | Subscribe
    | Forward
    | End
    | Receive

  function Initial(cached: Client): System {
    System(EMPTY, [map[]], {}, Fanout.NewWorld(), NotOpen, [], cached.(snapshotSeen := false), [])
  }

  /** Steps of other subscribers: anything but a broadcast or the observed channel. */
  predicate IsOther(stream: Stream, step: Fanout.Step<Update>) {
    match step
    case DoSubscribe => true
    case DoBroadcast(_) => false
    case DoCancel(n) => !(stream.Live? && stream.c == n)
    case DoReceive(n) => !(stream.Live? && stream.c == n)
  }

  ghost function WorldNext(w: Fanout.World<Update>, step: Fanout.Step<Update>): (w': Fanout.World<Update>)
    requires Fanout.Good(w)
    ensures Fanout.Good(w')
  {
    Fanout.NextIsGood(w, step);
    Fanout.Next(w, step).value
  }

  /** A step that is not enabled leaves the system as it is. */
  ghost function Next(s: System, step: Step): System
    requires Fanout.Good(s.world)
  {
    match step
    case Mutate(op) =>
      var l := Apply(s.ledger, op);
      if l.version == s.ledger.version then s
      else s.(ledger := l, history := s.history + [l.entries],
              calls := s.calls + {Update(SnapshotOf(l.entries), l.version, false)})
    case Call(u) =>
      if u !in s.calls then s
      else s.(calls := s.calls - {u}, world := WorldNext(s.world, Fanout.DoBroadcast(u)))
    case Other(step) =>
      if !IsOther(s.stream, step) then s else s.(world := WorldNext(s.world, step))
    case Open =>
      if !s.stream.NotOpen? then s
      else s.(stream := Taken(Update(SnapshotOf(s.ledger.entries), s.ledger.version, true)))
    case SendFirst =>
      if !s.stream.Taken? then s
      else s.(stream := Sent(s.stream.first), wire := s.wire + [s.stream.first])
    case Subscribe =>
      if !s.stream.Sent? then s
      else s.(stream := Live(s.stream.first, |s.world.fanout.channels|), world := WorldNext(s.world, Fanout.DoSubscribe))
    case Forward =>
      if !s.stream.Live? || s.stream.c >= |s.world.fanout.channels| || s.world.fanout.channels[s.stream.c].buffer == [] then s
      else s.(wire := s.wire + [s.world.fanout.channels[s.stream.c].buffer[0]],
              world := WorldNext(s.world, Fanout.DoReceive(s.stream.c)))
    case End =>
      if s.stream.Live? then s.(stream := Over, world := WorldNext(s.world, Fanout.DoCancel(s.stream.c)))
      else if s.stream.NotOpen? then s
      else s.(stream := Over)
    case Receive =>
      if s.wire == [] then s
      else s.(wire := s.wire[1..], client := Absorb(s.client, s.wire[0]), absorbed := s.absorbed + [s.wire[0]])
  }

  // ----- The invariant -----

  ghost predicate HistoryMatches(s: System) {
    && |s.history| == s.ledger.version + 1
    && s.history[s.ledger.version] == s.ledger.entries
  }

  /** The message is the ledger's snapshot at its version. */
  ghost predicate Genuine(history: seq<map<string, Entry>>, u: Update) {
    u.version < |history| && u.entries == SnapshotOf(history[u.version])
  }

  ghost predicate AllGenuine(history: seq<map<string, Entry>>, us: seq<Update>) {
    forall i :: 0 <= i < |us| ==> Genuine(history, us[i])
  }

  /** Every mutation is announced exactly once: its call is pending, or it is in the log once. */
  ghost predicate AnnouncedOnce(s: System) {
    && (forall v :: 1 <= v <= s.ledger.version ==> Announced(s, v))
    && (forall i, j :: 0 <= i < j < |s.world.log| ==> s.world.log[i].version != s.world.log[j].version)
    && (forall u, i :: u in s.calls && 0 <= i < |s.world.log| ==> s.world.log[i].version != u.version)
    && (forall u :: u in s.calls ==> !u.full)
  }

  ghost predicate Announced(s: System, v: nat) {
    || (exists u :: u in s.calls && u.version == v)
    || (exists i :: 0 <= i < |s.world.log| && s.world.log[i].version == v)
  }

  /** What the stream has put on the wire so far. */
  ghost predicate StreamSent(s: System) {
    var all := s.absorbed + s.wire;
    match s.stream
    case NotOpen => all == []
    case Taken(_) => all == []
    case Sent(first) => all == [first]
    case Live(first, c) => c < |s.world.received| && all == [first] + s.world.received[c]
    case Over => true
  }

  ghost predicate Sound(s: System) {
    && HistoryMatches(s)
    && (forall u :: u in s.calls ==> Genuine(s.history, u))
    && AllGenuine(s.history, s.world.log)
    && AllGenuine(s.history, s.absorbed + s.wire)
    && (s.stream.Taken? || s.stream.Sent? || s.stream.Live? ==> Genuine(s.history, s.stream.first))
    && StreamSent(s)
  }

  ghost predicate ClientFollows(s: System, cached: Client) {
    s.client == AbsorbAll(cached.(snapshotSeen := false), s.absorbed)
  }

  ghost predicate Inv(s: System, cached: Client) {
    && Fanout.Good(s.world)
    && Sound(s)
    && AnnouncedOnce(s)
    && ClientFollows(s, cached)
  }

  // ----- Every step keeps the invariant -----

  lemma WorldFacts(w: Fanout.World<Update>, step: Fanout.Step<Update>)
    requires Fanout.Good(w)
    ensures var w' := WorldNext(w, step);
            && Fanout.Good(w')
            && w'.log == (if step.DoBroadcast? then w.log + [step.m] else w.log)
            && |w'.received| == |w'.from| == |w'.fanout.channels| >= |w.received| == |w.from| == |w.fanout.channels|
            && (step.DoSubscribe? ==> |w'.received| == |w.received| + 1 && w'.received[|w.received|] == [])
            && (forall c :: 0 <= c < |w.received| && !(step.DoReceive? && step.n == c) ==> w'.received[c] == w.received[c])
            && (step.DoReceive? && step.n < |w.received| && w.fanout.channels[step.n].buffer != [] ==>
                  w'.received[step.n] == w.received[step.n] + [w.fanout.channels[step.n].buffer[0]])
  {
    hide Fanout.Valid;
    Fanout.NextIsGood(w, step);
  }

  lemma BufferedIsLogged(w: Fanout.World<Update>, c: nat)
    requires Fanout.Good(w) && c < |w.fanout.channels| && w.fanout.channels[c].buffer != []
    ensures w.fanout.channels[c].buffer[0] in w.log
  {
    hide Fanout.Valid;
    var k := |w.received[c]|;
    assert (w.received[c] + w.fanout.channels[c].buffer)[k] == w.log[w.from[c]..][k];
  }

  lemma MutateSound(s: System, op: Op)
    requires Fanout.Good(s.world) && Sound(s)
    ensures Sound(Next(s, Mutate(op)))
  {
    hide Fanout.Good, SnapshotOf;
  }

  lemma CallSound(s: System, u: Update)
    requires Fanout.Good(s.world) && Sound(s)
    ensures Sound(Next(s, Call(u)))
  {
    hide Fanout.Good, SnapshotOf, Genuine, WorldNext;
    WorldFacts(s.world, Fanout.DoBroadcast(u));
  }

  lemma OtherSound(s: System, step: Fanout.Step<Update>)
    requires Fanout.Good(s.world) && Sound(s)
    ensures Sound(Next(s, Other(step)))
  {
    hide Fanout.Good, SnapshotOf, Genuine, WorldNext;
    WorldFacts(s.world, step);
  }

  lemma OpenSound(s: System, step: Step)
    requires Fanout.Good(s.world) && Sound(s) && (step.Open? || step.SendFirst?)
    ensures Sound(Next(s, step))
  {
    hide Fanout.Good, SnapshotOf;
    if step.SendFirst? && s.stream.Taken? {
      assert s.absorbed + (s.wire + [s.stream.first]) == (s.absorbed + s.wire) + [s.stream.first];
    }
  }

  lemma SubscribeSound(s: System)
    requires Fanout.Good(s.world) && Sound(s)
    ensures Sound(Next(s, Subscribe))
  {
    hide Fanout.Good, SnapshotOf, Genuine, WorldNext;
    WorldFacts(s.world, Fanout.DoSubscribe);
    if s.stream.Sent? {
      assert [s.stream.first] + [] == [s.stream.first];
    }
  }

  lemma ForwardSound(s: System)
    requires Fanout.Good(s.world) && Sound(s)
    ensures Sound(Next(s, Forward))
  {
    if s.stream.Live? && s.stream.c < |s.world.fanout.channels| && s.world.fanout.channels[s.stream.c].buffer != [] {
      hide Fanout.Good, SnapshotOf, Genuine, WorldNext;
      var c, u := s.stream.c, s.world.fanout.channels[s.stream.c].buffer[0];
      WorldFacts(s.world, Fanout.DoReceive(c));
      BufferedIsLogged(s.world, c);
      assert Genuine(s.history, u);
      assert s.absorbed + (s.wire + [u]) == (s.absorbed + s.wire) + [u];
      assert [s.stream.first] + (s.world.received[c] + [u]) == ([s.stream.first] + s.world.received[c]) + [u];
    }
  }

  lemma EndSound(s: System)
    requires Fanout.Good(s.world) && Sound(s)
    ensures Sound(Next(s, End))
  {
    hide Fanout.Good, SnapshotOf, Genuine, WorldNext;
    if s.stream.Live? { WorldFacts(s.world, Fanout.DoCancel(s.stream.c)); }
  }

  lemma ReceiveSound(s: System)
    requires Fanout.Good(s.world) && Sound(s)
    ensures Sound(Next(s, Receive))
  {
    hide Fanout.Good, SnapshotOf, Genuine;
    if s.wire != [] {
      assert (s.absorbed + [s.wire[0]]) + s.wire[1..] == s.absorbed + s.wire;
    }
  }

  lemma NextSound(s: System, step: Step)
    requires Fanout.Good(s.world) && Sound(s)
    ensures Sound(Next(s, step))
  {
    hide *;
    match step
    case Mutate(op) => MutateSound(s, op);
    case Call(u) => CallSound(s, u);
    case Other(o) => OtherSound(s, o);
    case Open => OpenSound(s, step);
    case SendFirst => OpenSound(s, step);
    case Subscribe => SubscribeSound(s);
    case Forward => ForwardSound(s);
    case End => EndSound(s);
    case Receive => ReceiveSound(s);
  }

  lemma NextGood(s: System, step: Step)
    requires Fanout.Good(s.world)
    ensures Fanout.Good(Next(s, step).world)
  {
    hide Fanout.Good;
  }

  /** Only a mutation and a listener call touch the announcements. */
  lemma NextLog(s: System, step: Step)
    requires Fanout.Good(s.world)
    ensures Next(s, step).world.log == if step.Call? && step.u in s.calls then s.world.log + [step.u] else s.world.log
    ensures !step.Mutate? && !step.Call? ==> Next(s, step).calls == s.calls && Next(s, step).ledger == s.ledger
  {
    hide Fanout.Good, WorldNext;
    match step
    case Call(u) => WorldFacts(s.world, Fanout.DoBroadcast(u));
    case Other(o) => WorldFacts(s.world, o);
    case Subscribe => WorldFacts(s.world, Fanout.DoSubscribe);
    case Forward => if s.stream.Live? { WorldFacts(s.world, Fanout.DoReceive(s.stream.c)); }
    case End => if s.stream.Live? { WorldFacts(s.world, Fanout.DoCancel(s.stream.c)); }
    case _ =>
  }

  lemma MutateAnnounces(s: System, op: Op)
    requires Fanout.Good(s.world) && Sound(s) && AnnouncedOnce(s)
    ensures AnnouncedOnce(Next(s, Mutate(op)))
  {
    hide Fanout.Good, SnapshotOf, StreamSent;
    var s' := Next(s, Mutate(op));
    if s' != s {
      var news := Update(SnapshotOf(s'.ledger.entries), s'.ledger.version, false);
      assert s'.calls == s.calls + {news};
      forall v | 1 <= v <= s'.ledger.version ensures Announced(s', v) {
        if v == s'.ledger.version {
          assert news in s'.calls && news.version == v;
        } else {
          assert Announced(s, v);
        }
      }
    }
  }

  /** Pending calls carry different versions. */
  lemma CallsDiffer(s: System, u: Update, w: Update)
    requires Sound(s) && AnnouncedOnce(s) && u in s.calls && w in s.calls && u != w
    ensures u.version != w.version
  {
    hide StreamSent, SnapshotOf;
    assert Genuine(s.history, w) && Genuine(s.history, u);
    assert !w.full && !u.full;
  }

  lemma CallEffect(s: System, u: Update)
    requires Fanout.Good(s.world) && u in s.calls
    ensures var s' := Next(s, Call(u));
            s'.calls == s.calls - {u} && s'.ledger == s.ledger && s'.world.log == s.world.log + [u]
  {
    hide Fanout.Good, WorldNext;
    WorldFacts(s.world, Fanout.DoBroadcast(u));
  }

  lemma CallMovesAnnouncement(s: System, s': System, u: Update, v: nat)
    requires u in s.calls && s'.calls == s.calls - {u} && s'.world.log == s.world.log + [u]
    requires Announced(s, v)
    ensures Announced(s', v)
  {
    var n := |s.world.log|;
    assert s'.world.log[n] == u;
    if w :| w in s.calls && w.version == v {
      if w != u { assert w in s'.calls; }
    } else {
      var i :| 0 <= i < n && s.world.log[i].version == v;
      assert s'.world.log[i].version == v;
    }
  }

  lemma CallAnnounces(s: System, u: Update)
    requires Fanout.Good(s.world) && Sound(s) && AnnouncedOnce(s)
    ensures AnnouncedOnce(Next(s, Call(u)))
  {
    if u in s.calls {
      hide Fanout.Good, Sound, Next, Announced;
      CallEffect(s, u);
      var s' := Next(s, Call(u));
      forall v | 1 <= v <= s'.ledger.version ensures Announced(s', v) {
        CallMovesAnnouncement(s, s', u, v);
      }
      forall w | w in s'.calls ensures w.version != u.version {
        CallsDiffer(s, u, w);
      }
    }
  }

  lemma NextAnnounces(s: System, step: Step)
    requires Fanout.Good(s.world) && Sound(s) && AnnouncedOnce(s)
    ensures AnnouncedOnce(Next(s, step))
  {
    hide Fanout.Good, Sound, Next;
    match step
    case Mutate(op) => MutateAnnounces(s, op);
    case Call(u) => CallAnnounces(s, u);
    case _ =>
      NextLog(s, step);
      var s' := Next(s, step);
      forall v | 1 <= v <= s'.ledger.version ensures Announced(s', v) {
        assert Announced(s, v);
      }
  }

  lemma NextClientFollows(s: System, step: Step, cached: Client)
    requires Fanout.Good(s.world) && ClientFollows(s, cached)
    ensures ClientFollows(Next(s, step), cached)
  {
    hide Fanout.Good, WorldNext;
    if step.Receive? && s.wire != [] {
      assert (s.absorbed + [s.wire[0]])[..|s.absorbed|] == s.absorbed;
    }
  }

  lemma NextInv(s: System, step: Step, cached: Client)
    requires Inv(s, cached)
    ensures Inv(Next(s, step), cached)
  {
    hide Fanout.Good, Sound, AnnouncedOnce, ClientFollows, Next;
    NextGood(s, step);
    NextSound(s, step);
    NextAnnounces(s, step);
    NextClientFollows(s, step, cached);
  }

  lemma InitialInv(cached: Client)
    ensures Inv(Initial(cached), cached)
  {}

  ghost function Run(cached: Client, steps: seq<Step>): (s: System)
    ensures Inv(s, cached)
  {
    if steps == [] then
      InitialInv(cached);
      Initial(cached)
    else
      var s := Run(cached, steps[..|steps| - 1]);
      NextInv(s, steps[|steps| - 1], cached);
      Next(s, steps[|steps| - 1])
  }

  // ----- What a client may rely on -----

  /** The history only grows, so a version keeps its meaning. */
  lemma RunIsGood(cached: Client, steps: seq<Step>)
    ensures Fanout.Good(Run(cached, steps).world)
  {
    hide Run;
  }

  lemma StepAppends(s: System, step: Step)
    requires Fanout.Good(s.world)
    ensures s.history <= Next(s, step).history
  {
    hide Fanout.Good, SnapshotOf, WorldNext, Absorb;
  }

  lemma {:induction false} HistoryIsAppendOnly(cached: Client, steps: seq<Step>, n: nat)
    requires n <= |steps|
    ensures Run(cached, steps[..n]).history <= Run(cached, steps).history
    decreases |steps|
  {
    hide Inv, Next;
    if n < |steps| {
      var init := steps[..|steps| - 1];
      HistoryIsAppendOnly(cached, init, n);
      assert init[..n] == steps[..n];
      RunIsGood(cached, init);
      StepAppends(Run(cached, init), steps[|steps| - 1]);
    } else {
      assert steps[..n] == steps;
    }
  }

  lemma SoundClientHoldsSnapshot(s: System, cached: Client)
    requires Sound(s) && ClientFollows(s, cached)
    ensures s.client.snapshotSeen <==> s.absorbed != []
    ensures s.client.snapshotSeen ==>
              && 0 <= s.client.version <= s.ledger.version
              && s.client.ownership == View(SnapshotOf(s.history[s.client.version]))
  {
    hide StreamSent, SnapshotOf;
    if s.absorbed != [] {
      var u := AbsorbAllHoldsNewest(cached.(snapshotSeen := false), s.absorbed);
      var i :| 0 <= i < |s.absorbed| && s.absorbed[i] == u;
      assert (s.absorbed + s.wire)[i] == u;
    }
  }

  /** In every interleaving, once the stream's first message is in, the client's list is exactly
      the ledger's snapshot at the client's version. */
  lemma ClientHoldsLedgerSnapshot(cached: Client, steps: seq<Step>)
    ensures var s := Run(cached, steps);
            && |s.history| == s.ledger.version + 1 && s.history[s.ledger.version] == s.ledger.entries
            && (s.client.snapshotSeen ==>
                  && 0 <= s.client.version <= s.ledger.version
                  && s.client.ownership == View(SnapshotOf(s.history[s.client.version])))
  {
    hide Run, SnapshotOf, Fanout.Good, AnnouncedOnce, ClientFollows, StreamSent, Genuine;
    SoundClientHoldsSnapshot(Run(cached, steps), cached);
  }

  /** The list tells every entry of the ledger contents exactly once, and nothing else. */
  ghost predicate TellsAll(list: seq<ClientEntry>, m: map<string, Entry>) {
    && (forall i, j :: 0 <= i < j < |list| ==> list[i].overlayIP != list[j].overlayIP)
    && (forall i :: 0 <= i < |list| ==> list[i].overlayIP in m && Tells(list[i], list[i].overlayIP, m[list[i].overlayIP]))
    && (forall k :: k in m ==> exists i :: 0 <= i < |list| && Tells(list[i], k, m[k]))
  }

  lemma ViewTellsAll(m: map<string, Entry>)
    requires Keyed(m)
    ensures TellsAll(View(SnapshotOf(m)), m)
  {
    var s := SnapshotOf(m);
    SnapshotOfIsSnapshot(m);
    hide SnapshotOf, Tells;
    var list := View(s);
    forall i | 0 <= i < |list| ensures list[i].overlayIP == s[i].overlayIP && Tells(list[i], s[i].overlayIP, s[i]) {
      WireTells(s[i]);
    }
    forall i, j | 0 <= i < j < |list| ensures list[i].overlayIP != list[j].overlayIP {
      LessIrreflexive(s[i].overlayIP);
    }
    forall k | k in m ensures exists i :: 0 <= i < |list| && Tells(list[i], k, m[k]) {
      var i :| 0 <= i < |s| && s[i] == m[k];
      assert Tells(list[i], k, m[k]);
    }
  }

  /** Every content the ledger ever had is keyed by overlay. */
  ghost predicate HistoryKeyed(s: System) {
    Keyed(s.ledger.entries) && forall i :: 0 <= i < |s.history| ==> Keyed(s.history[i])
  }

  lemma StepKeepsKeyed(s: System, step: Step)
    requires Fanout.Good(s.world) && HistoryKeyed(s)
    ensures HistoryKeyed(Next(s, step))
  {
    hide Fanout.Good, SnapshotOf, WorldNext, Absorb, ParseIPv4;
  }

  lemma {:induction false} RunIsKeyed(cached: Client, steps: seq<Step>)
    ensures HistoryKeyed(Run(cached, steps))
  {
    hide Inv, Next, HistoryKeyed;
    if steps == [] {
      StartIsKeyed(cached);
    } else {
      RunIsKeyed(cached, steps[..|steps| - 1]);
      RunIsGood(cached, steps[..|steps| - 1]);
      StepKeepsKeyed(Run(cached, steps[..|steps| - 1]), steps[|steps| - 1]);
    }
  }

  lemma StartIsKeyed(cached: Client)
    ensures HistoryKeyed(Initial(cached))
  {
  }

  /** Entry by entry: after the first message the client's list tells, for every overlay that the ledger held at the
      client's version, its owner, reason and time, exactly once, and nothing else. */
  lemma ClientTellsLedger(cached: Client, steps: seq<Step>)
    ensures var s := Run(cached, steps);
            s.client.snapshotSeen ==>
              0 <= s.client.version < |s.history| && TellsAll(s.client.ownership, s.history[s.client.version])
  {
    hide Run, SnapshotOf, View, TellsAll, Keyed;
    ClientHoldsLedgerSnapshot(cached, steps);
    RunIsKeyed(cached, steps);
    var s := Run(cached, steps);
    if s.client.snapshotSeen {
      ViewTellsAll(s.history[s.client.version]);
    }
  }

  /** The client's version never goes back. */
  lemma {:induction false} ClientVersionNeverDecreases(cached: Client, steps: seq<Step>, n: nat)
    requires n <= |steps|
    ensures var s, s' := Run(cached, steps[..n]), Run(cached, steps);
            s.client.snapshotSeen ==> s'.client.snapshotSeen && s.client.version <= s'.client.version
  {
    hide Inv;
    if n < |steps| {
      var init := steps[..|steps| - 1];
      ClientVersionNeverDecreases(cached, init, n);
      assert init[..n] == steps[..n];
    } else {
      assert steps[..n] == steps;
    }
  }

  /** The stream is up and everything it was given has reached the client. */
  ghost predicate Drained(s: System) {
    && s.stream.Live? && s.wire == []
    && s.stream.c < |s.world.from| == |s.world.fanout.channels|
    && !s.world.fanout.channels[s.stream.c].closed
    && s.world.fanout.channels[s.stream.c].buffer == []
  }

  lemma DrainedHasAbsorbed(s: System)
    requires Fanout.Good(s.world) && StreamSent(s) && Drained(s)
    ensures s.world.from[s.stream.c] <= |s.world.log|
    ensures s.absorbed == [s.stream.first] + s.world.log[s.world.from[s.stream.c]..]
  {
    hide Fanout.Valid;
    var c := s.stream.c;
    assert s.absorbed + [] == s.absorbed;
    assert s.world.received[c] + [] == s.world.received[c];
  }

  /** Version v was broadcast after the observed stream subscribed. */
  ghost predicate BroadcastSince(s: System, v: nat)
    requires s.stream.Live? && s.stream.c < |s.world.from|
  {
    exists i :: s.world.from[s.stream.c] <= i < |s.world.log| && s.world.log[i].version == v
  }

  /** Whether the newest of a first message and the tail of a log has the greatest version `v`. */
  lemma NewestIsTop(first: Update, log: seq<Update>, n: nat, u: Update, v: nat)
    requires n <= |log| && Newest([first] + log[n..], u) && u.version <= v
    ensures u.version == v <==> first.version == v || exists i :: n <= i < |log| && log[i].version == v
    ensures first.version <= u.version
  {
    var us := [first] + log[n..];
    assert us[0] == first;
    forall i | n <= i < |log| ensures log[i].version <= u.version { assert us[1 + i - n] == log[i]; }
    var k :| 0 <= k < |us| && us[k] == u;
    assert k > 0 ==> log[n + k - 1] == u;
  }

  lemma DrainedClientVersion(s: System, cached: Client)
    requires Fanout.Good(s.world) && Sound(s) && ClientFollows(s, cached) && Drained(s)
    ensures s.client.version == s.ledger.version <==>
              s.stream.first.version == s.ledger.version || BroadcastSince(s, s.ledger.version)
  {
    hide Fanout.Good, StreamSent, Genuine, SnapshotOf, Newest, AbsorbAll, AllGenuine;
    DrainedHasAbsorbed(s);
    SoundClientHoldsSnapshot(s, cached);
    var u := AbsorbAllHoldsNewest(cached.(snapshotSeen := false), s.absorbed);
    NewestIsTop(s.stream.first, s.world.log, s.world.from[s.stream.c], u, s.ledger.version);
  }

  /** Exactly when a drained client is up to date: the newest version was in its first snapshot,
      or was broadcast after it subscribed. */
  lemma CaughtUpExactlyWhen(cached: Client, steps: seq<Step>)
    ensures var s := Run(cached, steps);
            Drained(s) ==>
              && (s.client.version == s.ledger.version <==>
                    s.stream.first.version == s.ledger.version || BroadcastSince(s, s.ledger.version))
              && (s.client.version == s.ledger.version ==> s.client.ownership == View(SnapshotOf(s.ledger.entries)))
              && (s.client.version == s.ledger.version ==> TellsAll(s.client.ownership, s.ledger.entries))
  {
    ClientTellsLedger(cached, steps);
    var s := Run(cached, steps);
    hide TellsAll, Run, Fanout.Good, AnnouncedOnce, ClientFollows, BroadcastSince, SnapshotOf, StreamSent, Genuine;
    if Drained(s) {
      DrainedClientVersion(s, cached);
      DrainedHasAbsorbed(s);
      SoundClientHoldsSnapshot(s, cached);
    }
  }

  lemma NewestAnnouncement(s: System) returns (i: nat)
    requires AnnouncedOnce(s) && s.calls == {} && s.ledger.version > 0
    ensures i < |s.world.log| && s.world.log[i].version == s.ledger.version
    ensures forall j :: 0 <= j < |s.world.log| && s.world.log[j].version == s.ledger.version ==> j == i
  {
    assert Announced(s, s.ledger.version);
    i :| 0 <= i < |s.world.log| && s.world.log[i].version == s.ledger.version;
  }

  /** When no listener call is pending, the newest mutation sits at one place in the log, and a
      drained client whose snapshot was older is stale exactly when that place precedes its
      subscription. */
  lemma StaleExactlyWhen(cached: Client, steps: seq<Step>) returns (i: nat)
    requires var s := Run(cached, steps);
             Drained(s) && s.calls == {} && s.stream.first.version < s.ledger.version
    ensures var s := Run(cached, steps);
            && i < |s.world.log| && s.world.log[i].version == s.ledger.version
            && (forall j :: 0 <= j < |s.world.log| && s.world.log[j].version == s.ledger.version ==> j == i)
            && (s.client.version < s.ledger.version <==> i < s.world.from[s.stream.c])
  {
    var s := Run(cached, steps);
    hide Run, Fanout.Good, AnnouncedOnce, Sound, ClientFollows, SnapshotOf;
    i := NewestAnnouncement(s);
    CaughtUpExactlyWhen(cached, steps);
    ClientHoldsLedgerSnapshot(cached, steps);
    assert s.client.snapshotSeen by {
      DrainedIsSeen(s, cached);
    }
  }

  lemma DrainedIsSeen(s: System, cached: Client)
    requires Inv(s, cached) && Drained(s)
    ensures s.client.snapshotSeen
  {
    hide Fanout.Good, AnnouncedOnce, SnapshotOf, Genuine, ClientFollows;
    DrainedHasAbsorbed(s);
    SoundClientHoldsSnapshot(s, cached);
  }

  lemma RunExtended(cached: Client, steps: seq<Step>, step: Step)
    ensures Run(cached, steps + [step]) == Next(Run(cached, steps), step)
  {
    hide Inv, Next;
    assert (steps + [step])[..|steps|] == steps;
  }

  const FIRST := Update([], 0, true)

  function AfterFirst(l: Ledger, history: seq<map<string, Entry>>, calls: set<Update>, world: Fanout.World<Update>): System {
    System(l, history, calls, world, Sent(FIRST), [], Client([], 0, true), [FIRST])
  }

  lemma FirstMessageOfEmptyLedger(cached: Client)
    ensures Run(cached, [Open, SendFirst, Receive]) == AfterFirst(EMPTY, [map[]], {}, Fanout.NewWorld())
  {
    hide Inv, Run;
    assert Run(cached, []) == Initial(cached) by { RunOfNothing(cached); }
    RunExtended(cached, [], Open);
    RunExtended(cached, [Open], SendFirst);
    RunExtended(cached, [Open, SendFirst], Receive);
    assert [Open] == [] + [Open] && [Open, SendFirst] == [Open] + [SendFirst];
    assert [Open, SendFirst, Receive] == [Open, SendFirst] + [Receive];
  }

  lemma RunOfNothing(cached: Client)
    ensures Run(cached, []) == Initial(cached)
  {}

  lemma MissedCall(u: Update)
    ensures Fanout.Good(Fanout.NewWorld<Update>())
    ensures WorldNext(Fanout.NewWorld(), Fanout.DoBroadcast(u)).fanout.channels == []
    ensures var w := WorldNext(WorldNext(Fanout.NewWorld(), Fanout.DoBroadcast(u)), Fanout.DoSubscribe);
            w.log == [u] && w.from == [1] && w.fanout.channels == [Fanout.Channel([], false)]
  {}

  lemma FirstReassignment() returns (op: Op)
    ensures Apply(EMPTY, op).version == 1 && Apply(EMPTY, op).entries != map[]
  {
    var parts := ["1", "0", "0", "1"];
    var ip := Join(parts, '.');
    QuadIsIPv4(parts);
    hide ParseIPv4, Join;
    op := DoReassign(ip, None, "m1", "register", 0);
    assert ip in Apply(EMPTY, op).entries;
  }

  lemma MissedMutation(s: System, op: Op, u: Update)
    requires Apply(EMPTY, op).version == 1 && u == Update(SnapshotOf(Apply(EMPTY, op).entries), 1, false)
    requires s == AfterFirst(EMPTY, [map[]], {}, Fanout.NewWorld()) && Fanout.Good(s.world)
    ensures var s1 := Next(s, Mutate(op));
            Fanout.Good(s1.world) &&
            var s2 := Next(s1, Call(u));
            Fanout.Good(s2.world) &&
            var s3 := Next(s2, Subscribe);
            && s3.calls == {} && s3.wire == [] && s3.stream == Live(FIRST, 0)
            && s3.world.fanout.channels == [Fanout.Channel([], false)] && s3.world.from == [1]
            && s3.client == Client([], 0, true) && s3.ledger == Apply(EMPTY, op)
  {
    MissedCall(u);
    hide Apply, SnapshotOf, Fanout.Good, WorldNext;
    var l := Apply(EMPTY, op);
    var s1 := Next(s, Mutate(op));
    assert s1 == AfterFirst(l, [map[]] + [l.entries], {u}, s.world);
    var s2 := Next(s1, Call(u));
    assert s2 == AfterFirst(l, [map[]] + [l.entries], {}, WorldNext(s.world, Fanout.DoBroadcast(u)));
  }

  /** The gap is real: a mutation announced after the snapshot was taken and before the
      subscription never reaches this client, and then nothing is left to deliver. */
  lemma SnapshotBeforeSubscribeCanMiss(cached: Client) returns (steps: seq<Step>)
    ensures var s := Run(cached, steps);
            && Drained(s) && s.calls == {}
            && s.client.snapshotSeen && s.client.version < s.ledger.version
            && s.client.ownership == [] && s.ledger.entries != map[]
  {
    hide Run, Next, Inv, Apply, SnapshotOf, Fanout.Good, WorldNext;
    var op := FirstReassignment();
    var u := Update(SnapshotOf(Apply(EMPTY, op).entries), 1, false);
    var prefix := [Open, SendFirst, Receive];
    FirstMessageOfEmptyLedger(cached);
    MissedCall(u);
    MissedMutation(AfterFirst(EMPTY, [map[]], {}, Fanout.NewWorld()), op, u);
    RunExtended(cached, prefix, Mutate(op));
    RunExtended(cached, prefix + [Mutate(op)], Call(u));
    RunExtended(cached, prefix + [Mutate(op)] + [Call(u)], Subscribe);
    steps := prefix + [Mutate(op)] + [Call(u)] + [Subscribe];
  }
}