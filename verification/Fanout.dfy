/** Subscription ids: the base-36 text of the subscription counter. */
module SubscriptionId {

  const DIGITS := "0123456789abcdefghijklmnopqrstuvwxyz"

  function DigitOf(n: nat): (c: char)
    requires n < 36
    ensures c == DIGITS[n]
  {
    if n < 10 then '0' + n as char else 'a' + (n - 10) as char
  }

  function IdString(n: nat): (s: string)
    ensures s != ""
  {
    if n < 36 then [DigitOf(n)] else IdString(n / 36) + [DigitOf(n % 36)]
  }

  lemma DigitOfInjective(a: nat, b: nat)
    requires a < 36 && b < 36 && DigitOf(a) == DigitOf(b)
    ensures a == b
  {
    assert DigitOf(a) as int == if a < 10 then 48 + a else 87 + a;
    assert DigitOf(b) as int == if b < 10 then 48 + b else 87 + b;
  }

  lemma IdStringEnd(n: nat)
    ensures var s := IdString(n);
            && s[|s| - 1] == DigitOf(n % 36)
            && (n < 36 ==> |s| == 1)
            && (n >= 36 ==> |s| > 1 && s[..|s| - 1] == IdString(n / 36))
  {}

  /** Two different counters never share an id. */
  lemma {:induction false} IdStringInjective(a: nat, b: nat)
    ensures IdString(a) == IdString(b) ==> a == b
  {
    hide IdString, DigitOf;
    if IdString(a) == IdString(b) {
      IdStringEnd(a);
      IdStringEnd(b);
      DigitOfInjective(a % 36, b % 36);
      if a >= 36 {
        IdStringInjective(a / 36, b / 36);
      }
    }
  }

  /** Least significant digit first. */
  function LittleEndian(n: nat): string {
    if n < 36 then [DigitOf(n)] else [DigitOf(n % 36)] + LittleEndian(n / 36)
  }

  function Reversed(s: string): (r: string)
    ensures |r| == |s| && forall i :: 0 <= i < |s| ==> r[i] == s[|s| - 1 - i]
  {
    if s == "" then "" else Reversed(s[1..]) + [s[0]]
  }

  lemma {:induction false} ReversedLittleEndian(n: nat)
    ensures Reversed(LittleEndian(n)) == IdString(n)
  {
    if n >= 36 {
      ReversedLittleEndian(n / 36);
      assert LittleEndian(n)[1..] == LittleEndian(n / 36);
    }
  }

  /** Swaps from both ends towards the middle. */
  method Reverse(s: string) returns (out: string)
    ensures out == Reversed(s)
  {
    out := s;
    var i, j := 0, |s| - 1;
    while i < j
      invariant 0 <= i && i + j == |s| - 1 && -1 <= j && |out| == |s|
      invariant forall k :: 0 <= k < i ==> out[k] == s[|s| - 1 - k] && out[|s| - 1 - k] == s[k]
      invariant forall k :: i <= k <= j ==> out[k] == s[k]
    {
      out := out[i := out[j]][j := out[i]];
      i, j := i + 1, j - 1;
    }
  }

  method DigitsOf(counter: int) returns (out: string)
    ensures out == if counter > 0 then LittleEndian(counter) else ""
  {
    hide LittleEndian;
    var n := counter;
    out := "";
    while n > 0
      invariant counter <= 0 ==> n == counter && out == ""
      invariant counter > 0 ==> n >= 0
      invariant counter > 0 ==> LittleEndian(counter) == out + if n > 0 then LittleEndian(n) else ""
    {
      LittleEndianStep(n);
      ghost var tail := if n / 36 > 0 then LittleEndian(n / 36) else "";
      assert out + ([DIGITS[n % 36]] + tail) == out + [DIGITS[n % 36]] + tail;
      out := out + [DIGITS[n % 36]];
      n := n / 36;
    }
    if counter > 0 {
      assert out + "" == out;
    }
  }

  lemma LittleEndianStep(n: nat)
    requires n > 0
    ensures LittleEndian(n) == [DIGITS[n % 36]] + if n / 36 > 0 then LittleEndian(n / 36) else ""
  {}

  /** The counter is a signed integer; a negative one yields the empty id. */
  method FormatId(counter: int) returns (id: string)
    ensures id == if counter < 0 then "" else IdString(counter)
  {
    if counter == 0 {
      return "0";
    }
    hide *;
    var out := DigitsOf(counter);
    if counter > 0 {
      ReversedLittleEndian(counter);
    }
    id := Reverse(out);
  }
}

/** The broadcaster as a value. Channels are numbered in the order they were made, and
    the number stands for the reference that the subscriber and the receiver share.
    None stands for the run-time panic of closing a closed channel or sending on one. */
module FanoutModel {
  import opened Text
  import opened SubscriptionId

  const BUFFER: nat := 8

  datatype Channel<M> = Channel(buffer: seq<M>, closed: bool)

  datatype Fanout<M> = Fanout(subscribers: map<string, nat>, nextID: nat, channels: seq<Channel<M>>)

  function Fresh<M>(): Fanout<M> {
    Fanout(map[], 0, [])
  }

  function Subscribe<M>(f: Fanout<M>): Fanout<M> {
    Fanout(f.subscribers[IdString(f.nextID + 1) := |f.channels|], f.nextID + 1, f.channels + [Channel([], false)])
  }

  ghost predicate WellFormed<M>(f: Fanout<M>) {
    forall id :: id in f.subscribers ==> f.subscribers[id] < |f.channels|
  }

  /** The cancel function that Subscribe returned with the given id. */
  function Cancel<M>(f: Fanout<M>, id: string): Option<Fanout<M>>
    requires WellFormed(f)
  {
    if id !in f.subscribers then Some(f)
    else
      var c := f.subscribers[id];
      if f.channels[c].closed then None
      else Some(f.(subscribers := f.subscribers - {id}, channels := f.channels[c := f.channels[c].(closed := true)]))
  }

  predicate Room<M>(ch: Channel<M>) {
    |ch.buffer| < BUFFER
  }

  function Pushed<M>(ch: Channel<M>, m: M): Channel<M> {
    if Room(ch) then ch.(buffer := ch.buffer + [m]) else ch.(closed := true)
  }

  function Broadcast<M>(f: Fanout<M>, m: M): Option<Fanout<M>>
    requires WellFormed(f)
  {
    if exists id :: id in f.subscribers && f.channels[f.subscribers[id]].closed then None
    else Some(Fanout(
      map id | id in f.subscribers && Room(f.channels[f.subscribers[id]]) :: f.subscribers[id],
      f.nextID,
      seq(|f.channels|, c requires 0 <= c < |f.channels| =>
        if c in f.subscribers.Values then Pushed(f.channels[c], m) else f.channels[c])))
  }

  /** A receive takes the oldest buffered message, also from a closed channel. */
  function Receive<M>(f: Fanout<M>, c: nat): Fanout<M>
    requires c < |f.channels|
  {
    if f.channels[c].buffer == [] then f
    else f.(channels := f.channels[c := f.channels[c].(buffer := f.channels[c].buffer[1..])])
  }

  /** The ids in the map name exactly the channels that are open, each by its own number. */
  ghost predicate Valid<M>(f: Fanout<M>) {
    && f.nextID == |f.channels|
    && (forall id :: id in f.subscribers ==>
          f.subscribers[id] < |f.channels| && id == IdString(f.subscribers[id] + 1) && !f.channels[f.subscribers[id]].closed)
    && (forall c :: 0 <= c < |f.channels| && !f.channels[c].closed ==>
          IdString(c + 1) in f.subscribers && f.subscribers[IdString(c + 1)] == c)
    && (forall c :: 0 <= c < |f.channels| ==> |f.channels[c].buffer| <= BUFFER)
  }

  lemma SubscribeKeepsValid<M>(f: Fanout<M>)
    requires Valid(f)
    ensures Valid(Subscribe(f)) && IdString(f.nextID + 1) !in f.subscribers
  {
    hide IdString;
    forall id | id in f.subscribers ensures id != IdString(f.nextID + 1) {
      IdStringInjective(f.subscribers[id] + 1, f.nextID + 1);
    }
  }

  lemma CancelKeepsValid<M>(f: Fanout<M>, id: string)
    requires Valid(f)
    ensures Cancel(f, id).Some? && Valid(Cancel(f, id).value)
  {
    hide IdString;
  }

  lemma BroadcastKeepsValid<M>(f: Fanout<M>, m: M)
    requires Valid(f)
    ensures Broadcast(f, m).Some? && Valid(Broadcast(f, m).value)
  {
    hide IdString;
    var f' := Broadcast(f, m).value;
    forall c | 0 <= c < |f.channels| ensures c in f.subscribers.Values <==> !f.channels[c].closed {
      if !f.channels[c].closed { assert f.subscribers[IdString(c + 1)] == c; }
    }
  }

  lemma ReceiveKeepsValid<M>(f: Fanout<M>, c: nat)
    requires Valid(f) && c < |f.channels|
    ensures Valid(Receive(f, c))
  {
    hide IdString;
  }

  // ----- Whole runs -----

  datatype Step<M> = DoSubscribe | DoCancel(n: nat) | DoBroadcast(m: M) | DoReceive(n: nat)

  /** The broadcaster together with what an observer has seen: every broadcast so far, and for
      each channel how many broadcasts preceded it and what its receiver took from it. */
  datatype World<M> = World(fanout: Fanout<M>, log: seq<M>, from: seq<nat>, received: seq<seq<M>>)

  function NewWorld<M>(): World<M> {
    World(Fresh(), [], [], [])
  }

  ghost predicate Delivered<M>(w: World<M>) {
    && |w.from| == |w.received| == |w.fanout.channels|
    && (forall c :: 0 <= c < |w.from| ==> w.from[c] <= |w.log|)
    && (forall c :: 0 <= c < |w.from| && !w.fanout.channels[c].closed ==>
          w.received[c] + w.fanout.channels[c].buffer == w.log[w.from[c]..])
    && (forall c :: 0 <= c < |w.from| ==> w.received[c] + w.fanout.channels[c].buffer <= w.log[w.from[c]..])
  }

  ghost predicate Good<M>(w: World<M>) {
    Valid(w.fanout) && Delivered(w)
  }

  /** Subscription number n was given the id IdString(n + 1); steps on channels that do not
      exist yet do nothing. */
  ghost function Next<M>(w: World<M>, step: Step<M>): Option<World<M>>
    requires Good(w)
  {
    match step
    case DoSubscribe =>
      Some(World(Subscribe(w.fanout), w.log, w.from + [|w.log|], w.received + [[]]))
    case DoCancel(n) =>
      var f := Cancel(w.fanout, IdString(n + 1));
      if f.None? then None else Some(w.(fanout := f.value))
    case DoBroadcast(m) =>
      var f := Broadcast(w.fanout, m);
      if f.None? then None else Some(w.(fanout := f.value, log := w.log + [m]))
    case DoReceive(n) =>
      if n >= |w.fanout.channels| || w.fanout.channels[n].buffer == [] then Some(w)
      else Some(w.(fanout := Receive(w.fanout, n), received := w.received[n := w.received[n] + [w.fanout.channels[n].buffer[0]]]))
  }

  lemma SubscribeDelivers<M>(w: World<M>)
    requires Good(w)
    ensures Good(Next(w, DoSubscribe).value)
  {
    SubscribeKeepsValid(w.fanout);
    hide Valid;
    assert w.log[|w.log|..] == [];
  }

  lemma CancelDelivers<M>(w: World<M>, n: nat)
    requires Good(w)
    ensures Next(w, DoCancel(n)).Some? && Good(Next(w, DoCancel(n)).value)
  {
    hide IdString, Valid;
    var id := IdString(n + 1);
    CancelKeepsValid(w.fanout, id);
    CancelKeepsBuffers(w.fanout, id);
  }

  lemma CancelKeepsBuffers<M>(f: Fanout<M>, id: string)
    requires Valid(f) && Cancel(f, id).Some?
    ensures var f' := Cancel(f, id).value;
            && |f'.channels| == |f.channels|
            && forall c :: 0 <= c < |f.channels| ==>
                 f'.channels[c].buffer == f.channels[c].buffer && (!f'.channels[c].closed ==> !f.channels[c].closed)
  {
    hide IdString;
  }

  lemma BroadcastChannels<M>(f: Fanout<M>, m: M)
    requires Valid(f) && Broadcast(f, m).Some?
    ensures var f' := Broadcast(f, m).value;
            && |f'.channels| == |f.channels|
            && forall c :: 0 <= c < |f.channels| ==>
                 f'.channels[c] == if f.channels[c].closed then f.channels[c] else Pushed(f.channels[c], m)
  {
    hide IdString, Pushed;
    forall c | 0 <= c < |f.channels| && !f.channels[c].closed ensures c in f.subscribers.Values {
      assert f.subscribers[IdString(c + 1)] == c;
    }
  }

  lemma BroadcastDelivers<M>(w: World<M>, m: M)
    requires Good(w)
    ensures Next(w, DoBroadcast(m)).Some? && Good(Next(w, DoBroadcast(m)).value)
  {
    hide IdString, Valid, Broadcast, Pushed;
    BroadcastKeepsValid(w.fanout, m);
    BroadcastChannels(w.fanout, m);
    var w' := Next(w, DoBroadcast(m)).value;
    forall c | 0 <= c < |w.from|
      ensures w'.received[c] + w'.fanout.channels[c].buffer <= w'.log[w.from[c]..]
      ensures !w'.fanout.channels[c].closed ==> w'.received[c] + w'.fanout.channels[c].buffer == w'.log[w.from[c]..]
    {
      assert w'.log[w.from[c]..] == w.log[w.from[c]..] + [m];
      PushedExtends(w.received[c], w.fanout.channels[c], w.log[w.from[c]..], m);
    }
  }

  lemma PushedExtends<M>(taken: seq<M>, ch: Channel<M>, sent: seq<M>, m: M)
    requires taken + ch.buffer <= sent
    ensures taken + ch.buffer <= sent + [m]
    ensures taken + ch.buffer == sent ==> taken + Pushed(ch, m).buffer <= sent + [m]
    ensures taken + ch.buffer == sent && !Pushed(ch, m).closed ==> taken + Pushed(ch, m).buffer == sent + [m]
  {
    assert taken + (ch.buffer + [m]) == (taken + ch.buffer) + [m];
  }

  lemma ReceiveDelivers<M>(w: World<M>, n: nat)
    requires Good(w)
    ensures Good(Next(w, DoReceive(n)).value)
  {
    if n < |w.fanout.channels| && w.fanout.channels[n].buffer != [] {
      ReceiveKeepsValid(w.fanout, n);
      hide Valid;
      var b := w.fanout.channels[n].buffer;
      assert w.received[n] + [b[0]] + b[1..] == w.received[n] + b;
    }
  }

  lemma NextIsGood<M>(w: World<M>, step: Step<M>)
    requires Good(w)
    ensures Next(w, step).Some? && Good(Next(w, step).value)
  {
    match step
    case DoSubscribe => SubscribeDelivers(w);
    case DoCancel(n) => CancelDelivers(w, n);
    case DoBroadcast(m) => BroadcastDelivers(w, m);
    case DoReceive(n) => ReceiveDelivers(w, n);
  }

  /** A run stops at the first panic. */
  ghost function Run<M>(steps: seq<Step<M>>): (w: Option<World<M>>)
    ensures w.Some? ==> Good(w.value)
  {
    if steps == [] then Some(NewWorld())
    else
      var w := Run(steps[..|steps| - 1]);
      if w.None? then None
      else
        NextIsGood(w.value, steps[|steps| - 1]);
        Next(w.value, steps[|steps| - 1])
  }

  /** Over every run: nothing is closed twice or sent to after its close; an open subscription's
      taken and buffered messages are exactly the broadcasts made since it subscribed, in order;
      a cancelled or dropped one holds a prefix of them; no buffer outgrows its capacity. */
  lemma {:induction false} EveryRunDelivers<M>(steps: seq<Step<M>>)
    ensures Run(steps).Some?
    ensures var w := Run(steps).value;
            && |w.from| == |w.received| == |w.fanout.channels|
            && forall c :: 0 <= c < |w.fanout.channels| ==>
                 var ch := w.fanout.channels[c];
                 && w.from[c] <= |w.log|
                 && w.received[c] + ch.buffer <= w.log[w.from[c]..]
                 && (!ch.closed ==> w.received[c] + ch.buffer == w.log[w.from[c]..])
                 && |ch.buffer| <= BUFFER
  {
    if steps != [] {
      EveryRunDelivers(steps[..|steps| - 1]);
      NextIsGood(Run(steps[..|steps| - 1]).value, steps[|steps| - 1]);
    }
  }
}

/** What each step does to each channel, in plain terms. */
module ChannelFates {
  import opened Text
  import opened SubscriptionId
  import opened FanoutModel

  /** Some subscription still leads to channel `c`. */
  ghost predicate Subscribed<M>(f: Fanout<M>, c: nat) {
    exists id :: id in f.subscribers && f.subscribers[id] == c
  }

  /** A new subscription gets an open, empty channel; nothing else changes. */
  lemma SubscribeFate<M>(w: World<M>)
    requires Good(w)
    ensures var w' := Next(w, DoSubscribe).value;
            && w'.fanout.channels == w.fanout.channels + [Channel([], false)]
            && Subscribed(w'.fanout, |w.fanout.channels|)
            && w'.log == w.log && w'.from == w.from + [|w.log|] && w'.received == w.received + [[]]
  {
    hide IdString;
    var f := w.fanout;
    assert IdString(f.nextID + 1) in Subscribe(f).subscribers;
  }

  /** Cancelling closes and unsubscribes that channel, once, and leaves its buffer and all others alone. */
  lemma CancelFate<M>(w: World<M>, n: nat)
    requires Good(w)
    ensures var f, w' := w.fanout, Next(w, DoCancel(n)).value;
            && |w'.fanout.channels| == |f.channels|
            && (forall c :: 0 <= c < |f.channels| && c != n ==>
                  w'.fanout.channels[c] == f.channels[c] && (Subscribed(w'.fanout, c) <==> Subscribed(f, c)))
            && (n < |f.channels| ==>
                  w'.fanout.channels[n] == Channel(f.channels[n].buffer, true) && !Subscribed(w'.fanout, n))
            && w'.log == w.log && w'.received == w.received
  {
    hide IdString, Delivered, Valid, Cancel, Subscribed;
    var f, id := w.fanout, IdString(n + 1);
    CancelKeepsValid(f, id);
    CancelChannels(f, n);
    OpenIsSubscribed(f);
    ValidIsWellFormed(f);
    OpenIsSubscribed(Cancel(f, id).value);
  }

  lemma ValidIsWellFormed<M>(f: Fanout<M>)
    requires Valid(f)
    ensures WellFormed(f)
  {
  }

  lemma CancelChannels<M>(f: Fanout<M>, n: nat)
    requires Valid(f) && Cancel(f, IdString(n + 1)).Some?
    ensures var f' := Cancel(f, IdString(n + 1)).value;
            && |f'.channels| == |f.channels|
            && forall c :: 0 <= c < |f.channels| ==>
                 f'.channels[c] == if c == n then Channel(f.channels[c].buffer, true) else f.channels[c]
  {
    hide IdString;
    var id := IdString(n + 1);
    if id in f.subscribers {
      IdStringInjective(n + 1, f.subscribers[id] + 1);
    }
  }

  /** A broadcast to an open channel that buffers fewer than eight messages adds the message and keeps it open and
      subscribed; one that buffers eight is closed and dropped with its buffer; a closed one stays as it is. */
  lemma BroadcastFate<M>(w: World<M>, m: M)
    requires Good(w)
    ensures var f, w' := w.fanout, Next(w, DoBroadcast(m)).value;
            && |w'.fanout.channels| == |f.channels|
            && (forall c :: 0 <= c < |f.channels| && f.channels[c].closed ==> w'.fanout.channels[c] == f.channels[c])
            && (forall c :: 0 <= c < |f.channels| && !f.channels[c].closed && |f.channels[c].buffer| < 8 ==>
                  w'.fanout.channels[c] == Channel(f.channels[c].buffer + [m], false) && Subscribed(w'.fanout, c))
            && (forall c :: 0 <= c < |f.channels| && !f.channels[c].closed && |f.channels[c].buffer| >= 8 ==>
                  w'.fanout.channels[c] == Channel(f.channels[c].buffer, true) && !Subscribed(w'.fanout, c))
            && w'.log == w.log + [m] && w'.received == w.received
  {
    hide IdString, Delivered;
    var f := w.fanout;
    BroadcastKeepsValid(f, m);
    BroadcastChannels(f, m);
    var f' := Broadcast(f, m).value;
    OpenIsSubscribed(f');
    hide Broadcast, Valid;
  }

  /** Exactly the open channels are subscribed. */
  lemma OpenIsSubscribed<M>(f: Fanout<M>)
    requires Valid(f)
    ensures forall c :: 0 <= c < |f.channels| ==> (Subscribed(f, c) <==> !f.channels[c].closed)
  {
    hide IdString;
    forall c | 0 <= c < |f.channels| ensures Subscribed(f, c) <==> !f.channels[c].closed {
      if !f.channels[c].closed { assert f.subscribers[IdString(c + 1)] == c; }
    }
  }

  /** A receive moves the oldest buffered message to the receiver, and does nothing on an empty buffer. */
  lemma ReceiveFate<M>(w: World<M>, n: nat)
    requires Good(w)
    ensures var f, w' := w.fanout, Next(w, DoReceive(n)).value;
            && w'.log == w.log && w'.fanout.subscribers == f.subscribers && |w'.fanout.channels| == |f.channels|
            && (forall c :: 0 <= c < |f.channels| && c != n ==>
                  w'.fanout.channels[c] == f.channels[c] && w'.received[c] == w.received[c])
            && (n < |f.channels| ==>
                  && w'.fanout.channels[n].closed == f.channels[n].closed
                  && w'.received[n] + w'.fanout.channels[n].buffer == w.received[n] + f.channels[n].buffer
                  && |w'.received[n]| == |w.received[n]| + if f.channels[n].buffer == [] then 0 else 1)
  {
    hide Valid;
    if n < |w.fanout.channels| && w.fanout.channels[n].buffer != [] {
      var b := w.fanout.channels[n].buffer;
      assert w.received[n] + [b[0]] + b[1..] == w.received[n] + b;
    }
  }

  /** Over every run: an open channel is closed only by cancelling its subscription or by a broadcast that meets
      exactly eight buffered messages, and a closed one never opens again. */
  lemma ClosedOnlyWhenCancelledOrFull<M>(steps: seq<Step<M>>, step: Step<M>, c: nat)
    requires Run(steps).Some? && c < |Run(steps).value.fanout.channels|
    ensures Run(steps + [step]).Some? && c < |Run(steps + [step]).value.fanout.channels|
    ensures var before, after := Run(steps).value.fanout.channels[c], Run(steps + [step]).value.fanout.channels[c];
            && (before.closed ==> after.closed)
            && (!before.closed ==>
                  (after.closed <==> step == DoCancel(c) || (step.DoBroadcast? && |before.buffer| == 8)))
  {
    var w := Run(steps).value;
    assert (steps + [step])[..|steps|] == steps;
    EveryRunDelivers(steps);
    NextIsGood(w, step);
    hide Next, Good;
    match step
    case DoSubscribe => SubscribeFate(w);
    case DoCancel(n) => CancelFate(w, n);
    case DoBroadcast(m) => BroadcastFate(w, m);
    case DoReceive(n) => ReceiveFate(w, n);
  }
}

/** The broadcaster object. */
module Broadcaster {
  import opened Text
  import opened SubscriptionId
  import opened FanoutModel

  class Broadcaster<M> {
    var subscribers: map<string, nat>
    var nextID: nat
    var channels: seq<Channel<M>>

    function State(): Fanout<M>
      reads this
    {
      Fanout(subscribers, nextID, channels)
    }

    constructor ()
      ensures State() == Fresh() && Valid(State())
    {
      subscribers, nextID, channels := map[], 0, [];
    }

    method Subscribe() returns (id: string, c: nat)
      requires Valid(State())
      modifies this
      ensures State() == FanoutModel.Subscribe(old(State())) && Valid(State())
      ensures id !in old(subscribers) && c == |old(channels)|
      ensures subscribers == old(subscribers)[id := c]
    {
      SubscribeKeepsValid(State());
      hide IdString;
      nextID := nextID + 1;
      id := FormatId(nextID);
      c := |channels|;
      channels := channels + [Channel([], false)];
      subscribers := subscribers[id := c];
    }

    /** Closing requires an open channel, as the language's `close` does. */
    method Close(c: nat)
      requires c < |channels| && !channels[c].closed
      modifies this`channels
      ensures channels == old(channels)[c := old(channels)[c].(closed := true)]
    {
      channels := channels[c := channels[c].(closed := true)];
    }

    /** A send that does not block: it fails when the buffer is full. */
    method TrySend(c: nat, m: M) returns (ok: bool)
      requires c < |channels| && !channels[c].closed
      modifies this`channels
      ensures ok <==> |old(channels)[c].buffer| < 8
      ensures ok == Room(old(channels)[c])
      ensures channels == if ok then old(channels)[c := Pushed(old(channels)[c], m)] else old(channels)
    {
      ok := |channels[c].buffer| < BUFFER;
      if ok {
        channels := channels[c := channels[c].(buffer := channels[c].buffer + [m])];
      }
    }

    method Cancel(id: string)
      requires Valid(State())
      modifies this
      ensures FanoutModel.Cancel(old(State()), id) == Some(State()) && Valid(State())
    {
      CancelKeepsValid(State(), id);
      hide IdString;
      if id in subscribers {
        Close(subscribers[id]);
        subscribers := subscribers - {id};
      }
    }

    method Broadcast(m: M)
      requires Valid(State())
      modifies this
      ensures FanoutModel.Broadcast(old(State()), m) == Some(State()) && Valid(State())
    {
      hide Valid, WellFormed, PartlySent, FanoutModel.Broadcast;
      PartlySentStart(State(), m);
      BroadcastKeepsValid(State(), m);
      ghost var f := State();
      var todo := subscribers.Keys;
      while todo != {}
        invariant PartlySent(f, m, todo, State())
      {
        var id :| id in todo;
        PartlySentStep(f, m, todo, State(), id);
        var c := subscribers[id];
        var sent := TrySend(c, m);
        if !sent {
          Close(c);
          subscribers := subscribers - {id};
        }
        todo := todo - {id};
      }
      PartlySentDone(f, m, State());
    }
  }

  /** `g` is what the loop has made of `f` when the ids in `todo` are still to be served. */
  ghost predicate PartlySent<M>(f: Fanout<M>, m: M, todo: set<string>, g: Fanout<M>) {
    && Valid(f)
    && todo <= f.subscribers.Keys && g.nextID == f.nextID && |g.channels| == |f.channels|
    && g.subscribers == (map id | id in f.subscribers && (id in todo || Room(f.channels[f.subscribers[id]])) :: f.subscribers[id])
    && (forall id :: id in f.subscribers ==>
          var ch := f.channels[f.subscribers[id]];
          g.channels[f.subscribers[id]] == if id in todo then ch else Pushed(ch, m))
    && (forall c :: 0 <= c < |f.channels| && c !in f.subscribers.Values ==> g.channels[c] == f.channels[c])
  }

  lemma PartlySentStart<M>(f: Fanout<M>, m: M)
    requires Valid(f)
    ensures WellFormed(f) && PartlySent(f, m, f.subscribers.Keys, f)
  {
    hide IdString;
  }

  function Served<M>(g: Fanout<M>, id: string, m: M): Fanout<M>
    requires id in g.subscribers && g.subscribers[id] < |g.channels|
  {
    var c := g.subscribers[id];
    Fanout(if Room(g.channels[c]) then g.subscribers else g.subscribers - {id}, g.nextID,
           g.channels[c := Pushed(g.channels[c], m)])
  }

  lemma PartlySentStep<M>(f: Fanout<M>, m: M, todo: set<string>, g: Fanout<M>, id: string)
    requires PartlySent(f, m, todo, g) && id in todo
    ensures id in g.subscribers && g.subscribers[id] < |g.channels| && !g.channels[g.subscribers[id]].closed
    ensures PartlySent(f, m, todo - {id}, Served(g, id, m))
  {
    hide IdString;
    var h := Served(g, id, m);
    var c := f.subscribers[id];
    forall other | other in f.subscribers && other != id ensures f.subscribers[other] != c {}
    assert g.channels[c] == f.channels[c];
    assert h.subscribers == map i | i in f.subscribers && (i in todo - {id} || Room(f.channels[f.subscribers[i]])) :: f.subscribers[i];
  }

  lemma PartlySentDone<M>(f: Fanout<M>, m: M, g: Fanout<M>)
    requires PartlySent(f, m, {}, g)
    ensures FanoutModel.Broadcast(f, m) == Some(g)
  {
    hide IdString;
    var h := FanoutModel.Broadcast(f, m).value;
    assert g.subscribers == h.subscribers;
    forall c | 0 <= c < |f.channels| ensures g.channels[c] == h.channels[c] {
      if c in f.subscribers.Values {
        var id :| id in f.subscribers && f.subscribers[id] == c;
      }
    }
    assert g.channels == h.channels;
  }
}
