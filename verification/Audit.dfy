/** The audit ring buffer as a value, and the plain log it stands for. */
module AuditModel {

  /** Time zero is the unset timestamp. */
  type Time = int

  datatype Event = Event(timestamp: Time, eventType: string, nodeName: string, detail: string, actor: string)

  /** Slots never written hold the zero event. */
  const ZERO_EVENT := Event(0, "", "", "", "")

  datatype Ring = Ring(buf: seq<Event>, cursor: nat, full: bool)

  predicate Valid(r: Ring) {
    r.cursor < |r.buf|
  }

  function NewRing(capacity: int): (r: Ring)
    ensures Valid(r)
  {
    Ring(seq(if capacity <= 0 then 8192 else capacity, _ => ZERO_EVENT), 0, false)
  }

  function Stamped(e: Event, now: Time): Event {
    if e.timestamp == 0 then e.(timestamp := now) else e
  }

  /** A timestamp that is set stays; an unset one becomes the clock's; nothing else changes. */
  lemma StampKeepsEvent(e: Event, now: Time)
    ensures e.timestamp != 0 ==> Stamped(e, now) == e
    ensures e.timestamp == 0 ==> Stamped(e, now) == Event(now, e.eventType, e.nodeName, e.detail, e.actor)
  {
  }

  function Put(r: Ring, e: Event): (r': Ring)
    requires Valid(r)
    ensures Valid(r') && |r'.buf| == |r.buf|
  {
    var cursor := (r.cursor + 1) % |r.buf|;
    Ring(r.buf[r.cursor := e], cursor, r.full || cursor == 0)
  }

  /** The events held, oldest first. */
  function Contents(r: Ring): seq<Event>
    requires Valid(r)
  {
    if r.full then r.buf[r.cursor..] + r.buf[..r.cursor] else r.buf[..r.cursor]
  }

  /** The newest `n` events of a log. */
  function Newest(log: seq<Event>, n: nat): seq<Event> {
    if |log| <= n then log else log[|log| - n..]
  }

  function Append(r: Ring, events: seq<Event>): (r': Ring)
    requires Valid(r)
    ensures Valid(r') && |r'.buf| == |r.buf|
  {
    if events == [] then r else Put(Append(r, events[..|events| - 1]), events[|events| - 1])
  }

  lemma PutInside(r: Ring, e: Event)
    requires Valid(r) && r.cursor + 1 < |r.buf|
    ensures Contents(Put(r, e)) == Newest(Contents(r) + [e], |r.buf|)
  {
    var next := r.cursor + 1;
    var b := r.buf[r.cursor := e];
    assert next % |r.buf| == next;
    var oldest, newest := r.buf[r.cursor..], r.buf[..r.cursor];
    assert b[..next] == newest + [e];
    if r.full {
      assert b[next..] == oldest[1..];
      DropFirst(oldest, newest + [e]);
      assert Contents(r) + [e] == oldest + (newest + [e]);
    }
  }

  lemma DropFirst(a: seq<Event>, b: seq<Event>)
    requires a != []
    ensures (a + b)[1..] == a[1..] + b
  {
  }

  lemma PutAtEnd(r: Ring, e: Event)
    requires Valid(r) && r.cursor + 1 == |r.buf|
    ensures Contents(Put(r, e)) == Newest(Contents(r) + [e], |r.buf|)
  {
    assert (r.cursor + 1) % |r.buf| == 0;
    var b := r.buf[r.cursor := e];
    assert b == r.buf[..r.cursor] + [e];
    if r.full {
      assert Contents(r) + [e] == [r.buf[r.cursor]] + b;
    }
  }

  lemma PutKeepsNewest(r: Ring, e: Event)
    requires Valid(r)
    ensures Contents(Put(r, e)) == Newest(Contents(r) + [e], |r.buf|)
  {
    hide *;
    if r.cursor + 1 < |r.buf| {
      PutInside(r, e);
    } else {
      LastSlot(r);
      PutAtEnd(r, e);
    }
  }

  lemma LastSlot(r: Ring)
    requires Valid(r)
    ensures r.cursor + 1 <= |r.buf|
  {
  }

  lemma NewestOfNewest(log: seq<Event>, e: Event, n: nat)
    requires n > 0
    ensures Newest(Newest(log, n) + [e], n) == Newest(log + [e], n)
  {
  }

  /** The ring refines a plain log: after any appends it holds exactly the last min(n, capacity) of them. */
  lemma {:induction false} RingHoldsNewest(capacity: int, events: seq<Event>)
    ensures var r := NewRing(capacity);
            && |r.buf| == (if capacity > 0 then capacity else 8192)
            && Contents(Append(r, events)) == Newest(events, |r.buf|)
  {
    var r := NewRing(capacity);
    if events != [] {
      var front, e := events[..|events| - 1], events[|events| - 1];
      RingHoldsNewest(capacity, front);
      PutKeepsNewest(Append(r, front), e);
      NewestOfNewest(front, e, |r.buf|);
      assert events == front + [e];
    }
  }

  datatype Filter = Filter(since: Time, until: Time, eventType: string, nodeName: string)

  predicate Matches(e: Event, f: Filter) {
    && (f.since != 0 ==> f.since <= e.timestamp)
    && (f.until != 0 ==> e.timestamp <= f.until)
    && (f.eventType != "" ==> e.eventType == f.eventType)
    && (f.nodeName != "" ==> e.nodeName == f.nodeName)
  }

  /** The matching events of a log, oldest first; a full ring skips unset timestamps. */
  function Matching(log: seq<Event>, f: Filter, skipUnset: bool): seq<Event> {
    if log == [] then []
    else
      var e := log[|log| - 1];
      var rest := Matching(log[..|log| - 1], f, skipUnset);
      if Matches(e, f) && !(skipUnset && e.timestamp == 0) then rest + [e] else rest
  }

  /** What a filter selects: bounds are inclusive, and an unset bound, type or name does not restrict. */
  predicate Selected(e: Event, f: Filter) {
    && (f.since == 0 || e.timestamp >= f.since) && (f.until == 0 || e.timestamp <= f.until)
    && f.eventType in {"", e.eventType} && f.nodeName in {"", e.nodeName}
  }

  lemma MatchesIsSelected(e: Event, f: Filter)
    ensures Matches(e, f) <==> Selected(e, f)
  {
  }

  /** The places of the selected events, in order. */
  ghost predicate SelectedAt(log: seq<Event>, f: Filter, at: seq<nat>) {
    && (forall i :: 0 <= i < |at| ==> at[i] < |log|)
    && (forall i, j :: 0 <= i < j < |at| ==> at[i] < at[j])
    && (forall k: nat :: k < |log| ==> (k in at <==> Selected(log[k], f)))
  }

  /** The matching events are the log's events at exactly the places that match, in log order. */
  lemma {:induction false} MatchingSelects(log: seq<Event>, f: Filter) returns (at: seq<nat>)
    ensures SelectedAt(log, f, at)
    ensures |Matching(log, f, false)| == |at| && forall i :: 0 <= i < |at| ==> Matching(log, f, false)[i] == log[at[i]]
  {
    hide Matches, Selected;
    at := [];
    if log != [] {
      var n := |log| - 1;
      MatchesIsSelected(log[n], f);
      at := MatchingSelects(log[..n], f);
      if Matches(log[n], f) {
        at := at + [n];
      }
    }
  }

  predicate Stamps(log: seq<Event>) {
    forall i :: 0 <= i < |log| ==> log[i].timestamp != 0
  }

  /** Nothing is skipped in a log whose events were all stamped. */
  lemma {:induction false} NothingSkipped(log: seq<Event>, f: Filter)
    requires Stamps(log)
    ensures Matching(log, f, true) == Matching(log, f, false)
  {
    hide Matches;
    if log != [] {
      NothingSkipped(log[..|log| - 1], f);
    }
  }

  /** The events as they are stored: the i-th one is appended when the clock reads `clock(i)`. */
  function StampedAll(events: seq<Event>, clock: nat -> Time): (r: seq<Event>)
    ensures |r| == |events|
  {
    seq(|events|, i requires 0 <= i < |events| => Stamped(events[i], clock(i)))
  }

  /**
   * A query over any log that was built by appending, with a clock that never reads the unset time, looks at
   * exactly the last min(n, capacity) events and skips none.
   */
  lemma QuerySeesNewest(capacity: int, events: seq<Event>, clock: nat -> Time, f: Filter)
    requires forall i :: clock(i) != 0
    ensures var ring := Append(NewRing(capacity), StampedAll(events, clock));
            var newest := Newest(StampedAll(events, clock), |ring.buf|);
            Stamps(newest) && Matching(Contents(ring), f, ring.full) == Matching(newest, f, false)
  {
    hide Matching, Contents, Append, NewRing;
    var all := StampedAll(events, clock);
    var ring := Append(NewRing(capacity), all);
    RingHoldsNewest(capacity, all);
    assert Stamps(all);
    NothingSkipped(Newest(all, |ring.buf|), f);
  }

  predicate NoLater(a: Event, b: Event) {
    a.timestamp <= b.timestamp
  }
}

module AuditLog {
  import opened AuditModel
  import opened Sorting

  /** What a query answers: the earliest matches, in time order, up to the limit. */
  ghost predicate Answers(out: seq<Event>, matches: seq<Event>, limit: int) {
    && Ordered(out, NoLater)
    && multiset(out) <= multiset(matches)
    && |out| == (if 0 < limit < |matches| then limit else |matches|)
    && forall e, k :: e in multiset(matches) - multiset(out) && 0 <= k < |out| ==> NoLater(out[k], e)
  }

  lemma LaterInOrder(sorted: seq<Event>, cut: nat, e: Event, k: nat)
    requires Ordered(sorted, NoLater) && k < cut <= |sorted| && e in multiset(sorted[cut..])
    ensures NoLater(sorted[k], e)
  {
    var rest := sorted[cut..];
    assert e in rest;
    var j :| 0 <= j < |rest| && rest[j] == e;
    assert sorted[cut + j] == e;
  }

  lemma CutParts(s: seq<Event>, cut: nat)
    requires cut <= |s|
    ensures multiset(s[..cut]) <= multiset(s)
    ensures multiset(s) - multiset(s[..cut]) == multiset(s[cut..])
  {
    assert s == s[..cut] + s[cut..];
    assert multiset(s) == multiset(s[..cut]) + multiset(s[cut..]);
  }

  lemma CutAnswers(sorted: seq<Event>, cut: nat)
    requires Ordered(sorted, NoLater) && cut <= |sorted|
    ensures Ordered(sorted[..cut], NoLater)
    ensures forall e, k :: e in multiset(sorted) - multiset(sorted[..cut]) && 0 <= k < cut ==> NoLater(sorted[..cut][k], e)
  {
    hide NoLater;
    var out := sorted[..cut];
    CutParts(sorted, cut);
    forall e, k: nat | e in multiset(sorted) - multiset(out) && k < cut ensures NoLater(out[k], e) {
      LaterInOrder(sorted, cut, e, k);
    }
    forall i, j | 0 <= i < j < cut ensures NoLater(out[i], out[j]) {
      assert out[i] == sorted[i] && out[j] == sorted[j];
    }
  }

  lemma PrefixAnswers(sorted: seq<Event>, matches: seq<Event>, limit: int)
    requires Ordered(sorted, NoLater) && multiset(sorted) == multiset(matches)
    ensures Answers(if 0 < limit < |sorted| then sorted[..limit] else sorted, matches, limit)
  {
    hide NoLater, Ordered;
    SameLength(sorted, matches);
    var cut := if 0 < limit < |sorted| then limit else |sorted|;
    assert sorted[..|sorted|] == sorted;
    CutParts(sorted, cut);
    CutAnswers(sorted, cut);
  }

  class AuditLog {
    const buf: array<Event>
    const cap: int
    var cursor: int
    var full: bool

    ghost predicate Valid()
      reads this, buf
    {
      cap == buf.Length && 0 <= cursor < cap
    }

    ghost function State(): (r: Ring)
      reads this, buf
      requires Valid()
      ensures AuditModel.Valid(r)
    {
      Ring(buf[..], cursor, full)
    }

    constructor (capacity: int)
      ensures Valid() && fresh(buf)
      ensures State() == NewRing(capacity)
    {
      var n := if capacity <= 0 then 8192 else capacity;
      buf := new Event[n](_ => ZERO_EVENT);
      cap := n;
      cursor := 0;
      full := false;
    }

    method Append(e: Event, now: Time)
      requires Valid()
      modifies this, buf
      ensures Valid()
      ensures State() == Put(old(State()), Stamped(e, now))
    {
      buf[cursor] := Stamped(e, now);
      cursor := (cursor + 1) % cap;
      if cursor == 0 {
        full := true;
      }
    }

    method Collect(f: Filter) returns (out: seq<Event>)
      requires Valid()
      ensures out == Matching(Contents(State()), f, full)
    {
      hide Matches;
      ghost var held := Contents(State());
      out := [];
      if full {
        for i := 0 to cap
          invariant out == Matching(held[..i], f, true)
        {
          var idx := (cursor + i) % cap;
          WrapOnce(cursor, i, cap);
          assert buf[idx] == held[i];
          assert held[..i + 1][..i] == held[..i];
          if buf[idx].timestamp == 0 {
            continue;
          }
          if Matches(buf[idx], f) {
            out := out + [buf[idx]];
          }
        }
        assert held[..cap] == held;
      } else {
        for i := 0 to cursor
          invariant out == Matching(held[..i], f, false)
        {
          assert held[..i + 1][..i] == held[..i];
          if Matches(buf[i], f) {
            out := out + [buf[i]];
          }
        }
        assert held[..cursor] == held;
      }
    }

    method Query(f: Filter, limit: int) returns (out: seq<Event>)
      requires Valid()
      ensures Answers(out, Matching(Contents(State()), f, full), limit)
      ensures Stamps(Contents(State())) ==> Answers(out, Matching(Contents(State()), f, false), limit)
    {
      hide Answers, Matching, Contents;
      if Stamps(Contents(State())) {
        NothingSkipped(Contents(State()), f);
      }
      var found := Collect(f);
      out := Sort(found, NoLater);
      PrefixAnswers(out, found, limit);
      if limit > 0 && |out| > limit {
        out := out[..limit];
      }
    }

    method Len() returns (n: int)
      requires Valid()
      ensures n == |Contents(State())|
    {
      n := if full then cap else cursor;
    }
  }

  lemma SameLength(a: seq<Event>, b: seq<Event>)
    requires multiset(a) == multiset(b)
    ensures |a| == |b|
  {
    assert |multiset(a)| == |a| && |multiset(b)| == |b|;
  }

  lemma WrapOnce(c: int, i: int, n: int)
    requires 0 <= c < n && 0 <= i < n
    ensures (c + i) % n == if c + i < n then c + i else c + i - n
  {
    if c + i >= n {
      assert (c + i) == n * 1 + (c + i - n);
    }
  }
}
