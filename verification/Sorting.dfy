/** A reference sort standing for the library's unstable `sort.Slice`: callers may only
    rely on the result being an ordered permutation. */
module Sorting {

  ghost predicate TotalOrder<T(!new)>(leq: (T, T) -> bool) {
    && (forall a, b :: leq(a, b) || leq(b, a))
    && (forall a, b, c :: leq(a, b) && leq(b, c) ==> leq(a, c))
  }

  ghost predicate Ordered<T>(s: seq<T>, leq: (T, T) -> bool) {
    forall i, j :: 0 <= i < j < |s| ==> leq(s[i], s[j])
  }

  function Insert<T>(s: seq<T>, x: T, leq: (T, T) -> bool): seq<T> {
    if s == [] || leq(x, s[0]) then [x] + s else [s[0]] + Insert(s[1..], x, leq)
  }

  lemma {:induction false} InsertElements<T>(s: seq<T>, x: T, leq: (T, T) -> bool)
    ensures multiset(Insert(s, x, leq)) == multiset(s) + multiset{x}
  {
    if s != [] && !leq(x, s[0]) {
      InsertElements(s[1..], x, leq);
      assert s == [s[0]] + s[1..];
    }
  }

  lemma {:induction false} InsertOrdered<T(!new)>(s: seq<T>, x: T, leq: (T, T) -> bool)
    requires TotalOrder(leq) && Ordered(s, leq)
    ensures Ordered(Insert(s, x, leq), leq)
  {
    if s != [] && !leq(x, s[0]) {
      InsertOrdered(s[1..], x, leq);
      var r := Insert(s[1..], x, leq);
      InsertElements(s[1..], x, leq);
      forall y | y in r ensures leq(s[0], y) {
        assert y in multiset(r);
        if y != x { assert y in s[1..]; }
      }
    }
  }

  method Sort<T(!new)>(s: seq<T>, leq: (T, T) -> bool) returns (r: seq<T>)
    requires TotalOrder(leq)
    ensures Ordered(r, leq)
    ensures multiset(r) == multiset(s)
  {
    r := [];
    for n := 0 to |s|
      invariant Ordered(r, leq)
      invariant multiset(r) == multiset(s[..n])
    {
      InsertOrdered(r, s[n], leq);
      InsertElements(r, s[n], leq);
      assert s[..n + 1] == s[..n] + [s[n]];
      r := Insert(r, s[n], leq);
    }
    assert s[..|s|] == s;
  }

  /** A listing of a set, in any order, has no repeats. */
  lemma NoRepeats<T>(s: seq<T>, elements: set<T>, i: nat, j: nat)
    requires multiset(s) == multiset(elements)
    requires i < j < |s|
    ensures s[i] != s[j]
  {
    var rest := s[i + 1..];
    assert s == s[..i] + [s[i]] + rest;
    assert rest[j - i - 1] == s[j];
    assert multiset(s)[s[i]] == multiset(s[..i])[s[i]] + 1 + multiset(rest)[s[i]];
  }
}
