/** Text values shared by the models: optional values, the byte order Go uses on
    strings, splitting and joining on a separator, decimal and dotted-quad text. */
module Text {

  datatype Option<+T> = None | Some(value: T)

  datatype Result<+T, +E> = Ok(value: T) | Err(error: E)

  predicate Distinct<T(==)>(xs: seq<T>) {
    forall i, j :: 0 <= i < j < |xs| ==> xs[i] != xs[j]
  }

  // ----- Lexicographic order (the order of Go's `<` on strings) -----

  predicate Less(a: string, b: string) {
    if b == "" then false
    else if a == "" then true
    else a[0] < b[0] || (a[0] == b[0] && Less(a[1..], b[1..]))
  }

  predicate AtMost(a: string, b: string) {
    !Less(b, a)
  }

  lemma LessIrreflexive(a: string)
    ensures !Less(a, a)
  {}

  lemma {:induction false} LessTransitive(a: string, b: string, c: string)
    requires Less(a, b) && Less(b, c)
    ensures Less(a, c)
  {
    if a != "" && b != "" && c != "" && a[0] == b[0] == c[0] {
      LessTransitive(a[1..], b[1..], c[1..]);
    }
  }

  lemma {:induction false} LessTotal(a: string, b: string)
    ensures Less(a, b) || a == b || Less(b, a)
  {
    if a != "" && b != "" && a[0] == b[0] {
      LessTotal(a[1..], b[1..]);
      assert a == [a[0]] + a[1..] && b == [b[0]] + b[1..];
    }
  }

  lemma AtMostIsTotalOrder()
    ensures forall a, b :: AtMost(a, b) || AtMost(b, a)
    ensures forall a, b, c :: AtMost(a, b) && AtMost(b, c) ==> AtMost(a, c)
    ensures forall a, b :: AtMost(a, b) && AtMost(b, a) ==> a == b
  {
    forall a, b ensures AtMost(a, b) || AtMost(b, a) {
      if Less(b, a) && Less(a, b) { LessTransitive(a, b, a); LessIrreflexive(a); }
    }
    forall a, b | AtMost(a, b) && AtMost(b, a) ensures a == b {
      LessTotal(a, b);
    }
    forall a, b, c | AtMost(a, b) && AtMost(b, c) ensures AtMost(a, c) {
      if Less(c, a) {
        LessTotal(a, b);
        LessTotal(b, c);
        if Less(a, b) { LessTransitive(c, a, b); }
      }
    }
  }

  // ----- Split and join -----

  /** The first place of `c`, or the length when there is none. */
  function IndexOf(s: string, c: char): (n: nat)
    ensures n <= |s|
    ensures forall i :: 0 <= i < n ==> s[i] != c
    ensures n < |s| ==> s[n] == c
  {
    if s == "" || s[0] == c then 0 else 1 + IndexOf(s[1..], c)
  }

  /** The pieces of `s` between occurrences of `sep`; always at least one piece. */
  function Split(s: string, sep: char): (r: seq<string>)
    ensures |r| >= 1
    ensures forall i :: 0 <= i < |r| ==> sep !in r[i]
    ensures forall i :: 0 <= i < |r| ==> |r[i]| <= |s|
  {
    if s == "" then [""]
    else
      var rest := Split(s[1..], sep);
      if s[0] == sep then [""] + rest else [[s[0]] + rest[0]] + rest[1..]
  }

  function Join(parts: seq<string>, sep: char): string
    requires |parts| >= 1
  {
    if |parts| == 1 then parts[0] else parts[0] + [sep] + Join(parts[1..], sep)
  }

  lemma {:induction false} JoinSplit(s: string, sep: char)
    ensures Join(Split(s, sep), sep) == s
  {
    if s != "" {
      JoinSplit(s[1..], sep);
      var rest := Split(s[1..], sep);
      if s[0] != sep {
        assert ([[s[0]] + rest[0]] + rest[1..])[1..] == rest[1..];
      } else {
        assert ([""] + rest)[1..] == rest;
      }
    }
  }

  lemma {:induction false} SplitPiece(p: string, s: string, sep: char)
    requires sep !in p
    ensures Split(p + [sep] + s, sep) == [p] + Split(s, sep)
    ensures Split(p, sep) == [p]
  {
    if p == "" {
      assert "" + [sep] + s == [sep] + s;
      assert ([sep] + s)[1..] == s;
    } else {
      SplitPiece(p[1..], s, sep);
      assert (p + [sep] + s)[1..] == p[1..] + [sep] + s;
      assert p == [p[0]] + p[1..];
      assert p[0] in p;
    }
  }

  lemma {:induction false} SplitJoin(parts: seq<string>, sep: char)
    requires |parts| >= 1
    requires forall i :: 0 <= i < |parts| ==> sep !in parts[i]
    ensures Split(Join(parts, sep), sep) == parts
  {
    hide Split;
    SplitPiece(parts[0], "", sep);
    if |parts| > 1 {
      SplitJoin(parts[1..], sep);
      SplitPiece(parts[0], Join(parts[1..], sep), sep);
      assert parts == [parts[0]] + parts[1..];
    } else {
      assert parts == [parts[0]];
    }
  }

  // ----- Decimal text -----

  predicate IsDigit(c: char) {
    '0' <= c <= '9'
  }

  predicate AllDigits(s: string) {
    forall i :: 0 <= i < |s| ==> IsDigit(s[i])
  }

  function Digit(n: nat): (c: char)
    requires n < 10
    ensures IsDigit(c) && DigitValue(c) == n
  {
    '0' + n as char
  }

  function DigitValue(c: char): (n: nat)
    requires IsDigit(c)
    ensures n < 10
  {
    (c - '0') as nat
  }

  /** Decimal text of a natural number, without leading zeros. */
  function Decimal(n: nat): (s: string)
    ensures s != "" && AllDigits(s)
  {
    if n < 10 then [Digit(n)] else Decimal(n / 10) + [Digit(n % 10)]
  }

  function DecimalValue(s: string): nat
    requires AllDigits(s)
  {
    if s == "" then 0 else 10 * DecimalValue(s[..|s| - 1]) + DigitValue(s[|s| - 1])
  }

  lemma {:induction false} DecimalRoundTrip(n: nat)
    ensures DecimalValue(Decimal(n)) == n
  {
    var s := Decimal(n);
    if n >= 10 {
      DecimalRoundTrip(n / 10);
      assert s[..|s| - 1] == Decimal(n / 10);
    } else {
      assert s[..0] == "";
    }
  }

  // ----- Dotted-quad addresses -----

  /** One octet as `net.ParseIP` reads it: one to three digits, no leading zero, at most 255. */
  function ParseOctet(s: string): (r: Option<nat>)
    ensures r.Some? ==> r.value < 256
  {
    if !(1 <= |s| <= 3) || !AllDigits(s) then None
    else if |s| > 1 && s[0] == '0' then None
    else
      var v := if |s| == 1 then DigitValue(s[0])
               else if |s| == 2 then 10 * DigitValue(s[0]) + DigitValue(s[1])
               else 100 * DigitValue(s[0]) + 10 * DigitValue(s[1]) + DigitValue(s[2]);
      if v < 256 then Some(v) else None
  }

  /** IPv4 text as a 32-bit number. */
  function ParseIPv4(s: string): (r: Option<nat>)
    ensures r.Some? ==> r.value < 0x1_0000_0000
  {
    var p := Split(s, '.');
    if |p| != 4 then None
    else
      var a, b, c, d := ParseOctet(p[0]), ParseOctet(p[1]), ParseOctet(p[2]), ParseOctet(p[3]);
      if a.None? || b.None? || c.None? || d.None? then None
      else Some(0x100_0000 * a.value + 0x1_0000 * b.value + 0x100 * c.value + d.value)
  }

  lemma DigitOfValue(c: char)
    requires IsDigit(c)
    ensures Digit(DigitValue(c)) == c
  {
    assert c as int == '0' as int + DigitValue(c);
  }

  /** An accepted octet is the decimal text of its value. */
  lemma OctetIsDecimal(s: string)
    requires ParseOctet(s).Some?
    ensures s == Decimal(ParseOctet(s).value)
  {
    assert s[0] in s;
    DigitOfValue(s[0]);
    if |s| == 1 {
      assert s == [s[0]];
    } else {
      assert Digit(0) == '0';
      DigitOfValue(s[1]);
      var high := 10 * DigitValue(s[0]) + DigitValue(s[1]);
      assert Decimal(DigitValue(s[0])) == [s[0]];
      assert Decimal(high) == [s[0], s[1]] by { DecimalStep(DigitValue(s[0]), DigitValue(s[1])); }
      if |s| == 2 {
        assert s == [s[0], s[1]];
      } else {
        DigitOfValue(s[2]);
        DecimalStep(high, DigitValue(s[2]));
        assert s == [s[0], s[1], s[2]];
      }
    }
  }

  lemma DecimalStep(high: nat, low: nat)
    requires high > 0 && low < 10
    ensures Decimal(10 * high + low) == Decimal(high) + [Digit(low)]
  {
    var n := 10 * high + low;
    assert n / 10 == high && n % 10 == low;
  }

  lemma QuadInjective(a: nat, b: nat, c: nat, d: nat, a': nat, b': nat, c': nat, d': nat)
    requires b < 256 && c < 256 && d < 256 && b' < 256 && c' < 256 && d' < 256
    requires 0x100_0000 * a + 0x1_0000 * b + 0x100 * c + d == 0x100_0000 * a' + 0x1_0000 * b' + 0x100 * c' + d'
    ensures a == a' && b == b' && c == c' && d == d'
  {}

  /** Dotted-quad text is canonical: two texts that denote one address are the same text. */
  lemma ParseIPv4Injective(s: string, t: string)
    ensures ParseIPv4(s).Some? && ParseIPv4(s) == ParseIPv4(t) ==> s == t
  {
    if ParseIPv4(s).Some? && ParseIPv4(s) == ParseIPv4(t) {
      var p, q := Split(s, '.'), Split(t, '.');
      QuadInjective(
        ParseOctet(p[0]).value, ParseOctet(p[1]).value, ParseOctet(p[2]).value, ParseOctet(p[3]).value,
        ParseOctet(q[0]).value, ParseOctet(q[1]).value, ParseOctet(q[2]).value, ParseOctet(q[3]).value);
      assert p == q by {
        forall i | 0 <= i < 4 ensures p[i] == q[i] {
          OctetIsDecimal(p[i]);
          OctetIsDecimal(q[i]);
        }
      }
      JoinSplit(s, '.');
      JoinSplit(t, '.');
    }
  }

  /** Four octets joined with dots are accepted. */
  lemma QuadIsIPv4(parts: seq<string>)
    requires |parts| == 4 && forall i :: 0 <= i < 4 ==> ParseOctet(parts[i]).Some?
    ensures ParseIPv4(Join(parts, '.')).Some?
  {
    forall i | 0 <= i < 4 ensures '.' !in parts[i] {}
    hide ParseOctet, Join;
    SplitJoin(parts, '.');
  }

  lemma NotZeroDigit(n: nat)
    requires n < 10
    ensures Digit(n) == '0' <==> n == 0
  {
  }

  lemma OctetOfDigits(h: nat, t: nat, u: nat)
    requires h < 10 && t < 10 && u < 10
    ensures ParseOctet([Digit(u)]) == Some(u)
    ensures t > 0 ==> ParseOctet([Digit(t), Digit(u)]) == Some(10 * t + u)
    ensures h > 0 && 100 * h + 10 * t + u < 256 ==> ParseOctet([Digit(h), Digit(t), Digit(u)]) == Some(100 * h + 10 * t + u)
  {
    NotZeroDigit(h);
    NotZeroDigit(t);
    hide Digit, DigitValue;
  }

  lemma OctetOfDecimal(n: nat)
    requires n < 256
    ensures ParseOctet(Decimal(n)) == Some(n)
  {
    hide ParseOctet, Digit, Decimal;
    var h, t, u := n / 100, n / 10 % 10, n % 10;
    assert n == 100 * h + 10 * t + u && n / 10 == 10 * h + t;
    OctetOfDigits(h, t, u);
    DecimalOfDigit(h);
    DecimalOfDigit(t);
    DecimalOfDigit(u);
    if n >= 100 {
      DecimalStep(h, t);
      DecimalStep(n / 10, u);
      assert Decimal(n) == [Digit(h), Digit(t), Digit(u)];
    } else if n >= 10 {
      DecimalStep(t, u);
      assert Decimal(n) == [Digit(t), Digit(u)];
    }
  }

  lemma DecimalOfDigit(n: nat)
    requires n < 10
    ensures Decimal(n) == [Digit(n)]
  {
  }

  /** The text of a dotted quad. */
  function DottedQuad(a: nat, b: nat, c: nat, d: nat): string {
    Join([Decimal(a), Decimal(b), Decimal(c), Decimal(d)], '.')
  }

  /** Every dotted quad is read as its value; with the above, nothing else is read at all. */
  lemma DottedQuadParses(a: nat, b: nat, c: nat, d: nat)
    requires a < 256 && b < 256 && c < 256 && d < 256
    ensures ParseIPv4(DottedQuad(a, b, c, d)) == Some(0x100_0000 * a + 0x1_0000 * b + 0x100 * c + d)
  {
    OctetOfDecimal(a);
    OctetOfDecimal(b);
    OctetOfDecimal(c);
    OctetOfDecimal(d);
    var parts := [Decimal(a), Decimal(b), Decimal(c), Decimal(d)];
    forall i | 0 <= i < 4 ensures '.' !in parts[i] {
      assert AllDigits(parts[i]);
    }
    hide ParseOctet, Join, Decimal;
    SplitJoin(parts, '.');
  }

  /** Accepted addresses consist of digits and dots only. */
  lemma IPv4Characters(s: string)
    ensures ParseIPv4(s).Some? ==> s != "" && forall i :: 0 <= i < |s| ==> IsDigit(s[i]) || s[i] == '.'
  {
    if ParseIPv4(s).Some? {
      var p := Split(s, '.');
      JoinSplit(s, '.');
      assert forall i :: 0 <= i < 4 ==> AllDigits(p[i]) && p[i] != "";
      hide ParseIPv4, Split;
      JoinCharacters(p, '.');
    }
  }

  lemma {:induction false} JoinCharacters(parts: seq<string>, sep: char)
    requires |parts| >= 1 && forall k :: 0 <= k < |parts| ==> AllDigits(parts[k])
    ensures |Join(parts, sep)| >= |parts[0]|
    ensures forall i :: 0 <= i < |Join(parts, sep)| ==> IsDigit(Join(parts, sep)[i]) || Join(parts, sep)[i] == sep
  {
    if |parts| > 1 {
      JoinCharacters(parts[1..], sep);
    }
  }

  // ----- Blanks -----

  /** The characters Go's unicode tables call white space. */
  predicate IsSpace(c: char) {
    var n := c as int;
    || 9 <= n <= 13 || n == 32 || n == 0x85 || n == 0xa0 || n == 0x1680
    || 0x2000 <= n <= 0x200a || n == 0x2028 || n == 0x2029 || n == 0x202f || n == 0x205f || n == 0x3000
  }

  function TrimSpace(s: string): (r: string)
    ensures |r| <= |s|
    ensures r != "" ==> !IsSpace(r[0]) && !IsSpace(r[|r| - 1])
  {
    if s == "" then ""
    else if IsSpace(s[0]) then TrimSpace(s[1..])
    else if IsSpace(s[|s| - 1]) then TrimSpace(s[..|s| - 1])
    else s
  }

  predicate AllSpace(s: string) {
    forall i :: 0 <= i < |s| ==> IsSpace(s[i])
  }

  /** Trimming takes nothing but the blanks at both ends. */
  lemma {:induction false} TrimTakesBlanks(s: string) returns (before: string, after: string)
    ensures AllSpace(before) && AllSpace(after) && s == before + TrimSpace(s) + after
  {
    hide IsSpace;
    before, after := "", "";
    if s != "" {
      if IsSpace(s[0]) {
        before, after := TrimTakesBlanks(s[1..]);
        before := [s[0]] + before;
        assert s == [s[0]] + s[1..];
      } else if IsSpace(s[|s| - 1]) {
        before, after := TrimTakesBlanks(s[..|s| - 1]);
        after := after + [s[|s| - 1]];
        assert s == s[..|s| - 1] + [s[|s| - 1]];
      }
    }
  }

  lemma {:induction false} TrimKeepsCharacters(s: string, c: char)
    requires c !in s
    ensures c !in TrimSpace(s)
  {
    if s != "" {
      if IsSpace(s[0]) {
        TrimKeepsCharacters(s[1..], c);
      } else if IsSpace(s[|s| - 1]) {
        TrimKeepsCharacters(s[..|s| - 1], c);
      }
    }
  }

  // ----- Integers -----

  const MIN_INT := -0x8000_0000_0000_0000
  const MAX_INT := 0x7fff_ffff_ffff_ffff

  predicate IsInt(n: int) {
    MIN_INT <= n <= MAX_INT
  }

  function Itoa(n: int): (s: string)
    ensures s != "" && forall i :: 0 <= i < |s| ==> IsDigit(s[i]) || s[i] == '-'
  {
    if n < 0 then "-" + Decimal(-n) else Decimal(n)
  }

  /** A decimal machine integer with an optional sign. */
  function Atoi(s: string): (r: Option<int>)
    ensures r.Some? ==> IsInt(r.value)
  {
    var signed := s != "" && (s[0] == '+' || s[0] == '-');
    var digits := if signed then s[1..] else s;
    if digits == "" || !AllDigits(digits) then None
    else
      var n: int := DecimalValue(digits);
      var value: int := if signed && s[0] == '-' then 0 - n else n;
      if IsInt(value) then Some(value) else None
  }

  lemma ItoaRoundTrip(n: int)
    requires IsInt(n)
    ensures Atoi(Itoa(n)) == Some(n)
  {
    hide Atoi, Decimal, DecimalValue;
    if n < 0 {
      DecimalRoundTrip(-n);
      AtoiSigned(Decimal(-n));
    } else {
      DecimalRoundTrip(n);
      AtoiDigits(Decimal(n));
    }
  }

  lemma AtoiDigits(s: string)
    requires s != "" && AllDigits(s) && IsInt(DecimalValue(s))
    ensures Atoi(s) == Some(DecimalValue(s))
  {
    hide DecimalValue;
    assert IsDigit(s[0]);
  }

  lemma AtoiSigned(s: string)
    requires s != "" && AllDigits(s) && IsInt(0 - DecimalValue(s))
    ensures Atoi("-" + s) == Some(0 - DecimalValue(s))
  {
    hide DecimalValue;
    assert ("-" + s)[1..] == s;
  }

  // ----- Lower case -----

  /** Simple lower casing; the two characters past 'Z' are the only others that become ASCII letters. */
  function LowerChar(c: char): char {
    if 'A' <= c <= 'Z' then c + 32 as char
    else if c == '\U{0130}' then 'i'
    else if c == '\U{212A}' then 'k'
    else c
  }

  function Lower(s: string): (r: string)
    ensures |r| == |s|
  {
    seq(|s|, i requires 0 <= i < |s| => LowerChar(s[i]))
  }
}
