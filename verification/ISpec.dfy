/** Tokens and tags of an I-spec template. Specs are ASCII text. */
module ISpecSyntax {
  import opened Text

  datatype Op =
    | Literal(text: string)
    | Binary(bytes: seq<nat>)
    | Random(length: nat)
    | CryptoRandom(length: nat)
    | Digits(min: nat, max: nat)
    | Template(name: string)

  /** Characters before the first space. */
  function WordLength(s: string): (n: nat)
    ensures n <= |s|
    ensures forall i :: 0 <= i < n ==> !IsSpace(s[i])
    ensures n < |s| ==> IsSpace(s[n])
  {
    if s == "" || IsSpace(s[0]) then 0 else 1 + WordLength(s[1..])
  }

  predicate Plain(s: string) {
    forall i :: 0 <= i < |s| ==> s[i] != '<' && s[i] != '>'
  }

  function Prepend(t: string, rest: Option<seq<string>>): Option<seq<string>> {
    if rest.None? then None else Some([t] + rest.value)
  }

  /** The length of the token that starts the text, if there is one. */
  function TokenLength(s: string): (r: Option<nat>)
    requires s != "" && !IsSpace(s[0])
    ensures r.Some? ==> 0 < r.value <= |s|
  {
    if s[0] == '<' then
      var n := IndexOf(s, '>');
      if n == |s| then None else Some(n + 1)
    else
      var n := WordLength(s);
      if Plain(s[..n]) then Some(n) else None
  }

  function Tokens(s: string): Option<seq<string>>
    decreases |s|
  {
    if s == "" then Some([])
    else if IsSpace(s[0]) then Tokens(s[1..])
    else
      var n := TokenLength(s);
      if n.None? then None else Prepend(s[..n.value], Tokens(s[n.value..]))
  }

  predicate IsTag(t: string) {
    && |t| >= 2 && t[0] == '<' && t[|t| - 1] == '>'
    && forall i :: 0 <= i < |t| - 1 ==> t[i] != '>'
  }

  predicate IsWord(t: string) {
    t != "" && Plain(t) && forall i :: 0 <= i < |t| ==> !IsSpace(t[i])
  }

  predicate IsToken(t: string) {
    IsTag(t) || IsWord(t)
  }

  predicate AllTokens(ts: seq<string>) {
    forall i :: 0 <= i < |ts| ==> IsToken(ts[i])
  }

  lemma FirstIsToken(s: string)
    requires s != "" && !IsSpace(s[0]) && TokenLength(s).Some?
    ensures IsToken(s[..TokenLength(s).value])
  {
    var t := s[..TokenLength(s).value];
    if s[0] == '<' {
      assert IsTag(t);
    } else {
      assert IsWord(t);
    }
  }

  lemma {:induction false} TokensAreTokens(s: string)
    ensures Tokens(s).Some? ==> AllTokens(Tokens(s).value)
    decreases |s|
  {
    hide IsToken, TokenLength;
    if s != "" {
      if IsSpace(s[0]) {
        TokensAreTokens(s[1..]);
      } else if TokenLength(s).Some? {
        TokensAreTokens(s[TokenLength(s).value..]);
        FirstIsToken(s);
      }
    }
  }

  lemma TokenLengthOf(t: string, rest: string)
    requires IsToken(t) && (rest == "" || IsSpace(rest[0]))
    ensures !IsSpace(t[0]) && TokenLength(t + rest) == Some(|t|)
  {
    var s := t + rest;
    assert s[0] == t[0];
    if t[0] == '<' {
      assert IsTag(t);
      assert s[|t| - 1] == '>';
      assert IndexOf(s, '>') == |t| - 1;
    } else {
      assert IsWord(t);
      WordEnds(t, rest);
      assert s[..|t|] == t;
    }
  }

  lemma WordEnds(t: string, rest: string)
    requires forall i :: 0 <= i < |t| ==> !IsSpace(t[i])
    requires rest == "" || IsSpace(rest[0])
    ensures WordLength(t + rest) == |t|
  {
    hide IsSpace;
    var n, s := WordLength(t + rest), t + rest;
    assert forall i :: 0 <= i < |t| ==> s[i] == t[i];
    assert rest != "" ==> s[|t|] == rest[0];
  }

  lemma FirstToken(t: string, rest: string)
    requires IsToken(t)
    ensures Tokens(t + ([' '] + rest)) == Prepend(t, Tokens(rest))
    ensures Tokens(t) == Some([t])
  {
    hide IsToken, TokenLength;
    var tail := [' '] + rest;
    TokenLengthOf(t, tail);
    TokenLengthOf(t, "");
    assert t + "" == t;
    assert (t + tail)[..|t|] == t && (t + tail)[|t|..] == tail;
    assert tail[1..] == rest;
    assert t[..|t|] == t && t[|t|..] == "";
    assert [t] + [] == [t];
  }

  /** Tokenizing tokens written with single spaces gives the tokens back. */
  lemma {:induction false} TokenizeWritten(ts: seq<string>)
    requires |ts| >= 1 && AllTokens(ts)
    ensures Tokens(Join(ts, ' ')) == Some(ts)
  {
    hide IsToken, Tokens;
    if |ts| == 1 {
      FirstToken(ts[0], "");
      assert ts == [ts[0]];
    } else {
      TokenizeWritten(ts[1..]);
      FirstToken(ts[0], Join(ts[1..], ' '));
      assert Join(ts, ' ') == ts[0] + ([' '] + Join(ts[1..], ' '));
      assert [ts[0]] + ts[1..] == ts;
    }
  }

  method Tokenize(spec: string) returns (r: Option<seq<string>>)
    ensures r == Tokens(spec)
  {
    hide TokenLength;
    var tokens: seq<string> := [];
    var cursor := 0;
    assert spec[0..] == spec;
    JoinedEmpty(tokens, Tokens(spec));
    while cursor < |spec|
      invariant 0 <= cursor <= |spec|
      invariant Tokens(spec) == Joined(tokens, Tokens(spec[cursor..]))
    {
      cursor := SkipSpaces(spec, cursor);
      if cursor >= |spec| {
        break;
      }
      ghost var s := spec[cursor..];
      var n := ScanToken(spec, cursor);
      if n.None? {
        return None;
      }
      var token := spec[cursor..cursor + n.value];
      assert s[..n.value] == token && s[n.value..] == spec[cursor + n.value..];
      JoinedStep(tokens, token, Tokens(s[n.value..]));
      tokens := tokens + [token];
      cursor := cursor + n.value;
    }
    assert spec[cursor..] == "" && Tokens("") == Some([]);
    JoinedEmpty(tokens, Some([]));
    r := Some(tokens);
  }

  function Joined(ts: seq<string>, rest: Option<seq<string>>): Option<seq<string>> {
    if rest.None? then None else Some(ts + rest.value)
  }

  lemma JoinedEmpty(ts: seq<string>, rest: Option<seq<string>>)
    ensures ts == [] ==> Joined(ts, rest) == rest
    ensures Joined(ts, Some([])) == Some(ts)
  {
    assert ts + [] == ts;
    assert rest.Some? ==> [] + rest.value == rest.value;
  }

  lemma JoinedStep(ts: seq<string>, t: string, rest: Option<seq<string>>)
    ensures Joined(ts, Prepend(t, rest)) == Joined(ts + [t], rest)
  {
    if rest.Some? {
      assert ts + ([t] + rest.value) == ts + [t] + rest.value;
    }
  }

  method SkipSpaces(spec: string, start: nat) returns (cursor: nat)
    requires start <= |spec|
    ensures start <= cursor <= |spec|
    ensures cursor < |spec| ==> !IsSpace(spec[cursor])
    ensures Tokens(spec[start..]) == Tokens(spec[cursor..])
  {
    cursor := start;
    while cursor < |spec| && IsSpace(spec[cursor])
      invariant start <= cursor <= |spec|
      invariant Tokens(spec[start..]) == Tokens(spec[cursor..])
    {
      assert spec[cursor..][1..] == spec[cursor + 1..];
      cursor := cursor + 1;
    }
  }

  /** The length of the token at a place that is not a space. */
  method ScanToken(spec: string, cursor: nat) returns (n: Option<nat>)
    requires cursor < |spec| && !IsSpace(spec[cursor])
    ensures n == TokenLength(spec[cursor..])
  {
    ghost var s := spec[cursor..];
    if spec[cursor] == '<' {
      var offset := IndexOf(spec[cursor..], '>');
      return if offset == |spec[cursor..]| then None else Some(offset + 1);
    }
    var end := cursor;
    while end < |spec| && !IsSpace(spec[end])
      invariant cursor <= end <= |spec| && end - cursor <= WordLength(s)
      invariant forall i :: 0 <= i < end - cursor ==> s[i] != '<' && s[i] != '>'
    {
      assert s[end - cursor] == spec[end];
      if spec[end] == '<' || spec[end] == '>' {
        assert s[..WordLength(s)][end - cursor] == spec[end];
        return None;
      }
      end := end + 1;
    }
    assert end < |spec| ==> s[end - cursor] == spec[end];
    assert WordLength(s) == end - cursor;
    n := Some(end - cursor);
  }

  // ----- Tags -----

  function Fields(s: string): seq<string>
    decreases |s|
  {
    if s == "" then []
    else if IsSpace(s[0]) then Fields(s[1..])
    else [s[..WordLength(s)]] + Fields(s[WordLength(s)..])
  }

  function HexDigit(c: char): Option<nat> {
    if '0' <= c <= '9' then Some((c as int) - ('0' as int))
    else if 'a' <= c <= 'f' then Some((c as int) - ('a' as int) + 10)
    else if 'A' <= c <= 'F' then Some((c as int) - ('A' as int) + 10)
    else None
  }

  function DecodeHex(s: string): Option<seq<nat>> {
    if s == "" then Some([])
    else if |s| == 1 then None
    else
      var hi, lo, rest := HexDigit(s[0]), HexDigit(s[1]), DecodeHex(s[2..]);
      if hi.None? || lo.None? || rest.None? then None
      else Some([16 * hi.value + lo.value] + rest.value)
  }

  function ParseLength(s: string): (r: Option<nat>)
    ensures r.Some? ==> r.value <= MAX_INT
  {
    var n := Atoi(s);
    if n.None? || n.value < 0 then None else Some(n.value)
  }

  function Upper(s: string): string {
    seq(|s|, i requires 0 <= i < |s| => if 'a' <= s[i] <= 'z' then s[i] - 32 as char else s[i])
  }

  function ParseTag(token: string, table: map<string, string>): Option<Op>
    requires |token| >= 2
  {
    var parts := Fields(TrimSpace(token[1..|token| - 1]));
    if parts == [] then None
    else if parts[0] == "b" then
      if |parts| != 2 then None
      else
        var bytes := DecodeHex(parts[1]);
        if bytes.None? then None else Some(Binary(bytes.value))
    else if parts[0] == "r" || parts[0] == "rc" then
      if |parts| != 2 then None
      else
        var n := ParseLength(parts[1]);
        if n.None? then None else Some(if parts[0] == "r" then Random(n.value) else CryptoRandom(n.value))
    else if parts[0] == "rd" then
      if |parts| != 3 then None
      else
        var min, max := ParseLength(parts[1]), ParseLength(parts[2]);
        if min.None? || max.None? || max.value < min.value then None else Some(Digits(min.value, max.value))
    else if parts[0] == "t" then
      if |parts| != 2 || Upper(parts[1]) !in table then None else Some(Template(Upper(parts[1])))
    else None
  }

  function ParseToken(token: string, table: map<string, string>): (r: Option<Op>)
    ensures r.Some? && r.value.Template? ==> r.value.name in table
    ensures r.Some? && r.value.Digits? ==> r.value.min <= r.value.max <= MAX_INT
  {
    if |token| >= 2 && token[0] == '<' && token[|token| - 1] == '>' then ParseTag(token, table)
    else Some(Literal(token))
  }

  predicate WellFormed(ops: seq<Op>, table: map<string, string>) {
    forall i :: 0 <= i < |ops| ==>
      && (ops[i].Template? ==> ops[i].name in table)
      && (ops[i].Digits? ==> ops[i].min <= ops[i].max <= MAX_INT)
  }

  function ParseTokens(tokens: seq<string>, table: map<string, string>): (r: Option<seq<Op>>)
    ensures r.Some? ==> WellFormed(r.value, table)
  {
    if tokens == [] then Some([])
    else
      var front := ParseTokens(tokens[..|tokens| - 1], table);
      var last := ParseToken(tokens[|tokens| - 1], table);
      if front.None? || last.None? then None else Some(front.value + [last.value])
  }

  function Ops(spec: string, table: map<string, string>): (r: Option<seq<Op>>)
    ensures r.Some? ==> WellFormed(r.value, table)
  {
    var tokens := Tokens(spec);
    if tokens.None? then None else ParseTokens(tokens.value, table)
  }

  method ParseOperations(spec: string, table: map<string, string>) returns (r: Option<seq<Op>>)
    ensures r == Ops(spec, table)
  {
    hide Tokens, ParseToken;
    var tokens := Tokenize(spec);
    if tokens.None? {
      return None;
    }
    var ops := [];
    for i := 0 to |tokens.value|
      invariant ParseTokens(tokens.value[..i], table) == Some(ops)
    {
      assert tokens.value[..i + 1][..i] == tokens.value[..i];
      var op := ParseToken(tokens.value[i], table);
      if op.None? {
        PrefixFails(tokens.value, i + 1, table);
        return None;
      }
      ops := ops + [op.value];
    }
    assert tokens.value[..|tokens.value|] == tokens.value;
    r := Some(ops);
  }

  lemma {:induction false} PrefixFails(tokens: seq<string>, n: nat, table: map<string, string>)
    requires n <= |tokens| && ParseTokens(tokens[..n], table).None?
    ensures ParseTokens(tokens, table).None?
    decreases |tokens| - n
  {
    if n < |tokens| {
      assert tokens[..n + 1][..n] == tokens[..n];
      PrefixFails(tokens, n + 1, table);
    } else {
      assert tokens[..n] == tokens;
    }
  }
}

/** Writing operations as tags, and reading them back. */
module ISpecWriter {
  import opened Text
  import opened ISpecSyntax

  function HexChar(n: nat): (c: char)
    requires n < 16
    ensures HexDigit(c) == Some(n) && !IsSpace(c) && c != '>'
  {
    if n < 10 then '0' + n as char else 'a' + (n - 10) as char
  }

  function Hex(bytes: seq<nat>): (s: string)
    requires forall i :: 0 <= i < |bytes| ==> bytes[i] < 256
    ensures |s| == 2 * |bytes|
    ensures Clean(s)
  {
    if bytes == [] then "" else [HexChar(bytes[0] / 16), HexChar(bytes[0] % 16)] + Hex(bytes[1..])
  }

  /** Text that can stand inside a tag as one field. */
  predicate Clean(s: string) {
    forall i :: 0 <= i < |s| ==> !IsSpace(s[i]) && s[i] != '>'
  }

  lemma {:induction false} HexRoundTrip(bytes: seq<nat>)
    requires forall i :: 0 <= i < |bytes| ==> bytes[i] < 256
    ensures DecodeHex(Hex(bytes)) == Some(bytes)
  {
    if bytes != [] {
      HexRoundTrip(bytes[1..]);
      assert Hex(bytes)[2..] == Hex(bytes[1..]);
      assert [bytes[0]] + bytes[1..] == bytes;
    }
  }

  /** Hex text is read digit by digit, in either case. */
  predicate IsHex(c: char) {
    '0' <= c <= '9' || 'a' <= c <= 'f' || 'A' <= c <= 'F'
  }

  /** Hex decodes exactly when it has an even number of hex digits, and letter case does not matter. */
  lemma {:induction false} HexDecodesExactlyWhen(s: string)
    ensures DecodeHex(s).Some? <==> |s| % 2 == 0 && forall i :: 0 <= i < |s| ==> IsHex(s[i])
    ensures DecodeHex(s).Some? ==> 2 * |DecodeHex(s).value| == |s|
  {
    if |s| >= 2 {
      var rest := s[2..];
      HexDecodesExactlyWhen(rest);
      assert forall i :: 2 <= i < |s| ==> s[i] == rest[i - 2];
      assert forall i :: 0 <= i < |rest| ==> rest[i] == s[i + 2];
    }
  }

  lemma {:induction false} HexIgnoresCase(s: string)
    ensures DecodeHex(Upper(s)) == DecodeHex(s)
  {
    var u := Upper(s);
    if |s| >= 2 {
      HexIgnoresCase(s[2..]);
      assert u[2..] == Upper(s[2..]);
    }
  }

  /** `t` is `name`, with letters of `name` in either case. */
  predicate Spells(t: string, name: string) {
    && |t| == |name|
    && forall i :: 0 <= i < |t| ==> t[i] == name[i] || ('A' <= name[i] <= 'Z' && t[i] as int == name[i] as int + 32)
  }

  /** A template is found however its name's letters are cased. */
  lemma TemplateIgnoresCase(t: string, name: string, table: map<string, string>)
    requires name in table && name != "" && Spells(t, name) && Clean(t)
    requires forall i :: 0 <= i < |name| ==> !('a' <= name[i] <= 'z')
    ensures ParseToken("<t " + t + ">", table) == Some(Template(name))
  {
    hide Fields, TrimSpace, Upper, Spells, ParseTag;
    UpperSpells(t, name);
    TemplateTag(t);
    var token := "<t " + t + ">";
    assert token[0] == '<' && token[|token| - 1] == '>';
    TagOfTemplate(token, t, table);
  }

  lemma TagOfTemplate(token: string, t: string, table: map<string, string>)
    requires |token| >= 2 && Fields(TrimSpace(token[1..|token| - 1])) == ["t", t] && Upper(t) in table
    ensures ParseTag(token, table) == Some(Template(Upper(t)))
  {
    hide Fields, TrimSpace, Upper, DecodeHex, ParseLength;
    assert ["t", t][0] == "t";
  }

  lemma UpperSpells(t: string, name: string)
    requires Spells(t, name) && forall i :: 0 <= i < |name| ==> !('a' <= name[i] <= 'z')
    ensures Upper(t) == name && |t| == |name|
  {
  }

  lemma TemplateTag(t: string)
    requires FieldText(t)
    ensures var token := "<t " + t + ">"; Fields(TrimSpace(token[1..|token| - 1])) == ["t", t]
  {
    hide Fields, TrimSpace;
    var fields := ["t", t];
    assert FieldText("t");
    TagRead(fields);
    assert fields[1..] == [t] && Join(fields, ' ') == "t" + [' '] + t;
    assert "<" + Join(fields, ' ') + ">" == "<t " + t + ">";
  }

  /** The fields of a tag spell the operation. */
  predicate Spelled(fields: seq<string>, op: Op, table: map<string, string>) {
    match op
    case Literal(_) => false
    case Binary(bytes) => |fields| == 2 && fields[0] == "b" && DecodeHex(fields[1]) == Some(bytes)
    case Random(n) => |fields| == 2 && fields[0] == "r" && Atoi(fields[1]) == Some(n)
    case CryptoRandom(n) => |fields| == 2 && fields[0] == "rc" && Atoi(fields[1]) == Some(n)
    case Digits(min, max) =>
      |fields| == 3 && fields[0] == "rd" && Atoi(fields[1]) == Some(min) && Atoi(fields[2]) == Some(max) && min <= max
    case Template(name) => |fields| == 2 && fields[0] == "t" && Upper(fields[1]) == name && name in table
  }

  lemma TagNames()
    ensures "b" != "r" && "b" != "rc" && "b" != "rd" && "b" != "t" && "r" != "rc" && "r" != "rd" && "r" != "t"
    ensures "rc" != "rd" && "rc" != "t" && "rd" != "t"
  {
    assert "b"[0] != "r"[0] && "b"[0] != "t"[0] && "r"[0] != "t"[0] && "rc"[1] != "rd"[1];
    assert "rc"[0] == 'r' && "rd"[0] == 'r';
  }

  /** A tag is read as an operation exactly when its blank-separated fields spell that operation. */
  lemma TagReadExactlyWhen(token: string, op: Op, table: map<string, string>)
    requires |token| >= 2 && token[0] == '<' && token[|token| - 1] == '>'
    ensures ParseToken(token, table) == Some(op) <==>
            Spelled(Fields(TrimSpace(token[1..|token| - 1])), op, table)
  {
    hide Fields, TrimSpace, DecodeHex, Atoi, Upper;
    TagNames();
    var fields := Fields(TrimSpace(token[1..|token| - 1]));
  }

  predicate Writable(op: Op, table: map<string, string>) {
    match op
    case Literal(text) => IsWord(text)
    case Binary(bytes) => bytes != [] && forall i :: 0 <= i < |bytes| ==> bytes[i] < 256
    case Random(n) => n <= MAX_INT
    case CryptoRandom(n) => n <= MAX_INT
    case Digits(min, max) => min <= max <= MAX_INT
    case Template(name) => name in table && name != "" && Clean(name) && Upper(name) == name
  }

  /** The fields of an operation's tag. */
  function TagFields(op: Op, table: map<string, string>): (fields: seq<string>)
    requires Writable(op, table) && !op.Literal?
    ensures |fields| >= 2 && forall i :: 0 <= i < |fields| ==> FieldText(fields[i])
  {
    match op
    case Binary(bytes) => ["b", Hex(bytes)]
    case Random(n) => NumberClean(n); ["r", Itoa(n)]
    case CryptoRandom(n) => NumberClean(n); ["rc", Itoa(n)]
    case Digits(min, max) => NumberClean(min); NumberClean(max); ["rd", Itoa(min), Itoa(max)]
    case Template(name) => ["t", name]
  }

  lemma NumberClean(n: nat)
    ensures Clean(Itoa(n))
  {
  }

  function Write(op: Op, table: map<string, string>): string
    requires Writable(op, table)
  {
    if op.Literal? then op.text else "<" + Join(TagFields(op, table), ' ') + ">"
  }

  lemma FirstField(f: string, rest: string)
    requires f != "" && Clean(f)
    ensures Fields(f) == [f] && Fields(f + ([' '] + rest)) == [f] + Fields(rest)
  {
    hide IsSpace;
    var tail := [' '] + rest;
    var s := f + tail;
    assert IsSpace(tail[0]) by { BlankIsSpace(); }
    WordEnds(f, tail);
    WordEnds(f, "");
    assert f + "" == f && f[..|f|] == f && f[|f|..] == "";
    assert s[0] == f[0] && s[..|f|] == f && s[|f|..] == tail && tail[1..] == rest;
  }

  lemma BlankIsSpace()
    ensures IsSpace(' ')
  {
  }

  predicate FieldText(f: string) {
    f != "" && Clean(f)
  }

  lemma {:induction false} FieldsJoined(fields: seq<string>)
    requires |fields| >= 1 && forall i :: 0 <= i < |fields| ==> FieldText(fields[i])
    ensures Fields(Join(fields, ' ')) == fields
  {
    hide Fields, Clean;
    var f := fields[0];
    assert FieldText(f);
    if |fields| == 1 {
      FirstField(f, "");
      assert fields == [f];
    } else {
      var rest := Join(fields[1..], ' ');
      FieldsJoined(fields[1..]);
      FirstField(f, rest);
      assert Join(fields, ' ') == f + ([' '] + rest);
      assert [f] + fields[1..] == fields;
    }
  }

  predicate Inner(s: string) {
    s != "" && !IsSpace(s[0]) && !IsSpace(s[|s| - 1]) && forall i :: 0 <= i < |s| ==> s[i] != '>'
  }

  lemma InnerJoined(f: string, s: string)
    requires FieldText(f) && Inner(s)
    ensures Inner(f + [' '] + s)
  {
    hide IsSpace;
    var all := f + [' '] + s;
    assert all[0] == f[0] && all[|all| - 1] == s[|s| - 1];
    forall i | 0 <= i < |all| ensures all[i] != '>' {
      if i > |f| { assert all[i] == s[i - |f| - 1]; }
    }
  }

  lemma {:induction false} JoinedIsInner(fields: seq<string>)
    requires |fields| >= 1 && forall i :: 0 <= i < |fields| ==> FieldText(fields[i])
    ensures Inner(Join(fields, ' '))
  {
    assert FieldText(fields[0]);
    if |fields| > 1 {
      hide Inner, FieldText;
      JoinedIsInner(fields[1..]);
      InnerJoined(fields[0], Join(fields[1..], ' '));
    }
  }

  /** A written tag is one token, and its fields are read back. */
  lemma TagRead(fields: seq<string>)
    requires |fields| >= 1 && forall i :: 0 <= i < |fields| ==> FieldText(fields[i])
    ensures var token := "<" + Join(fields, ' ') + ">";
            IsTag(token) && Fields(TrimSpace(token[1..|token| - 1])) == fields
  {
    hide Fields;
    FieldsJoined(fields);
    JoinedIsInner(fields);
    var inner := Join(fields, ' ');
    var token := "<" + inner + ">";
    assert token[1..|token| - 1] == inner;
    forall i | 0 <= i < |token| - 1 ensures token[i] != '>' {
      assert i > 0 ==> token[i] == inner[i - 1];
    }
  }

  lemma LengthRead(n: nat)
    requires n <= MAX_INT
    ensures ParseLength(Itoa(n)) == Some(n)
  {
    ItoaRoundTrip(n);
  }

  lemma WrittenTagRead(op: Op, table: map<string, string>)
    requires Writable(op, table) && !op.Literal?
    ensures ParseToken(Write(op, table), table) == Some(op) && IsToken(Write(op, table))
  {
    hide Fields, TrimSpace, ParseLength, DecodeHex, Hex, Itoa, Join, Upper, Clean;
    var fields := TagFields(op, table);
    TagRead(fields);
    match op
    case Binary(bytes) => HexRoundTrip(bytes);
    case Random(n) => LengthRead(n);
    case CryptoRandom(n) => LengthRead(n);
    case Digits(min, max) => LengthRead(min); LengthRead(max);
    case Template(name) =>
  }

  lemma WrittenRead(op: Op, table: map<string, string>)
    requires Writable(op, table)
    ensures ParseToken(Write(op, table), table) == Some(op) && IsToken(Write(op, table))
  {
    hide ParseTag, IsTag, TagFields, Join;
    if op.Literal? {
      assert op.text[0] != '<';
    } else {
      WrittenTagRead(op, table);
    }
  }

  predicate AllWritable(ops: seq<Op>, table: map<string, string>) {
    forall i :: 0 <= i < |ops| ==> Writable(ops[i], table)
  }

  function WriteAll(ops: seq<Op>, table: map<string, string>): (r: seq<string>)
    requires AllWritable(ops, table)
    ensures |r| == |ops|
  {
    seq(|ops|, i requires 0 <= i < |ops| => Write(ops[i], table))
  }

  lemma {:induction false} TokensRead(ops: seq<Op>, table: map<string, string>)
    requires AllWritable(ops, table)
    ensures AllTokens(WriteAll(ops, table)) && ParseTokens(WriteAll(ops, table), table) == Some(ops)
  {
    hide Writable, ParseToken, IsToken, Write;
    if ops != [] {
      var front, op := ops[..|ops| - 1], ops[|ops| - 1];
      TokensRead(front, table);
      WrittenRead(op, table);
      assert WriteAll(ops, table) == WriteAll(front, table) + [Write(op, table)];
      assert WriteAll(ops, table)[..|ops| - 1] == WriteAll(front, table);
      assert ops == front + [op];
    }
  }

  /** Operations written as tags with spaces between them are parsed back, each with its own arguments. */
  lemma WrittenSpecParses(ops: seq<Op>, table: map<string, string>)
    requires ops != [] && AllWritable(ops, table)
    ensures Ops(Join(WriteAll(ops, table), ' '), table) == Some(ops)
  {
    hide Tokens, ParseTokens, Writable, IsToken, Write;
    TokensRead(ops, table);
    TokenizeWritten(WriteAll(ops, table));
  }
}

/** Validating and executing I-specs against a table of templates. */
module ISpec {
  import opened Text
  import opened ISpecSyntax
  import opened ISpecWriter
  import Arithmetic

  const MAX_DEPTH := 8

  type Table = map<string, string>

  function Left(depth: nat): nat {
    if depth <= MAX_DEPTH then MAX_DEPTH + 1 - depth else 0
  }

  function Append(a: Option<seq<Op>>, b: Option<seq<Op>>): Option<seq<Op>> {
    if a.None? || b.None? then None else Some(a.value + b.value)
  }

  /** The spec with every template reference replaced by what it stands for, if that succeeds. */
  function Expand(table: Table, spec: string, depth: nat, stack: set<string>): Option<seq<Op>>
    decreases Left(depth), 2, 0
  {
    var ops := Ops(spec, table);
    if depth > MAX_DEPTH || ops.None? then None else ExpandOps(table, ops.value, depth, stack)
  }

  function ExpandOps(table: Table, ops: seq<Op>, depth: nat, stack: set<string>): Option<seq<Op>>
    requires depth <= MAX_DEPTH
    decreases Left(depth), 1, |ops|
  {
    if ops == [] then Some([])
    else Append(ExpandOps(table, ops[..|ops| - 1], depth, stack), ExpandOp(table, ops[|ops| - 1], depth, stack))
  }

  function ExpandOp(table: Table, op: Op, depth: nat, stack: set<string>): Option<seq<Op>>
    requires depth <= MAX_DEPTH
    decreases Left(depth), 0, 0
  {
    if !op.Template? then Some([op])
    else if op.name in stack || op.name !in table then None
    else Expand(table, table[op.name], depth + 1, stack + {op.name})
  }

  lemma {:induction false} PrefixExpands(table: Table, ops: seq<Op>, n: nat, depth: nat, stack: set<string>)
    requires depth <= MAX_DEPTH && n <= |ops|
    ensures var whole := ExpandOps(table, ops, depth, stack);
            var part := ExpandOps(table, ops[..n], depth, stack);
            whole.Some? ==> part.Some? && part.value <= whole.value
    decreases |ops| - n
  {
    if n == |ops| {
      assert ops[..n] == ops;
    } else {
      assert ops[..n + 1][..n] == ops[..n];
      PrefixExpands(table, ops, n + 1, depth, stack);
    }
  }

  // ----- When a spec expands -----

  ghost predicate Refers(table: Table, spec: string, name: string) {
    Ops(spec, table).Some? && Template(name) in Ops(spec, table).value
  }

  /** A path of references: the spec names the first template, which names the second, and so on. */
  ghost predicate Chain(table: Table, spec: string, names: seq<string>)
    decreases |names|
  {
    names == [] ||
    (Refers(table, spec, names[0]) && names[0] in table && Chain(table, table[names[0]], names[1..]))
  }

  /** The text at the end of a chain. */
  function EndOf(table: Table, spec: string, names: seq<string>): string
    decreases |names|
  {
    if names == [] then spec
    else if names[0] in table then EndOf(table, table[names[0]], names[1..])
    else ""
  }

  /** The chain stays within the depth, repeats no template, and ends in a text that parses. */
  predicate Sound(table: Table, spec: string, names: seq<string>, depth: nat, stack: set<string>) {
    && depth + |names| <= MAX_DEPTH
    && Distinct(names)
    && (forall i :: 0 <= i < |names| ==> names[i] !in stack)
    && Ops(EndOf(table, spec, names), table).Some?
  }

  lemma {:induction false} EachExpands(table: Table, ops: seq<Op>, depth: nat, stack: set<string>)
    requires depth <= MAX_DEPTH
    ensures ExpandOps(table, ops, depth, stack).Some? <==>
            forall op <- ops :: ExpandOp(table, op, depth, stack).Some?
  {
    if ops != [] {
      var front, last := ops[..|ops| - 1], ops[|ops| - 1];
      EachExpands(table, front, depth, stack);
      assert last in ops && forall op <- front :: op in ops;
      assert forall op <- ops :: op in front || op == last;
    }
  }

  lemma {:induction false} ExpandedIsSound(table: Table, spec: string, names: seq<string>, depth: nat, stack: set<string>)
    requires Expand(table, spec, depth, stack).Some? && Chain(table, spec, names)
    ensures Sound(table, spec, names, depth, stack)
    decreases |names|
  {
    hide Ops;
    if names != [] {
      var name := names[0];
      EachExpands(table, Ops(spec, table).value, depth, stack);
      assert ExpandOp(table, Template(name), depth, stack).Some?;
      ExpandedIsSound(table, table[name], names[1..], depth + 1, stack + {name});
      SoundStep(table, spec, name, names[1..], depth, stack);
      assert [name] + names[1..] == names;
    }
  }

  /** A chain one longer is sound when its first template is new and the rest is sound below it. */
  lemma SoundStep(table: Table, spec: string, name: string, rest: seq<string>, depth: nat, stack: set<string>)
    requires name in table
    ensures Sound(table, spec, [name] + rest, depth, stack) <==>
            name !in stack && Sound(table, table[name], rest, depth + 1, stack + {name})
  {
    hide Ops;
    var names := [name] + rest;
    assert names[1..] == rest;
    if Sound(table, spec, names, depth, stack) {
      assert names[0] == name;
      forall i | 0 <= i < |rest| ensures rest[i] !in stack + {name} {
        assert rest[i] == names[i + 1] && names[0] != names[i + 1];
      }
      forall i, j | 0 <= i < j < |rest| ensures rest[i] != rest[j] {
        assert names[i + 1] != names[j + 1];
      }
    }
  }

  lemma {:induction false} SoundExpands(table: Table, spec: string, depth: nat, stack: set<string>)
    requires forall names :: Chain(table, spec, names) ==> Sound(table, spec, names, depth, stack)
    ensures Expand(table, spec, depth, stack).Some?
    decreases Left(depth)
  {
    hide Ops, Sound, Expand;
    TopIsSound(table, spec, depth, stack);
    var ops := Ops(spec, table).value;
    forall op | op in ops ensures ExpandOp(table, op, depth, stack).Some? {
      if op.Template? {
        var name := op.name;
        forall rest ensures Chain(table, table[name], rest) ==>
                            name !in stack && Sound(table, table[name], rest, depth + 1, stack + {name}) {
          assert ([name] + rest)[1..] == rest;
          assert Chain(table, table[name], rest) ==> Chain(table, spec, [name] + rest);
          SoundStep(table, spec, name, rest, depth, stack);
        }
        assert Chain(table, table[name], []);
        SoundExpands(table, table[name], depth + 1, stack + {name});
      }
    }
    EachExpands(table, ops, depth, stack);
    ExpandUnfolds(table, spec, depth, stack);
  }

  lemma TopIsSound(table: Table, spec: string, depth: nat, stack: set<string>)
    requires forall names :: Chain(table, spec, names) ==> Sound(table, spec, names, depth, stack)
    ensures depth <= MAX_DEPTH && Ops(spec, table).Some?
    ensures WellFormed(Ops(spec, table).value, table)
  {
    hide Ops;
    assert Chain(table, spec, []);
    assert Sound(table, spec, [], depth, stack);
  }

  lemma ExpandUnfolds(table: Table, spec: string, depth: nat, stack: set<string>)
    requires depth <= MAX_DEPTH && Ops(spec, table).Some?
    ensures Expand(table, spec, depth, stack) == ExpandOps(table, Ops(spec, table).value, depth, stack)
  {
  }

  /**
   * A spec is valid exactly when every chain of references from it is at most eight long, names no
   * template twice and ends in a text that parses.
   */
  lemma ValidExactlyWhenChainsAreSound(table: Table, spec: string)
    ensures Expand(table, spec, 0, {}).Some? <==>
            forall names :: Chain(table, spec, names) ==> Sound(table, spec, names, 0, {})
  {
    hide *;
    if Expand(table, spec, 0, {}).Some? {
      forall names | Chain(table, spec, names) ensures Sound(table, spec, names, 0, {}) {
        ExpandedIsSound(table, spec, names, 0, {});
      }
    } else if forall names :: Chain(table, spec, names) ==> Sound(table, spec, names, 0, {}) {
      SoundExpands(table, spec, 0, {});
    }
  }

  // ----- What an execution may produce -----

  /** The bytes one operation may yield. */
  predicate Yields(op: Op, out: seq<nat>) {
    match op
    case Literal(text) => out == seq(|text|, i requires 0 <= i < |text| => text[i] as nat)
    case Binary(bytes) => out == bytes
    case Random(n) => |out| == n && forall i :: 0 <= i < |out| ==> out[i] < 256
    case CryptoRandom(n) => |out| == n && forall i :: 0 <= i < |out| ==> out[i] < 256
    case Digits(min, max) =>
      min <= |out| <= max && forall i :: 0 <= i < |out| ==> '0' as nat <= out[i] <= '9' as nat
    case Template(_) => false
  }

  ghost predicate Produces(ops: seq<Op>, out: seq<nat>)
    decreases |ops|, 1
  {
    if ops == [] then out == []
    else exists k: nat :: SplitsAt(ops, out, k)
  }

  ghost predicate SplitsAt(ops: seq<Op>, out: seq<nat>, k: nat)
    requires ops != []
    decreases |ops|, 0
  {
    k <= |out| && Produces(ops[..|ops| - 1], out[..k]) && Yields(ops[|ops| - 1], out[k..])
  }

  function MinLength(op: Op): nat {
    match op
    case Literal(text) => |text|
    case Binary(bytes) => |bytes|
    case Random(n) => n
    case CryptoRandom(n) => n
    case Digits(min, _) => min
    case Template(_) => 0
  }

  function MaxLength(op: Op): nat {
    if op.Digits? then op.max else MinLength(op)
  }

  function Total(ops: seq<Op>, length: Op -> nat): nat {
    if ops == [] then 0 else Total(ops[..|ops| - 1], length) + length(ops[|ops| - 1])
  }

  /** The output is as long as the sums of the operation lengths allow. */
  lemma {:induction false} ProducedLength(ops: seq<Op>, out: seq<nat>)
    requires Produces(ops, out)
    ensures Total(ops, MinLength) <= |out| <= Total(ops, MaxLength)
  {
    if ops != [] {
      var k: nat :| SplitsAt(ops, out, k);
      ProducedLength(ops[..|ops| - 1], out[..k]);
    }
  }

  // ----- What an execution does -----

  datatype Outcome = Bytes(out: seq<nat>) | Failed | Panicked

  /** The surroundings: whether crypto randomness can be read, and the largest slice that can be made. */
  datatype Machine = Machine(entropy: bool, limit: nat)

  /** The numbers a random source yields, in order. */
  type Draws = nat -> nat

  /** An outcome and how many numbers have been drawn by then. */
  datatype Run = Run(outcome: Outcome, pos: nat)

  function DrawBytes(draws: Draws, pos: nat, n: nat, low: nat, span: nat): (r: seq<nat>)
    requires span > 0
    ensures |r| == n
  {
    seq(n, i requires 0 <= i < n => low + draws(pos + i) % span)
  }

  /** Drawing below a bound panics when the bound is not a positive machine integer. */
  predicate CanDraw(bound: int) {
    0 < bound <= MAX_INT
  }

  function RunOp(op: Op, m: Machine, draws: Draws, pos: nat): Run {
    match op
    case Literal(text) => Run(Bytes(seq(|text|, i requires 0 <= i < |text| => text[i] as nat)), pos)
    case Binary(bytes) => Run(Bytes(bytes), pos)
    case Random(n) =>
      if n > m.limit then Run(Panicked, pos) else Run(Bytes(DrawBytes(draws, pos, n, 0, 256)), pos + n)
    case CryptoRandom(n) =>
      if n > m.limit then Run(Panicked, pos)
      else if n > 0 && !m.entropy then Run(Failed, pos)
      else Run(Bytes(DrawBytes(draws, pos, n, 0, 256)), pos + n)
    case Digits(min, max) =>
      if !CanDraw(max - min + 1) then Run(Panicked, pos)
      else
        var n := min + draws(pos) % (max - min + 1);
        if n > m.limit then Run(Panicked, pos + 1)
        else Run(Bytes(DrawBytes(draws, pos + 1, n, '0' as nat, 10)), pos + 1 + n)
    case Template(_) => Run(Failed, pos)
  }

  /** Operations in order, up to the first that yields no bytes. */
  function RunOps(ops: seq<Op>, m: Machine, draws: Draws, pos: nat): Run {
    if ops == [] then Run(Bytes([]), pos)
    else Then(RunOps(ops[..|ops| - 1], m, draws, pos), ops[|ops| - 1], m, draws)
  }

  function Then(before: Run, op: Op, m: Machine, draws: Draws): Run {
    if !before.outcome.Bytes? then before
    else
      var r := RunOp(op, m, draws, before.pos);
      if r.outcome.Bytes? then Run(Bytes(before.outcome.out + r.outcome.out), r.pos) else r
  }

  /** No choice of random numbers makes the operation panic. */
  predicate Fits(op: Op, limit: nat) {
    match op
    case Random(n) => n <= limit
    case CryptoRandom(n) => n <= limit
    case Digits(min, max) => max <= limit && CanDraw(max - min + 1)
    case _ => true
  }

  predicate AllFit(ops: seq<Op>, limit: nat) {
    forall i :: 0 <= i < |ops| ==> Fits(ops[i], limit)
  }

  /** Every choice of random numbers makes the operation panic. */
  predicate MustPanic(op: Op, limit: nat) {
    match op
    case Random(n) => n > limit
    case CryptoRandom(n) => n > limit
    case Digits(min, max) => min > limit || !CanDraw(max - min + 1)
    case _ => false
  }

  predicate NoneMustPanic(ops: seq<Op>, limit: nat) {
    forall i :: 0 <= i < |ops| ==> !MustPanic(ops[i], limit)
  }

  predicate NoTemplates(ops: seq<Op>) {
    forall i :: 0 <= i < |ops| ==> !ops[i].Template?
  }

  lemma RunOpYields(op: Op, m: Machine, draws: Draws, pos: nat)
    ensures var r := RunOp(op, m, draws, pos).outcome;
            && (r.Bytes? ==> Yields(op, r.out) && !MustPanic(op, m.limit))
            && (r.Panicked? ==> !Fits(op, m.limit))
            && (r.Failed? ==> op.Template? || !m.entropy)
  {
  }

  /** Random bytes, and every outcome that an operation allows comes from some draws. */
  lemma EveryYieldIsReached(op: Op, m: Machine, out: seq<nat>, pos: nat) returns (draws: Draws)
    requires Yields(op, out) && Fits(op, m.limit) && (op.CryptoRandom? ==> m.entropy)
    ensures RunOp(op, m, draws, pos).outcome == Bytes(out)
  {
    draws := _ => 0;
    if op.Random? || op.CryptoRandom? {
      draws := k => if pos <= k < pos + |out| then out[k - pos] else 0;
      assert DrawBytes(draws, pos, |out|, 0, 256) == out;
    } else if op.Digits? {
      var first, start := |out| - op.min, pos + 1;
      draws := k => if k == pos then first else if start <= k < start + |out| then out[k - start] - '0' as nat else 0;
      Arithmetic.DivModUnique(first, op.max - op.min + 1, 0, first);
      assert DrawBytes(draws, start, |out|, '0' as nat, 10) == out;
    }
  }

  /** What was run produces what the operations allow. */
  lemma {:induction false} RunProduces(ops: seq<Op>, m: Machine, draws: Draws, pos: nat)
    ensures var r := RunOps(ops, m, draws, pos).outcome;
            && (r.Bytes? ==> Produces(ops, r.out) && NoneMustPanic(ops, m.limit))
            && (r.Panicked? ==> !AllFit(ops, m.limit))
            && (r.Failed? && NoTemplates(ops) ==> !m.entropy)
  {
    hide Yields, RunOp, MustPanic, Fits;
    if ops != [] {
      var front, op := ops[..|ops| - 1], ops[|ops| - 1];
      RunProduces(front, m, draws, pos);
      var before := RunOps(front, m, draws, pos);
      RunOpYields(op, m, draws, before.pos);
      assert NoTemplates(ops) ==> NoTemplates(front);
      assert AllFit(ops, m.limit) ==> AllFit(front, m.limit) && Fits(op, m.limit);
      var r := RunOps(ops, m, draws, pos).outcome;
      if r.Bytes? {
        var k := |before.outcome.out|;
        assert r.out[..k] == before.outcome.out && r.out[k..] == RunOp(op, m, draws, before.pos).outcome.out;
        assert SplitsAt(ops, r.out, k);
      }
    }
  }

  lemma {:induction false} RunConcat(a: seq<Op>, b: seq<Op>, m: Machine, draws: Draws, pos: nat)
    ensures var first := RunOps(a, m, draws, pos);
            RunOps(a + b, m, draws, pos) ==
            if !first.outcome.Bytes? then first
            else
              var second := RunOps(b, m, draws, first.pos);
              if second.outcome.Bytes? then Run(Bytes(first.outcome.out + second.outcome.out), second.pos) else second
    decreases |b|
  {
    hide RunOp;
    var first := RunOps(a, m, draws, pos);
    if b == [] {
      assert a + b == a;
      assert first.outcome.Bytes? ==> first.outcome.out + [] == first.outcome.out;
    } else {
      var front, op := b[..|b| - 1], b[|b| - 1];
      RunConcat(a, front, m, draws, pos);
      assert (a + b)[..|a + b| - 1] == a + front && (a + b)[|a + b| - 1] == op;
      if first.outcome.Bytes? {
        var second := RunOps(front, m, draws, first.pos);
        if second.outcome.Bytes? {
          var third := RunOp(op, m, draws, second.pos);
          if third.outcome.Bytes? {
            var x, y, z := first.outcome.out, second.outcome.out, third.outcome.out;
            assert x + y + z == x + (y + z);
          }
        }
      }
    }
  }

  /** With entropy an execution of plain operations succeeds whatever is drawn exactly when every one fits. */
  lemma AlwaysSucceedsExactlyWhen(ops: seq<Op>, m: Machine)
    requires m.entropy && NoTemplates(ops)
    ensures (forall draws: Draws :: RunOps(ops, m, draws, 0).outcome.Bytes?) <==> AllFit(ops, m.limit)
  {
    hide RunOps, Fits;
    if AllFit(ops, m.limit) {
      forall draws: Draws ensures RunOps(ops, m, draws, 0).outcome.Bytes? {
        RunProduces(ops, m, draws, 0);
      }
    } else {
      var i :| 0 <= i < |ops| && !Fits(ops[i], m.limit);
      var draws := Longest(ops[i]);
      LongestPanics(ops, i, m, 0);
      assert !RunOps(ops, m, draws, 0).outcome.Bytes?;
    }
  }

  /** The source that draws the greatest length of a digit run. */
  function Longest(op: Op): Draws {
    if op.Digits? && op.min <= op.max then _ => op.max - op.min else _ => 0
  }

  lemma LongestPanics(ops: seq<Op>, i: nat, m: Machine, pos: nat)
    requires i < |ops| && !Fits(ops[i], m.limit)
    ensures !RunOps(ops, m, Longest(ops[i]), pos).outcome.Bytes?
  {
    var op, draws := ops[i], Longest(ops[i]);
    var front := ops[..i];
    RunConcat(front, ops[i..], m, draws, pos);
    assert ops == front + ops[i..];
    var first := RunOps(front, m, draws, pos);
    RunConcat([op], ops[i + 1..], m, draws, first.pos);
    assert ops[i..] == [op] + ops[i + 1..];
    assert !RunOp(op, m, draws, first.pos).outcome.Bytes? by { LongestOpPanics(op, m, first.pos); }
    RunAlone(op, m, draws, first.pos);
  }

  lemma LongestOpPanics(op: Op, m: Machine, pos: nat)
    requires !Fits(op, m.limit)
    ensures !RunOp(op, m, Longest(op), pos).outcome.Bytes?
  {
    hide DrawBytes;
    if op.Digits? && CanDraw(op.max - op.min + 1) {
      var extra := op.max - op.min;
      assert Longest(op)(pos) == extra;
      Arithmetic.DivModUnique(extra, extra + 1, 0, extra);
    }
  }

  /** It can succeed exactly when no operation must panic. */
  lemma CanSucceedExactlyWhen(ops: seq<Op>, m: Machine)
    requires m.entropy && NoTemplates(ops)
    ensures (exists draws: Draws :: RunOps(ops, m, draws, 0).outcome.Bytes?) <==> NoneMustPanic(ops, m.limit)
  {
    hide RunOps, MustPanic;
    if NoneMustPanic(ops, m.limit) {
      ShortestSucceeds(ops, m, 0);
      assert RunOps(ops, m, Shortest(), 0).outcome.Bytes?;
    } else {
      forall draws: Draws ensures !RunOps(ops, m, draws, 0).outcome.Bytes? {
        RunProduces(ops, m, draws, 0);
      }
    }
  }

  function Shortest(): Draws {
    _ => 0
  }

  lemma {:induction false} ShortestSucceeds(ops: seq<Op>, m: Machine, pos: nat)
    requires m.entropy && NoTemplates(ops) && NoneMustPanic(ops, m.limit)
    ensures RunOps(ops, m, Shortest(), pos).outcome.Bytes?
  {
    if ops != [] {
      var op := ops[|ops| - 1];
      ShortestSucceeds(ops[..|ops| - 1], m, pos);
      assert !op.Template? && !MustPanic(op, m.limit);
    }
  }

  lemma {:induction false} ExpansionsHaveNoTemplates(table: Table, ops: seq<Op>, depth: nat, stack: set<string>)
    requires depth <= MAX_DEPTH
    ensures var r := ExpandOps(table, ops, depth, stack); r.Some? ==> NoTemplates(r.value)
    decreases Left(depth), |ops|
  {
    hide Ops;
    if ops != [] {
      var front, op := ops[..|ops| - 1], ops[|ops| - 1];
      ExpansionsHaveNoTemplates(table, front, depth, stack);
      if op.Template? && op.name !in stack && op.name in table {
        var spec, below := table[op.name], stack + {op.name};
        if depth < MAX_DEPTH && Ops(spec, table).Some? {
          ExpansionsHaveNoTemplates(table, Ops(spec, table).value, depth + 1, below);
          ExpandUnfolds(table, spec, depth + 1, below);
        }
        var inner := Expand(table, spec, depth + 1, below);
        assert inner.Some? ==> NoTemplates(inner.value);
        assert ExpandOp(table, op, depth, stack) == inner;
      }
    }
  }

  /** How an execution from `pos` that ends in `r` relates to the expansion: it runs the expanded operations, and
      yields no bytes where there is no expansion. */
  ghost predicate Explains(expanded: Option<seq<Op>>, m: Machine, draws: Draws, pos: nat, r: Run) {
    if expanded.Some? then r == RunOps(expanded.value, m, draws, pos) else !r.outcome.Bytes?
  }

  /** The set of templates being expanded, shared by the whole recursion. */
  class Stack {
    var names: set<string>

    constructor ()
      ensures names == {}
    {
      names := {};
    }
  }

  method ValidateRecursive(table: Table, spec: string, depth: nat, stack: Stack) returns (ok: bool)
    modifies stack
    ensures stack.names == old(stack.names)
    ensures ok == Expand(table, spec, depth, old(stack.names)).Some?
    decreases Left(depth)
  {
    hide Ops;
    if depth > MAX_DEPTH {
      return false;
    }
    var ops := ParseOperations(spec, table);
    if ops.None? {
      return false;
    }
    ghost var names := stack.names;
    for i := 0 to |ops.value|
      invariant stack.names == names
      invariant ExpandOps(table, ops.value[..i], depth, names).Some?
    {
      var op := ops.value[i];
      assert ops.value[..i + 1][..i] == ops.value[..i];
      PrefixExpands(table, ops.value, i + 1, depth, names);
      if !op.Template? {
        continue;
      }
      if op.name in stack.names {
        return false;
      }
      if op.name !in table {
        return false;
      }
      stack.names := stack.names + {op.name};
      var inner := ValidateRecursive(table, table[op.name], depth + 1, stack);
      stack.names := stack.names - {op.name};
      if !inner {
        return false;
      }
    }
    assert ops.value[..|ops.value|] == ops.value;
    ok := true;
  }

  method ValidateISpec(table: Table, spec: string) returns (ok: bool)
    ensures ok == Expand(table, spec, 0, {}).Some?
  {
    var stack := new Stack();
    ok := ValidateRecursive(table, spec, 0, stack);
  }

  // ----- Execution -----

  /** The random source. */
  class Rng {
    const draws: Draws
    var pos: nat

    constructor (draws: Draws)
      ensures this.draws == draws && pos == 0
    {
      this.draws := draws;
      pos := 0;
    }

    method IntN(n: nat) returns (x: nat)
      requires n > 0
      modifies this
      ensures x == draws(old(pos)) % n && pos == old(pos) + 1
    {
      x := draws(pos) % n;
      pos := pos + 1;
    }
  }

  method RandomBytes(rng: Rng, n: nat, low: nat, span: nat) returns (payload: seq<nat>)
    requires span > 0
    modifies rng
    ensures payload == DrawBytes(rng.draws, old(rng.pos), n, low, span) && rng.pos == old(rng.pos) + n
  {
    payload := [];
    for i := 0 to n
      invariant rng.pos == old(rng.pos) + i
      invariant payload == DrawBytes(rng.draws, old(rng.pos), i, low, span)
    {
      var b := rng.IntN(span);
      payload := payload + [low + b];
    }
  }

  /** An operation other than a template reference. */
  method ExecuteLeaf(op: Op, m: Machine, rng: Rng) returns (r: Outcome)
    requires !op.Template?
    modifies rng
    ensures Run(r, rng.pos) == RunOp(op, m, rng.draws, old(rng.pos))
  {
    match op
    case Literal(text) =>
      r := Bytes(seq(|text|, i requires 0 <= i < |text| => text[i] as nat));
    case Binary(bytes) =>
      r := Bytes(bytes);
    case Random(n) =>
      if n > m.limit {
        return Panicked;
      }
      var payload := RandomBytes(rng, n, 0, 256);
      r := Bytes(payload);
    case CryptoRandom(n) =>
      if n > m.limit {
        return Panicked;
      }
      if n > 0 && !m.entropy {
        return Failed;
      }
      var payload := RandomBytes(rng, n, 0, 256);
      r := Bytes(payload);
    case Digits(min, max) =>
      if !CanDraw(max - min + 1) {
        return Panicked;
      }
      var extra := rng.IntN(max - min + 1);
      var n := min + extra;
      if n > m.limit {
        return Panicked;
      }
      var payload := RandomBytes(rng, n, '0' as nat, 10);
      r := Bytes(payload);
  }

  method ExecuteOps(table: Table, ops: seq<Op>, depth: nat, stack: Stack, m: Machine, rng: Rng) returns (r: Outcome)
    requires WellFormed(ops, table)
    modifies stack, rng
    ensures stack.names == old(stack.names)
    ensures depth > MAX_DEPTH ==> r.Failed?
    ensures depth <= MAX_DEPTH ==>
              Explains(ExpandOps(table, ops, depth, old(stack.names)), m, rng.draws, old(rng.pos), Run(r, rng.pos))
    decreases Left(depth), 1
  {
    hide RunOps, ExpandOp;
    if depth > MAX_DEPTH {
      return Failed;
    }
    var output := [];
    ghost var names, pos := stack.names, rng.pos;
    assert RunOps([], m, rng.draws, pos) == Run(Bytes([]), pos) by { RunNothing(m, rng.draws, pos); }
    for i := 0 to |ops|
      invariant stack.names == names
      invariant ExpandOps(table, ops[..i], depth, names).Some?
      invariant RunOps(ExpandOps(table, ops[..i], depth, names).value, m, rng.draws, pos) == Run(Bytes(output), rng.pos)
    {
      assert ops[..i + 1][..i] == ops[..i];
      ghost var done := ExpandOps(table, ops[..i], depth, names);
      ghost var step := ExpandOp(table, ops[i], depth, names);
      var payload := ExecuteOp(table, ops[i], depth, stack, m, rng);
      PrefixExpands(table, ops, i + 1, depth, names);
      if step.Some? {
        RunConcat(done.value, step.value, m, rng.draws, pos);
      }
      if !payload.Bytes? {
        FailureSpreads(Append(done, step), ExpandOps(table, ops, depth, names), m, rng.draws, pos, Run(payload, rng.pos));
        return payload;
      }
      output := output + payload.out;
    }
    assert ops[..|ops|] == ops;
    r := Bytes(output);
  }

  lemma RunNothing(m: Machine, draws: Draws, pos: nat)
    ensures RunOps([], m, draws, pos) == Run(Bytes([]), pos)
  {
  }

  /** A prefix that does not complete explains a run that does not complete. */
  lemma FailureSpreads(part: Option<seq<Op>>, whole: Option<seq<Op>>, m: Machine, draws: Draws, pos: nat, r: Run)
    requires !r.outcome.Bytes? && Explains(part, m, draws, pos, r)
    requires whole.Some? ==> part.Some? && part.value <= whole.value
    ensures Explains(whole, m, draws, pos, r)
  {
    hide RunOps;
    if whole.Some? {
      var rest := whole.value[|part.value|..];
      assert whole.value == part.value + rest;
      RunConcat(part.value, rest, m, draws, pos);
    }
  }

  method ExecuteOp(table: Table, op: Op, depth: nat, stack: Stack, m: Machine, rng: Rng) returns (r: Outcome)
    requires depth <= MAX_DEPTH && WellFormed([op], table)
    modifies stack, rng
    ensures stack.names == old(stack.names)
    ensures Explains(ExpandOp(table, op, depth, old(stack.names)), m, rng.draws, old(rng.pos), Run(r, rng.pos))
    decreases Left(depth), 0
  {
    hide RunOp, Expand;
    if op.Template? {
      r := ExpandTemplate(table, op.name, depth + 1, stack, m, rng);
    } else {
      r := ExecuteLeaf(op, m, rng);
      RunAlone(op, m, rng.draws, old(rng.pos));
    }
  }

  lemma RunAlone(op: Op, m: Machine, draws: Draws, pos: nat)
    ensures RunOps([op], m, draws, pos) == RunOp(op, m, draws, pos)
  {
    hide RunOp;
    assert [op][..0] == [];
    var r := RunOp(op, m, draws, pos);
    assert r.outcome.Bytes? ==> [] + r.outcome.out == r.outcome.out;
  }

  method ExpandTemplate(table: Table, name: string, depth: nat, stack: Stack, m: Machine, rng: Rng) returns (r: Outcome)
    requires 0 < depth <= MAX_DEPTH + 1
    modifies stack, rng
    ensures stack.names == old(stack.names)
    ensures Explains(ExpandOp(table, Template(name), depth - 1, old(stack.names)), m, rng.draws, old(rng.pos), Run(r, rng.pos))
    decreases Left(depth), 2
  {
    hide RunOps, Ops;
    if name in stack.names {
      return Failed;
    }
    if name !in table {
      return Failed;
    }
    stack.names := stack.names + {name};
    var ops := ParseOperations(table[name], table);
    if ops.None? {
      stack.names := stack.names - {name};
      return Failed;
    }
    r := ExecuteOps(table, ops.value, depth, stack, m, rng);
    stack.names := stack.names - {name};
  }

  method ParseISpec(table: Table, spec: string, m: Machine, rng: Rng) returns (r: Outcome)
    modifies rng
    ensures Explains(Expand(table, spec, 0, {}), m, rng.draws, old(rng.pos), Run(r, rng.pos))
  {
    hide RunOps, Ops;
    var ops := ParseOperations(spec, table);
    if ops.None? {
      return Failed;
    }
    var stack := new Stack();
    r := ExecuteOps(table, ops.value, 0, stack, m, rng);
  }

  // ----- Validation against execution -----

  lemma ExpandedIsPlain(table: Table, spec: string)
    ensures var e := Expand(table, spec, 0, {}); e.Some? ==> NoTemplates(e.value)
  {
    hide ExpandOps;
    if Ops(spec, table).Some? {
      ExpansionsHaveNoTemplates(table, Ops(spec, table).value, 0, {});
    }
  }

  /**
   * Validating and then executing one spec, with entropy. An execution that yields bytes was valid, and then the
   * length lies between the sums of the least and the greatest operation lengths. A valid spec whose operations
   * fit yields bytes, one with an operation that must panic panics, and a valid spec never fails.
   */
  method ValidateThenExecute(table: Table, spec: string, m: Machine, rng: Rng) returns (ok: bool, r: Outcome)
    modifies rng
    ensures r.Bytes? ==> ok
    ensures ok ==> Expand(table, spec, 0, {}).Some?
    ensures ok && m.entropy ==> !r.Failed?
    ensures ok && m.entropy && AllFit(Expand(table, spec, 0, {}).value, m.limit) ==> r.Bytes?
    ensures ok && m.entropy && !NoneMustPanic(Expand(table, spec, 0, {}).value, m.limit) ==> r.Panicked?
    ensures r.Bytes? ==>
              var ops := Expand(table, spec, 0, {}).value;
              Produces(ops, r.out) && Total(ops, MinLength) <= |r.out| <= Total(ops, MaxLength)
  {
    hide Expand, RunOps, Produces, NoneMustPanic, AllFit;
    ok := ValidateISpec(table, spec);
    r := ParseISpec(table, spec, m, rng);
    ExpandedIsPlain(table, spec);
    if ok {
      ghost var ops := Expand(table, spec, 0, {}).value;
      RunProduces(ops, m, rng.draws, old(rng.pos));
      if r.Bytes? {
        ProducedLength(ops, r.out);
      }
    }
  }

  lemma PlainExpandsToItself(table: Table, op: Op)
    requires !op.Template?
    ensures ExpandOps(table, [op], 0, {}) == Some([op])
  {
    hide Expand;
    var front := [op][..0];
    assert front == [] && [op][|[op]| - 1] == op;
    assert ExpandOps(table, front, 0, {}) == Some([]);
    assert ExpandOp(table, op, 0, {}) == Some([op]);
    assert [] + [op] == [op];
  }

  lemma WrittenExpands(table: Table, op: Op) returns (spec: string)
    requires Writable(op, table) && !op.Template?
    ensures Expand(table, spec, 0, {}) == Some([op])
  {
    hide Ops, ExpandOps, Join;
    assert AllWritable([op], table);
    spec := Join(WriteAll([op], table), ' ');
    WrittenSpecParses([op], table);
    PlainExpandsToItself(table, op);
  }

  /** Specs that validate and panic whatever is drawn: one on every machine, and one too long for this machine. */
  lemma ValidSpecsCanPanic(table: Table, m: Machine) returns (wide: string, long: string)
    ensures Expand(table, wide, 0, {}).Some?
    ensures forall draws: Draws, pos :: RunOps(Expand(table, wide, 0, {}).value, m, draws, pos).outcome.Panicked?
    ensures m.limit < MAX_INT ==> Expand(table, long, 0, {}).Some?
    ensures m.limit < MAX_INT ==>
              forall draws: Draws, pos :: RunOps(Expand(table, long, 0, {}).value, m, draws, pos).outcome.Panicked?
  {
    hide Expand, RunOps;
    var op := Digits(0, MAX_INT);
    wide := WrittenExpands(table, op);
    forall draws: Draws, pos ensures RunOps([op], m, draws, pos).outcome.Panicked? {
      RunAlone(op, m, draws, pos);
    }
    long := "";
    if m.limit < MAX_INT {
      var over := Random(m.limit + 1);
      long := WrittenExpands(table, over);
      forall draws: Draws, pos ensures RunOps([over], m, draws, pos).outcome.Panicked? {
        RunAlone(over, m, draws, pos);
      }
    }
  }
}
