/** Extracting the server name from a TLS ClientHello record. */
module Sni {
  import opened Text

  type byte = x: int | 0 <= x < 256

  type Bytes = seq<byte>

  datatype Error = TooShort | NoSni | NotHandshake | NotClientHello | BadHostname

  type Parsed = Result<Bytes, Error>

  /** `normalize` stands for the hostname check; None means that it refuses the name. */
  type Normalizer = Bytes -> Option<Bytes>

  function U16(s: Bytes, at: nat): (n: nat)
    requires at + 2 <= |s|
    ensures n < 0x1_0000
  {
    s[at] as int * 0x100 + s[at + 1]
  }

  function U24(s: Bytes, at: nat): (n: nat)
    requires at + 3 <= |s|
  {
    s[at] as int * 0x1_0000 + s[at + 1] as int * 0x100 + s[at + 2]
  }

  function Normalized(name: Bytes, normalize: Normalizer): Parsed {
    var r := normalize(name);
    if r.None? then Err(BadHostname) else Ok(r.value)
  }

  /** The first host_name of a server name list. */
  function FindHost(list: Bytes, normalize: Normalizer): Parsed
    decreases |list|
  {
    if |list| < 3 then Err(NoSni)
    else
      var n := U16(list, 1);
      if 3 + n > |list| then Err(TooShort)
      else if list[0] == 0 then Normalized(list[3..3 + n], normalize)
      else FindHost(list[3 + n..], normalize)
  }

  function ParseServerNames(data: Bytes, normalize: Normalizer): Parsed {
    if |data| < 2 then Err(TooShort)
    else
      var n := U16(data, 0);
      if n == 0 || |data| - 2 < n then Err(TooShort)
      else FindHost(data[2..2 + n], normalize)
  }

  /** The first server_name extension. */
  function FindServerName(exts: Bytes, normalize: Normalizer): Parsed
    decreases |exts|
  {
    if |exts| < 4 then Err(NoSni)
    else
      var n := U16(exts, 2);
      if 4 + n > |exts| then Err(TooShort)
      else if U16(exts, 0) == 0 then ParseServerNames(exts[4..4 + n], normalize)
      else FindServerName(exts[4 + n..], normalize)
  }

  /** What follows the compression methods. */
  function ParseExtensions(rest: Bytes, normalize: Normalizer): Parsed {
    if |rest| < 2 then Err(NoSni)
    else
      var n := U16(rest, 0);
      if 2 + n > |rest| then Err(TooShort)
      else FindServerName(rest[2..2 + n], normalize)
  }

  /** The compression methods; a length past the end only means that there are no extensions. */
  function ParseCompression(rest: Bytes, normalize: Normalizer): Parsed {
    if |rest| < 1 then Err(TooShort)
    else if 1 + rest[0] > |rest| then Err(NoSni)
    else ParseExtensions(rest[1 + rest[0]..], normalize)
  }

  function ParseCiphers(rest: Bytes, normalize: Normalizer): Parsed {
    if |rest| < 2 then Err(TooShort)
    else
      var n := U16(rest, 0);
      if 2 + n > |rest| then Err(TooShort)
      else ParseCompression(rest[2 + n..], normalize)
  }

  function ParseSession(rest: Bytes, normalize: Normalizer): Parsed {
    if |rest| < 1 || 1 + rest[0] > |rest| then Err(TooShort)
    else ParseCiphers(rest[1 + rest[0]..], normalize)
  }

  function ParseBody(body: Bytes, normalize: Normalizer): Parsed {
    if |body| < 42 then Err(TooShort)
    else if body[0] != 1 then Err(NotClientHello)
    else if |body| - 4 < U24(body, 1) then Err(TooShort)
    else ParseSession(body[38..], normalize)
  }

  function ParseRecord(record: Bytes, normalize: Normalizer): Parsed {
    if |record| < 5 then Err(TooShort)
    else if record[0] != 22 then Err(NotHandshake)
    else if |record| - 5 < U16(record, 3) then Err(TooShort)
    else ParseBody(record[5..5 + U16(record, 3)], normalize)
  }

  // ----- The cursor loops -----

  lemma SliceOfSlice(s: Bytes, a: nat, b: nat, i: nat, j: nat)
    requires a <= b <= |s| && i <= j <= b - a
    ensures s[a..b][i..j] == s[a + i..a + j]
  {
    var outer, inner := s[a..b][i..j], s[a + i..a + j];
    forall k | 0 <= k < j - i ensures outer[k] == inner[k] {
      assert outer[k] == s[a..b][i + k];
    }
  }

  /** One entry of a server name list. */
  lemma HostStep(data: Bytes, at: nat, end: nat, normalize: Normalizer)
    requires at + 3 <= end <= |data|
    ensures var next := at + 3 + U16(data, at + 1);
            FindHost(data[at..end], normalize) ==
            if next > end then Err(TooShort)
            else if data[at] == 0 then Normalized(data[at + 3..next], normalize)
            else FindHost(data[next..end], normalize)
  {
    hide Normalized;
    var list, n := data[at..end], U16(data, at + 1);
    assert list[0] == data[at] && list[1] == data[at + 1] && list[2] == data[at + 2];
    if at + 3 + n <= end {
      SliceOfSlice(data, at, end, 3, 3 + n);
      SliceOfSlice(data, at, end, 3 + n, |list|);
    }
  }

  lemma HostEnd(list: Bytes, normalize: Normalizer)
    ensures |list| < 3 ==> FindHost(list, normalize) == Err(NoSni)
  {
  }

  method FirstHostName(data: Bytes, normalize: Normalizer) returns (r: Parsed)
    ensures r == ParseServerNames(data, normalize)
  {
    hide FindHost, U16, Normalized;
    if |data| < 2 {
      return Err(TooShort);
    }
    var listLen := U16(data, 0);
    if listLen == 0 || |data| - 2 < listLen {
      return Err(TooShort);
    }
    var cursor, end := 2, 2 + listLen;
    while cursor + 3 <= end
      invariant 2 <= cursor <= end
      invariant ParseServerNames(data, normalize) == FindHost(data[cursor..end], normalize)
      decreases end - cursor
    {
      HostStep(data, cursor, end, normalize);
      var nameType := data[cursor];
      var nameLen := U16(data, cursor + 1);
      cursor := cursor + 3;
      if cursor + nameLen > end {
        return Err(TooShort);
      }
      if nameType == 0 {
        return Normalized(data[cursor..cursor + nameLen], normalize);
      }
      cursor := cursor + nameLen;
    }
    HostEnd(data[cursor..end], normalize);
    r := Err(NoSni);
  }

  /** One extension. */
  lemma ExtensionStep(body: Bytes, at: nat, end: nat, normalize: Normalizer)
    requires at + 4 <= end <= |body|
    ensures var next := at + 4 + U16(body, at + 2);
            FindServerName(body[at..end], normalize) ==
            if next > end then Err(TooShort)
            else if U16(body, at) == 0 then ParseServerNames(body[at + 4..next], normalize)
            else FindServerName(body[next..end], normalize)
  {
    hide ParseServerNames;
    var exts, n := body[at..end], U16(body, at + 2);
    assert forall k :: 0 <= k < 4 ==> exts[k] == body[at + k];
    if at + 4 + n <= end {
      SliceOfSlice(body, at, end, 4, 4 + n);
      SliceOfSlice(body, at, end, 4 + n, |exts|);
    }
  }

  method ScanExtensions(body: Bytes, start: nat, end: nat, normalize: Normalizer) returns (r: Parsed)
    requires start <= end <= |body|
    ensures r == FindServerName(body[start..end], normalize)
  {
    hide ParseServerNames;
    var cursor := start;
    while cursor + 4 <= end
      invariant start <= cursor <= end
      invariant FindServerName(body[start..end], normalize) == FindServerName(body[cursor..end], normalize)
      decreases end - cursor
    {
      ExtensionStep(body, cursor, end, normalize);
      var extType := U16(body, cursor);
      var extLen := U16(body, cursor + 2);
      cursor := cursor + 4;
      if cursor + extLen > end {
        return Err(TooShort);
      }
      if extType == 0 {
        r := FirstHostName(body[cursor..cursor + extLen], normalize);
        return;
      }
      cursor := cursor + extLen;
    }
    r := Err(NoSni);
  }

  method ScanBody(body: Bytes, normalize: Normalizer) returns (r: Parsed)
    requires |body| >= 42
    ensures r == ParseSession(body[38..], normalize)
  {
    hide FindServerName;
    var cursor := 4 + 2 + 32;
    ghost var session := body[cursor..];
    cursor := cursor + 1 + body[cursor];
    if cursor + 2 > |body| {
      return Err(TooShort);
    }
    ghost var ciphers := body[cursor..];
    assert session[1 + session[0]..] == ciphers;
    cursor := cursor + 2 + U16(body, cursor);
    if cursor >= |body| {
      return Err(TooShort);
    }
    r := ScanTail(body, cursor, normalize);
    assert ciphers[2 + U16(ciphers, 0)..] == body[cursor..];
  }

  method ScanTail(body: Bytes, start: nat, normalize: Normalizer) returns (r: Parsed)
    requires start < |body|
    ensures r == ParseCompression(body[start..], normalize)
  {
    hide FindServerName;
    ghost var compression := body[start..];
    var cursor := start + 1 + body[start];
    if cursor + 2 > |body| {
      return Err(NoSni);
    }
    ghost var rest := body[cursor..];
    assert compression[1 + compression[0]..] == rest;
    var extensionsLen := U16(body, cursor);
    assert extensionsLen == U16(rest, 0);
    cursor := cursor + 2;
    if cursor + extensionsLen > |body| {
      return Err(TooShort);
    }
    assert rest[2..2 + extensionsLen] == body[cursor..cursor + extensionsLen];
    r := ScanExtensions(body, cursor, cursor + extensionsLen, normalize);
  }

  method ClientHelloServerName(record: Bytes, normalize: Normalizer) returns (r: Parsed)
    ensures r == ParseRecord(record, normalize)
  {
    hide ParseSession;
    if |record| < 5 {
      return Err(TooShort);
    }
    if record[0] != 22 {
      return Err(NotHandshake);
    }
    var recordLen := U16(record, 3);
    if |record| - 5 < recordLen {
      return Err(TooShort);
    }
    var body := record[5..5 + recordLen];
    if |body| < 42 {
      return Err(TooShort);
    }
    if body[0] != 1 {
      return Err(NotClientHello);
    }
    if |body| - 4 < U24(body, 1) {
      return Err(TooShort);
    }
    r := ScanBody(body, normalize);
  }
}

/** The ClientHello layout of section 4.1.2 of RFC 8446, written out, and what the parser makes of it. */
module ClientHello {
  import opened Text
  import opened Sni

  datatype Name = Name(kind: byte, text: Bytes)

  datatype Extension =
    | ServerNames(names: seq<Name>)
    | Other(kind: nat, data: Bytes)

  /** A hello and the version bytes of the record that carries it, which are not looked at. */
  datatype Hello = Hello(
    recordVersion: Bytes,
    version: Bytes,
    random: Bytes,
    session: Bytes,
    ciphers: Bytes,
    compression: Bytes,
    extensions: Option<seq<Extension>>
  )

  function Enc16(n: nat): (s: Bytes)
    ensures |s| == 2
  {
    [n / 0x100 % 0x100, n % 0x100]
  }

  function Enc24(n: nat): Bytes {
    [n / 0x1_0000 % 0x100, n / 0x100 % 0x100, n % 0x100]
  }

  function NameBytes(n: Name): Bytes {
    [n.kind] + Enc16(|n.text|) + n.text
  }

  function NamesBytes(names: seq<Name>): Bytes {
    if names == [] then [] else NameBytes(names[0]) + NamesBytes(names[1..])
  }

  function Kind(e: Extension): nat {
    if e.ServerNames? then 0 else e.kind
  }

  function Data(e: Extension): Bytes {
    if e.ServerNames? then Enc16(|NamesBytes(e.names)|) + NamesBytes(e.names) else e.data
  }

  function ExtensionBytes(e: Extension): Bytes {
    Enc16(Kind(e)) + Enc16(|Data(e)|) + Data(e)
  }

  function ExtensionsBytes(es: seq<Extension>): Bytes {
    if es == [] then [] else ExtensionBytes(es[0]) + ExtensionsBytes(es[1..])
  }

  function ExtensionBlock(es: Option<seq<Extension>>): Bytes {
    if es.None? then [] else Enc16(|ExtensionsBytes(es.value)|) + ExtensionsBytes(es.value)
  }

  function CompressionOn(h: Hello): Bytes {
    [|h.compression| % 0x100] + h.compression + ExtensionBlock(h.extensions)
  }

  function CiphersOn(h: Hello): Bytes {
    Enc16(|h.ciphers|) + h.ciphers + CompressionOn(h)
  }

  function SessionOn(h: Hello): Bytes {
    [|h.session| % 0x100] + h.session + CiphersOn(h)
  }

  function HelloBytes(h: Hello): Bytes {
    h.version + h.random + SessionOn(h)
  }

  function Handshake(h: Hello): Bytes {
    [1] + Enc24(|HelloBytes(h)|) + HelloBytes(h)
  }

  function Record(h: Hello): Bytes {
    [22] + h.recordVersion + Enc16(|Handshake(h)|) + Handshake(h)
  }

  predicate WellFormedExtension(e: Extension) {
    && |Data(e)| < 0x1_0000
    && match e
       case ServerNames(names) => names != []
       case Other(kind, data) => 0 < kind < 0x1_0000
  }

  /** Every length fits the field that carries it, and the handshake fits one record. */
  predicate WellFormed(h: Hello) {
    && |h.recordVersion| == 2
    && |h.version| == 2
    && |h.random| == 32
    && |h.session| < 0x100
    && |h.ciphers| < 0x1_0000
    && |h.compression| < 0x100
    && |Handshake(h)| < 0x1_0000
    && (h.extensions.Some? ==> forall e <- h.extensions.value :: WellFormedExtension(e))
  }

  /** The first name of kind host_name. */
  function FirstHost(names: seq<Name>): Option<Bytes> {
    if names == [] then None
    else if names[0].kind == 0 then Some(names[0].text)
    else FirstHost(names[1..])
  }

  /** The host named by the first server_name extension; later ones are not looked at. */
  function ServerHost(es: seq<Extension>): Option<Bytes> {
    if es == [] then None
    else if es[0].ServerNames? then FirstHost(es[0].names)
    else ServerHost(es[1..])
  }

  function Host(h: Hello): Option<Bytes> {
    if h.extensions.None? then None else ServerHost(h.extensions.value)
  }

  function Answer(host: Option<Bytes>, normalize: Normalizer): Parsed {
    if host.None? then Err(NoSni) else Normalized(host.value, normalize)
  }

  lemma Enc16At(pre: Bytes, n: nat, post: Bytes)
    requires n < 0x1_0000
    ensures U16(pre + Enc16(n) + post, |pre|) == n
  {
    var s := pre + Enc16(n) + post;
    assert s[|pre|] == Enc16(n)[0] && s[|pre| + 1] == Enc16(n)[1];
  }

  lemma {:induction false} NamesFound(names: seq<Name>, normalize: Normalizer)
    requires |NamesBytes(names)| < 0x1_0000
    ensures FindHost(NamesBytes(names), normalize) == Answer(FirstHost(names), normalize)
  {
    if names != [] {
      var n, rest := names[0], NamesBytes(names[1..]);
      var list := NamesBytes(names);
      assert list == [n.kind] + Enc16(|n.text|) + (n.text + rest);
      Enc16At([n.kind], |n.text|, n.text + rest);
      assert list[3..3 + |n.text|] == n.text;
      assert list[3 + |n.text|..] == rest;
      NamesFound(names[1..], normalize);
    }
  }

  lemma ServerNamesParsed(names: seq<Name>, normalize: Normalizer)
    requires names != [] && |NamesBytes(names)| + 2 < 0x1_0000
    ensures ParseServerNames(Data(ServerNames(names)), normalize) == Answer(FirstHost(names), normalize)
  {
    hide FindHost;
    var list := NamesBytes(names);
    var data := Data(ServerNames(names));
    assert data == [] + Enc16(|list|) + list;
    Enc16At([], |list|, list);
    assert data[2..2 + |list|] == list;
    assert |list| > 0;
    NamesFound(names, normalize);
  }

  lemma {:induction false} ExtensionsFound(es: seq<Extension>, normalize: Normalizer)
    requires forall e <- es :: WellFormedExtension(e)
    ensures FindServerName(ExtensionsBytes(es), normalize) == Answer(ServerHost(es), normalize)
  {
    hide ParseServerNames, NamesBytes, FirstHost, Normalized;
    if es != [] {
      var e, rest := es[0], ExtensionsBytes(es[1..]);
      assert WellFormedExtension(e);
      ExtensionRead(e, rest);
      if e.ServerNames? {
        assert |Data(e)| == 2 + |NamesBytes(e.names)|;
        ServerNamesParsed(e.names, normalize);
      } else {
        ExtensionsFound(es[1..], normalize);
      }
    }
  }

  /** The header of the first extension reads back, and so do its data and what follows it. */
  lemma ExtensionRead(e: Extension, rest: Bytes)
    requires WellFormedExtension(e)
    ensures var s := ExtensionBytes(e) + rest;
            && |s| >= 4 + |Data(e)|
            && U16(s, 0) == Kind(e)
            && U16(s, 2) == |Data(e)|
            && s[4..4 + |Data(e)|] == Data(e)
            && s[4 + |Data(e)|..] == rest
  {
    hide NamesBytes;
    var s := ExtensionBytes(e) + rest;
    var data := Data(e);
    assert s == [] + Enc16(Kind(e)) + (Enc16(|data|) + data + rest);
    Enc16At([], Kind(e), Enc16(|data|) + data + rest);
    assert s == Enc16(Kind(e)) + Enc16(|data|) + (data + rest);
    Enc16At(Enc16(Kind(e)), |data|, data + rest);
  }

  lemma ExtensionListParsed(list: Bytes, normalize: Normalizer)
    requires |list| < 0x1_0000
    ensures ParseExtensions(Enc16(|list|) + list, normalize) == FindServerName(list, normalize)
  {
    hide FindServerName, Enc16, U16;
    var block := Enc16(|list|) + list;
    assert block == [] + Enc16(|list|) + list;
    Enc16At([], |list|, list);
    assert block[2..2 + |list|] == list;
  }

  lemma BlockOf(es: seq<Extension>)
    ensures ExtensionBlock(Some(es)) == Enc16(|ExtensionsBytes(es)|) + ExtensionsBytes(es)
    ensures |ExtensionsBytes(es)| < |ExtensionBlock(Some(es))|
  {
  }

  lemma BlockParsed(es: Option<seq<Extension>>, normalize: Normalizer)
    requires |ExtensionBlock(es)| < 0x1_0000
    requires es.Some? ==> forall e <- es.value :: WellFormedExtension(e)
    ensures var host := if es.None? then None else ServerHost(es.value);
            ParseExtensions(ExtensionBlock(es), normalize) == Answer(host, normalize)
  {
    if es.Some? {
      hide *;
      BlockOf(es.value);
      ExtensionListParsed(ExtensionsBytes(es.value), normalize);
      ExtensionsFound(es.value, normalize);
    }
  }

  lemma CompressionParsed(h: Hello, normalize: Normalizer)
    requires |h.compression| < 0x100
    ensures ParseCompression(CompressionOn(h), normalize) == ParseExtensions(ExtensionBlock(h.extensions), normalize)
  {
    hide ParseExtensions, ExtensionBlock;
    assert CompressionOn(h)[1 + |h.compression|..] == ExtensionBlock(h.extensions);
  }

  lemma CiphersParsed(h: Hello, normalize: Normalizer)
    requires |h.ciphers| < 0x1_0000
    ensures ParseCiphers(CiphersOn(h), normalize) == ParseCompression(CompressionOn(h), normalize)
  {
    hide ParseCompression, CompressionOn;
    var ciphers, compression := CiphersOn(h), CompressionOn(h);
    assert ciphers == [] + Enc16(|h.ciphers|) + (h.ciphers + compression);
    Enc16At([], |h.ciphers|, h.ciphers + compression);
    assert ciphers[2 + |h.ciphers|..] == compression;
  }

  lemma SessionParsed(h: Hello, normalize: Normalizer)
    requires |h.session| < 0x100
    ensures ParseSession(SessionOn(h), normalize) == ParseCiphers(CiphersOn(h), normalize)
  {
    hide ParseCiphers, CiphersOn;
    assert SessionOn(h)[1 + |h.session|..] == CiphersOn(h);
  }

  lemma BodyParsed(h: Hello, normalize: Normalizer)
    requires WellFormed(h)
    ensures ParseBody(Handshake(h), normalize) == ParseSession(SessionOn(h), normalize)
  {
    hide ParseSession, SessionOn, WellFormedExtension;
    var body := Handshake(h);
    assert |SessionOn(h)| >= 4 by { SessionLength(h); }
    assert body[38..] == SessionOn(h);
    assert U24(body, 1) == |HelloBytes(h)|;
  }

  lemma SessionLength(h: Hello)
    ensures |SessionOn(h)| >= 4
  {
  }

  /**
   * For every well-formed hello sent as one record, whatever follows it on the wire, the parser
   * answers with the first host_name of the first server_name extension, put through the hostname
   * check, and reports a missing name exactly when there is none.
   */
  lemma ServerNameIsRead(h: Hello, trailing: Bytes, normalize: Normalizer)
    requires WellFormed(h)
    ensures ParseRecord(Record(h) + trailing, normalize) == Answer(Host(h), normalize)
  {
    hide ParseBody, WellFormedExtension, Handshake, Answer, ServerHost;
    var body := Handshake(h);
    var record := Record(h) + trailing;
    var head := [22] + h.recordVersion;
    assert record == head + Enc16(|body|) + (body + trailing);
    Enc16At(head, |body|, body + trailing);
    assert record[5..5 + |body|] == body;
    BodyParsed(h, normalize);
    SessionParsed(h, normalize);
    CiphersParsed(h, normalize);
    CompressionParsed(h, normalize);
    BlockFits(h);
    BlockParsed(h.extensions, normalize);
  }

  /** A hello that is cut short, anywhere, is too short. */
  lemma TruncatedIsTooShort(h: Hello, n: nat, normalize: Normalizer)
    requires WellFormed(h) && n < |Record(h)|
    ensures ParseRecord(Record(h)[..n], normalize) == Err(TooShort)
  {
    hide ParseBody, WellFormedExtension, Handshake, HelloBytes;
    var body, head := Handshake(h), [22] + h.recordVersion;
    assert Record(h) == head + Enc16(|body|) + body;
    Enc16At(head, |body|, body);
    if n >= 5 {
      assert U16(Record(h)[..n], 3) == U16(Record(h), 3);
    }
  }

  /** Which records are refused before their handshake is read, and with which error. */
  lemma ForeignRecords(record: Bytes, normalize: Normalizer)
    ensures |record| < 5 ==> ParseRecord(record, normalize) == Err(TooShort)
    ensures |record| >= 5 && record[0] != 22 ==> ParseRecord(record, normalize) == Err(NotHandshake)
    ensures |record| >= 5 && record[0] == 22 && |record| - 5 >= record[3] as int * 256 + record[4] >= 42 && record[5] != 1 ==>
              ParseRecord(record, normalize) == Err(NotClientHello)
  {
    hide ParseSession;
  }

  /** An empty server name list is too short; it does not count as a hello without a name. */
  lemma EmptyListIsTooShort(rest: Bytes, normalize: Normalizer)
    ensures ParseServerNames([0, 0] + rest, normalize) == Err(TooShort)
  {
  }

  lemma BlockFits(h: Hello)
    ensures |ExtensionBlock(h.extensions)| <= |Handshake(h)|
  {
    hide ExtensionBlock;
  }
}

/** The hostname check. */
module Hostname {
  import opened Text

  predicate HostChar(c: char) {
    'a' <= c <= 'z' || '0' <= c <= '9' || c == '-'
  }

  predicate IsLabel(l: string) {
    && 1 <= |l| <= 63
    && l[0] != '-' && l[|l| - 1] != '-'
    && forall i :: 0 <= i < |l| ==> HostChar(l[i])
  }

  predicate AllLabels(labels: seq<string>) {
    forall i :: 0 <= i < |labels| ==> IsLabel(labels[i])
  }

  predicate IsHostname(h: string) {
    |h| <= 253 && AllLabels(Split(h, '.'))
  }

  function Normal(s: string): Option<string> {
    var host := Lower(TrimSpace(s));
    if IsHostname(host) then Some(host) else None
  }

  method CheckLabel(piece: string) returns (ok: bool)
    ensures ok == IsLabel(piece)
  {
    if |piece| == 0 || |piece| > 63 {
      return false;
    }
    if piece[0] == '-' || piece[|piece| - 1] == '-' {
      return false;
    }
    for i := 0 to |piece|
      invariant forall k :: 0 <= k < i ==> HostChar(piece[k])
    {
      if !HostChar(piece[i]) {
        return false;
      }
    }
    return true;
  }

  /** A dot at either end leaves an empty first or last piece. */
  lemma {:induction false} OuterDot(h: string)
    requires h != ""
    ensures var labels := Split(h, '.');
            && (h[0] == '.' ==> labels[0] == "")
            && (h[|h| - 1] == '.' ==> labels[|labels| - 1] == "")
  {
    if h[|h| - 1] == '.' && |h| > 1 {
      OuterDot(h[1..]);
    }
  }

  method NormalizeHostname(hostname: string) returns (r: Option<string>)
    ensures r == Normal(hostname)
  {
    hide IsLabel;
    var host := Lower(TrimSpace(hostname));
    var labels := Split(host, '.');
    if host == "" {
      EmptyLabel("");
      assert !IsLabel(labels[0]);
      return None;
    }
    if |host| > 253 {
      return None;
    }
    if host[0] == '.' || host[|host| - 1] == '.' {
      OuterDot(host);
      EmptyLabel("");
      assert !IsLabel(labels[0]) || !IsLabel(labels[|labels| - 1]);
      return None;
    }
    for i := 0 to |labels|
      invariant forall k :: 0 <= k < i ==> IsLabel(labels[k])
    {
      var ok := CheckLabel(labels[i]);
      if !ok {
        return None;
      }
    }
    return Some(host);
  }

  lemma EmptyLabel(l: string)
    ensures l == "" ==> !IsLabel(l)
  {
  }

  lemma {:induction false} HostnameCharacters(h: string)
    requires AllLabels(Split(h, '.'))
    ensures forall i :: 0 <= i < |h| ==> HostChar(h[i]) || h[i] == '.'
  {
    JoinSplit(h, '.');
    JoinedCharacters(Split(h, '.'));
  }

  lemma {:induction false} JoinedCharacters(labels: seq<string>)
    requires |labels| >= 1 && AllLabels(labels)
    ensures forall i :: 0 <= i < |Join(labels, '.')| ==> HostChar(Join(labels, '.')[i]) || Join(labels, '.')[i] == '.'
  {
    assert IsLabel(labels[0]);
    if |labels| > 1 {
      JoinedCharacters(labels[1..]);
    }
  }

  // ----- Hostnames, character by character -----

  predicate Alphanumeric(c: char) {
    'a' <= c <= 'z' || '0' <= c <= '9'
  }

  /** Among the 64 characters from `i` on there is a dot. */
  predicate DotWithin(h: string, i: nat)
    requires i + 64 <= |h|
  {
    exists j :: i <= j < i + 64 && h[j] == '.'
  }

  /** Letters, digits, hyphens and dots; a letter or digit at both ends and on both sides of every dot; and no 64
      characters in a row without a dot. */
  predicate DottedName(h: string) {
    && h != "" && Alphanumeric(h[0]) && Alphanumeric(h[|h| - 1])
    && (forall i :: 0 <= i < |h| ==> Alphanumeric(h[i]) || h[i] == '-' || h[i] == '.')
    && (forall i :: 0 < i < |h| - 1 && h[i] == '.' ==> Alphanumeric(h[i - 1]) && Alphanumeric(h[i + 1]))
    && (forall i: nat :: i + 64 <= |h| ==> DotWithin(h, i))
  }

  lemma LongLabel(p: string, h: string)
    requires '.' !in p && p <= h
    ensures |p| >= 64 ==> !DotWithin(h, 0)
  {
    assert forall j :: 0 <= j < |p| ==> h[j] == p[j];
  }

  lemma OneLabel(p: string)
    requires '.' !in p
    ensures DottedName(p) <==> IsLabel(p)
  {
    LongLabel(p, p);
  }

  lemma LabelThenName(p: string, rest: string)
    requires IsLabel(p) && DottedName(rest)
    ensures DottedName(p + ['.'] + rest)
  {
    var h := p + ['.'] + rest;
    assert forall i :: |p| < i < |h| ==> h[i] == rest[i - |p| - 1];
    assert HostChar(p[0]) && HostChar(p[|p| - 1]);
    forall i: nat | i + 64 <= |h| ensures DotWithin(h, i) {
      if i > |p| {
        assert DotWithin(rest, i - |p| - 1);
        var j :| i - |p| - 1 <= j < i - |p| - 1 + 64 && rest[j] == '.';
        assert h[j + |p| + 1] == '.';
      } else {
        assert h[|p|] == '.';
      }
    }
  }

  lemma NameStartsWithLabel(p: string, rest: string)
    requires '.' !in p && DottedName(p + ['.'] + rest)
    ensures IsLabel(p) && DottedName(rest)
  {
    var h := p + ['.'] + rest;
    assert h[|p|] == '.';
    assert forall i :: 0 <= i < |p| ==> h[i] == p[i];
    assert forall i :: 0 <= i < |rest| ==> rest[i] == h[i + |p| + 1];
    LongLabel(p, h);
    forall i: nat | i + 64 <= |rest| ensures DotWithin(rest, i) {
      assert DotWithin(h, i + |p| + 1);
      var j :| i + |p| + 1 <= j < i + |p| + 1 + 64 && h[j] == '.';
      assert rest[j - |p| - 1] == '.';
    }
  }

  lemma {:induction false} LabelsAreDottedName(h: string)
    ensures AllLabels(Split(h, '.')) <==> DottedName(h)
    decreases |h|
  {
    hide IsLabel, DottedName, Split;
    var n := IndexOf(h, '.');
    var p := h[..n];
    assert '.' !in p;
    if n == |h| {
      assert p == h;
      SplitPiece(h, "", '.');
      OneLabel(h);
      assert AllLabels([h]) <==> IsLabel(h) by { assert [h][0] == h; }
    } else {
      var rest := h[n + 1..];
      assert h == p + ['.'] + rest;
      SplitPiece(p, rest, '.');
      LabelsAreDottedName(rest);
      HeadLabel(p, Split(rest, '.'));
      if DottedName(h) {
        NameStartsWithLabel(p, rest);
      } else if IsLabel(p) && DottedName(rest) {
        LabelThenName(p, rest);
      }
    }
  }

  lemma HeadLabel(p: string, labels: seq<string>)
    ensures AllLabels([p] + labels) <==> IsLabel(p) && AllLabels(labels)
  {
    hide IsLabel;
    var all := [p] + labels;
    assert all[0] == p && forall i :: 0 <= i < |labels| ==> all[i + 1] == labels[i];
  }

  /** A text is accepted exactly when its trimmed lower-case form is at most 253 characters long and a dotted name. */
  lemma AcceptedExactlyWhen(s: string)
    ensures var host := Lower(TrimSpace(s));
            Normal(s) == if |host| <= 253 && DottedName(host) then Some(host) else None
  {
    hide DottedName, AllLabels, Split, Lower, TrimSpace;
    LabelsAreDottedName(Lower(TrimSpace(s)));
  }

  /** A name that was accepted is a hostname, and is accepted again unchanged. */
  lemma NormalIsIdempotent(s: string)
    requires Normal(s).Some?
    ensures IsHostname(Normal(s).value)
    ensures Normal(Normal(s).value) == Normal(s)
  {
    hide IsLabel, Split;
    var h := Normal(s).value;
    HostnameCharacters(h);
    assert Lower(h) == h;
    assert TrimSpace(h) == h;
  }
}

/** The server name and the hostname check together. */
module ServerName {
  import opened Text
  import opened Sni
  import opened ClientHello
  import Hostname

  predicate Ascii(b: Bytes) {
    forall i :: 0 <= i < |b| ==> b[i] < 128
  }

  function AsText(b: Bytes): (s: string)
    ensures |s| == |b|
  {
    seq(|b|, i requires 0 <= i < |b| => b[i] as char)
  }

  function AsBytes(s: string): (b: Bytes)
    ensures |b| == |s|
  {
    seq(|s|, i requires 0 <= i < |s| => (s[i] as int) % 0x100)
  }

  /** The hostname check on bytes: on ASCII it is the check on text; what it says of other bytes is left open. */
  function Checked(other: Normalizer): Normalizer {
    (b: Bytes) =>
      if !Ascii(b) then other(b)
      else
        var host := Hostname.Normal(AsText(b));
        if host.None? then None else Some(AsBytes(host.value))
  }

  /** The bytes of an accepted hostname are its characters. */
  lemma HostBytes(h: string)
    requires Hostname.IsHostname(h)
    ensures Ascii(AsBytes(h)) && AsText(AsBytes(h)) == h
  {
    hide Split, Hostname.IsLabel;
    Hostname.HostnameCharacters(h);
    forall i | 0 <= i < |h| ensures h[i] as int < 128 {
      assert Hostname.HostChar(h[i]) || h[i] == '.';
    }
  }

  /**
   * End to end: a well-formed hello that names an ASCII host yields that name trimmed and in lower case when this
   * is a hostname, and is refused otherwise; one that names no host yields the missing-name error.
   */
  lemma HostnameIsRead(h: Hello, trailing: Bytes, other: Normalizer)
    requires WellFormed(h) && (Host(h).Some? ==> Ascii(Host(h).value))
    ensures var answer := ParseRecord(Record(h) + trailing, Checked(other));
            if Host(h).None? then answer == Err(NoSni)
            else
              var host := Lower(TrimSpace(AsText(Host(h).value)));
              if Hostname.IsHostname(host) then answer.Ok? && Ascii(answer.value) && AsText(answer.value) == host
              else answer == Err(BadHostname)
  {
    hide ParseRecord, Record, WellFormed, Host, Hostname.IsHostname, Lower, TrimSpace, AsText, AsBytes, Ascii;
    ServerNameIsRead(h, trailing, Checked(other));
    if Host(h).Some? {
      var host := Lower(TrimSpace(AsText(Host(h).value)));
      if Hostname.IsHostname(host) {
        HostBytes(host);
      }
    }
  }
}
