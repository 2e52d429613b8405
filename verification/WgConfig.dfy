/** The INI-style WireGuard config text: what is written, and how it is read. */
module WgConfig {
  import opened Text

  datatype Key = Key(bytes: seq<nat>)

  datatype Endpoint = Endpoint(ip: seq<nat>, port: nat)

  datatype Net = Net(ip: seq<nat>, ones: nat)

  /** The text forms of keys, endpoints and networks, which are foreign code, and the seconds of a duration, which
      are computed in floating point and cut to an integer. */
  datatype Codec = Codec(
    keyText: Key -> string,
    parseKey: string -> Option<Key>,
    endpointText: Endpoint -> string,
    resolveEndpoint: string -> Option<Endpoint>,
    netText: Net -> string,
    parseCIDR: string -> Option<Net>,
    seconds: int -> int
  )

  datatype IntSetting = ListenPort | FwMark | Jc | Jmin | Jmax | S1 | S2 | S3 | S4

  datatype TextSetting = H1 | H2 | H3 | H4 | I1 | I2 | I3 | I4 | I5

  /** Interface settings that are present. */
  datatype Config = Config(privateKey: Option<Key>, ints: map<IntSetting, int>, texts: map<TextSetting, string>)

  /** The keepalive is in nanoseconds. */
  datatype Peer = Peer(
    publicKey: Key,
    presharedKey: Option<Key>,
    endpoint: Option<Endpoint>,
    keepalive: Option<int>,
    allowedIPs: seq<Net>
  )

  const EMPTY_CONFIG := Config(None, map[], map[])
  const EMPTY_PEER := Peer(Key(Zeros(32)), None, None, None, [])
  const SECOND := 1_000_000_000

  function Zeros(n: nat): seq<nat> {
    if n == 0 then [] else Zeros(n - 1) + [0]
  }

  // ----- Setting names -----

  /** The integer settings that are written, in order; the firewall mark is not among them. */
  const INTS := [ListenPort, Jc, Jmin, Jmax, S1, S2, S3, S4]
  const TEXTS := [H1, H2, H3, H4, I1, I2, I3, I4, I5]

  function IntName(s: IntSetting): string {
    match s
    case ListenPort => "ListenPort"
    case FwMark => "FwMark"
    case Jc => "Jc"
    case Jmin => "Jmin"
    case Jmax => "Jmax"
    case S1 => "S1"
    case S2 => "S2"
    case S3 => "S3"
    case S4 => "S4"
  }

  function TextName(s: TextSetting): string {
    match s
    case H1 => "H1"
    case H2 => "H2"
    case H3 => "H3"
    case H4 => "H4"
    case I1 => "I1"
    case I2 => "I2"
    case I3 => "I3"
    case I4 => "I4"
    case I5 => "I5"
  }

  function IntNamed(key: string): Option<IntSetting> {
    if key == "listenport" then Some(ListenPort)
    else if key == "fwmark" then Some(FwMark)
    else if key == "jc" then Some(Jc)
    else if key == "jmin" then Some(Jmin)
    else if key == "jmax" then Some(Jmax)
    else if key == "s1" then Some(S1)
    else if key == "s2" then Some(S2)
    else if key == "s3" then Some(S3)
    else if key == "s4" then Some(S4)
    else None
  }

  function TextNamed(key: string): Option<TextSetting> {
    if key == "h1" then Some(H1)
    else if key == "h2" then Some(H2)
    else if key == "h3" then Some(H3)
    else if key == "h4" then Some(H4)
    else if key == "i1" then Some(I1)
    else if key == "i2" then Some(I2)
    else if key == "i3" then Some(I3)
    else if key == "i4" then Some(I4)
    else if key == "i5" then Some(I5)
    else None
  }

  // ----- Reading -----

  datatype State = State(section: string, peer: Option<Peer>, cfg: Config, peers: seq<Peer>)

  const START := State("", None, EMPTY_CONFIG, [])

  /** Length in UTF-8 bytes. */
  function ByteLength(s: string): nat {
    if s == "" then 0
    else
      var c := s[0] as int;
      (if c < 0x80 then 1 else if c < 0x800 then 2 else if c < 0x1_0000 then 3 else 4) + ByteLength(s[1..])
  }

  /** The longest line the scanner delivers; its buffer also holds the line end. */
  const MAX_LINE := 0xffff

  function StripCR(s: string): string {
    if s != "" && s[|s| - 1] == '\r' then s[..|s| - 1] else s
  }

  function Wrap64(n: int): int {
    (n + 0x8000_0000_0000_0000) % 0x1_0000_0000_0000_0000 - 0x8000_0000_0000_0000
  }

  function Flush(st: State): State {
    if st.peer.None? then st else st.(peers := st.peers + [st.peer.value], peer := None)
  }

  function EnterSection(st: State, section: string): State {
    State(section, if section == "peer" then Some(EMPTY_PEER) else None, st.cfg, Flush(st).peers)
  }

  function SetInterface(c: Codec, cfg: Config, key: string, value: string): Option<Config> {
    if key == "privatekey" then
      var k := c.parseKey(value);
      if k.None? then None else Some(cfg.(privateKey := k))
    else if IntNamed(key).Some? then
      var n := Atoi(value);
      if n.None? then None else Some(cfg.(ints := cfg.ints[IntNamed(key).value := n.value]))
    else if TextNamed(key).Some? then Some(cfg.(texts := cfg.texts[TextNamed(key).value := value]))
    else Some(cfg)
  }

  function ParseNets(c: Codec, items: seq<string>): Option<seq<Net>> {
    if items == [] then Some([])
    else
      var front := ParseNets(c, items[..|items| - 1]);
      var item := TrimSpace(items[|items| - 1]);
      if front.None? || item == "" then front
      else
        var net := c.parseCIDR(item);
        if net.None? then None else Some(front.value + [net.value])
  }

  function SetPeer(c: Codec, peer: Peer, key: string, value: string): Option<Peer> {
    if key == "publickey" then
      var k := c.parseKey(value);
      if k.None? then None else Some(peer.(publicKey := k.value))
    else if key == "presharedkey" then
      var k := c.parseKey(value);
      if k.None? then None else Some(peer.(presharedKey := k))
    else if key == "endpoint" then
      var e := c.resolveEndpoint(value);
      if e.None? then None else Some(peer.(endpoint := e))
    else if key == "persistentkeepalive" then
      var n := Atoi(value);
      if n.None? then None else Some(peer.(keepalive := Some(Wrap64(n.value * SECOND))))
    else if key == "allowedips" then
      var nets := ParseNets(c, Split(value, ','));
      if nets.None? then None else Some(peer.(allowedIPs := nets.value))
    else Some(peer)
  }

  function SetKey(c: Codec, st: State, key: string, value: string): Option<State> {
    if st.section == "interface" then
      var cfg := SetInterface(c, st.cfg, key, value);
      if cfg.None? then None else Some(st.(cfg := cfg.value))
    else if st.section == "peer" && st.peer.Some? then
      var peer := SetPeer(c, st.peer.value, key, value);
      if peer.None? then None else Some(st.(peer := peer))
    else None
  }

  /** One line, or None for an error. */
  function Step(c: Codec, st: State, raw: string): Option<State> {
    var line := TrimSpace(StripCR(raw));
    if ByteLength(raw) > MAX_LINE then None
    else if line == "" || line[0] == '#' || line[0] == ';' then Some(st)
    else if line[0] == '[' && line[|line| - 1] == ']' then
      Some(EnterSection(st, Lower(TrimSpace(line[1..|line| - 1]))))
    else
      var eq := IndexOf(line, '=');
      if eq == |line| then None
      else SetKey(c, st, Lower(TrimSpace(line[..eq])), TrimSpace(line[eq + 1..]))
  }

  function Fold(c: Codec, st: Option<State>, lines: seq<string>): Option<State> {
    if lines == [] then st
    else
      var before := Fold(c, st, lines[..|lines| - 1]);
      if before.None? then None else Step(c, before.value, lines[|lines| - 1])
  }

  /** The lines of a text; an empty last piece is not a line. */
  function ScanLines(text: string): (lines: seq<string>)
    ensures forall i :: 0 <= i < |lines| ==> '\n' !in lines[i]
  {
    var parts := Split(text, '\n');
    if parts[|parts| - 1] == "" then parts[..|parts| - 1] else parts
  }

  function Parse(c: Codec, text: string): Option<(Config, seq<Peer>)> {
    var st := Fold(c, Some(START), ScanLines(text));
    if st.None? then None else Some((st.value.cfg, Flush(st.value).peers))
  }

  // ----- Writing -----

  function Line(name: string, value: string): string {
    name + " = " + value
  }

  function KeyLines(c: Codec, name: string, key: Option<Key>): seq<string> {
    if key.None? then [] else [Line(name, c.keyText(key.value))]
  }

  function IntLines(cfg: Config, names: seq<IntSetting>): seq<string> {
    if names == [] then []
    else
      var s := names[|names| - 1];
      IntLines(cfg, names[..|names| - 1]) + if s in cfg.ints then [Line(IntName(s), Itoa(cfg.ints[s]))] else []
  }

  function TextLines(cfg: Config, names: seq<TextSetting>): seq<string> {
    if names == [] then []
    else
      var s := names[|names| - 1];
      TextLines(cfg, names[..|names| - 1]) + if s in cfg.texts then [Line(TextName(s), cfg.texts[s])] else []
  }

  function InterfaceLines(c: Codec, cfg: Config): seq<string> {
    ["[Interface]"] + KeyLines(c, "PrivateKey", cfg.privateKey) + IntLines(cfg, INTS) + TextLines(cfg, TEXTS)
  }

  function NetTexts(c: Codec, nets: seq<Net>): (r: seq<string>)
    ensures |r| == |nets|
  {
    seq(|nets|, i requires 0 <= i < |nets| => c.netText(nets[i]))
  }

  /** The pieces joined by a comma and a space. */
  function CommaJoin(parts: seq<string>): string {
    if parts == [] then ""
    else if |parts| == 1 then parts[0]
    else CommaJoin(parts[..|parts| - 1]) + ", " + parts[|parts| - 1]
  }

  function EndpointLines(c: Codec, e: Option<Endpoint>): seq<string> {
    if e.None? then [] else [Line("Endpoint", c.endpointText(e.value))]
  }

  function KeepaliveLines(c: Codec, keepalive: Option<int>): seq<string> {
    if keepalive.None? then [] else [Line("PersistentKeepalive", Itoa(c.seconds(keepalive.value)))]
  }

  function AllowedLines(c: Codec, nets: seq<Net>): seq<string> {
    if nets == [] then [] else [Line("AllowedIPs", CommaJoin(NetTexts(c, nets)))]
  }

  function PeerLines(c: Codec, p: Peer): seq<string> {
    ["", "[Peer]", Line("PublicKey", c.keyText(p.publicKey))]
    + KeyLines(c, "PresharedKey", p.presharedKey)
    + EndpointLines(c, p.endpoint)
    + KeepaliveLines(c, p.keepalive)
    + AllowedLines(c, p.allowedIPs)
  }

  function AllPeerLines(c: Codec, peers: seq<Peer>): seq<string> {
    if peers == [] then []
    else AllPeerLines(c, peers[..|peers| - 1]) + PeerLines(c, peers[|peers| - 1])
  }

  function Lines(c: Codec, cfg: Config, peers: seq<Peer>): seq<string> {
    InterfaceLines(c, cfg) + AllPeerLines(c, peers)
  }

  /** Every line with its line end. */
  function Unlines(lines: seq<string>): string {
    if lines == [] then "" else Unlines(lines[..|lines| - 1]) + lines[|lines| - 1] + "\n"
  }

  function Print(c: Codec, cfg: Config, peers: seq<Peer>): string {
    Unlines(Lines(c, cfg, peers))
  }
}

/** Reading back what was written. */
module WgRoundTrip {
  import opened Text
  import opened WgConfig

  /** A value that survives on one line. */
  predicate Tidy(v: string) {
    TrimSpace(v) == v && '\n' !in v
  }

  predicate NameChar(c: char) {
    'a' <= c <= 'z' || 'A' <= c <= 'Z' || '0' <= c <= '9'
  }

  predicate Simple(name: string) {
    name != "" && forall i :: 0 <= i < |name| ==> NameChar(name[i])
  }

  predicate Short(line: string) {
    ByteLength(line) <= MAX_LINE
  }

  predicate AllShort(lines: seq<string>) {
    forall i :: 0 <= i < |lines| ==> Short(lines[i])
  }

  // ----- One line -----

  lemma TrimIsTidy(v: string)
    ensures TrimSpace(v) == v <==> v == "" || (!IsSpace(v[0]) && !IsSpace(v[|v| - 1]))
  {
  }

  /** What follows the equals sign once the line is trimmed. */
  function Tail(value: string): string {
    if value == "" then "" else " " + value
  }

  lemma EmptyTrimmed(name: string)
    requires Simple(name)
    ensures TrimSpace(StripCR(Line(name, ""))) == name + " ="
  {
    hide IsSpace, Simple;
    FirstChar(name);
    Spaces();
    var raw, line := Line(name, ""), name + " =";
    assert raw == line + " " && raw[..|raw| - 1] == line;
    assert raw[0] == line[0] == name[0] && line[|line| - 1] == '=';
    TrimIsTidy(line);
  }

  lemma FullTrimmed(name: string, value: string)
    requires Simple(name) && value != "" && TrimSpace(value) == value
    ensures TrimSpace(StripCR(Line(name, value))) == Line(name, value)
  {
    hide IsSpace, Simple;
    FirstChar(name);
    Spaces();
    TrimIsTidy(value);
    hide TrimSpace;
    var raw := Line(name, value);
    assert raw[0] == name[0] && raw[|raw| - 1] == value[|value| - 1];
    TrimIsTidy(raw);
  }

  lemma LineTrimmed(name: string, value: string)
    requires Simple(name) && TrimSpace(value) == value
    ensures TrimSpace(StripCR(Line(name, value))) == name + " =" + Tail(value)
  {
    hide TrimSpace, StripCR, Simple;
    if value == "" {
      EmptyTrimmed(name);
      assert name + " =" + "" == name + " =";
    } else {
      FullTrimmed(name, value);
      assert Line(name, value) == name + " =" + Tail(value);
    }
  }

  lemma Spaces()
    ensures IsSpace(' ') && IsSpace('\r') && !IsSpace('=') && !IsSpace('[') && !IsSpace(']')
  {
  }

  lemma CutLine(name: string, tail: string)
    requires Simple(name)
    ensures var line := name + " =" + tail;
            && IndexOf(line, '=') == |name| + 1
            && TrimSpace(line[..|name| + 1]) == name
            && line[|name| + 2..] == tail
  {
    var line := name + " =" + tail;
    assert forall i :: 0 <= i < |name| ==> NameChar(line[i]);
    assert line[|name|] == ' ' && line[|name| + 1] == '=';
    assert line[..|name| + 1] == name + " ";
    var key := name + " ";
    assert key[..|key| - 1] == name;
    assert NameChar(name[0]) && NameChar(name[|name| - 1]);
  }

  lemma KeyLineStep(c: Codec, st: State, raw: string)
    requires var line := TrimSpace(StripCR(raw));
             Short(raw) && line != "" && line[0] != '#' && line[0] != ';' && line[0] != '[' && '=' in line
    ensures var line := TrimSpace(StripCR(raw));
            var eq := IndexOf(line, '=');
            && eq < |line|
            && Step(c, st, raw) == SetKey(c, st, Lower(TrimSpace(line[..eq])), TrimSpace(line[eq + 1..]))
  {
    hide SetKey, ByteLength, Lower, TrimSpace, StripCR;
  }

  lemma LineRead(c: Codec, st: State, name: string, value: string)
    requires Simple(name) && TrimSpace(value) == value && Short(Line(name, value))
    ensures Step(c, st, Line(name, value)) == SetKey(c, st, Lower(name), value)
  {
    hide SetKey, ByteLength, Lower, Simple, Step, StripCR, Line, TrimSpace;
    LineTrimmed(name, value);
    CutLine(name, Tail(value));
    FirstChar(name);
    var line := name + " =" + Tail(value);
    assert line[0] == name[0] && line[|name| + 1] == '=';
    KeyLineStep(c, st, Line(name, value));
    TailTrimmed(value);
  }

  lemma TailTrimmed(value: string)
    requires TrimSpace(value) == value
    ensures TrimSpace(Tail(value)) == value
  {
    assert value != "" ==> Tail(value)[1..] == value;
  }

  lemma FirstChar(name: string)
    requires Simple(name)
    ensures name != "" && name[0] != '#' && name[0] != ';' && name[0] != '['
    ensures !IsSpace(name[0]) && !IsSpace(name[|name| - 1])
  {
    assert NameChar(name[0]) && NameChar(name[|name| - 1]);
  }

  // ----- Folding over lines -----

  lemma {:induction false} FoldConcat(c: Codec, st: Option<State>, a: seq<string>, b: seq<string>)
    ensures Fold(c, st, a + b) == Fold(c, Fold(c, st, a), b)
    decreases |b|
  {
    hide Step;
    if b == [] {
      assert a + b == a;
    } else {
      assert (a + b)[..|a + b| - 1] == a + b[..|b| - 1];
      FoldConcat(c, st, a, b[..|b| - 1]);
    }
  }

  lemma FoldOne(c: Codec, st: State, line: string)
    ensures Fold(c, Some(st), [line]) == Step(c, st, line)
  {
    assert [line][..0] == [];
  }

  lemma {:induction false} FoldNone(c: Codec, lines: seq<string>)
    ensures Fold(c, None, lines) == None
  {
    if lines != [] {
      FoldNone(c, lines[..|lines| - 1]);
    }
  }

  /** A line the scanner cannot deliver fails the whole parse. */
  lemma LongLineFails(c: Codec, st: Option<State>, lines: seq<string>)
    requires !AllShort(lines)
    ensures Fold(c, st, lines).None?
  {
    hide ByteLength, TrimSpace, SetKey;
    var i :| 0 <= i < |lines| && !Short(lines[i]);
    var upto := lines[..i + 1];
    assert upto[..i] == lines[..i];
    assert Fold(c, st, upto).None?;
    assert lines == upto + lines[i + 1..];
    FoldConcat(c, st, upto, lines[i + 1..]);
    FoldNone(c, lines[i + 1..]);
  }

  // ----- The interface section -----

  /** The key an integer setting is read by. */
  function IntKey(s: IntSetting): string {
    match s
    case ListenPort => "listenport"
    case FwMark => "fwmark"
    case Jc => "jc"
    case Jmin => "jmin"
    case Jmax => "jmax"
    case S1 => "s1"
    case S2 => "s2"
    case S3 => "s3"
    case S4 => "s4"
  }

  lemma IntNamesLower(s: IntSetting)
    ensures Simple(IntName(s)) && Lower(IntName(s)) == IntKey(s)
  {
  }

  lemma IntNamesRead(s: IntSetting)
    ensures Simple(IntName(s))
    ensures IntNamed(Lower(IntName(s))) == Some(s) && Lower(IntName(s)) != "privatekey"
  {
    hide Lower, Simple, IntName;
    IntNamesLower(s);
    match s
    case ListenPort =>
    case _ => assert |IntKey(s)| < 10;
  }

  /** The key a text setting is read by. */
  function TextKey(s: TextSetting): string {
    match s
    case H1 => "h1"
    case H2 => "h2"
    case H3 => "h3"
    case H4 => "h4"
    case I1 => "i1"
    case I2 => "i2"
    case I3 => "i3"
    case I4 => "i4"
    case I5 => "i5"
  }

  lemma TextNamesLower(s: TextSetting)
    ensures Simple(TextName(s)) && Lower(TextName(s)) == TextKey(s)
  {
    var name := TextName(s);
    assert |name| == 2 && NameChar(name[0]) && NameChar(name[1]);
    assert LowerChar(name[0]) == TextKey(s)[0] && LowerChar(name[1]) == TextKey(s)[1];
  }

  lemma TextNamesRead(s: TextSetting)
    ensures Simple(TextName(s))
    ensures TextNamed(Lower(TextName(s))) == Some(s)
    ensures IntNamed(Lower(TextName(s))) == None && Lower(TextName(s)) != "privatekey"
  {
    hide Lower, Simple, TextName;
    TextNamesLower(s);
    var key := TextKey(s);
    assert |key| == 2 && (key[0] == 'h' || key[0] == 'i');
  }

  predicate InInterface(st: State) {
    st.section == "interface"
  }

  function Add<K, V>(m: map<K, V>, src: map<K, V>, names: seq<K>): map<K, V> {
    if names == [] then m
    else
      var k, rest := names[|names| - 1], Add(m, src, names[..|names| - 1]);
      if k in src then rest[k := src[k]] else rest
  }

  lemma {:induction false} AddKeys<K, V>(src: map<K, V>, names: seq<K>)
    ensures forall k :: k in Add(map[], src, names) <==> k in src && k in names
    ensures forall k :: k in Add(map[], src, names) ==> Add(map[], src, names)[k] == src[k]
  {
    if names != [] {
      AddKeys(src, names[..|names| - 1]);
      assert names == names[..|names| - 1] + [names[|names| - 1]];
    }
  }

  lemma ItoaIsTidy(n: int)
    ensures Tidy(Itoa(n))
  {
    var s := Itoa(n);
    var d := if n < 0 then Decimal(-n) else Decimal(n);
    assert forall i :: 0 <= i < |d| ==> IsDigit(d[i]);
    assert s[|s| - 1] == d[|d| - 1];
    assert !IsSpace(s[0]) && !IsSpace(s[|s| - 1]);
    TrimIsTidy(s);
  }

  lemma IntLineRead(c: Codec, st: State, s: IntSetting, n: int)
    requires InInterface(st) && IsInt(n) && Short(Line(IntName(s), Itoa(n)))
    ensures Step(c, st, Line(IntName(s), Itoa(n))) == Some(st.(cfg := st.cfg.(ints := st.cfg.ints[s := n])))
  {
    hide Step, IntName, IntNamed, Itoa, Atoi, Lower, Simple, TrimSpace, Line, ByteLength, SetPeer;
    IntNamesRead(s);
    ItoaIsTidy(n);
    ItoaRoundTrip(n);
    LineRead(c, st, IntName(s), Itoa(n));
  }

  lemma TextLineRead(c: Codec, st: State, s: TextSetting, v: string)
    requires InInterface(st) && Tidy(v) && Short(Line(TextName(s), v))
    ensures Step(c, st, Line(TextName(s), v)) == Some(st.(cfg := st.cfg.(texts := st.cfg.texts[s := v])))
  {
    hide Step, TextName, IntNamed, TextNamed, Atoi, Lower, Simple, TrimSpace, Line, ByteLength, SetPeer;
    TextNamesRead(s);
    LineRead(c, st, TextName(s), v);
  }

  lemma {:induction false} IntLinesRead(c: Codec, st: State, cfg: Config, names: seq<IntSetting>)
    requires InInterface(st) && AllShort(IntLines(cfg, names)) && forall k <- cfg.ints :: IsInt(cfg.ints[k])
    ensures Fold(c, Some(st), IntLines(cfg, names)) ==
            Some(st.(cfg := st.cfg.(ints := Add(st.cfg.ints, cfg.ints, names))))
  {
    hide Step, IntName, Itoa, ByteLength, Line, IsInt;
    if names != [] {
      var front, s := names[..|names| - 1], names[|names| - 1];
      var lines := IntLines(cfg, front);
      assert forall i :: 0 <= i < |lines| ==> lines[i] == IntLines(cfg, names)[i];
      IntLinesRead(c, st, cfg, front);
      if s in cfg.ints {
        var line := Line(IntName(s), Itoa(cfg.ints[s]));
        assert IntLines(cfg, names) == lines + [line];
        assert IntLines(cfg, names)[|lines|] == line;
        var mid := st.(cfg := st.cfg.(ints := Add(st.cfg.ints, cfg.ints, front)));
        FoldConcat(c, Some(st), lines, [line]);
        FoldOne(c, mid, line);
        IntLineRead(c, mid, s, cfg.ints[s]);
      } else {
        assert IntLines(cfg, names) == lines;
      }
    }
  }

  lemma {:induction false} TextLinesRead(c: Codec, st: State, cfg: Config, names: seq<TextSetting>)
    requires InInterface(st) && AllShort(TextLines(cfg, names)) && forall k <- cfg.texts :: Tidy(cfg.texts[k])
    ensures Fold(c, Some(st), TextLines(cfg, names)) ==
            Some(st.(cfg := st.cfg.(texts := Add(st.cfg.texts, cfg.texts, names))))
  {
    hide Step, TextName, ByteLength, Line, Tidy;
    if names != [] {
      var front, s := names[..|names| - 1], names[|names| - 1];
      var lines := TextLines(cfg, front);
      assert forall i :: 0 <= i < |lines| ==> lines[i] == TextLines(cfg, names)[i];
      TextLinesRead(c, st, cfg, front);
      if s in cfg.texts {
        var line := Line(TextName(s), cfg.texts[s]);
        assert TextLines(cfg, names) == lines + [line];
        assert TextLines(cfg, names)[|lines|] == line;
        var mid := st.(cfg := st.cfg.(texts := Add(st.cfg.texts, cfg.texts, front)));
        FoldConcat(c, Some(st), lines, [line]);
        FoldOne(c, mid, line);
        TextLineRead(c, mid, s, cfg.texts[s]);
      } else {
        assert TextLines(cfg, names) == lines;
      }
    }
  }

  predicate KeyOk(c: Codec, k: Key) {
    c.parseKey(c.keyText(k)) == Some(k) && Tidy(c.keyText(k))
  }

  predicate ConfigOk(c: Codec, cfg: Config) {
    && (cfg.privateKey.Some? ==> KeyOk(c, cfg.privateKey.value))
    && (forall k <- cfg.ints :: IsInt(cfg.ints[k]))
  }

  predicate TidyTexts(cfg: Config) {
    forall k <- cfg.texts :: Tidy(cfg.texts[k])
  }

  /** The config as it comes back: without the firewall mark. */
  function Written(cfg: Config): Config {
    cfg.(ints := cfg.ints - {FwMark})
  }

  lemma SectionRead(c: Codec, st: State, name: string)
    requires Simple(name) && Short("[" + name + "]")
    ensures Step(c, st, "[" + name + "]") == Some(EnterSection(st, Lower(name)))
  {
    hide EnterSection, SetKey, ByteLength, Lower, IsSpace;
    var raw := "[" + name + "]";
    FirstChar(name);
    Spaces();
    assert raw[0] == '[' && raw[|raw| - 1] == ']';
    TrimIsTidy(raw);
    assert raw[1..|raw| - 1] == name;
    TrimIsTidy(name);
  }

  lemma BlankRead(c: Codec, st: State)
    ensures Step(c, st, "") == Some(st)
  {
    hide SetKey, EnterSection;
  }

  lemma SectionNames()
    ensures Simple("Interface") && Lower("Interface") == "interface" && "[" + "Interface" + "]" == "[Interface]"
    ensures Simple("Peer") && Lower("Peer") == "peer" && "[" + "Peer" + "]" == "[Peer]"
  {
  }

  lemma PrivateKeyRead(c: Codec, st: State, key: Option<Key>)
    requires InInterface(st) && st.cfg.privateKey.None? && (key.Some? ==> KeyOk(c, key.value))
    requires AllShort(KeyLines(c, "PrivateKey", key))
    ensures Fold(c, Some(st), KeyLines(c, "PrivateKey", key)) == Some(st.(cfg := st.cfg.(privateKey := key)))
  {
    hide Step, ByteLength, Line;
    if key.Some? {
      var text := c.keyText(key.value);
      var line := Line("PrivateKey", text);
      assert KeyLines(c, "PrivateKey", key)[0] == line;
      FoldOne(c, st, line);
      assert Simple("PrivateKey") && Lower("PrivateKey") == "privatekey";
      LineRead(c, st, "PrivateKey", text);
    }
  }

  lemma WrittenSettings(cfg: Config)
    ensures Add(map[], cfg.ints, INTS) == cfg.ints - {FwMark}
    ensures Add(map[], cfg.texts, TEXTS) == cfg.texts
  {
    AddKeys(cfg.ints, INTS);
    AddKeys(cfg.texts, TEXTS);
    forall k: IntSetting ensures k in INTS <==> k != FwMark {
      IntListed(k);
    }
    forall k: TextSetting ensures k in TEXTS {
      TextListed(k);
    }
  }

  lemma IntListed(k: IntSetting)
    ensures k in INTS <==> k != FwMark
  {
    match k
    case FwMark =>
    case ListenPort => assert INTS[0] == k;
    case Jc => assert INTS[1] == k;
    case Jmin => assert INTS[2] == k;
    case Jmax => assert INTS[3] == k;
    case S1 => assert INTS[4] == k;
    case S2 => assert INTS[5] == k;
    case S3 => assert INTS[6] == k;
    case S4 => assert INTS[7] == k;
  }

  lemma TextListed(k: TextSetting)
    ensures k in TEXTS
  {
    match k
    case H1 => assert TEXTS[0] == k;
    case H2 => assert TEXTS[1] == k;
    case H3 => assert TEXTS[2] == k;
    case H4 => assert TEXTS[3] == k;
    case I1 => assert TEXTS[4] == k;
    case I2 => assert TEXTS[5] == k;
    case I3 => assert TEXTS[6] == k;
    case I4 => assert TEXTS[7] == k;
    case I5 => assert TEXTS[8] == k;
  }

  lemma ShortParts(a: seq<string>, b: seq<string>)
    ensures AllShort(a + b) <==> AllShort(a) && AllShort(b)
  {
    hide Short;
    assert forall i :: 0 <= i < |a| ==> (a + b)[i] == a[i];
    assert forall i :: 0 <= i < |b| ==> (a + b)[|a| + i] == b[i];
  }

  lemma InterfaceRead(c: Codec, cfg: Config)
    requires ConfigOk(c, cfg) && TidyTexts(cfg) && AllShort(InterfaceLines(c, cfg))
    ensures Fold(c, Some(START), InterfaceLines(c, cfg)) == Some(State("interface", None, Written(cfg), []))
  {
    hide Step, ByteLength, Line, KeyLines, IntLines, TextLines, Tidy, KeyOk, Short, Add, Fold, AllShort;
    var head, keys, ints, texts :=
      ["[Interface]"], KeyLines(c, "PrivateKey", cfg.privateKey), IntLines(cfg, INTS), TextLines(cfg, TEXTS);
    ShortParts(head + keys + ints, texts);
    ShortParts(head + keys, ints);
    ShortParts(head, keys);
    FoldConcat(c, Some(START), head + keys + ints, texts);
    FoldConcat(c, Some(START), head + keys, ints);
    FoldConcat(c, Some(START), head, keys);
    FoldOne(c, START, "[Interface]");
    ShortOne("[Interface]");
    SectionNames();
    SectionRead(c, START, "Interface");
    var st := State("interface", None, EMPTY_CONFIG, []);
    assert EnterSection(START, "interface") == st;
    PrivateKeyRead(c, st, cfg.privateKey);
    st := st.(cfg := st.cfg.(privateKey := cfg.privateKey));
    IntLinesRead(c, st, cfg, INTS);
    st := st.(cfg := st.cfg.(ints := Add(st.cfg.ints, cfg.ints, INTS)));
    TextLinesRead(c, st, cfg, TEXTS);
    WrittenSettings(cfg);
  }

  lemma ShortOne(line: string)
    ensures AllShort([line]) <==> Short(line)
  {
    assert [line][0] == line;
  }

  // ----- Peer sections -----

  predicate EndpointOk(c: Codec, e: Endpoint) {
    c.resolveEndpoint(c.endpointText(e)) == Some(e) && Tidy(c.endpointText(e))
  }

  predicate NetOk(c: Codec, n: Net) {
    var text := c.netText(n);
    c.parseCIDR(text) == Some(n) && Tidy(text) && text != "" && ',' !in text
  }

  predicate NetsOk(c: Codec, nets: seq<Net>) {
    forall i :: 0 <= i < |nets| ==> NetOk(c, nets[i])
  }

  /** The seconds of a duration are exact for whole seconds and never off by more than one. */
  predicate SecondsOk(c: Codec, ns: int) {
    var s := c.seconds(ns);
    && IsInt(s)
    && -SECOND <= s * SECOND - ns <= SECOND
    && (ns % SECOND == 0 ==> s * SECOND == ns)
  }

  predicate PeerOk(c: Codec, p: Peer) {
    && KeyOk(c, p.publicKey)
    && (p.presharedKey.Some? ==> KeyOk(c, p.presharedKey.value))
    && (p.endpoint.Some? ==> EndpointOk(c, p.endpoint.value))
    && (p.keepalive.Some? ==> IsInt(p.keepalive.value) && SecondsOk(c, p.keepalive.value))
    && NetsOk(c, p.allowedIPs)
  }

  /** The peer as it comes back: with its keepalive cut to whole seconds. */
  function WrittenPeer(c: Codec, p: Peer): Peer {
    if p.keepalive.None? then p else p.(keepalive := Some(Wrap64(c.seconds(p.keepalive.value) * SECOND)))
  }

  function WrittenPeers(c: Codec, peers: seq<Peer>): (r: seq<Peer>)
    ensures |r| == |peers|
  {
    seq(|peers|, i requires 0 <= i < |peers| => WrittenPeer(c, peers[i]))
  }

  lemma {:induction false} SplitAppend(x: string, y: string, sep: char)
    requires sep !in y
    ensures Split(x + [sep] + y, sep) == Split(x, sep) + [y]
  {
    if x == "" {
      SplitPiece("", y, sep);
      SplitPiece(y, "", sep);
    } else {
      SplitAppend(x[1..], y, sep);
      assert (x + [sep] + y)[1..] == x[1..] + [sep] + y;
    }
  }

  lemma AllowedOne(c: Codec, n: Net)
    requires NetOk(c, n)
    ensures ParseNets(c, Split(c.netText(n), ',')) == Some([n])
  {
    hide Split, TrimSpace;
    var t := c.netText(n);
    SplitPiece(t, "", ',');
    assert [t][..0] == [];
    assert [] + [n] == [n];
  }

  lemma AllowedMore(c: Codec, head: string, nets: seq<Net>, n: Net)
    requires NetOk(c, n) && ParseNets(c, Split(head, ',')) == Some(nets)
    ensures ParseNets(c, Split(head + ", " + c.netText(n), ',')) == Some(nets + [n])
  {
    hide Split, TrimSpace, ParseNets;
    var t := c.netText(n);
    assert head + ", " + t == head + [','] + (" " + t);
    SplitAppend(head, " " + t, ',');
    SpacedTrim(t);
    OneNet(c, Split(head, ','), " " + t, nets);
  }

  lemma {:induction false} AllowedRead(c: Codec, nets: seq<Net>)
    requires nets != [] && NetsOk(c, nets)
    ensures ParseNets(c, Split(CommaJoin(NetTexts(c, nets)), ',')) == Some(nets)
  {
    hide Split, ParseNets, NetOk;
    var front, n := nets[..|nets| - 1], nets[|nets| - 1];
    var texts := NetTexts(c, nets);
    assert nets == front + [n] && texts[|nets| - 1] == c.netText(n);
    assert NetOk(c, n);
    if |nets| == 1 {
      AllowedOne(c, n);
      assert nets == [n];
    } else {
      AllowedRead(c, front);
      assert texts[..|nets| - 1] == NetTexts(c, front);
      AllowedMore(c, CommaJoin(NetTexts(c, front)), front, n);
    }
  }

  lemma SpacedTrim(t: string)
    requires TrimSpace(t) == t
    ensures TrimSpace(" " + t) == t
  {
    assert (" " + t)[1..] == t;
  }

  lemma OneNet(c: Codec, items: seq<string>, item: string, nets: seq<Net>)
    requires ParseNets(c, items) == Some(nets) && TrimSpace(item) != ""
    ensures var net := c.parseCIDR(TrimSpace(item));
            ParseNets(c, items + [item]) == if net.None? then None else Some(nets + [net.value])
  {
    hide TrimSpace;
    assert (items + [item])[..|items|] == items;
  }

  lemma {:induction false} CommaJoinTidy(texts: seq<string>)
    requires texts != [] && forall t <- texts :: t != "" && Tidy(t)
    ensures Tidy(CommaJoin(texts)) && CommaJoin(texts) != ""
  {
    hide IsSpace;
    var front, t, all := texts[..|texts| - 1], texts[|texts| - 1], CommaJoin(texts);
    assert t in texts;
    if |texts| > 1 {
      forall x | x in front ensures x != "" && Tidy(x) {
        assert x in texts;
      }
      CommaJoinTidy(front);
      var head := CommaJoin(front);
      assert all == head + ", " + t;
      TrimIsTidy(head);
      TrimIsTidy(t);
      assert all[0] == head[0] && all[|all| - 1] == t[|t| - 1];
      TrimIsTidy(all);
    }
  }

  predicate InPeer(st: State) {
    st.section == "peer" && st.peer.Some?
  }

  /** A key line of a peer section. */
  lemma PeerLineRead(c: Codec, st: State, name: string, value: string)
    requires InPeer(st) && Simple(name) && Tidy(value) && AllShort([Line(name, value)])
    ensures var peer := SetPeer(c, st.peer.value, Lower(name), value);
            Fold(c, Some(st), [Line(name, value)]) == if peer.None? then None else Some(st.(peer := peer))
  {
    hide SetPeer, Step, Simple, Lower, ByteLength, Line, TrimSpace, SetInterface;
    ShortOne(Line(name, value));
    LineRead(c, st, name, value);
    FoldOne(c, st, Line(name, value));
  }

  lemma PeerNames()
    ensures Simple("PublicKey") && Lower("PublicKey") == "publickey"
    ensures Simple("PresharedKey") && Lower("PresharedKey") == "presharedkey"
    ensures Simple("Endpoint") && Lower("Endpoint") == "endpoint"
  {
  }

  lemma MorePeerNames()
    ensures Simple("PersistentKeepalive") && Lower("PersistentKeepalive") == "persistentkeepalive"
    ensures Simple("AllowedIPs") && Lower("AllowedIPs") == "allowedips"
  {
  }

  lemma PeerStartRead(c: Codec, st: State, k: Key)
    requires KeyOk(c, k) && AllShort(["", "[Peer]", Line("PublicKey", c.keyText(k))])
    ensures Fold(c, Some(st), ["", "[Peer]", Line("PublicKey", c.keyText(k))]) ==
            Some(State("peer", Some(EMPTY_PEER.(publicKey := k)), st.cfg, Flush(st).peers))
  {
    hide Step, Fold, Line, Simple, Lower, Tidy, Flush;
    var line := Line("PublicKey", c.keyText(k));
    assert ["", "[Peer]", line] == [""] + ["[Peer]"] + [line];
    ShortParts([""] + ["[Peer]"], [line]);
    ShortParts([""], ["[Peer]"]);
    ShortOne("[Peer]");
    FoldConcat(c, Some(st), [""] + ["[Peer]"], [line]);
    FoldConcat(c, Some(st), [""], ["[Peer]"]);
    FoldOne(c, st, "");
    BlankRead(c, st);
    FoldOne(c, st, "[Peer]");
    SectionNames();
    SectionRead(c, st, "Peer");
    PeerNames();
    PeerLineRead(c, EnterSection(st, "peer"), "PublicKey", c.keyText(k));
  }

  lemma PresharedRead(c: Codec, st: State, k: Option<Key>)
    requires InPeer(st) && st.peer.value.presharedKey.None? && (k.Some? ==> KeyOk(c, k.value))
    requires AllShort(KeyLines(c, "PresharedKey", k))
    ensures Fold(c, Some(st), KeyLines(c, "PresharedKey", k)) ==
            Some(st.(peer := Some(st.peer.value.(presharedKey := k))))
  {
    hide Step, Line, Simple, Lower, Tidy;
    if k.Some? {
      PeerNames();
      PeerLineRead(c, st, "PresharedKey", c.keyText(k.value));
    }
  }

  lemma EndpointRead(c: Codec, st: State, e: Option<Endpoint>)
    requires InPeer(st) && st.peer.value.endpoint.None? && (e.Some? ==> EndpointOk(c, e.value))
    requires AllShort(EndpointLines(c, e))
    ensures Fold(c, Some(st), EndpointLines(c, e)) == Some(st.(peer := Some(st.peer.value.(endpoint := e))))
  {
    hide Step, Line, Simple, Lower, Tidy;
    if e.Some? {
      PeerNames();
      PeerLineRead(c, st, "Endpoint", c.endpointText(e.value));
    }
  }

  lemma KeepaliveRead(c: Codec, st: State, p: Peer)
    requires InPeer(st) && st.peer.value.keepalive.None? && (p.keepalive.Some? ==> SecondsOk(c, p.keepalive.value))
    requires AllShort(KeepaliveLines(c, p.keepalive))
    ensures Fold(c, Some(st), KeepaliveLines(c, p.keepalive)) ==
            Some(st.(peer := Some(st.peer.value.(keepalive := WrittenPeer(c, p).keepalive))))
  {
    hide Step, Line, Simple, Lower, Tidy, Itoa, Atoi, Wrap64, IsInt;
    if p.keepalive.Some? {
      var n := c.seconds(p.keepalive.value);
      ItoaIsTidy(n);
      ItoaRoundTrip(n);
      MorePeerNames();
      PeerLineRead(c, st, "PersistentKeepalive", Itoa(n));
    }
  }

  lemma AllowedLineRead(c: Codec, st: State, nets: seq<Net>)
    requires InPeer(st) && st.peer.value.allowedIPs == [] && NetsOk(c, nets)
    requires AllShort(AllowedLines(c, nets))
    ensures Fold(c, Some(st), AllowedLines(c, nets)) == Some(st.(peer := Some(st.peer.value.(allowedIPs := nets))))
  {
    hide Step, Line, Simple, Lower, Tidy, Split, ParseNets, CommaJoin;
    if nets != [] {
      var texts := NetTexts(c, nets);
      forall t | t in texts ensures t != "" && Tidy(t) {
        var i :| 0 <= i < |nets| && texts[i] == t;
        assert NetOk(c, nets[i]);
      }
      CommaJoinTidy(texts);
      AllowedRead(c, nets);
      MorePeerNames();
      PeerLineRead(c, st, "AllowedIPs", CommaJoin(texts));
    }
  }

  lemma PeerRead(c: Codec, st: State, p: Peer)
    requires PeerOk(c, p) && AllShort(PeerLines(c, p))
    ensures Fold(c, Some(st), PeerLines(c, p)) ==
            Some(State("peer", Some(WrittenPeer(c, p)), st.cfg, Flush(st).peers))
  {
    hide Fold, Step, Line, Flush, AllShort, KeyLines, EndpointLines, KeepaliveLines, AllowedLines, KeyOk, EndpointOk, NetsOk, IsInt, SecondsOk;
    var a := ["", "[Peer]", Line("PublicKey", c.keyText(p.publicKey))];
    var b, d := KeyLines(c, "PresharedKey", p.presharedKey), EndpointLines(c, p.endpoint);
    var e, f := KeepaliveLines(c, p.keepalive), AllowedLines(c, p.allowedIPs);
    ShortParts(a + b + d + e, f);
    ShortParts(a + b + d, e);
    ShortParts(a + b, d);
    ShortParts(a, b);
    FoldConcat(c, Some(st), a + b + d + e, f);
    FoldConcat(c, Some(st), a + b + d, e);
    FoldConcat(c, Some(st), a + b, d);
    FoldConcat(c, Some(st), a, b);
    PeerStartRead(c, st, p.publicKey);
    var read := EMPTY_PEER.(publicKey := p.publicKey);
    var at := State("peer", Some(read), st.cfg, Flush(st).peers);
    PresharedRead(c, at, p.presharedKey);
    read := read.(presharedKey := p.presharedKey);
    at := at.(peer := Some(read));
    EndpointRead(c, at, p.endpoint);
    read := read.(endpoint := p.endpoint);
    at := at.(peer := Some(read));
    KeepaliveRead(c, at, p);
    read := read.(keepalive := WrittenPeer(c, p).keepalive);
    at := at.(peer := Some(read));
    AllowedLineRead(c, at, p.allowedIPs);
  }

  lemma {:induction false} PeersRead(c: Codec, st: State, peers: seq<Peer>)
    requires PeersOk(c, peers) && AllShort(AllPeerLines(c, peers))
    ensures var r := Fold(c, Some(st), AllPeerLines(c, peers));
            r.Some? && r.value.cfg == st.cfg && Flush(r.value).peers == Flush(st).peers + WrittenPeers(c, peers)
  {
    hide Step, PeerOk, AllShort, PeerLines, WrittenPeer;
    if peers != [] {
      var front, p := peers[..|peers| - 1], peers[|peers| - 1];
      ShortParts(AllPeerLines(c, front), PeerLines(c, p));
      PeersRead(c, st, front);
      var mid := Fold(c, Some(st), AllPeerLines(c, front)).value;
      FoldConcat(c, Some(st), AllPeerLines(c, front), PeerLines(c, p));
      PeerRead(c, mid, p);
      assert WrittenPeers(c, peers) == WrittenPeers(c, front) + [WrittenPeer(c, p)];
    } else {
      assert Flush(st).peers + WrittenPeers(c, peers) == Flush(st).peers;
    }
  }

  // ----- The whole text -----

  predicate NoBreaks(lines: seq<string>) {
    forall i :: 0 <= i < |lines| ==> '\n' !in lines[i]
  }

  lemma {:induction false} UnlinesCons(line: string, lines: seq<string>)
    ensures Unlines([line] + lines) == line + "\n" + Unlines(lines)
  {
    var all := [line] + lines;
    if lines == [] {
      assert all[..0] == [];
    } else {
      UnlinesCons(line, lines[..|lines| - 1]);
      assert all[..|all| - 1] == [line] + lines[..|lines| - 1];
    }
  }

  lemma {:induction false} ScanUnlines(lines: seq<string>)
    requires NoBreaks(lines)
    ensures Split(Unlines(lines), '\n') == lines + [""]
    ensures ScanLines(Unlines(lines)) == lines
  {
    if lines != [] {
      var rest := lines[1..];
      ScanUnlines(rest);
      UnlinesCons(lines[0], rest);
      assert lines == [lines[0]] + rest;
      SplitPiece(lines[0], Unlines(rest), '\n');
    }
  }

  lemma NoBreaksParts(a: seq<string>, b: seq<string>)
    requires NoBreaks(a) && NoBreaks(b)
    ensures NoBreaks(a + b)
  {
  }

  lemma LineNoBreak(name: string, value: string)
    requires Simple(name) && '\n' !in value
    ensures NoBreaks([Line(name, value)])
  {
    assert forall i :: 0 <= i < |name| ==> NameChar(name[i]);
    assert '\n' !in name;
  }

  lemma {:induction false} SettingsNoBreak(cfg: Config, ints: seq<IntSetting>, texts: seq<TextSetting>)
    requires TidyTexts(cfg)
    ensures NoBreaks(IntLines(cfg, ints)) && NoBreaks(TextLines(cfg, texts))
    decreases |ints| + |texts|
  {
    hide Line, Simple, IntName, TextName, TrimSpace, Itoa;
    if ints != [] {
      var s := ints[|ints| - 1];
      SettingsNoBreak(cfg, ints[..|ints| - 1], texts);
      IntNamesRead(s);
      if s in cfg.ints {
        ItoaIsTidy(cfg.ints[s]);
        LineNoBreak(IntName(s), Itoa(cfg.ints[s]));
      }
    } else if texts != [] {
      var s := texts[|texts| - 1];
      SettingsNoBreak(cfg, ints, texts[..|texts| - 1]);
      TextNamesRead(s);
      if s in cfg.texts {
        LineNoBreak(TextName(s), cfg.texts[s]);
      }
    }
  }

  lemma PeerNoBreak(c: Codec, p: Peer)
    requires PeerOk(c, p)
    ensures NoBreaks(PeerLines(c, p))
  {
    hide Line, Simple, Lower, TrimSpace, CommaJoin, Itoa;
    PeerNames();
    MorePeerNames();
    LineNoBreak("PublicKey", c.keyText(p.publicKey));
    NoBreaksParts(["", "[Peer]"], [Line("PublicKey", c.keyText(p.publicKey))]);
    assert ["", "[Peer]"] + [Line("PublicKey", c.keyText(p.publicKey))]
        == ["", "[Peer]", Line("PublicKey", c.keyText(p.publicKey))];
    if p.presharedKey.Some? {
      LineNoBreak("PresharedKey", c.keyText(p.presharedKey.value));
    }
    if p.endpoint.Some? {
      LineNoBreak("Endpoint", c.endpointText(p.endpoint.value));
    }
    if p.keepalive.Some? {
      ItoaIsTidy(c.seconds(p.keepalive.value));
      LineNoBreak("PersistentKeepalive", Itoa(c.seconds(p.keepalive.value)));
    }
    if p.allowedIPs != [] {
      AllowedNoBreak(c, p.allowedIPs);
    }
  }

  lemma AllowedNoBreak(c: Codec, nets: seq<Net>)
    requires nets != [] && NetsOk(c, nets)
    ensures NoBreaks(AllowedLines(c, nets))
  {
    hide Line, Simple, Lower, TrimSpace, CommaJoin;
    var texts := NetTexts(c, nets);
    forall t | t in texts ensures t != "" && Tidy(t) {
      var i :| 0 <= i < |nets| && texts[i] == t;
      assert NetOk(c, nets[i]);
    }
    CommaJoinTidy(texts);
    MorePeerNames();
    LineNoBreak("AllowedIPs", CommaJoin(texts));
  }

  predicate PeersOk(c: Codec, peers: seq<Peer>) {
    forall i :: 0 <= i < |peers| ==> PeerOk(c, peers[i])
  }

  lemma {:induction false} PeersNoBreak(c: Codec, peers: seq<Peer>)
    requires PeersOk(c, peers)
    ensures NoBreaks(AllPeerLines(c, peers))
  {
    hide PeerLines, PeerOk;
    if peers != [] {
      PeersNoBreak(c, peers[..|peers| - 1]);
      PeerNoBreak(c, peers[|peers| - 1]);
    }
  }

  lemma LinesNoBreak(c: Codec, cfg: Config, peers: seq<Peer>)
    requires ConfigOk(c, cfg) && TidyTexts(cfg) && PeersOk(c, peers)
    ensures ScanLines(Print(c, cfg, peers)) == Lines(c, cfg, peers)
  {
    hide Line, Simple, Lower, TrimSpace, IntLines, TextLines, AllPeerLines, PeersOk, Unlines, ScanLines;
    SettingsNoBreak(cfg, INTS, TEXTS);
    PeersNoBreak(c, peers);
    var keys := KeyLines(c, "PrivateKey", cfg.privateKey);
    if cfg.privateKey.Some? {
      assert Simple("PrivateKey") by { PrivateKeyName(); }
      LineNoBreak("PrivateKey", c.keyText(cfg.privateKey.value));
    }
    assert NoBreaks(["[Interface]"]);
    NoBreaksParts(["[Interface]"], keys);
    NoBreaksParts(["[Interface]"] + keys, IntLines(cfg, INTS));
    NoBreaksParts(["[Interface]"] + keys + IntLines(cfg, INTS), TextLines(cfg, TEXTS));
    NoBreaksParts(InterfaceLines(c, cfg), AllPeerLines(c, peers));
    ScanUnlines(Lines(c, cfg, peers));
  }

  lemma PrivateKeyName()
    ensures Simple("PrivateKey")
  {
  }

  /**
   * What was written comes back, except for the firewall mark, which is not written, and the part of a
   * keepalive below a second.
   */
  lemma WrittenIsRead(c: Codec, cfg: Config, peers: seq<Peer>)
    requires ConfigOk(c, cfg) && PeersOk(c, peers)
    requires TidyTexts(cfg) && AllShort(Lines(c, cfg, peers))
    ensures Parse(c, Print(c, cfg, peers)) == Some((Written(cfg), WrittenPeers(c, peers)))
  {
    hide Print, ScanLines, Fold, AllShort, InterfaceLines, AllPeerLines, ConfigOk, TidyTexts, Written, WrittenPeers, PeerOk;
    LinesNoBreak(c, cfg, peers);
    ShortParts(InterfaceLines(c, cfg), AllPeerLines(c, peers));
    FoldConcat(c, Some(START), InterfaceLines(c, cfg), AllPeerLines(c, peers));
    InterfaceRead(c, cfg);
    var st := State("interface", None, Written(cfg), []);
    PeersRead(c, st, peers);
    assert [] + WrittenPeers(c, peers) == WrittenPeers(c, peers);
  }

  // ----- Exactly when the round trip is exact -----

  lemma TrimmedIsTidy(s: string)
    requires '\n' !in s
    ensures Tidy(TrimSpace(s))
  {
    TrimKeepsCharacters(s, '\n');
    TrimIsTidy(TrimSpace(s));
  }

  lemma SetKeepsTidy(c: Codec, st: State, key: string, value: string)
    requires TidyTexts(st.cfg) && Tidy(value)
    ensures var r := SetKey(c, st, key, value); r.Some? ==> TidyTexts(r.value.cfg)
  {
    hide IntNamed, TextNamed, Tidy, SetPeer, Atoi;
  }

  lemma StepKeepsTidy(c: Codec, st: State, raw: string)
    requires TidyTexts(st.cfg) && '\n' !in raw
    ensures var r := Step(c, st, raw); r.Some? ==> TidyTexts(r.value.cfg)
  {
    hide SetKey, Tidy, Lower, ByteLength, TrimSpace, Flush;
    var line := TrimSpace(StripCR(raw));
    TrimKeepsCharacters(StripCR(raw), '\n');
    var eq := IndexOf(line, '=');
    if eq < |line| {
      TrimmedIsTidy(line[eq + 1..]);
      SetKeepsTidy(c, st, Lower(TrimSpace(line[..eq])), TrimSpace(line[eq + 1..]));
    }
  }

  lemma {:induction false} FoldKeepsTidy(c: Codec, lines: seq<string>)
    requires NoBreaks(lines)
    ensures var r := Fold(c, Some(START), lines); r.Some? ==> TidyTexts(r.value.cfg)
  {
    hide Step, Tidy;
    if lines != [] {
      FoldKeepsTidy(c, lines[..|lines| - 1]);
      var before := Fold(c, Some(START), lines[..|lines| - 1]);
      if before.Some? {
        StepKeepsTidy(c, before.value, lines[|lines| - 1]);
      }
    }
  }

  predicate WholeKeepalives(peers: seq<Peer>) {
    forall i :: 0 <= i < |peers| && peers[i].keepalive.Some? ==> peers[i].keepalive.value % SECOND == 0
  }

  lemma WholeIsWritten(c: Codec, ns: int)
    requires IsInt(ns) && SecondsOk(c, ns)
    ensures Wrap64(c.seconds(ns) * SECOND) == ns <==> ns % SECOND == 0
  {
    var n := c.seconds(ns) * SECOND;
    assert n % SECOND == 0;
    assert -SECOND <= n - ns <= SECOND;
    assert Wrap64(n) == ns ==> n == ns;
  }

  lemma SameWhenWritten(c: Codec, cfg: Config, peers: seq<Peer>)
    requires PeersOk(c, peers)
    ensures Written(cfg) == cfg <==> FwMark !in cfg.ints
    ensures WrittenPeers(c, peers) == peers <==> WholeKeepalives(peers)
  {
    hide Wrap64, IsInt, SecondsOk;
    assert FwMark !in cfg.ints ==> cfg.ints - {FwMark} == cfg.ints;
    assert FwMark !in cfg.ints - {FwMark};
    forall i | 0 <= i < |peers| && peers[i].keepalive.Some?
      ensures WrittenPeers(c, peers)[i] == peers[i] <==> peers[i].keepalive.value % SECOND == 0
    {
      assert PeerOk(c, peers[i]);
      WholeIsWritten(c, peers[i].keepalive.value);
    }
    assert WrittenPeers(c, peers) == peers ==> forall i :: 0 <= i < |peers| ==> WrittenPeers(c, peers)[i] == peers[i];
  }

  /**
   * Parsing a printed config returns that config exactly when it has no firewall mark, its keepalives are
   * whole seconds, its string fields are trimmed and single-line, and every line fits the line scanner.
   */
  lemma RoundTripExactlyWhen(c: Codec, cfg: Config, peers: seq<Peer>)
    requires ConfigOk(c, cfg) && PeersOk(c, peers)
    ensures Parse(c, Print(c, cfg, peers)) == Some((cfg, peers)) <==>
            && FwMark !in cfg.ints && WholeKeepalives(peers)
            && TidyTexts(cfg) && AllShort(Lines(c, cfg, peers))
  {
    hide Print, Fold, Lines, AllShort, ConfigOk, PeersOk, Tidy, Written, WrittenPeers, WholeKeepalives;
    SameWhenWritten(c, cfg, peers);
    if !TidyTexts(cfg) {
      var text := Print(c, cfg, peers);
      FoldKeepsTidy(c, ScanLines(text));
    } else {
      LinesNoBreak(c, cfg, peers);
      if AllShort(Lines(c, cfg, peers)) {
        WrittenIsRead(c, cfg, peers);
      } else {
        LongLineFails(c, Some(START), Lines(c, cfg, peers));
      }
    }
  }
}

/** Lines that the printer never writes. */
module WgForeignLines {
  import opened Text
  import opened WgConfig
  import opened WgRoundTrip

  predicate Ascii(s: string) {
    forall i :: 0 <= i < |s| ==> s[i] as int < 0x80
  }

  /** An ASCII line is as long as its characters, and a line of 65536 bytes or more cannot be read. */
  lemma {:induction false} AsciiLength(s: string)
    requires Ascii(s)
    ensures ByteLength(s) == |s| && (Short(s) <==> |s| < 65536)
  {
    if s != "" {
      AsciiLength(s[1..]);
    }
  }

  lemma OverlongLineFails(c: Codec, st: State, raw: string)
    requires Ascii(raw) && |raw| >= 65536
    ensures Step(c, st, raw) == None
  {
    hide TrimSpace, SetKey, EnterSection, StripCR, Lower, ByteLength;
    AsciiLength(raw);
  }

  /** Blank lines and comments change nothing. */
  lemma CommentIsSkipped(c: Codec, st: State, raw: string)
    requires Short(raw)
    requires var line := TrimSpace(StripCR(raw)); line == "" || line[0] == '#' || line[0] == ';'
    ensures Step(c, st, raw) == Some(st)
  {
    hide TrimSpace, SetKey, EnterSection, StripCR, Lower, ByteLength;
  }

  /** A line that is neither a section nor a key with a value is an error. */
  lemma KeylessLineFails(c: Codec, st: State, raw: string)
    requires var line := TrimSpace(StripCR(raw));
             line != "" && line[0] != '#' && line[0] != ';' && line[0] != '[' && '=' !in line
    ensures Step(c, st, raw) == None
  {
    hide TrimSpace, SetKey, EnterSection, StripCR, Lower, ByteLength;
  }

  /** Keys and sections are read in any letter case. */
  lemma CaseDoesNotMatter(c: Codec, st: State, a: string, b: string, value: string)
    requires Simple(a) && Simple(b) && Lower(a) == Lower(b) && Tidy(value)
    requires Short(Line(a, value)) && Short(Line(b, value)) && Short("[" + a + "]") && Short("[" + b + "]")
    ensures Step(c, st, Line(a, value)) == Step(c, st, Line(b, value))
    ensures Step(c, st, "[" + a + "]") == Step(c, st, "[" + b + "]")
  {
    hide Step, Lower, Simple, ByteLength, Line, TrimSpace, EnterSection, SetKey;
    LineRead(c, st, a, value);
    LineRead(c, st, b, value);
    SectionRead(c, st, a);
    SectionRead(c, st, b);
  }

  /** A new section finishes the peer that was being read; only a peer section starts another. */
  lemma SectionFinishesPeer(c: Codec, st: State, name: string)
    requires Simple(name) && Short("[" + name + "]")
    ensures var r := Step(c, st, "[" + name + "]");
            && r.Some? && r.value.section == Lower(name) && r.value.cfg == st.cfg
            && r.value.peers == (if st.peer.None? then st.peers else st.peers + [st.peer.value])
            && (r.value.peer.Some? <==> Lower(name) == "peer")
            && (r.value.peer.Some? ==> r.value.peer.value == Peer(Key(Zeros(32)), None, None, None, []))
  {
    hide Step, Lower, Simple, ByteLength;
    SectionRead(c, st, name);
  }

  /** A key outside the two known sections is an error. */
  lemma KeyOutsideFails(c: Codec, st: State, name: string, value: string)
    requires Simple(name) && Tidy(value) && Short(Line(name, value))
    requires st.section != "interface" && st.section != "peer"
    ensures Step(c, st, Line(name, value)) == None
  {
    hide Step, Lower, Simple, ByteLength, Line, TrimSpace, SetInterface, SetPeer;
    LineRead(c, st, name, value);
  }

  /** The firewall mark is read although it is never written. */
  lemma FirewallMarkIsRead(c: Codec, st: State, n: int)
    requires InInterface(st) && IsInt(n) && Short(Line("FwMark", Itoa(n)))
    ensures var r := Step(c, st, Line("FwMark", Itoa(n)));
            r.Some? && r.value.cfg.ints == st.cfg.ints[FwMark := n] && r.value.cfg.texts == st.cfg.texts
  {
    hide Step, Itoa, ByteLength, Line, IsInt;
    IntLineRead(c, st, FwMark, n);
  }

  predicate KnownInterfaceKey(key: string) {
    || key == "privatekey" || key == "listenport" || key == "fwmark"
    || key == "jc" || key == "jmin" || key == "jmax" || key == "s1" || key == "s2" || key == "s3" || key == "s4"
    || key == "h1" || key == "h2" || key == "h3" || key == "h4"
    || key == "i1" || key == "i2" || key == "i3" || key == "i4" || key == "i5"
  }

  predicate KnownPeerKey(key: string) {
    key == "publickey" || key == "presharedkey" || key == "endpoint" || key == "persistentkeepalive" || key == "allowedips"
  }

  /** Keys that a section does not know are ignored. */
  lemma UnknownKeyIsIgnored(c: Codec, st: State, name: string, value: string)
    requires Simple(name) && Tidy(value) && Short(Line(name, value))
    requires (InInterface(st) && !KnownInterfaceKey(Lower(name))) || (InPeer(st) && !KnownPeerKey(Lower(name)))
    ensures Step(c, st, Line(name, value)) == Some(st)
  {
    hide Step, Lower, Simple, ByteLength, Line, TrimSpace;
    LineRead(c, st, name, value);
  }
}

/** The string builder and the line-scanner loop. */
module WgConfigFile {
  import opened Text
  import opened WgConfig

  method AppendLine(builder: string, ghost lines: seq<string>, line: string) returns (r: string)
    requires builder == Unlines(lines)
    ensures r == Unlines(lines + [line])
  {
    assert (lines + [line])[..|lines|] == lines;
    r := builder + line + "\n";
  }

  method AppendInts(builder: string, ghost lines: seq<string>, cfg: Config) returns (r: string)
    requires builder == Unlines(lines)
    ensures r == Unlines(lines + IntLines(cfg, INTS))
  {
    hide Unlines, Line, IntName, Itoa;
    r := builder;
    assert lines + IntLines(cfg, INTS[..0]) == lines;
    for i := 0 to |INTS|
      invariant r == Unlines(lines + IntLines(cfg, INTS[..i]))
    {
      var s := INTS[i];
      ghost var now := lines + IntLines(cfg, INTS[..i]);
      assert INTS[..i + 1][..i] == INTS[..i];
      if s in cfg.ints {
        var line := Line(IntName(s), Itoa(cfg.ints[s]));
        r := AppendLine(r, now, line);
        assert now + [line] == lines + IntLines(cfg, INTS[..i + 1]);
      } else {
        assert IntLines(cfg, INTS[..i + 1]) == IntLines(cfg, INTS[..i]);
      }
    }
    assert INTS[..|INTS|] == INTS;
  }

  method AppendTexts(builder: string, ghost lines: seq<string>, cfg: Config) returns (r: string)
    requires builder == Unlines(lines)
    ensures r == Unlines(lines + TextLines(cfg, TEXTS))
  {
    hide Unlines, Line, TextName;
    r := builder;
    assert lines + TextLines(cfg, TEXTS[..0]) == lines;
    for i := 0 to |TEXTS|
      invariant r == Unlines(lines + TextLines(cfg, TEXTS[..i]))
    {
      var s := TEXTS[i];
      ghost var now := lines + TextLines(cfg, TEXTS[..i]);
      assert TEXTS[..i + 1][..i] == TEXTS[..i];
      if s in cfg.texts {
        var line := Line(TextName(s), cfg.texts[s]);
        r := AppendLine(r, now, line);
        assert now + [line] == lines + TextLines(cfg, TEXTS[..i + 1]);
      } else {
        assert TextLines(cfg, TEXTS[..i + 1]) == TextLines(cfg, TEXTS[..i]);
      }
    }
    assert TEXTS[..|TEXTS|] == TEXTS;
  }

  /** An optional line. */
  method AppendIf(builder: string, ghost lines: seq<string>, present: bool, line: string) returns (r: string)
    requires builder == Unlines(lines)
    ensures r == Unlines(lines + if present then [line] else [])
  {
    if present {
      r := AppendLine(builder, lines, line);
    } else {
      assert lines + [] == lines;
      r := builder;
    }
  }

  method AppendPeer(c: Codec, builder: string, ghost lines: seq<string>, peer: Peer) returns (r: string)
    requires builder == Unlines(lines)
    ensures r == Unlines(lines + PeerLines(c, peer))
  {
    hide Unlines, Line, Itoa, CommaJoin;
    var line := Line("PublicKey", c.keyText(peer.publicKey));
    r := AppendLine(builder, lines, "");
    r := AppendLine(r, lines + [""], "[Peer]");
    r := AppendLine(r, lines + [""] + ["[Peer]"], line);
    ghost var done := ["", "[Peer]", line];
    assert lines + [""] + ["[Peer]"] + [line] == lines + done;
    line := if peer.presharedKey.Some? then Line("PresharedKey", c.keyText(peer.presharedKey.value)) else "";
    r := AppendIf(r, lines + done, peer.presharedKey.Some?, line);
    done := Extended(lines, done, KeyLines(c, "PresharedKey", peer.presharedKey));
    line := if peer.endpoint.Some? then Line("Endpoint", c.endpointText(peer.endpoint.value)) else "";
    r := AppendIf(r, lines + done, peer.endpoint.Some?, line);
    done := Extended(lines, done, EndpointLines(c, peer.endpoint));
    line := if peer.keepalive.Some? then Line("PersistentKeepalive", Itoa(c.seconds(peer.keepalive.value))) else "";
    r := AppendIf(r, lines + done, peer.keepalive.Some?, line);
    done := Extended(lines, done, KeepaliveLines(c, peer.keepalive));
    line := Line("AllowedIPs", CommaJoin(NetTexts(c, peer.allowedIPs)));
    r := AppendIf(r, lines + done, |peer.allowedIPs| > 0, line);
    done := Extended(lines, done, AllowedLines(c, peer.allowedIPs));
  }

  ghost function Extended(lines: seq<string>, done: seq<string>, more: seq<string>): (r: seq<string>)
    ensures r == done + more && lines + done + more == lines + r
  {
    assert lines + done + more == lines + (done + more);
    done + more
  }

  method GenerateConfig(c: Codec, cfg: Config, peers: seq<Peer>) returns (text: string)
    ensures text == Print(c, cfg, peers)
  {
    hide Unlines, IntLines, TextLines, PeerLines, Line;
    NoLines();
    text := AppendLine("", [], "[Interface]");
    ghost var head := ["[Interface]"];
    if cfg.privateKey.Some? {
      text := AppendLine(text, head, Line("PrivateKey", c.keyText(cfg.privateKey.value)));
    }
    head := head + KeyLines(c, "PrivateKey", cfg.privateKey);
    assert ["[Interface]"] + [] == ["[Interface]"];
    text := AppendInts(text, head, cfg);
    text := AppendTexts(text, head + IntLines(cfg, INTS), cfg);
    head := InterfaceLines(c, cfg);
    assert head + [] == head;
    for i := 0 to |peers|
      invariant text == Unlines(head + AllPeerLines(c, peers[..i]))
    {
      ghost var now := head + AllPeerLines(c, peers[..i]);
      assert peers[..i + 1][..i] == peers[..i];
      text := AppendPeer(c, text, now, peers[i]);
      assert now + PeerLines(c, peers[i]) == head + AllPeerLines(c, peers[..i + 1]);
    }
    assert peers[..|peers|] == peers;
  }

  lemma NoLines()
    ensures Unlines([]) == "" && [] + ["[Interface]"] == ["[Interface]"]
  {
  }

  method ParseAllowedIPs(c: Codec, value: string) returns (r: Option<seq<Net>>)
    ensures r == ParseNets(c, Split(value, ','))
  {
    hide TrimSpace;
    var cidrs := Split(value, ',');
    var nets := [];
    for i := 0 to |cidrs|
      invariant ParseNets(c, cidrs[..i]) == Some(nets)
    {
      assert cidrs[..i + 1][..i] == cidrs[..i];
      var trimmed := TrimSpace(cidrs[i]);
      if trimmed == "" {
        continue;
      }
      var net := c.parseCIDR(trimmed);
      if net.None? {
        NetsFail(c, cidrs, i + 1);
        return None;
      }
      nets := nets + [net.value];
    }
    assert cidrs[..|cidrs|] == cidrs;
    r := Some(nets);
  }

  lemma {:induction false} NetsFail(c: Codec, items: seq<string>, n: nat)
    requires n <= |items| && ParseNets(c, items[..n]).None?
    ensures ParseNets(c, items).None?
    decreases |items| - n
  {
    if n < |items| {
      assert items[..n + 1][..n] == items[..n];
      NetsFail(c, items, n + 1);
    } else {
      assert items[..n] == items;
    }
  }

  lemma {:induction false} FoldFails(c: Codec, lines: seq<string>, n: nat)
    requires n <= |lines| && Fold(c, Some(START), lines[..n]).None?
    ensures Fold(c, Some(START), lines).None?
    decreases |lines| - n
  {
    hide Step;
    if n < |lines| {
      assert lines[..n + 1][..n] == lines[..n];
      FoldFails(c, lines, n + 1);
    } else {
      assert lines[..n] == lines;
    }
  }

  /** One line of the interface section; unknown keys are ignored. */
  method ParseInterfaceKV(c: Codec, cfg: Config, key: string, value: string) returns (r: Option<Config>)
    ensures r == SetInterface(c, cfg, key, value)
  {
    hide Atoi, IntNamed, TextNamed;
    if key == "privatekey" {
      var parsed := c.parseKey(value);
      if parsed.None? {
        return None;
      }
      return Some(cfg.(privateKey := parsed));
    }
    var number := IntNamed(key);
    if number.Some? {
      var parsed := Atoi(value);
      if parsed.None? {
        return None;
      }
      return Some(cfg.(ints := cfg.ints[number.value := parsed.value]));
    }
    var text := TextNamed(key);
    if text.Some? {
      return Some(cfg.(texts := cfg.texts[text.value := value]));
    }
    r := Some(cfg);
  }

  /** One line of a peer section; unknown keys are ignored. */
  method ParsePeerKV(c: Codec, peer: Peer, key: string, value: string) returns (r: Option<Peer>)
    ensures r == SetPeer(c, peer, key, value)
  {
    hide ParseNets, Split, Atoi, Wrap64;
    if key == "publickey" {
      var parsed := c.parseKey(value);
      if parsed.None? {
        return None;
      }
      r := Some(peer.(publicKey := parsed.value));
    } else if key == "presharedkey" {
      var parsed := c.parseKey(value);
      if parsed.None? {
        return None;
      }
      r := Some(peer.(presharedKey := parsed));
    } else if key == "endpoint" {
      var endpoint := c.resolveEndpoint(value);
      if endpoint.None? {
        return None;
      }
      r := Some(peer.(endpoint := endpoint));
    } else if key == "persistentkeepalive" {
      var seconds := Atoi(value);
      if seconds.None? {
        return None;
      }
      r := Some(peer.(keepalive := Some(Wrap64(seconds.value * SECOND))));
    } else if key == "allowedips" {
      var nets := ParseAllowedIPs(c, value);
      if nets.None? {
        return None;
      }
      r := Some(peer.(allowedIPs := nets.value));
    } else {
      r := Some(peer);
    }
  }

  /** One key line in the current section. */
  method ParseKV(c: Codec, st: State, key: string, value: string) returns (ok: bool, cfg: Config, peer: Option<Peer>)
    ensures SetKey(c, st, key, value) == if ok then Some(st.(cfg := cfg, peer := peer)) else None
  {
    hide SetInterface, SetPeer;
    ok, cfg, peer := false, st.cfg, st.peer;
    if st.section == "interface" {
      var parsed := ParseInterfaceKV(c, cfg, key, value);
      if parsed.Some? {
        ok, cfg := true, parsed.value;
      }
    } else if st.section == "peer" && peer.Some? {
      var parsed := ParsePeerKV(c, peer.value, key, value);
      if parsed.Some? {
        ok, peer := true, parsed;
      }
    }
  }

  /** One line of the loop: what it does to the loop's variables, or an error. */
  method ParseLine(c: Codec, st: State, raw: string) returns (r: Option<State>)
    ensures r == Step(c, st, raw)
  {
    hide TrimSpace, Lower, ByteLength, SetKey, StripCR;
    if ByteLength(raw) > MAX_LINE {
      return None;
    }
    var line := TrimSpace(StripCR(raw));
    if line == "" || line[0] == '#' || line[0] == ';' {
      return Some(st);
    }
    if line[0] == '[' && line[|line| - 1] == ']' {
      var section := Lower(TrimSpace(line[1..|line| - 1]));
      var peers, currentPeer := st.peers, None;
      if st.peer.Some? {
        peers := peers + [st.peer.value];
      }
      if section == "peer" {
        currentPeer := Some(EMPTY_PEER);
      }
      return Some(State(section, currentPeer, st.cfg, peers));
    }
    var eq := IndexOf(line, '=');
    if eq == |line| {
      return None;
    }
    var key, value := Lower(TrimSpace(line[..eq])), TrimSpace(line[eq + 1..]);
    var ok, cfg, currentPeer := ParseKV(c, st, key, value);
    r := if ok then Some(st.(cfg := cfg, peer := currentPeer)) else None;
  }

  /** The scanner loop over the current section, the current peer, the config and the finished peers. */
  method ParseConfigFile(c: Codec, text: string) returns (r: Option<(Config, seq<Peer>)>)
    ensures r == Parse(c, text)
  {
    hide Step, ScanLines;
    var st := START;
    var lines := ScanLines(text);
    for i := 0 to |lines|
      invariant Fold(c, Some(START), lines[..i]) == Some(st)
    {
      assert lines[..i + 1][..i] == lines[..i];
      var next := ParseLine(c, st, lines[i]);
      if next.None? {
        FoldFails(c, lines, i + 1);
        return None;
      }
      st := next.value;
    }
    assert lines[..|lines|] == lines;
    if st.peer.Some? {
      return Some((st.cfg, st.peers + [st.peer.value]));
    }
    r := Some((st.cfg, st.peers));
  }
}
