/** Turning a received peer list into WireGuard peers and routes. */
module PeerReload {
  import opened Text
  import opened Arithmetic
  import opened PeerList
  import L = LedgerModel
  import R = RegistryModel

  datatype Net = Net(addr: nat, bits: nat)

  datatype WgPeer = WgPeer(publicKey: string, endpoint: Option<string>, keepalive: Option<int>, allowed: seq<Net>)

  /** The client's record of a peer; the wire form carries no role, so a received one is blank. */
  datatype PeerEntry = PeerEntry(role: string, peer: Peer)

  datatype Error = BlankName | BadProtocol | NoKey | BadKey | BadAllowedIPs | BadEndpoint | NonMaster

  function ParseCIDR(s: string): Option<Net> {
    var parts := Split(s, '/');
    if |parts| != 2 || ParseIPv4(parts[0]).None? || parts[1] == "" || !AllDigits(parts[1]) || DecimalValue(parts[1]) > 32 then None
    else
      var bits := DecimalValue(parts[1]);
      Some(Net(Masked(ParseIPv4(parts[0]).value, 32 - bits), bits))
  }

  function ParseNet(s: string): Option<Net> {
    if ParseCIDR(s).Some? then ParseCIDR(s)
    else if ParseIPv4(s).Some? then Some(Net(ParseIPv4(s).value, 32))
    else None
  }

  function ParseAllowedIPs(values: seq<string>): Option<seq<Net>> {
    if values == [] then Some([])
    else
      var before := ParseAllowedIPs(values[..|values| - 1]);
      var trimmed := TrimSpace(values[|values| - 1]);
      if before.None? || trimmed == "" then before
      else if ParseNet(trimmed).None? then None
      else Some(before.value + [ParseNet(trimmed).value])
  }

  /** `resolve` stands for the resolver that turns host:port text into an address. */
  function ToWgPeer(p: Peer, resolve: string -> Option<string>): Result<WgPeer, Error> {
    if TrimSpace(p.name) == "" then Err(BlankName)
    else if p.protocol != "" && p.protocol != "vanilla-wg" && p.protocol != "amneziawg" then Err(BadProtocol)
    else if p.pubkey == "" then Err(NoKey)
    else if |p.pubkey| != 32 then Err(BadKey)
    else if ParseAllowedIPs(p.allowedIPs).None? then Err(BadAllowedIPs)
    else if TrimSpace(p.endpointHost) != "" && resolve(p.endpointHost).None? then Err(BadEndpoint)
    else Ok(WgPeer(
      p.pubkey,
      if TrimSpace(p.endpointHost) == "" then None else resolve(p.endpointHost),
      if p.keepaliveSecs > 0 then Some(p.keepaliveSecs * 1_000_000_000) else None,
      ParseAllowedIPs(p.allowedIPs).value))
  }

  /** A peer that stops the whole batch. */
  predicate Aborts(e: PeerEntry, resolve: string -> Option<string>) {
    var r := ToWgPeer(e.peer, resolve);
    r.Err? && r.error != NoKey
  }

  predicate WrongRole(localIsClient: bool, e: PeerEntry) {
    localIsClient && e.role != "" && e.role != "master"
  }

  function Configs(peers: seq<PeerEntry>, resolve: string -> Option<string>): seq<WgPeer> {
    if peers == [] then []
    else
      var r := ToWgPeer(peers[|peers| - 1].peer, resolve);
      Configs(peers[..|peers| - 1], resolve) + if r.Ok? then [r.value] else []
  }

  function Skipped(peers: seq<PeerEntry>, resolve: string -> Option<string>): seq<string> {
    if peers == [] then []
    else
      var r := ToWgPeer(peers[|peers| - 1].peer, resolve);
      Skipped(peers[..|peers| - 1], resolve) + if r == Err(NoKey) then [peers[|peers| - 1].peer.name] else []
  }

  /** Fails exactly when a peer has a foreign role or is malformed; a missing key only skips the peer. */
  method BuildPeerConfigs(localIsClient: bool, peers: seq<PeerEntry>, resolve: string -> Option<string>)
    returns (r: Result<(seq<WgPeer>, seq<string>), Error>)
    ensures r.Err? <==> exists e :: e in peers && (WrongRole(localIsClient, e) || Aborts(e, resolve))
    ensures localIsClient && (exists e :: e in peers && e.role != "" && e.role != "master") ==> r.Err?
    ensures r.Err? && (!localIsClient || forall e :: e in peers ==> e.role == "" || e.role == "master") ==>
              exists e :: e in peers && ToWgPeer(e.peer, resolve).Err? && ToWgPeer(e.peer, resolve) != Err(NoKey)
    ensures r.Ok? ==> r.value == (Configs(peers, resolve), Skipped(peers, resolve))
  {
    hide ToWgPeer;
    if localIsClient {
      for i := 0 to |peers|
        invariant forall k :: 0 <= k < i ==> !WrongRole(true, peers[k])
      {
        if peers[i].role != "" && peers[i].role != "master" {
          assert WrongRole(true, peers[i]);
          return Err(NonMaster);
        }
      }
    }
    var out, skipped := [], [];
    for i := 0 to |peers|
      invariant forall k :: 0 <= k < i ==> !Aborts(peers[k], resolve)
      invariant out == Configs(peers[..i], resolve) && skipped == Skipped(peers[..i], resolve)
    {
      assert peers[..i + 1][..i] == peers[..i];
      match ToWgPeer(peers[i].peer, resolve) {
        case Ok(cfg) =>
          out := out + [cfg];
        case Err(NoKey) =>
          skipped := skipped + [peers[i].peer.name];
        case Err(e) =>
          assert Aborts(peers[i], resolve);
          return Err(e);
      }
    }
    assert peers[..|peers|] == peers;
    r := Ok((out, skipped));
  }

  // ----- What a conversion reads and writes -----

  /** The text of a network: its address with the low bits cleared, whatever they were. */
  lemma CidrParses(ip: string, bits: nat)
    requires ParseIPv4(ip).Some? && bits <= 32
    ensures var net := ParseNet(ip + ['/'] + Decimal(bits));
            && net.Some? && net.value.bits == bits
            && net.value.addr % Pow2(32 - bits) == 0
            && net.value.addr <= ParseIPv4(ip).value < net.value.addr + Pow2(32 - bits)
  {
    hide ParseIPv4, DecimalValue, Decimal, Pow2, Masked, Split;
    CidrSplits(ip, bits);
    DecimalRoundTrip(bits);
    MaskedIsMultiple(ParseIPv4(ip).value, 32 - bits);
  }

  lemma CidrSplits(ip: string, bits: nat)
    requires ParseIPv4(ip).Some?
    ensures Split(ip + ['/'] + Decimal(bits), '/') == [ip, Decimal(bits)]
  {
    IPv4Characters(ip);
    var digits := Decimal(bits);
    assert forall i :: 0 <= i < |digits| ==> IsDigit(digits[i]);
    hide ParseIPv4, Decimal, Split;
    SplitPiece(ip, digits, '/');
    SplitPiece(digits, "", '/');
    assert [ip] + [digits] == [ip, digits];
  }

  lemma MaskedIsMultiple(x: nat, h: nat)
    ensures Masked(x, h) % Pow2(h) == 0 && Masked(x, h) <= x < Masked(x, h) + Pow2(h)
  {
    hide Pow2;
    var m := Pow2(h);
    assert x == m * (x / m) + x % m;
    DivModUnique(Masked(x, h), m, x / m, 0);
  }

  /** A bare address is a network of its own. */
  lemma AddressParses(ip: string)
    requires ParseIPv4(ip).Some?
    ensures ParseNet(ip) == Some(Net(ParseIPv4(ip).value, 32))
  {
    IPv4Characters(ip);
    hide ParseIPv4;
    SplitPiece(ip, "", '/');
  }

  /** Blank items are skipped, a bad one fails the list, and the rest are kept in order. */
  lemma AllowedIPsStep(values: seq<string>, last: string)
    ensures var before, all := ParseAllowedIPs(values), ParseAllowedIPs(values + [last]);
            && ParseAllowedIPs([]) == Some([])
            && (before.None? ==> all.None?)
            && (before.Some? && TrimSpace(last) == "" ==> all == before)
            && (before.Some? && TrimSpace(last) != "" && ParseNet(TrimSpace(last)).None? ==> all.None?)
            && (before.Some? && TrimSpace(last) != "" && ParseNet(TrimSpace(last)).Some? ==>
                  all == Some(before.value + [ParseNet(TrimSpace(last)).value]))
  {
    hide TrimSpace, ParseNet;
    assert (values + [last])[..|values|] == values;
  }

  /** Exactly which peers convert, and what the WireGuard peer carries. */
  lemma ConvertsExactlyWhen(p: Peer, resolve: string -> Option<string>)
    ensures var r := ToWgPeer(p, resolve);
            && (r.Ok? <==>
                  && TrimSpace(p.name) != "" && (p.protocol == "" || p.protocol == "vanilla-wg" || p.protocol == "amneziawg")
                  && |p.pubkey| == 32 && ParseAllowedIPs(p.allowedIPs).Some?
                  && (TrimSpace(p.endpointHost) == "" || resolve(p.endpointHost).Some?))
            && (r.Ok? ==>
                  && r.value.publicKey == p.pubkey && Some(r.value.allowed) == ParseAllowedIPs(p.allowedIPs)
                  && r.value.endpoint == (if TrimSpace(p.endpointHost) == "" then None else resolve(p.endpointHost))
                  && (p.keepaliveSecs > 0 ==> r.value.keepalive == Some(p.keepaliveSecs * 1_000_000_000))
                  && (p.keepaliveSecs <= 0 ==> r.value.keepalive == None))
  {
    hide TrimSpace, ParseAllowedIPs;
  }

  /** A peer is skipped exactly when its name and protocol are good and it has no key. */
  lemma SkippedExactlyWhen(p: Peer, resolve: string -> Option<string>)
    ensures ToWgPeer(p, resolve) == Err(NoKey) <==>
            TrimSpace(p.name) != "" && (p.protocol == "" || p.protocol == "vanilla-wg" || p.protocol == "amneziawg")
            && p.pubkey == ""
  {
    hide TrimSpace, ParseAllowedIPs;
  }

  ghost predicate Ascending(at: seq<nat>, n: nat) {
    (forall i :: 0 <= i < |at| ==> at[i] < n) && forall i, j :: 0 <= i < j < |at| ==> at[i] < at[j]
  }

  /** The configured peers are the peers that convert, in list order. */
  lemma {:induction false} ConfigsInOrder(peers: seq<PeerEntry>, resolve: string -> Option<string>) returns (at: seq<nat>)
    ensures Ascending(at, |peers|)
    ensures forall k: nat :: k < |peers| ==> (k in at <==> ToWgPeer(peers[k].peer, resolve).Ok?)
    ensures |Configs(peers, resolve)| == |at|
    ensures forall i :: 0 <= i < |at| ==> ToWgPeer(peers[at[i]].peer, resolve) == Ok(Configs(peers, resolve)[i])
  {
    hide ToWgPeer;
    at := [];
    if peers != [] {
      var n := |peers| - 1;
      at := ConfigsInOrder(peers[..n], resolve);
      if ToWgPeer(peers[n].peer, resolve).Ok? {
        at := at + [n];
      }
    }
  }

  /** The skipped names are those of the peers without a key, in list order. */
  lemma {:induction false} SkippedInOrder(peers: seq<PeerEntry>, resolve: string -> Option<string>) returns (at: seq<nat>)
    ensures Ascending(at, |peers|)
    ensures forall k: nat :: k < |peers| ==> (k in at <==> ToWgPeer(peers[k].peer, resolve) == Err(NoKey))
    ensures |Skipped(peers, resolve)| == |at|
    ensures forall i :: 0 <= i < |at| ==> Skipped(peers, resolve)[i] == peers[at[i]].peer.name
  {
    hide ToWgPeer;
    at := [];
    if peers != [] {
      var n := |peers| - 1;
      at := SkippedInOrder(peers[..n], resolve);
      if ToWgPeer(peers[n].peer, resolve) == Err(NoKey) {
        at := at + [n];
      }
    }
  }

  // ----- The partition survives the conversion -----

  predicate IsHostRoute(x: string) {
    |x| >= 3 && x[|x| - 3..] == "/32" && ParseIPv4(x[..|x| - 3]).Some?
  }

  function NetOf(x: string): Net
    requires IsHostRoute(x)
  {
    Net(ParseIPv4(x[..|x| - 3]).value, 32)
  }

  lemma HostRouteParses(x: string)
    requires IsHostRoute(x)
    ensures TrimSpace(x) == x != "" && ParseNet(x) == Some(NetOf(x))
  {
    var ip := x[..|x| - 3];
    assert x == ip + ['/'] + "32";
    IPv4Characters(ip);
    assert DecimalValue("32") == 32;
    hide ParseIPv4, DecimalValue;
    assert x[0] == ip[0];
    SplitPiece(ip, "32", '/');
    SplitPiece("32", "", '/');
    assert Masked(ParseIPv4(ip).value, 0) == ParseIPv4(ip).value;
  }

  lemma NetOfInjective(x: string, y: string)
    requires IsHostRoute(x) && IsHostRoute(y) && NetOf(x) == NetOf(y)
    ensures x == y
  {
    ParseIPv4Injective(x[..|x| - 3], y[..|y| - 3]);
    hide ParseIPv4;
    assert x == x[..|x| - 3] + x[|x| - 3..] && y == y[..|y| - 3] + y[|y| - 3..];
  }

  lemma {:induction false} HostRoutesParse(xs: seq<string>)
    requires forall i :: 0 <= i < |xs| ==> IsHostRoute(xs[i])
    ensures ParseAllowedIPs(xs).Some?
    ensures var nets := ParseAllowedIPs(xs).value;
            |nets| == |xs| && forall i :: 0 <= i < |xs| ==> nets[i] == NetOf(xs[i])
  {
    hide IsHostRoute, NetOf, ParseNet, TrimSpace;
    if xs != [] {
      HostRoutesParse(xs[..|xs| - 1]);
      HostRouteParses(xs[|xs| - 1]);
    }
  }

  function Received(peers: seq<Peer>): (r: seq<PeerEntry>)
    ensures |r| == |peers| && forall i :: 0 <= i < |r| ==> r[i] == PeerEntry("", peers[i])
  {
    seq(|peers|, i requires 0 <= i < |peers| => PeerEntry("", peers[i]))
  }

  /** Peers whose routes are host routes that no two of them, and no two places of one, share. */
  ghost predicate Disjoint(peers: seq<PeerEntry>) {
    && (forall i, a :: 0 <= i < |peers| && 0 <= a < |peers[i].peer.allowedIPs| ==> IsHostRoute(peers[i].peer.allowedIPs[a]))
    && (forall i, a, b :: 0 <= i < |peers| && 0 <= a < b < |peers[i].peer.allowedIPs| ==>
          peers[i].peer.allowedIPs[a] != peers[i].peer.allowedIPs[b])
    && (forall i, j, x :: 0 <= i < j < |peers| && x in peers[i].peer.allowedIPs ==> x !in peers[j].peer.allowedIPs)
  }

  ghost predicate NetsDisjoint(out: seq<WgPeer>) {
    && (forall i, n :: 0 <= i < |out| && n in out[i].allowed ==> n.bits == 32)
    && (forall i, a, b :: 0 <= i < |out| && 0 <= a < b < |out[i].allowed| ==> out[i].allowed[a] != out[i].allowed[b])
    && (forall i, j, n :: 0 <= i < j < |out| && n in out[i].allowed ==> n !in out[j].allowed)
  }

  lemma ConvertedRoutes(p: Peer, resolve: string -> Option<string>)
    requires ToWgPeer(p, resolve).Ok? && forall a :: 0 <= a < |p.allowedIPs| ==> IsHostRoute(p.allowedIPs[a])
    ensures var nets := ToWgPeer(p, resolve).value.allowed;
            |nets| == |p.allowedIPs| && forall a :: 0 <= a < |nets| ==> nets[a] == NetOf(p.allowedIPs[a])
  {
    hide IsHostRoute, NetOf, ParseAllowedIPs;
    HostRoutesParse(p.allowedIPs);
  }

  lemma {:induction false} ConfigStems(peers: seq<PeerEntry>, resolve: string -> Option<string>, i: nat) returns (k: nat)
    requires i < |Configs(peers, resolve)|
    ensures k < |peers| && ToWgPeer(peers[k].peer, resolve) == Ok(Configs(peers, resolve)[i])
  {
    hide ToWgPeer;
    var init := peers[..|peers| - 1];
    if i < |Configs(init, resolve)| {
      k := ConfigStems(init, resolve, i);
    } else {
      k := |peers| - 1;
    }
  }

  lemma {:induction false} ConfigPresent(peers: seq<PeerEntry>, resolve: string -> Option<string>, k: nat)
    requires k < |peers|
    ensures ToWgPeer(peers[k].peer, resolve).Ok? ==> ToWgPeer(peers[k].peer, resolve).value in Configs(peers, resolve)
    ensures ToWgPeer(peers[k].peer, resolve) == Err(NoKey) ==> peers[k].peer.name in Skipped(peers, resolve)
  {
    hide ToWgPeer;
    if k < |peers| - 1 {
      ConfigPresent(peers[..|peers| - 1], resolve, k);
    }
  }

  lemma {:induction false} SkippedStems(peers: seq<PeerEntry>, resolve: string -> Option<string>, name: string) returns (k: nat)
    requires name in Skipped(peers, resolve)
    ensures k < |peers| && peers[k].peer.name == name && ToWgPeer(peers[k].peer, resolve) == Err(NoKey)
  {
    hide ToWgPeer;
    var init := peers[..|peers| - 1];
    if name in Skipped(init, resolve) {
      k := SkippedStems(init, resolve, name);
    } else {
      k := |peers| - 1;
    }
  }

  /** A net of a converted peer is the net of one of its routes. */
  lemma NetStems(p: Peer, resolve: string -> Option<string>, n: Net) returns (x: string)
    requires ToWgPeer(p, resolve).Ok? && n in ToWgPeer(p, resolve).value.allowed
    requires forall a :: 0 <= a < |p.allowedIPs| ==> IsHostRoute(p.allowedIPs[a])
    ensures x in p.allowedIPs && IsHostRoute(x) && n == NetOf(x)
  {
    ConvertedRoutes(p, resolve);
    hide ToWgPeer, IsHostRoute, NetOf;
    var nets := ToWgPeer(p, resolve).value.allowed;
    var a :| 0 <= a < |nets| && nets[a] == n;
    x := p.allowedIPs[a];
  }

  lemma LastDisjoint(peers: seq<PeerEntry>, resolve: string -> Option<string>, i: nat, n: Net)
    requires Disjoint(peers) && peers != []
    requires var init, last := peers[..|peers| - 1], peers[|peers| - 1].peer;
             i < |Configs(init, resolve)| && n in Configs(init, resolve)[i].allowed && ToWgPeer(last, resolve).Ok?
    ensures n !in ToWgPeer(peers[|peers| - 1].peer, resolve).value.allowed
  {
    hide ToWgPeer, IsHostRoute, NetOf, Configs;
    var init, last := peers[..|peers| - 1], peers[|peers| - 1].peer;
    var k := ConfigStems(init, resolve, i);
    var x := NetStems(init[k].peer, resolve, n);
    assert x in peers[k].peer.allowedIPs;
    if n in ToWgPeer(last, resolve).value.allowed {
      var y := NetStems(last, resolve, n);
      NetOfInjective(x, y);
    }
  }

  lemma {:induction false} ConversionKeepsDisjoint(peers: seq<PeerEntry>, resolve: string -> Option<string>)
    requires Disjoint(peers)
    ensures NetsDisjoint(Configs(peers, resolve))
  {
    if peers != [] {
      var init, last := peers[..|peers| - 1], peers[|peers| - 1].peer;
      ConversionKeepsDisjoint(init, resolve);
      if ToWgPeer(last, resolve).Ok? {
        var out, cfg := Configs(init, resolve), ToWgPeer(last, resolve).value;
        ConvertedRoutes(last, resolve);
        forall a, b | 0 <= a < b < |cfg.allowed| ensures cfg.allowed[a] != cfg.allowed[b] {
          if cfg.allowed[a] == cfg.allowed[b] { NetOfInjective(last.allowedIPs[a], last.allowedIPs[b]); }
        }
        forall i, n | 0 <= i < |out| && n in out[i].allowed ensures n !in cfg.allowed {
          LastDisjoint(peers, resolve, i, n);
        }
        AppendDisjoint(out, cfg);
      }
    }
  }

  lemma AppendDisjoint(out: seq<WgPeer>, cfg: WgPeer)
    requires NetsDisjoint(out)
    requires forall n :: n in cfg.allowed ==> n.bits == 32
    requires forall a, b :: 0 <= a < b < |cfg.allowed| ==> cfg.allowed[a] != cfg.allowed[b]
    requires forall i, n :: 0 <= i < |out| && n in out[i].allowed ==> n !in cfg.allowed
    ensures NetsDisjoint(out + [cfg])
  {}

  // ----- The whole path from the ledger to the kernel -----

  ghost function ListFor(l: L.Ledger, r: R.Registry, subject: string): seq<PeerEntry> {
    Received(PeersFor(r, L.SnapshotOf(l.entries), SubjectOverlay(r, subject)))
  }

  function KeyOf(r: R.Registry, master: string): string {
    if master in r.byName then r.byName[master].pubkey else ""
  }

  lemma KeyRouteIsHostRoute(ip: string)
    requires ParseIPv4(ip).Some?
    ensures IsHostRoute(HostRoute(ip)) && NetOf(HostRoute(ip)) == Net(ParseIPv4(ip).value, 32)
  {
    hide ParseIPv4;
    var x := HostRoute(ip);
    assert x[..|x| - 3] == ip && x[|x| - 3..] == "/32";
  }

  lemma ListRoutesAreHostRoutes(l: L.Ledger, r: R.Registry, subject: string, i: nat, a: nat)
    requires L.Valid(l)
    requires var peers := ListFor(l, r, subject); i < |peers| && a < |peers[i].peer.allowedIPs|
    ensures IsHostRoute(ListFor(l, r, subject)[i].peer.allowedIPs[a])
  {
    hide L.SnapshotOf, ParseIPv4, IsHostRoute, AllowedOf, Owners, FirstOverlay;
    var s, own := L.SnapshotOf(l.entries), SubjectOverlay(r, subject);
    L.SnapshotOfIsSnapshot(l.entries);
    var x := ListFor(l, r, subject)[i].peer.allowedIPs[a];
    var k := AllowedStems(s, own, Owners(s, own)[i], x);
    KeyRouteIsHostRoute(s[k].overlayIP);
  }

  lemma ListRoutesDistinct(l: L.Ledger, r: R.Registry, subject: string, i: nat, a: nat, j: nat, b: nat)
    requires L.Valid(l)
    requires var peers := ListFor(l, r, subject);
             i < |peers| && j < |peers| && a < |peers[i].peer.allowedIPs| && b < |peers[j].peer.allowedIPs| && (i != j || a != b)
    ensures ListFor(l, r, subject)[i].peer.allowedIPs[a] != ListFor(l, r, subject)[j].peer.allowedIPs[b]
  {
    var s, own := L.SnapshotOf(l.entries), SubjectOverlay(r, subject);
    assert L.StrictlyAscending(s) by { L.SnapshotOfIsSnapshot(l.entries); }
    hide L.SnapshotOf, L.Valid, L.StrictlyAscending, PeersFor;
    RoutesDistinct(r, s, own, i, a, j, b);
  }

  lemma ListIsDisjoint(l: L.Ledger, r: R.Registry, subject: string)
    requires L.Valid(l)
    ensures Disjoint(ListFor(l, r, subject))
  {
    hide L.Valid, IsHostRoute, ListFor;
    var peers := ListFor(l, r, subject);
    forall i, a | 0 <= i < |peers| && 0 <= a < |peers[i].peer.allowedIPs| ensures IsHostRoute(peers[i].peer.allowedIPs[a]) {
      ListRoutesAreHostRoutes(l, r, subject, i, a);
    }
    forall i, a, b | 0 <= i < |peers| && 0 <= a < b < |peers[i].peer.allowedIPs|
      ensures peers[i].peer.allowedIPs[a] != peers[i].peer.allowedIPs[b]
    {
      ListRoutesDistinct(l, r, subject, i, a, i, b);
    }
    forall i, j, x | 0 <= i < j < |peers| && x in peers[i].peer.allowedIPs ensures x !in peers[j].peer.allowedIPs {
      if x in peers[j].peer.allowedIPs {
        var a :| 0 <= a < |peers[i].peer.allowedIPs| && peers[i].peer.allowedIPs[a] == x;
        var b :| 0 <= b < |peers[j].peer.allowedIPs| && peers[j].peer.allowedIPs[b] == x;
        ListRoutesDistinct(l, r, subject, i, a, j, b);
      }
    }
  }

  lemma ListPeerHasKey(l: L.Ledger, r: R.Registry, subject: string, i: nat)
    requires i < |ListFor(l, r, subject)|
    ensures ListFor(l, r, subject)[i].peer.pubkey == KeyOf(r, ListFor(l, r, subject)[i].peer.name)
  {
    hide L.SnapshotOf, AllowedOf, Owners, FirstOverlay;
  }

  lemma ConvertedKey(p: Peer, resolve: string -> Option<string>)
    ensures ToWgPeer(p, resolve).Ok? ==> ToWgPeer(p, resolve).value.publicKey == p.pubkey != ""
    ensures ToWgPeer(p, resolve) == Err(NoKey) ==> p.pubkey == ""
    ensures !Aborts(PeerEntry("", p), resolve) && p.pubkey == "" ==> ToWgPeer(p, resolve) == Err(NoKey)
  {}

  /** The overlay is routed to the peer with its owner's key. */
  ghost predicate RoutedTo(out: seq<WgPeer>, key: string, n: Net) {
    exists i :: 0 <= i < |out| && out[i].publicKey == key && n in out[i].allowed
  }

  /** One remote overlay of the ledger after conversion. */
  lemma OverlayIsRouted(l: L.Ledger, r: R.Registry, subject: string, resolve: string -> Option<string>, ip: string)
    requires L.Valid(l) && ip in l.entries && IsRemote(l.entries[ip], SubjectOverlay(r, subject))
    requires forall e :: e in ListFor(l, r, subject) ==> !Aborts(e, resolve)
    ensures var owner := l.entries[ip].owner;
            var peers := ListFor(l, r, subject);
            && (KeyOf(r, owner) == "" ==> owner in Skipped(peers, resolve))
            && (KeyOf(r, owner) != "" ==> RoutedTo(Configs(peers, resolve), KeyOf(r, owner), Net(ParseIPv4(ip).value, 32)))
  {
    var s, own, peers := L.SnapshotOf(l.entries), SubjectOverlay(r, subject), ListFor(l, r, subject);
    LedgerIsPartitioned(l, r, subject);
    assert ParseIPv4(ip).Some? && l.entries[ip].overlayIP == ip;
    assert l.entries[ip] in s;
    hide L.SnapshotOf, L.Valid, ParseIPv4, IsHostRoute, PeersFor, ToWgPeer, NetOf, Configs, Skipped, Aborts;
    var k :| 0 <= k < |s| && s[k] == l.entries[ip];
    var i :| 0 <= i < |peers| && peers[i].peer.name == s[k].owner && HostRoute(ip) in peers[i].peer.allowedIPs;
    assert peers[i] in peers;
    ListPeerHasKey(l, r, subject, i);
    ConvertedKey(peers[i].peer, resolve);
    ConfigPresent(peers, resolve, i);
    if KeyOf(r, s[k].owner) != "" {
      NotSkipped(peers[i], resolve);
      ListIsDisjoint(l, r, subject);
      KeyRouteIsHostRoute(ip);
      ConvertedContains(peers[i].peer, resolve, HostRoute(ip));
    }
  }

  lemma NotSkipped(e: PeerEntry, resolve: string -> Option<string>)
    requires !Aborts(e, resolve) && e.peer.pubkey != ""
    ensures ToWgPeer(e.peer, resolve).Ok?
  {}

  lemma ConvertedContains(p: Peer, resolve: string -> Option<string>, x: string)
    requires ToWgPeer(p, resolve).Ok? && x in p.allowedIPs
    requires forall a :: 0 <= a < |p.allowedIPs| ==> IsHostRoute(p.allowedIPs[a])
    ensures IsHostRoute(x) && NetOf(x) in ToWgPeer(p, resolve).value.allowed
  {
    ConvertedRoutes(p, resolve);
    hide ToWgPeer, IsHostRoute, NetOf;
    var a :| 0 <= a < |p.allowedIPs| && p.allowedIPs[a] == x;
  }

  /** The network is a remote overlay of the ledger, and the key is its owner's. */
  ghost predicate StemsFrom(l: L.Ledger, r: R.Registry, subject: string, key: string, n: Net, ip: string) {
    && ip in l.entries && IsRemote(l.entries[ip], SubjectOverlay(r, subject))
    && KeyOf(r, l.entries[ip].owner) == key
    && ParseIPv4(ip).Some? && n == Net(ParseIPv4(ip).value, 32)
  }

  /** A listed route is the route of a remote overlay that the peer owns. */
  lemma RouteIsOverlay(l: L.Ledger, r: R.Registry, subject: string, p: nat, x: string) returns (ip: string)
    requires L.Valid(l)
    requires var peers := ListFor(l, r, subject); p < |peers| && x in peers[p].peer.allowedIPs
    ensures ip in l.entries && IsRemote(l.entries[ip], SubjectOverlay(r, subject)) && ParseIPv4(ip).Some?
    ensures l.entries[ip].owner == ListFor(l, r, subject)[p].peer.name && x == HostRoute(ip)
  {
    hide L.SnapshotOf, ParseIPv4, AllowedOf, Owners, FirstOverlay, IsRemote;
    var s, own := L.SnapshotOf(l.entries), SubjectOverlay(r, subject);
    L.SnapshotOfIsSnapshot(l.entries);
    var k := AllowedStems(s, own, Owners(s, own)[p], x);
    ip := s[k].overlayIP;
  }

  /** Nothing else is configured. */
  lemma NetIsOverlay(l: L.Ledger, r: R.Registry, subject: string, resolve: string -> Option<string>, i: nat, n: Net)
    returns (ip: string)
    requires L.Valid(l)
    requires var out := Configs(ListFor(l, r, subject), resolve); i < |out| && n in out[i].allowed
    ensures StemsFrom(l, r, subject, Configs(ListFor(l, r, subject), resolve)[i].publicKey, n, ip)
  {
    hide L.Valid, ListFor, ParseIPv4, IsHostRoute, ToWgPeer, NetOf, Configs, IsRemote, KeyOf;
    var peers := ListFor(l, r, subject);
    ListIsDisjoint(l, r, subject);
    var p := ConfigStems(peers, resolve, i);
    ConvertedKey(peers[p].peer, resolve);
    ListPeerHasKey(l, r, subject, p);
    var x := NetStems(peers[p].peer, resolve, n);
    ip := RouteIsOverlay(l, r, subject, p, x);
    KeyRouteIsHostRoute(ip);
  }

  /** Each configured peer has its owner's registered key and resolved endpoint, and a keepalive of 25 seconds. */
  ghost predicate HasRecordOf(w: WgPeer, n: R.Node, resolve: string -> Option<string>) {
    && w.publicKey == n.pubkey && w.keepalive == Some(25_000_000_000)
    && w.endpoint == if TrimSpace(n.endpointHost) == "" then None else resolve(n.endpointHost)
  }

  /** The network is a remote overlay that `master` owns in the ledger. */
  ghost predicate OwnedNet(l: L.Ledger, r: R.Registry, subject: string, master: string, n: Net, ip: string) {
    && ip in l.entries && l.entries[ip].owner == master && IsRemote(l.entries[ip], SubjectOverlay(r, subject))
    && ParseIPv4(ip).Some? && n == Net(ParseIPv4(ip).value, 32)
  }

  lemma ConfiguredPeerHasRecord(l: L.Ledger, r: R.Registry, subject: string, resolve: string -> Option<string>, i: nat)
    returns (master: string)
    requires L.Valid(l) && i < |Configs(ListFor(l, r, subject), resolve)|
    ensures var w := Configs(ListFor(l, r, subject), resolve)[i];
            && master in r.byName && HasRecordOf(w, r.byName[master], resolve)
            && forall n <- w.allowed :: exists ip :: OwnedNet(l, r, subject, master, n, ip)
  {
    var s, own, peers := L.SnapshotOf(l.entries), SubjectOverlay(r, subject), ListFor(l, r, subject);
    hide L.SnapshotOf, PeersFor, ToWgPeer, Configs, TrimSpace, L.Valid;
    var p := ConfigStems(peers, resolve, i);
    PeersCarryRecords(r, s, own, p);
    ConvertsExactlyWhen(peers[p].peer, resolve);
    master := peers[p].peer.name;
    hide ListFor, IsRemote, ParseIPv4;
    forall n | n in Configs(peers, resolve)[i].allowed ensures exists ip :: OwnedNet(l, r, subject, master, n, ip) {
      var ip := NetOfPeer(l, r, subject, resolve, p, n);
    }
  }

  lemma NetOfPeer(l: L.Ledger, r: R.Registry, subject: string, resolve: string -> Option<string>, p: nat, n: Net)
    returns (ip: string)
    requires L.Valid(l) && p < |ListFor(l, r, subject)|
    requires var w := ToWgPeer(ListFor(l, r, subject)[p].peer, resolve); w.Ok? && n in w.value.allowed
    ensures OwnedNet(l, r, subject, ListFor(l, r, subject)[p].peer.name, n, ip)
  {
    hide L.Valid, ListFor, ParseIPv4, IsHostRoute, ToWgPeer, NetOf, IsRemote;
    ListIsDisjoint(l, r, subject);
    var x := NetStems(ListFor(l, r, subject)[p].peer, resolve, n);
    ip := RouteIsOverlay(l, r, subject, p, x);
    KeyRouteIsHostRoute(ip);
  }

  /** End to end, when the batch is accepted: the configured peers never share an address and never hold
      one twice; every ledger overlay except the subject's own is routed to its owner's key, unless the owner
      has no key, and exactly those owners are the skipped ones; and nothing but such overlays is configured. */
  lemma LedgerReachesWireGuard(l: L.Ledger, r: R.Registry, subject: string, resolve: string -> Option<string>)
    requires L.Valid(l)
    requires forall e :: e in ListFor(l, r, subject) ==> !Aborts(e, resolve)
    ensures var peers := ListFor(l, r, subject);
            var out, skipped := Configs(peers, resolve), Skipped(peers, resolve);
            && NetsDisjoint(out)
            && (forall ip :: ip in l.entries && IsRemote(l.entries[ip], SubjectOverlay(r, subject)) ==>
                  var owner := l.entries[ip].owner;
                  && (KeyOf(r, owner) == "" <==> owner in skipped)
                  && (KeyOf(r, owner) != "" ==> RoutedTo(out, KeyOf(r, owner), Net(ParseIPv4(ip).value, 32))))
            && (forall i, n :: 0 <= i < |out| && n in out[i].allowed ==>
                  exists ip :: StemsFrom(l, r, subject, out[i].publicKey, n, ip))
  {
    var peers := ListFor(l, r, subject);
    var out := Configs(peers, resolve);
    forall i, n | 0 <= i < |out| && n in out[i].allowed ensures exists ip :: StemsFrom(l, r, subject, out[i].publicKey, n, ip) {
      var ip := NetIsOverlay(l, r, subject, resolve, i, n);
    }
    ListIsDisjoint(l, r, subject);
    ConversionKeepsDisjoint(peers, resolve);
    hide L.Valid, ParseIPv4, ListFor, ToWgPeer, Configs, Skipped, Aborts, NetsDisjoint, RoutedTo, Disjoint, StemsFrom;
    forall ip | ip in l.entries && IsRemote(l.entries[ip], SubjectOverlay(r, subject))
      ensures var owner := l.entries[ip].owner;
              && (KeyOf(r, owner) == "" <==> owner in Skipped(peers, resolve))
              && (KeyOf(r, owner) != "" ==> RoutedTo(Configs(peers, resolve), KeyOf(r, owner), Net(ParseIPv4(ip).value, 32)))
    {
      OverlayIsRouted(l, r, subject, resolve, ip);
      if l.entries[ip].owner in Skipped(peers, resolve) {
        var k := SkippedStems(peers, resolve, l.entries[ip].owner);
        ListPeerHasKey(l, r, subject, k);
        ConvertedKey(peers[k].peer, resolve);
      }
    }
  }

  /** Installs each distinct route once, except the local overlay; `install` answers whether the
      kernel accepts a route, and the first refusal stops. */
  method InstallPeerRoutes(peers: seq<WgPeer>, local: Net, install: Net -> bool) returns (installed: seq<Net>, ok: bool)
    ensures forall a, b :: 0 <= a < b < |installed| ==> installed[a] != installed[b]
    ensures forall n :: n in installed ==> n != local && install(n) && exists i :: 0 <= i < |peers| && n in peers[i].allowed
    ensures ok <==> forall i, n :: 0 <= i < |peers| && n in peers[i].allowed && n != local ==> n in installed
    ensures !ok ==> exists i, n :: 0 <= i < |peers| && n in peers[i].allowed && n != local && !install(n)
  {
    installed := [];
    for i := 0 to |peers|
      invariant forall a, b :: 0 <= a < b < |installed| ==> installed[a] != installed[b]
      invariant forall n :: n in installed ==> n != local && install(n) && exists p :: 0 <= p < |peers| && n in peers[p].allowed
      invariant forall p, n :: 0 <= p < i && n in peers[p].allowed && n != local ==> n in installed
    {
      var nets := peers[i].allowed;
      for k := 0 to |nets|
        invariant forall a, b :: 0 <= a < b < |installed| ==> installed[a] != installed[b]
        invariant forall n :: n in installed ==> n != local && install(n) && exists p :: 0 <= p < |peers| && n in peers[p].allowed
        invariant forall p, n :: 0 <= p < i && n in peers[p].allowed && n != local ==> n in installed
        invariant forall n :: n in nets[..k] && n != local ==> n in installed
      {
        var route := nets[k];
        if route != local && route !in installed {
          if !install(route) {
            assert route in peers[i].allowed && route != local && !install(route);
            return installed, false;
          }
          installed := installed + [route];
        }
      }
      assert nets[..|nets|] == nets;
    }
    ok := true;
  }
}
