/** The peer list a node is sent: one peer per owning master, carrying the overlays it owns. */
module PeerList {
  import opened Text
  import opened LedgerModel
  import R = RegistryModel

  const KEEPALIVE_SECS := 25

  datatype Peer = Peer(
    name: string,
    overlayIP: string,
    pubkey: R.Bytes,
    endpointHost: string,
    allowedIPs: seq<string>,
    keepaliveSecs: int,
    protocol: string)

  function HostRoute(ip: string): string {
    ip + "/32"
  }

  /** The subject never routes its own overlay to somebody else. */
  predicate IsRemote(e: Entry, subjectOverlay: string) {
    !(subjectOverlay != "" && e.overlayIP == subjectOverlay)
  }

  /** The owners of remote entries, each once, in the order in which they first appear. */
  function Owners(s: seq<Entry>, subject: string): seq<string> {
    if s == [] then []
    else
      var before, e := Owners(s[..|s| - 1], subject), s[|s| - 1];
      if IsRemote(e, subject) && e.owner !in before then before + [e.owner] else before
  }

  function AllowedOf(s: seq<Entry>, subject: string, master: string): seq<string> {
    if s == [] then []
    else
      var e := s[|s| - 1];
      AllowedOf(s[..|s| - 1], subject, master)
      + if IsRemote(e, subject) && e.owner == master then [HostRoute(e.overlayIP)] else []
  }

  function FirstOverlay(s: seq<Entry>, subject: string, master: string): string {
    if s == [] then ""
    else if AllowedOf(s[..|s| - 1], subject, master) != [] then FirstOverlay(s[..|s| - 1], subject, master)
    else if IsRemote(s[|s| - 1], subject) && s[|s| - 1].owner == master then s[|s| - 1].overlayIP
    else ""
  }

  function PeerFor(r: R.Registry, s: seq<Entry>, subject: string, master: string): Peer {
    var bare := Peer(master, FirstOverlay(s, subject, master), "", "", AllowedOf(s, subject, master), 0, "");
    if master !in r.byName then bare
    else
      var n := r.byName[master];
      bare.(overlayIP := if n.overlayIP != "" then n.overlayIP else bare.overlayIP,
            pubkey := n.pubkey, endpointHost := n.endpointHost, keepaliveSecs := KEEPALIVE_SECS, protocol := n.protocol)
  }

  function PeersFor(r: R.Registry, s: seq<Entry>, subject: string): (peers: seq<Peer>)
    ensures |peers| == |Owners(s, subject)|
    ensures forall i :: 0 <= i < |peers| ==> peers[i] == PeerFor(r, s, subject, Owners(s, subject)[i])
  {
    var order := Owners(s, subject);
    seq(|order|, i requires 0 <= i < |order| => PeerFor(r, s, subject, order[i]))
  }

  function SubjectOverlay(r: R.Registry, subject: string): string {
    if subject in r.byName then r.byName[subject].overlayIP else ""
  }

  datatype Agg = Agg(allowedIPs: seq<string>, overlayIP: string)

  lemma {:induction false} OwnersHaveRoutes(s: seq<Entry>, subject: string, m: string)
    ensures m in Owners(s, subject) <==> AllowedOf(s, subject, m) != []
  {
    if s != [] {
      OwnersHaveRoutes(s[..|s| - 1], subject, m);
    }
  }

  /** Step one: the remote overlays of each master, in first-seen order. */
  method GroupByMaster(snapshot: seq<Entry>, own: string) returns (byMaster: map<string, Agg>, order: seq<string>)
    ensures order == Owners(snapshot, own)
    ensures forall m :: m in order ==> m in byMaster && byMaster[m] == Agg(AllowedOf(snapshot, own, m), FirstOverlay(snapshot, own, m))
  {
    byMaster, order := map[], [];
    for i := 0 to |snapshot|
      invariant order == Owners(snapshot[..i], own)
      invariant forall m :: m in byMaster <==> m in order
      invariant forall m :: m in byMaster ==>
        byMaster[m] == Agg(AllowedOf(snapshot[..i], own, m), FirstOverlay(snapshot[..i], own, m))
    {
      var e := snapshot[i];
      ghost var before := snapshot[..i];
      assert snapshot[..i + 1][..i] == before;
      if own != "" && e.overlayIP == own {
        continue;
      }
      OwnersHaveRoutes(before, own, e.owner);
      var agg := Agg([], e.overlayIP);
      if e.owner in byMaster {
        agg := byMaster[e.owner];
      } else {
        order := order + [e.owner];
      }
      forall m | m in byMaster && m != e.owner
        ensures FirstOverlay(snapshot[..i + 1], own, m) == FirstOverlay(before, own, m)
      {
        OwnersHaveRoutes(before, own, m);
      }
      byMaster := byMaster[e.owner := agg.(allowedIPs := agg.allowedIPs + [e.overlayIP + "/32"])];
    }
    assert snapshot[..|snapshot|] == snapshot;
  }

  /** Entry `k` is the first one that `m` owns and that is not the subject's own overlay `own`. */
  ghost predicate FirstOwned(s: seq<Entry>, own: string, m: string, k: nat) {
    && k < |s| && s[k].owner == m && (own == "" || s[k].overlayIP != own)
    && forall j :: 0 <= j < k && s[j].owner == m ==> own != "" && s[j].overlayIP == own
  }

  /** A peer carries its registry record's key, endpoint and protocol and a keepalive of 25 seconds; an unregistered
      owner has none of them. Its overlay is the recorded one or, without one, the first that it owns. */
  ghost predicate CarriesRecord(r: R.Registry, s: seq<Entry>, own: string, p: Peer) {
    && (p.name in r.byName ==>
          var n := r.byName[p.name];
          && p.pubkey == n.pubkey && p.endpointHost == n.endpointHost && p.protocol == n.protocol && p.keepaliveSecs == 25
          && (n.overlayIP != "" ==> p.overlayIP == n.overlayIP))
    && (p.name !in r.byName ==> p.pubkey == "" && p.endpointHost == "" && p.protocol == "" && p.keepaliveSecs == 0)
    && (p.name !in r.byName || r.byName[p.name].overlayIP == "" ==>
          exists k: nat :: FirstOwned(s, own, p.name, k) && p.overlayIP == s[k].overlayIP)
  }

  lemma {:induction false} FirstOverlayIs(s: seq<Entry>, own: string, m: string) returns (k: nat)
    requires m in Owners(s, own)
    ensures FirstOwned(s, own, m, k) && FirstOverlay(s, own, m) == s[k].overlayIP
  {
    OwnersHaveRoutes(s, own, m);
    var front := s[..|s| - 1];
    OwnersHaveRoutes(front, own, m);
    if m in Owners(front, own) {
      k := FirstOverlayIs(front, own, m);
    } else {
      k := |s| - 1;
      forall j | 0 <= j < k && s[j].owner == m ensures own != "" && s[j].overlayIP == own {
        NotOwnedBefore(front, own, m, j);
      }
    }
  }

  lemma {:induction false} NotOwnedBefore(s: seq<Entry>, own: string, m: string, j: nat)
    requires m !in Owners(s, own) && j < |s| && s[j].owner == m
    ensures own != "" && s[j].overlayIP == own
  {
    if j < |s| - 1 {
      NotOwnedBefore(s[..|s| - 1], own, m, j);
    }
  }

  lemma PeersCarryRecords(r: R.Registry, s: seq<Entry>, own: string, i: nat)
    requires i < |PeersFor(r, s, own)|
    ensures CarriesRecord(r, s, own, PeersFor(r, s, own)[i])
  {
    hide Owners, AllowedOf, FirstOverlay, FirstOwned;
    var m := Owners(s, own)[i];
    var k := FirstOverlayIs(s, own, m);
  }

  /** Peers stand in the order in which their owners first appear. */
  lemma {:induction false} OwnersInOrder(s: seq<Entry>, own: string, i: nat, j: nat) returns (a: nat, b: nat)
    requires i < j < |Owners(s, own)|
    ensures a < b && FirstOwned(s, own, Owners(s, own)[i], a) && FirstOwned(s, own, Owners(s, own)[j], b)
  {
    var front := s[..|s| - 1];
    var before := Owners(front, own);
    if j < |before| {
      a, b := OwnersInOrder(front, own, i, j);
    } else {
      a := FirstOverlayIs(front, own, before[i]);
      b := FirstOverlayIs(s, own, Owners(s, own)[j]);
      if b < |s| - 1 { NotOwnedBefore(front, own, Owners(s, own)[j], b); }
    }
  }

  /** Entry `k` belongs to `m`, is not the subject's own overlay, and `x` is its /32. */
  ghost predicate RouteAt(s: seq<Entry>, own: string, m: string, x: string, k: nat) {
    k < |s| && s[k].owner == m && (own == "" || s[k].overlayIP != own) && x == s[k].overlayIP + "/32"
  }

  ghost predicate ListedUnder(peers: seq<Peer>, m: string, x: string) {
    exists i :: 0 <= i < |peers| && peers[i].name == m && x in peers[i].allowedIPs
  }

  /** A route stands under a name exactly when it is the /32 of an overlay that this name owns and that is not the
      subject's own. */
  lemma RoutesExactly(r: R.Registry, s: seq<Entry>, own: string, m: string, x: string)
    ensures ListedUnder(PeersFor(r, s, own), m, x) <==> exists k: nat :: RouteAt(s, own, m, x, k)
  {
    hide Owners, AllowedOf, FirstOverlay;
    var peers := PeersFor(r, s, own);
    if ListedUnder(peers, m, x) {
      var i :| 0 <= i < |peers| && peers[i].name == m && x in peers[i].allowedIPs;
      var k := AllowedStems(s, own, m, x);
      assert RouteAt(s, own, m, x, k);
    }
    if k: nat :| RouteAt(s, own, m, x, k) {
      AllowedContains(s, own, k);
      OwnersHaveRoutes(s, own, m);
      var i :| 0 <= i < |Owners(s, own)| && Owners(s, own)[i] == m;
      assert peers[i].name == m && x in peers[i].allowedIPs;
    }
  }

  /** Step two: one peer per master, filled in from the registry. */
  method BuildPeerListUpdate(registry: R.Registry, subject: string, snapshot: seq<Entry>) returns (peers: seq<Peer>)
    ensures peers == PeersFor(registry, snapshot, SubjectOverlay(registry, subject))
    ensures var own := if subject in registry.byName then registry.byName[subject].overlayIP else "";
            forall i :: 0 <= i < |peers| ==> CarriesRecord(registry, snapshot, own, peers[i])
  {
    ghost var subjectOverlay := SubjectOverlay(registry, subject);
    forall i | 0 <= i < |PeersFor(registry, snapshot, subjectOverlay)|
      ensures CarriesRecord(registry, snapshot, subjectOverlay, PeersFor(registry, snapshot, subjectOverlay)[i])
    {
      PeersCarryRecords(registry, snapshot, subjectOverlay, i);
    }
    hide CarriesRecord;
    hide Owners, AllowedOf, FirstOverlay;
    var own := "";
    if subject in registry.byName {
      own := registry.byName[subject].overlayIP;
    }
    var byMaster, order := GroupByMaster(snapshot, own);
    peers := [];
    for i := 0 to |order|
      invariant |peers| == i
      invariant forall k :: 0 <= k < i ==> peers[k] == PeerFor(registry, snapshot, own, order[k])
    {
      assert order[i] in order;
      var agg := byMaster[order[i]];
      var p := Peer(order[i], agg.overlayIP, "", "", agg.allowedIPs, 0, "");
      if order[i] in registry.byName {
        var n := registry.byName[order[i]];
        if n.overlayIP != "" {
          p := p.(overlayIP := n.overlayIP);
        }
        p := p.(pubkey := n.pubkey, endpointHost := n.endpointHost, keepaliveSecs := KEEPALIVE_SECS, protocol := n.protocol);
      }
      peers := peers + [p];
    }
  }

  // ----- The list partitions the ledger -----

  lemma {:induction false} OwnersDistinct(s: seq<Entry>, subject: string)
    ensures forall i, j :: 0 <= i < j < |Owners(s, subject)| ==> Owners(s, subject)[i] != Owners(s, subject)[j]
  {
    if s != [] {
      OwnersDistinct(s[..|s| - 1], subject);
    }
  }

  /** `x` is the route of one remote entry that `m` owns. */
  ghost predicate RouteOf(s: seq<Entry>, subject: string, m: string, x: string, k: nat) {
    k < |s| && IsRemote(s[k], subject) && s[k].owner == m && x == HostRoute(s[k].overlayIP)
  }

  lemma {:induction false} AllowedContains(s: seq<Entry>, subject: string, k: nat)
    requires k < |s| && IsRemote(s[k], subject)
    ensures HostRoute(s[k].overlayIP) in AllowedOf(s, subject, s[k].owner)
  {
    if k < |s| - 1 {
      AllowedContains(s[..|s| - 1], subject, k);
    }
  }

  lemma {:induction false} AllowedStems(s: seq<Entry>, subject: string, m: string, x: string) returns (k: nat)
    requires x in AllowedOf(s, subject, m)
    ensures RouteOf(s, subject, m, x, k)
  {
    if x in AllowedOf(s[..|s| - 1], subject, m) {
      k := AllowedStems(s[..|s| - 1], subject, m, x);
    } else {
      k := |s| - 1;
    }
  }

  lemma {:induction false} AllowedDistinct(s: seq<Entry>, subject: string, m: string)
    requires StrictlyAscending(s)
    ensures Distinct(AllowedOf(s, subject, m))
  {
    if s != [] {
      var init, e := s[..|s| - 1], s[|s| - 1];
      AllowedDistinct(init, subject, m);
      var a := AllowedOf(init, subject, m);
      forall i | 0 <= i < |a| ensures a[i] != HostRoute(e.overlayIP) {
        var k := AllowedStems(init, subject, m, a[i]);
        LessIrreflexive(e.overlayIP);
        SameRoute(s[k].overlayIP, e.overlayIP);
      }
    }
  }

  lemma SameRoute(a: string, b: string)
    ensures HostRoute(a) == HostRoute(b) ==> a == b
  {
    assert HostRoute(a)[..|a|] == a && HostRoute(b)[..|b|] == b;
  }

  /** Every remote overlay is routed to exactly one peer, its owner, exactly once, and nothing else is
      routed: the peers have distinct names and none is empty. */
  ghost predicate Partitions(peers: seq<Peer>, s: seq<Entry>, subject: string) {
    && (forall i, j :: 0 <= i < j < |peers| ==> peers[i].name != peers[j].name)
    && (forall i :: 0 <= i < |peers| ==> peers[i].allowedIPs != [])
    && (forall i :: 0 <= i < |peers| ==> Distinct(peers[i].allowedIPs))
    && (forall i, x :: 0 <= i < |peers| && x in peers[i].allowedIPs ==> exists k: nat :: RouteOf(s, subject, peers[i].name, x, k))
    && (forall k :: 0 <= k < |s| && IsRemote(s[k], subject) ==>
          exists i :: 0 <= i < |peers| && peers[i].name == s[k].owner && HostRoute(s[k].overlayIP) in peers[i].allowedIPs)
  }

  lemma PeerListPartitions(r: R.Registry, s: seq<Entry>, subject: string)
    requires StrictlyAscending(s)
    ensures Partitions(PeersFor(r, s, subject), s, subject)
  {
    var peers, order := PeersFor(r, s, subject), Owners(s, subject);
    hide AllowedOf, Owners, FirstOverlay;
    OwnersDistinct(s, subject);
    forall i | 0 <= i < |peers|
      ensures peers[i].allowedIPs != [] && Distinct(peers[i].allowedIPs)
    {
      assert order[i] in order;
      OwnersHaveRoutes(s, subject, order[i]);
      AllowedDistinct(s, subject, order[i]);
    }
    forall i, x | 0 <= i < |peers| && x in peers[i].allowedIPs ensures exists k: nat :: RouteOf(s, subject, peers[i].name, x, k) {
      var k := AllowedStems(s, subject, order[i], x);
    }
    forall k | 0 <= k < |s| && IsRemote(s[k], subject)
      ensures exists i :: 0 <= i < |peers| && peers[i].name == s[k].owner && HostRoute(s[k].overlayIP) in peers[i].allowedIPs
    {
      AllowedContains(s, subject, k);
      OwnersHaveRoutes(s, subject, s[k].owner);
      var i :| 0 <= i < |order| && order[i] == s[k].owner;
      assert peers[i].name == s[k].owner;
    }
  }

  lemma AscendingKeys(s: seq<Entry>, k: nat, l: nat)
    requires StrictlyAscending(s) && k < |s| && l < |s| && s[k].overlayIP == s[l].overlayIP
    ensures k == l
  {
    LessIrreflexive(s[k].overlayIP);
  }

  /** No route is given to two peers. */
  lemma RoutesDisjoint(r: R.Registry, s: seq<Entry>, subject: string, i: nat, j: nat, x: string)
    requires StrictlyAscending(s)
    requires var peers := PeersFor(r, s, subject); i < |peers| && j < |peers| && x in peers[i].allowedIPs && x in peers[j].allowedIPs
    ensures i == j
  {
    hide AllowedOf, Owners, FirstOverlay;
    var order := Owners(s, subject);
    var k := AllowedStems(s, subject, order[i], x);
    var l := AllowedStems(s, subject, order[j], x);
    SameRoute(s[k].overlayIP, s[l].overlayIP);
    AscendingKeys(s, k, l);
    OwnersDistinct(s, subject);
  }

  /** No route stands at two places of the list. */
  lemma RoutesDistinct(r: R.Registry, s: seq<Entry>, subject: string, i: nat, a: nat, j: nat, b: nat)
    requires StrictlyAscending(s)
    requires var peers := PeersFor(r, s, subject);
             i < |peers| && j < |peers| && a < |peers[i].allowedIPs| && b < |peers[j].allowedIPs| && (i != j || a != b)
    ensures PeersFor(r, s, subject)[i].allowedIPs[a] != PeersFor(r, s, subject)[j].allowedIPs[b]
  {
    var peers := PeersFor(r, s, subject);
    if i == j {
      var xs := AllowedOf(s, subject, Owners(s, subject)[i]);
      AllowedDistinct(s, subject, Owners(s, subject)[i]);
      assert Distinct(xs) && xs[a] != xs[b];
    } else {
      var x := peers[i].allowedIPs[a];
      if x == peers[j].allowedIPs[b] {
        RoutesDisjoint(r, s, subject, i, j, x);
      }
    }
  }

  /** The statement for a ledger: over every subject and every ledger content, the list that is built
      from the ledger's snapshot partitions the ledger's overlays except the subject's own. */
  lemma LedgerIsPartitioned(l: Ledger, r: R.Registry, subject: string)
    requires Valid(l)
    ensures Partitions(PeersFor(r, SnapshotOf(l.entries), SubjectOverlay(r, subject)), SnapshotOf(l.entries), SubjectOverlay(r, subject))
    ensures IsSnapshot(SnapshotOf(l.entries), l.entries)
  {
    SnapshotOfIsSnapshot(l.entries);
    PeerListPartitions(r, SnapshotOf(l.entries), SubjectOverlay(r, subject));
  }
}
