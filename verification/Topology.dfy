/** Addresses and prefixes as the standard library's netip package has them. */
module Netip {
  import opened Arithmetic
  import opened Text

  /** An address is its family and its value; zones are not modelled. */
  datatype Addr = V4(n: nat) | V6(n: nat)

  function Width(a: Addr): nat {
    if a.V4? then 32 else 128
  }

  predicate IsAddr(a: Addr) {
    a.n < Pow2(Width(a))
  }

  /** The address with value `n` in the family of `a`. */
  function At(a: Addr, n: nat): Addr {
    if a.V4? then V4(n) else V6(n)
  }

  predicate SameFamily(a: Addr, b: Addr) {
    a.V4? == b.V4?
  }

  function Next(a: Addr): Option<Addr> {
    if a.n + 1 < Pow2(Width(a)) then Some(At(a, a.n + 1)) else None
  }

  /** IPv4 addresses come before IPv6 addresses. */
  predicate Below(a: Addr, b: Addr) {
    if SameFamily(a, b) then a.n < b.n else a.V4?
  }

  /** Unmaps an IPv4-mapped IPv6 address. */
  function Normalize(a: Addr): Addr {
    if a.V6? && a.n / 0x1_0000_0000 == 0xffff then V4(a.n % 0x1_0000_0000) else a
  }

  /** The 2^32 addresses from ::ffff:0:0 on are the IPv4 addresses; every other address stays itself. */
  lemma NormalizeUnmaps(n: nat)
    ensures n < 0x1_0000_0000 ==> Normalize(V6(0xffff_0000_0000 + n)) == V4(n)
    ensures !(0xffff_0000_0000 <= n < 0x1_0000_0000_0000) ==> Normalize(V6(n)) == V6(n)
    ensures Normalize(V4(n)) == V4(n)
  {
    if n < 0x1_0000_0000 {
      DivModUnique(0xffff_0000_0000 + n, 0x1_0000_0000, 0xffff, n);
    }
  }

  datatype Prefix = Prefix(addr: Addr, bits: nat)

  predicate IsPrefix(p: Prefix) {
    IsAddr(p.addr) && p.bits <= Width(p.addr)
  }

  function HostBits(p: Prefix): nat
    requires IsPrefix(p)
  {
    Width(p.addr) - p.bits
  }

  function Base(p: Prefix): nat
    requires IsPrefix(p)
  {
    Arithmetic.Masked(p.addr.n, HostBits(p))
  }

  function MaskedPrefix(p: Prefix): (r: Prefix)
    requires IsPrefix(p)
    ensures IsPrefix(r) && SameFamily(r.addr, p.addr) && r.bits == p.bits
  {
    Prefix(At(p.addr, Base(p)), p.bits)
  }

  /** The leading bits agree. */
  predicate Contains(p: Prefix, a: Addr)
    requires IsPrefix(p)
  {
    && SameFamily(p.addr, a)
    && p.addr.n / Pow2(HostBits(p)) == a.n / Pow2(HostBits(p))
  }

  /** The highest address of the prefix. */
  function Last(p: Prefix): nat
    requires IsPrefix(p)
  {
    Base(p) + Pow2(HostBits(p)) - 1
  }

  lemma ContainsIsInterval(p: Prefix, a: Addr)
    requires IsPrefix(p)
    ensures Contains(p, a) <==> SameFamily(p.addr, a) && Base(p) <= a.n <= Last(p)
  {
    hide Pow2;
    var m := Pow2(HostBits(p));
    var q := p.addr.n / m;
    assert Base(p) == m * q by { assert p.addr.n == m * q + p.addr.n % m; }
    assert a.n == m * (a.n / m) + a.n % m;
    if Base(p) <= a.n <= Last(p) {
      assert a.n == q * m + (a.n - Base(p));
      DivModUnique(a.n, m, q, a.n - Base(p));
    }
  }

  lemma {:induction false} Pow2Add(a: nat, b: nat)
    ensures Pow2(a + b) == Pow2(a) * Pow2(b)
  {
    if a > 0 {
      Pow2Add(a - 1, b);
      assert Pow2(a + b) == 2 * Pow2(a + b - 1);
    }
  }

  /** The last address of a prefix is an address. */
  lemma LastIsAddr(p: Prefix)
    requires IsPrefix(p)
    ensures Last(p) < Pow2(Width(p.addr))
  {
    var h, w := HostBits(p), Width(p.addr);
    Pow2Add(p.bits, h);
    Fits(p.addr.n, Pow2(h), Pow2(p.bits));
    assert Pow2(w) == Pow2(p.bits) * Pow2(h);
  }

  lemma Fits(n: nat, m: nat, k: nat)
    requires m > 0 && n < k * m
    ensures n - n % m + m <= k * m
  {
    var q := n / m;
    assert n == q * m + n % m;
    MulSpread(k - q, m);
    assert (k - q) * m == k * m - q * m;
    assert k <= q ==> (q - k) * m >= 0;
  }

  lemma MaskedIsSame(p: Prefix)
    requires IsPrefix(p)
    ensures Base(MaskedPrefix(p)) == Base(p)
    ensures Last(MaskedPrefix(p)) == Last(p)
  {
    hide Pow2;
    var m, n := Pow2(HostBits(p)), p.addr.n;
    var q := n / m;
    assert n == m * q + n % m;
    assert Base(p) == q * m + 0;
    DivModUnique(Base(p), m, q, 0);
  }
}

/** The last address of a prefix, by the 32-bit and by the 16-byte computation. */
module LastAddr {
  import opened Arithmetic
  import opened Netip

  function Or(x: nat, y: nat): nat {
    if x == 0 then y else if y == 0 then x
    else 2 * Or(x / 2, y / 2) + if x % 2 == 1 || y % 2 == 1 then 1 else 0
  }

  lemma OrDouble(a: nat, b: nat)
    ensures Or(2 * a, 2 * b + 1) == 2 * Or(a, b) + 1
  {
    assert 2 * a / 2 == a && (2 * b + 1) / 2 == b;
  }

  lemma OrZero(x: nat)
    ensures Or(x, 0) == x
  {
  }

  lemma {:induction false} OrMultiple(q: nat, h: nat)
    ensures Or(q * Pow2(h), Pow2(h) - 1) == q * Pow2(h) + Pow2(h) - 1
  {
    hide Or;
    if h == 0 {
      OrZero(q);
    } else {
      OrMultiple(q, h - 1);
      OrMultipleStep(q, Pow2(h - 1));
    }
  }

  lemma OrMultipleStep(q: nat, m: nat)
    requires m > 0 && Or(q * m, m - 1) == q * m + m - 1
    ensures Or(q * (2 * m), 2 * m - 1) == q * (2 * m) + 2 * m - 1
  {
    hide Or;
    OrDouble(q * m, m - 1);
    assert q * (2 * m) == 2 * (q * m);
  }

  /** A mask fills bits that are clear. */
  lemma OrMask(x: nat, h: nat)
    requires x % Pow2(h) == 0
    ensures Or(x, Pow2(h) - 1) == x + Pow2(h) - 1
  {
    hide Or, Pow2;
    OrMultiple(x / Pow2(h), h);
    assert x == x / Pow2(h) * Pow2(h);
  }

  function Value(s: seq<nat>): nat {
    if s == [] then 0 else 256 * Value(s[..|s| - 1]) + s[|s| - 1]
  }

  /** Big-endian bytes. */
  function ToBytes(n: nat, k: nat): (s: seq<nat>)
    ensures |s| == k
    ensures forall i :: 0 <= i < k ==> s[i] < 256
  {
    if k == 0 then [] else ToBytes(n / 256, k - 1) + [n % 256]
  }

  lemma Pow2Byte(h: nat)
    requires h >= 8
    ensures Pow2(h) == 256 * Pow2(h - 8)
  {
    assert Pow2(h) == 2 * Pow2(h - 1) && Pow2(h - 1) == 2 * Pow2(h - 2);
    assert Pow2(h - 2) == 2 * Pow2(h - 3) && Pow2(h - 3) == 2 * Pow2(h - 4);
    assert Pow2(h - 4) == 2 * Pow2(h - 5) && Pow2(h - 5) == 2 * Pow2(h - 6);
    assert Pow2(h - 6) == 2 * Pow2(h - 7) && Pow2(h - 7) == 2 * Pow2(h - 8);
  }

  lemma {:induction false} ValueToBytes(n: nat, k: nat)
    requires n < Pow2(8 * k)
    ensures Value(ToBytes(n, k)) == n
  {
    if k > 0 {
      Pow2Byte(8 * k);
      ValueToBytes(n / 256, k - 1);
      var s := ToBytes(n, k);
      assert s[..k - 1] == ToBytes(n / 256, k - 1);
    }
  }

  /** The bytes with their low `h` bits set. */
  function FillLow(s: seq<nat>, h: nat): (r: seq<nat>)
    requires h <= 8 * |s|
    ensures |r| == |s|
  {
    if h == 0 then s
    else if h >= 8 then FillLow(s[..|s| - 1], h - 8) + [255]
    else s[|s| - 1 := Or(s[|s| - 1], Pow2(h) - 1)]
  }

  /** Which byte is which. */
  lemma {:induction false} FillLowAt(s: seq<nat>, h: nat, i: nat)
    requires h <= 8 * |s| && i < |s|
    ensures FillLow(s, h)[i] ==
            if i >= |s| - h / 8 then 255
            else if i == |s| - h / 8 - 1 && h % 8 != 0 then Or(s[i], Pow2(h % 8) - 1)
            else s[i]
  {
    if h >= 8 && i < |s| - 1 {
      FillLowAt(s[..|s| - 1], h - 8, i);
    }
  }

  lemma DivisibleByte(v: nat, b: nat, h: nat)
    requires h >= 8 && b < 256 && (256 * v + b) % Pow2(h) == 0
    ensures b == 0 && v % Pow2(h - 8) == 0
  {
    Pow2Byte(h);
    hide Pow2;
    var m := Pow2(h - 8);
    var q := (256 * v + b) / (256 * m);
    assert 256 * v + b == (256 * m) * q;
    assert (256 * m) * q == 256 * (m * q);
    assert v == q * m + 0;
    DivModUnique(v, m, q, 0);
  }

  lemma Pow2Eight()
    ensures Pow2(8) == 256
  {
  }

  lemma DivisibleBits(v: nat, b: nat, h: nat)
    requires h < 8 && (256 * v + b) % Pow2(h) == 0
    ensures b % Pow2(h) == 0
  {
    hide Pow2;
    var m, k := Pow2(h), Pow2(8 - h);
    assert m * k == 256 by {
      Pow2Add(h, 8 - h);
      Pow2Eight();
    }
    assert 256 * v == m * (k * v) by { assert m * (k * v) == (m * k) * v; }
    ModAddMultiple(b, m, k * v);
  }

  /** Filling the clear low bits adds their whole weight. */
  lemma {:induction false} FillLowValue(s: seq<nat>, h: nat)
    requires h <= 8 * |s| && Value(s) % Pow2(h) == 0
    requires forall i :: 0 <= i < |s| ==> s[i] < 256
    ensures Value(FillLow(s, h)) == Value(s) + Pow2(h) - 1
  {
    if h > 0 {
      var front, b := s[..|s| - 1], s[|s| - 1];
      var r := FillLow(s, h);
      if h >= 8 {
        DivisibleByte(Value(front), b, h);
        FillLowValue(front, h - 8);
        assert r[..|r| - 1] == FillLow(front, h - 8);
        Pow2Byte(h);
      } else {
        DivisibleBits(Value(front), b, h);
        OrMask(b, h);
        assert r[..|r| - 1] == front;
      }
    }
  }

  method Fill16(a: array<nat>, prefixBits: nat)
    requires a.Length == 16 && prefixBits <= 128
    modifies a
    ensures a[..] == FillLow(old(a[..]), 128 - prefixBits)
  {
    hide Or, FillLow;
    ghost var was := a[..];
    ghost var h := 128 - prefixBits;
    var fullBytes := prefixBits / 8;
    var remainderBits := prefixBits % 8;
    if fullBytes < 16 {
      if remainderBits != 0 {
        a[fullBytes] := Or(a[fullBytes], Pow2(8 - remainderBits) - 1);
        fullBytes := fullBytes + 1;
      }
      ghost var start := a[..];
      for i := fullBytes to 16
        invariant forall k :: 0 <= k < fullBytes ==> a[k] == start[k]
        invariant forall k :: fullBytes <= k < i ==> a[k] == 255
      {
        a[i] := 255;
      }
    }
    forall i: nat | i < 16 ensures a[..][i] == FillLow(was, h)[i] {
      FillLowAt(was, h, i);
    }
  }

  /** The mask of a 32-bit word, its three cases as the code has them. */
  function HostMask(hostBits: nat): (m: nat)
    requires hostBits <= 32
    ensures m == Pow2(hostBits) - 1
  {
    if hostBits == 32 then assert Pow2(32) == 0x1_0000_0000 by { Pow2Word(); } 0xffff_ffff
    else if hostBits == 0 then 0
    else Pow2(hostBits) - 1
  }

  lemma Pow2Word()
    ensures Pow2(32) == 0x1_0000_0000
  {
    assert Pow2(8) == 256;
    Pow2Add(8, 8);
    Pow2Add(16, 16);
  }

  method PrefixLastAddr(p: Prefix) returns (last: Addr)
    requires IsPrefix(p)
    ensures last == At(p.addr, Last(p)) && IsAddr(last)
  {
    hide FillLow, Pow2;
    var base := Base(p);
    MaskIsMultiple(p);
    LastIsAddr(p);
    if p.addr.V4? {
      OrMask(base, HostBits(p));
      last := V4(Or(base, HostMask(32 - p.bits)));
    } else {
      ghost var bytes := ToBytes(base, 16);
      var addr16 := new nat[16](i requires 0 <= i < 16 => ToBytes(base, 16)[i]);
      assert addr16[..] == bytes;
      ValueToBytes(base, 16);
      FillLowValue(bytes, HostBits(p));
      Fill16(addr16, p.bits);
      last := V6(Value(addr16[..]));
    }
  }

  lemma MaskIsMultiple(p: Prefix)
    requires IsPrefix(p)
    ensures Base(p) % Pow2(HostBits(p)) == 0
  {
    hide Pow2;
    var m, n := Pow2(HostBits(p)), p.addr.n;
    var q := n / m;
    assert n == m * q + n % m;
    DivModUnique(Base(p), m, q, 0);
  }
}

/** Named overlay ranges: their hosts, allocation and overlap. */
module Ranges {
  import opened Text
  import opened Netip
  import opened LastAddr

  datatype Range = Range(name: string, network: Prefix, balancer: Option<Addr>)

  predicate AreRanges(ranges: seq<Range>) {
    forall i :: 0 <= i < |ranges| ==> IsPrefix(ranges[i].network)
  }

  function HostRun(a: Addr, lo: nat, hi: nat): seq<Addr>
    decreases hi - lo
  {
    if lo >= hi then [] else [At(a, lo)] + HostRun(a, lo + 1, hi)
  }

  /** Every address strictly between the first and the last one, in order. */
  function Hosts(p: Prefix): seq<Addr>
    requires IsPrefix(p)
  {
    HostRun(p.addr, Base(p) + 1, Last(p))
  }

  function AllHosts(ranges: seq<Range>): seq<Addr>
    requires AreRanges(ranges)
  {
    if ranges == [] then [] else Hosts(ranges[0].network) + AllHosts(ranges[1..])
  }

  lemma {:induction false} HostRunElements(a: Addr, lo: nat, hi: nat, x: Addr)
    ensures x in HostRun(a, lo, hi) <==> SameFamily(a, x) && lo <= x.n < hi
    decreases hi - lo
  {
    if lo < hi {
      HostRunElements(a, lo + 1, hi, x);
    }
  }

  /** The usable hosts are the contained addresses other than the first and the last. */
  lemma HostsElements(p: Prefix, x: Addr)
    requires IsPrefix(p)
    ensures x in Hosts(p) <==> Contains(p, x) && x.n != Base(p) && x.n != Last(p)
  {
    HostRunElements(p.addr, Base(p) + 1, Last(p), x);
    ContainsIsInterval(p, x);
  }

  lemma {:induction false} HostRunAppend(a: Addr, lo: nat, hi: nat)
    requires lo <= hi
    ensures HostRun(a, lo, hi + 1) == HostRun(a, lo, hi) + [At(a, hi)]
    decreases hi - lo
  {
    if lo < hi {
      HostRunAppend(a, lo + 1, hi);
    }
  }

  method AvailableIPs(r: Range) returns (ips: seq<Addr>)
    requires IsPrefix(r.network)
    ensures ips == Hosts(r.network)
  {
    hide Base, Last, Arithmetic.Pow2;
    var p := r.network;
    var last := PrefixLastAddr(p);
    var first := Next(At(p.addr, Base(p)));
    ips := [];
    if first.None? || !Below(first.value, last) {
      return;
    }
    var ip := first;
    while ip.Some? && Below(ip.value, last)
      invariant ip.Some? ==> SameFamily(ip.value, last) && Base(p) + 1 <= ip.value.n <= Last(p)
      invariant ip.Some? ==> ips == HostRun(p.addr, Base(p) + 1, ip.value.n)
      invariant ip.Some?
      decreases last.n - ip.value.n
    {
      HostRunAppend(p.addr, Base(p) + 1, ip.value.n);
      ips := ips + [ip.value];
      ip := Next(ip.value);
    }
  }

  // ----- Allocation -----

  function Used(existing: seq<Option<Addr>>): set<Addr> {
    set a | a in existing && a.Some? :: Normalize(a.value)
  }

  function FirstFree(hosts: seq<Addr>, used: set<Addr>): Option<Addr> {
    if hosts == [] then None
    else if Normalize(hosts[0]) !in used then Some(Normalize(hosts[0]))
    else FirstFree(hosts[1..], used)
  }

  /** The addresses still to be handed out. */
  function Free(hosts: seq<Addr>, used: set<Addr>): set<Addr> {
    (set h | h in hosts :: Normalize(h)) - used
  }

  lemma {:induction false} FirstFreeConcat(a: seq<Addr>, b: seq<Addr>, used: set<Addr>)
    ensures FirstFree(a + b, used) == if FirstFree(a, used).Some? then FirstFree(a, used) else FirstFree(b, used)
  {
    if a == [] {
      assert a + b == b;
    } else {
      assert (a + b)[1..] == a[1..] + b;
      FirstFreeConcat(a[1..], b, used);
    }
  }

  method FirstFreeIn(p: Prefix, used: set<Addr>) returns (r: Option<Addr>)
    requires IsPrefix(p)
    ensures r == FirstFree(Hosts(p), used)
  {
    hide Base, Last, Arithmetic.Pow2, Normalize;
    var addr := Next(At(p.addr, Base(p)));
    var last := PrefixLastAddr(p);
    while addr.Some? && Below(addr.value, last)
      invariant addr.Some? ==> SameFamily(addr.value, last)
      invariant addr.Some? ==> FirstFree(Hosts(p), used) == FirstFree(HostRun(p.addr, addr.value.n, Last(p)), used)
      invariant addr.None? ==> Hosts(p) == []
      decreases if addr.Some? then last.n - addr.value.n else -1
    {
      var normalized := Normalize(addr.value);
      if normalized !in used {
        return Some(normalized);
      }
      addr := Next(addr.value);
    }
    r := None;
  }

  method AllocateIP(ranges: seq<Range>, existing: seq<Option<Addr>>) returns (r: Option<Addr>)
    requires AreRanges(ranges)
    ensures r == FirstFree(AllHosts(ranges), Used(existing))
  {
    hide Hosts, Normalize;
    var used := {};
    for i := 0 to |existing|
      invariant used == Used(existing[..i])
    {
      assert existing[..i + 1] == existing[..i] + [existing[i]];
      if existing[i].Some? {
        used := used + {Normalize(existing[i].value)};
      }
    }
    assert existing[..|existing|] == existing;
    for i := 0 to |ranges|
      invariant FirstFree(AllHosts(ranges), used) == FirstFree(AllHosts(ranges[i..]), used)
    {
      var current := ranges[i..];
      assert current[1..] == ranges[i + 1..];
      FirstFreeConcat(Hosts(ranges[i].network), AllHosts(ranges[i + 1..]), used);
      r := FirstFreeIn(ranges[i].network, used);
      if r.Some? {
        return;
      }
    }
    r := None;
  }

  /** Allocation takes the earliest host that is free, and fails exactly when none is. */
  lemma {:induction false} FirstFreeIsFirst(hosts: seq<Addr>, used: set<Addr>)
    ensures FirstFree(hosts, used).None? <==> Free(hosts, used) == {}
    ensures FirstFree(hosts, used).Some? ==>
              exists k :: 0 <= k < |hosts| && FirstFree(hosts, used).value == Normalize(hosts[k])
                          && Normalize(hosts[k]) !in used
                          && forall j :: 0 <= j < k ==> Normalize(hosts[j]) in used
  {
    if hosts != [] {
      FirstFreeIsFirst(hosts[1..], used);
      var rest := FirstFree(hosts[1..], used);
      assert Normalize(hosts[0]) !in used ==> Normalize(hosts[0]) in Free(hosts, used);
      if Normalize(hosts[0]) in used {
        assert Free(hosts, used) == Free(hosts[1..], used);
        if rest.Some? {
          var k :| 0 <= k < |hosts[1..]| && rest.value == Normalize(hosts[1..][k])
                   && Normalize(hosts[1..][k]) !in used
                   && forall j :: 0 <= j < k ==> Normalize(hosts[1..][j]) in used;
          assert forall j :: 1 <= j < k + 1 ==> hosts[j] == hosts[1..][j - 1];
          assert rest.value == Normalize(hosts[k + 1]);
        }
      } else {
        assert FirstFree(hosts, used).value == Normalize(hosts[0]);
      }
    }
  }

  /** `n` allocations in a row, each result joining the addresses in use. */
  function AllocateMany(ranges: seq<Range>, existing: seq<Option<Addr>>, n: nat): seq<Addr>
    requires AreRanges(ranges)
    decreases n
  {
    var r := FirstFree(AllHosts(ranges), Used(existing));
    if n == 0 || r.None? then []
    else [r.value] + AllocateMany(ranges, existing + [r], n - 1)
  }

  lemma NormalizeIsIdempotent(a: Addr)
    ensures Normalize(Normalize(a)) == Normalize(a)
  {
  }

  /**
   * Feeding results back yields distinct free addresses until every free host is handed out:
   * n requests get n addresses or, if fewer are left, all of them.
   */
  lemma {:induction false} AllocatesUntilExhausted(ranges: seq<Range>, existing: seq<Option<Addr>>, n: nat)
    requires AreRanges(ranges)
    ensures var got := AllocateMany(ranges, existing, n);
            var free := Free(AllHosts(ranges), Used(existing));
            && Distinct(got)
            && (set a <- got) <= free
            && |got| == if n <= |free| then n else |free|
    decreases n
  {
    hide Normalize, AllHosts, FirstFree;
    var hosts := AllHosts(ranges);
    var free := Free(hosts, Used(existing));
    FirstFreeIsFirst(hosts, Used(existing));
    var r := FirstFree(hosts, Used(existing));
    if n > 0 && r.Some? {
      TakenLeavesFree(hosts, existing, r);
      AllocatesUntilExhausted(ranges, existing + [r], n - 1);
      var rest := AllocateMany(ranges, existing + [r], n - 1);
      Prepended(r.value, rest, free);
    }
  }

  lemma TakenLeavesFree(hosts: seq<Addr>, existing: seq<Option<Addr>>, r: Option<Addr>)
    requires r.Some? && r == FirstFree(hosts, Used(existing))
    ensures r.value in Free(hosts, Used(existing))
    ensures Free(hosts, Used(existing + [r])) == Free(hosts, Used(existing)) - {r.value}
  {
    hide Normalize, FirstFree;
    FirstFreeIsFirst(hosts, Used(existing));
    var k :| 0 <= k < |hosts| && r.value == Normalize(hosts[k]) && Normalize(hosts[k]) !in Used(existing);
    NormalizeIsIdempotent(hosts[k]);
    UsedAppend(existing, r);
  }

  lemma UsedAppend(existing: seq<Option<Addr>>, r: Option<Addr>)
    requires r.Some?
    ensures Used(existing + [r]) == Used(existing) + {Normalize(r.value)}
  {
    hide Normalize;
    assert r in existing + [r];
  }

  lemma Prepended(a: Addr, rest: seq<Addr>, free: set<Addr>)
    requires a in free && Distinct(rest) && (set x <- rest) <= free - {a}
    ensures Distinct([a] + rest)
    ensures (set x <- [a] + rest) <= free
    ensures |free - {a}| == |free| - 1
  {
    forall x | x in rest ensures x in free - {a} {
      assert x in set y <- rest;
    }
  }

  // ----- Overlap and containment -----

  predicate RangesOverlap(a: Prefix, b: Prefix)
    requires IsPrefix(a) && IsPrefix(b)
  {
    var aPrefix, bPrefix := MaskedPrefix(a), MaskedPrefix(b);
    Contains(aPrefix, bPrefix.addr) || Contains(bPrefix, aPrefix.addr)
  }

  ghost predicate Share(a: Prefix, b: Prefix)
    requires IsPrefix(a) && IsPrefix(b)
  {
    exists x :: Contains(a, x) && Contains(b, x)
  }

  ghost predicate Within(a: Prefix, outer: Prefix)
    requires IsPrefix(a) && IsPrefix(outer)
  {
    forall x :: Contains(a, x) ==> Contains(outer, x)
  }

  /** The overlap test answers yes exactly when some address lies in both ranges. */
  lemma OverlapIsSharing(a: Prefix, b: Prefix)
    requires IsPrefix(a) && IsPrefix(b)
    ensures RangesOverlap(a, b) <==> Share(a, b)
  {
    hide Contains, Base, Last, Arithmetic.Pow2;
    var aPrefix, bPrefix := MaskedPrefix(a), MaskedPrefix(b);
    MaskedIsSame(a);
    MaskedIsSame(b);
    BaseBelowLast(a);
    BaseBelowLast(b);
    forall x ensures Contains(a, x) <==> SameFamily(a.addr, x) && Base(a) <= x.n <= Last(a) {
      ContainsIsInterval(a, x);
    }
    forall x ensures Contains(b, x) <==> SameFamily(b.addr, x) && Base(b) <= x.n <= Last(b) {
      ContainsIsInterval(b, x);
    }
    ContainsIsInterval(aPrefix, bPrefix.addr);
    ContainsIsInterval(bPrefix, aPrefix.addr);
    assert Contains(a, bPrefix.addr) <==> Contains(aPrefix, bPrefix.addr);
    assert Contains(b, aPrefix.addr) <==> Contains(bPrefix, aPrefix.addr);
    assert Contains(a, aPrefix.addr) && Contains(b, bPrefix.addr);
  }

  lemma BaseBelowLast(p: Prefix)
    requires IsPrefix(p)
    ensures Base(p) <= Last(p)
    ensures MaskedPrefix(p).addr == At(p.addr, Base(p))
  {
  }

  method IsRangeWithinOverlay(overlay: Prefix, candidate: Prefix) returns (ok: bool)
    requires IsPrefix(overlay) && IsPrefix(candidate)
    ensures ok <==> Within(candidate, overlay)
  {
    hide Base, Last, Contains, Arithmetic.Pow2;
    var first := MaskedPrefix(candidate).addr;
    var last := PrefixLastAddr(candidate);
    ok := Contains(overlay, first) && Contains(overlay, last);
    BaseBelowLast(candidate);
    ContainsIsInterval(candidate, first);
    ContainsIsInterval(candidate, last);
    forall x ensures Contains(candidate, x) ==> SameFamily(candidate.addr, x) && first.n <= x.n <= last.n {
      ContainsIsInterval(candidate, x);
    }
    forall x ensures Contains(overlay, x) <==> SameFamily(overlay.addr, x) && Base(overlay) <= x.n <= Last(overlay) {
      ContainsIsInterval(overlay, x);
    }
  }
}

/** The range checks of topology validation. */
module RangeValidation {
  import opened Text
  import Arithmetic
  import opened Netip
  import opened Ranges

  datatype NamedRange = NamedRange(name: string, cidr: string, balancerIP: string)

  /** The overlay section of a topology, and the address parsers it is read with. */
  datatype Overlay = Overlay(
    space: string,
    ranges: seq<NamedRange>,
    parsePrefix: string -> Option<Prefix>,
    parseAddr: string -> Option<Addr>
  )

  datatype Finding =
    | BadOverlay
    | DuplicateName(range: nat)
    | BadRange(range: nat)
    | OutsideOverlay(range: nat)
    | BalancerOutside(range: nat)
    | Overlap(i: nat, j: nat)

  ghost predicate ParsesPrefixes(o: Overlay) {
    forall s :: o.parsePrefix(s).Some? ==> IsPrefix(o.parsePrefix(s).value)
  }

  function Space(o: Overlay): (r: Option<Prefix>)
    requires ParsesPrefixes(o)
    ensures r.Some? ==> IsPrefix(r.value)
  {
    var p := o.parsePrefix(o.space);
    if p.None? then None else Some(MaskedPrefix(p.value))
  }

  function ParseRange(o: Overlay, nr: NamedRange): (r: Option<Range>)
    requires ParsesPrefixes(o)
    ensures r.Some? ==> IsPrefix(r.value.network) && (r.value.balancer.Some? <==> nr.balancerIP != "")
  {
    var p := o.parsePrefix(nr.cidr);
    if p.None? then None
    else if nr.balancerIP == "" then Some(Range(nr.name, MaskedPrefix(p.value), None))
    else
      var b := o.parseAddr(nr.balancerIP);
      if b.None? then None
      else Some(Range(nr.name, MaskedPrefix(p.value), Some(Normalize(b.value))))
  }

  /** A range parses exactly when its CIDR and, if given, its balancer do. Its network has the addresses of the CIDR,
      whatever its host bits, and its balancer is unmapped. */
  lemma ParseRangeFacts(o: Overlay, nr: NamedRange)
    requires ParsesPrefixes(o)
    ensures var p, b, r := o.parsePrefix(nr.cidr), o.parseAddr(nr.balancerIP), ParseRange(o, nr);
            && (r.Some? <==> p.Some? && (nr.balancerIP != "" ==> b.Some?))
            && (r.Some? ==>
                  && r.value.name == nr.name && r.value.network.bits == p.value.bits
                  && r.value.balancer == (if nr.balancerIP == "" then None else Some(Normalize(b.value)))
                  && forall x :: Contains(r.value.network, x) <==> Contains(p.value, x))
  {
    hide Normalize;
    var p := o.parsePrefix(nr.cidr);
    if p.Some? {
      MaskedContainsSame(p.value);
    }
  }

  lemma MaskedContainsSame(p: Prefix)
    requires IsPrefix(p)
    ensures forall x :: Contains(MaskedPrefix(p), x) <==> Contains(p, x)
  {
    hide Contains, Base, Last, Arithmetic.Pow2;
    MaskedIsSame(p);
    forall x ensures Contains(MaskedPrefix(p), x) <==> Contains(p, x) {
      ContainsIsInterval(p, x);
      ContainsIsInterval(MaskedPrefix(p), x);
    }
  }

  /** The ranges among the first `n` that parse. */
  function ValidRanges(o: Overlay, n: nat): (rs: seq<Range>)
    requires ParsesPrefixes(o) && n <= |o.ranges|
    ensures AreRanges(rs)
  {
    if n == 0 then []
    else
      var r := ParseRange(o, o.ranges[n - 1]);
      ValidRanges(o, n - 1) + if r.Some? then [r.value] else []
  }

  ghost predicate DuplicateOf(o: Overlay, i: nat, k: nat) {
    k < i < |o.ranges| && o.ranges[k].name == o.ranges[i].name
  }

  /** What each finding means. */
  ghost predicate Justified(o: Overlay, f: Finding)
    requires ParsesPrefixes(o)
  {
    match f
    case BadOverlay => Space(o).None?
    case DuplicateName(i) => exists k :: DuplicateOf(o, i, k)
    case BadRange(i) => i < |o.ranges| && ParseRange(o, o.ranges[i]).None?
    case OutsideOverlay(i) =>
      i < |o.ranges| && Space(o).Some? &&
      var r := ParseRange(o, o.ranges[i]);
      r.Some? && !Within(r.value.network, Space(o).value)
    case BalancerOutside(i) =>
      i < |o.ranges| &&
      var r := ParseRange(o, o.ranges[i]);
      r.Some? && r.value.balancer.Some? && !Contains(r.value.network, r.value.balancer.value)
    case Overlap(i, j) =>
      var rs := ValidRanges(o, |o.ranges|);
      i < j < |rs| && Share(rs[i].network, rs[j].network)
  }

  predicate AboutRange(f: Finding, i: nat) {
    !f.BadOverlay? && !f.Overlap? && f.range == i
  }

  function Names(o: Overlay, n: nat): set<string>
    requires n <= |o.ranges|
  {
    set k: nat | k < n :: o.ranges[k].name
  }

  method CheckRange(o: Overlay, i: nat, seen: set<string>) returns (found: seq<Finding>, parsed: Option<Range>)
    requires ParsesPrefixes(o) && i < |o.ranges| && seen == Names(o, i)
    ensures forall f :: f in found <==> AboutRange(f, i) && Justified(o, f)
    ensures parsed == ParseRange(o, o.ranges[i])
  {
    hide Contains, Within, ParseRange, Space;
    found := [];
    assert forall k: nat :: k < i && o.ranges[k].name == o.ranges[i].name ==> DuplicateOf(o, i, k);
    if o.ranges[i].name in seen {
      found := found + [DuplicateName(i)];
    }
    assert DuplicateName(i) in found <==> Justified(o, DuplicateName(i));
    parsed := ParseRange(o, o.ranges[i]);
    if parsed.None? {
      found := found + [BadRange(i)];
      return;
    }
    var r := parsed.value;
    if Space(o).Some? {
      var ok := IsRangeWithinOverlay(Space(o).value, r.network);
      if !ok {
        found := found + [OutsideOverlay(i)];
      }
    }
    if o.ranges[i].balancerIP != "" && !Contains(r.network, r.balancer.value) {
      found := found + [BalancerOutside(i)];
    }
  }

  method FindOverlaps(rs: seq<Range>) returns (found: seq<Finding>)
    requires AreRanges(rs)
    ensures forall f :: f in found <==>
              f.Overlap? && f.i < f.j < |rs| && Share(rs[f.i].network, rs[f.j].network)
  {
    hide Share, RangesOverlap;
    found := [];
    for i := 0 to |rs|
      invariant forall f :: f in found <==>
                  f.Overlap? && f.i < f.j < |rs| && f.i < i && Share(rs[f.i].network, rs[f.j].network)
    {
      for j := i + 1 to |rs|
        invariant forall f :: f in found <==>
                    && f.Overlap? && f.i < f.j < |rs| && (f.i < i || (f.i == i && f.j < j))
                    && Share(rs[f.i].network, rs[f.j].network)
      {
        OverlapIsSharing(rs[i].network, rs[j].network);
        if RangesOverlap(rs[i].network, rs[j].network) {
          found := found + [Overlap(i, j)];
        }
      }
    }
  }

  /** The findings are exactly the justified ones. */
  method ValidateRanges(o: Overlay) returns (findings: seq<Finding>)
    requires ParsesPrefixes(o)
    ensures forall f :: f in findings <==> Justified(o, f)
  {
    hide Justified, Share;
    findings := [];
    if Space(o).None? {
      findings := [BadOverlay];
    }
    assert Justified(o, BadOverlay) <==> Space(o).None? by { OverlayFinding(o); }
    var seen := {};
    var valid := [];
    for i := 0 to |o.ranges|
      invariant seen == Names(o, i) && valid == ValidRanges(o, i)
      invariant forall f :: f in findings <==>
                  !f.Overlap? && (f.BadOverlay? || f.range < i) && Justified(o, f)
    {
      var found, parsed := CheckRange(o, i, seen);
      findings := findings + found;
      seen := seen + {o.ranges[i].name};
      if parsed.Some? {
        valid := valid + [parsed.value];
      }
    }
    var overlaps := FindOverlaps(valid);
    forall f ensures f in findings + overlaps <==> Justified(o, f) {
      OutOfRange(o, f);
    }
    findings := findings + overlaps;
  }

  lemma OverlayFinding(o: Overlay)
    requires ParsesPrefixes(o)
    ensures Justified(o, BadOverlay) <==> Space(o).None?
  {
  }

  lemma OutOfRange(o: Overlay, f: Finding)
    requires ParsesPrefixes(o)
    ensures !f.Overlap? && !f.BadOverlay? && Justified(o, f) ==> f.range < |o.ranges|
    ensures var rs := ValidRanges(o, |o.ranges|);
            f.Overlap? ==>
              (Justified(o, f) <==> f.i < f.j < |rs| && Share(rs[f.i].network, rs[f.j].network))
  {
  }

  /** What a clean overlay section is, in terms of names and of sets of addresses. */
  ghost predicate Clean(o: Overlay)
    requires ParsesPrefixes(o)
  {
    && Space(o).Some?
    && (forall i :: 0 <= i < |o.ranges| ==> CleanRange(o, o.ranges[i]))
    && (forall i, j :: 0 <= i < j < |o.ranges| ==> o.ranges[i].name != o.ranges[j].name)
    && (forall i, j :: 0 <= i < j < |o.ranges| ==> Apart(o, o.ranges[i], o.ranges[j]))
  }

  ghost predicate CleanRange(o: Overlay, nr: NamedRange)
    requires ParsesPrefixes(o)
  {
    var r := ParseRange(o, nr);
    && r.Some?
    && (Space(o).Some? ==> Within(r.value.network, Space(o).value))
    && (r.value.balancer.Some? ==> Contains(r.value.network, r.value.balancer.value))
  }

  ghost predicate Apart(o: Overlay, a: NamedRange, b: NamedRange)
    requires ParsesPrefixes(o)
  {
    var p, q := ParseRange(o, a), ParseRange(o, b);
    p.Some? && q.Some? && !Share(p.value.network, q.value.network)
  }

  lemma {:induction false} AllValid(o: Overlay, n: nat)
    requires ParsesPrefixes(o) && n <= |o.ranges|
    requires forall i :: 0 <= i < n ==> ParseRange(o, o.ranges[i]).Some?
    ensures |ValidRanges(o, n)| == n
    ensures forall i :: 0 <= i < n ==> ValidRanges(o, n)[i] == ParseRange(o, o.ranges[i]).value
  {
    hide ParseRange;
    if n > 0 {
      AllValid(o, n - 1);
    }
  }

  lemma RangeFindings(o: Overlay, i: nat)
    requires ParsesPrefixes(o) && i < |o.ranges|
    ensures CleanRange(o, o.ranges[i]) <==>
            !Justified(o, BadRange(i)) && !Justified(o, OutsideOverlay(i)) && !Justified(o, BalancerOutside(i))
  {
    hide ParseRange, Space, Within, Contains, ValidRanges;
  }

  /**
   * No finding is reported exactly when the overlay space parses, every range parses, names are
   * distinct, every range lies inside the space, every balancer lies inside its range, and no two
   * ranges share an address.
   */
  lemma NoFindingsExactlyWhenClean(o: Overlay)
    requires ParsesPrefixes(o)
    ensures (forall f :: !Justified(o, f)) <==> Clean(o)
  {
    hide Justified, CleanRange, Apart;
    OverlayFinding(o);
    forall i: nat | i < |o.ranges|
      ensures CleanRange(o, o.ranges[i]) <==>
              !Justified(o, BadRange(i)) && !Justified(o, OutsideOverlay(i)) && !Justified(o, BalancerOutside(i))
    {
      RangeFindings(o, i);
    }
    if forall f :: !Justified(o, f) {
      NoFindingsMeansClean(o);
    } else if Clean(o) {
      var f :| Justified(o, f);
      CleanHasNone(o, f);
    }
  }

  lemma CleanRangeParses(o: Overlay, nr: NamedRange)
    requires ParsesPrefixes(o) && CleanRange(o, nr)
    ensures ParseRange(o, nr).Some?
  {
  }

  lemma NoFindingsMeansClean(o: Overlay)
    requires ParsesPrefixes(o)
    requires forall f :: !Justified(o, f)
    ensures Clean(o)
  {
    hide Justified, CleanRange, Apart, Share, ParseRange, Space;
    OverlayFinding(o);
    forall i: nat | i < |o.ranges| ensures CleanRange(o, o.ranges[i]) && ParseRange(o, o.ranges[i]).Some? {
      RangeFindings(o, i);
      CleanRangeParses(o, o.ranges[i]);
    }
    AllValid(o, |o.ranges|);
    forall i: nat, j: nat | i < j < |o.ranges|
      ensures o.ranges[i].name != o.ranges[j].name && Apart(o, o.ranges[i], o.ranges[j])
    {
      assert !Justified(o, DuplicateName(j)) && !Justified(o, Overlap(i, j));
      PairFindings(o, i, j);
    }
  }

  lemma PairFindings(o: Overlay, i: nat, j: nat)
    requires ParsesPrefixes(o) && i < j < |o.ranges|
    requires |ValidRanges(o, |o.ranges|)| == |o.ranges|
    requires forall k :: 0 <= k < |o.ranges| ==> ParseRange(o, o.ranges[k]) == Some(ValidRanges(o, |o.ranges|)[k])
    ensures !Justified(o, DuplicateName(j)) ==> o.ranges[i].name != o.ranges[j].name
    ensures Justified(o, Overlap(i, j)) <==> !Apart(o, o.ranges[i], o.ranges[j])
  {
    hide ParseRange, Space, Share;
    assert o.ranges[i].name == o.ranges[j].name ==> DuplicateOf(o, j, i);
  }

  lemma CleanHasNone(o: Overlay, f: Finding)
    requires ParsesPrefixes(o) && Clean(o)
    ensures !Justified(o, f)
  {
    hide CleanRange, Apart, Share, ParseRange, Space, Within, Contains;
    OverlayFinding(o);
    forall i: nat | i < |o.ranges| ensures ParseRange(o, o.ranges[i]).Some? {
      CleanRangeParses(o, o.ranges[i]);
    }
    AllValid(o, |o.ranges|);
    OutOfRange(o, f);
    if f.Overlap? && f.i < f.j < |o.ranges| {
      PairFindings(o, f.i, f.j);
    } else if !f.Overlap? && !f.BadOverlay? && f.range < |o.ranges| {
      RangeFindings(o, f.range);
    }
  }
}
