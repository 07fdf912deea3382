/** Addresses and prefixes as net/netip gives them to the program, with what the preflight
    and the derivation read off a reported peer address
    (internal/preflight/preflight.go:31-51, internal/hostdns/hostdns.go:101-122,
    internal/ops/ops.go:214-223). Parsing the text of an address is net/netip's business:
    its outcome is a `PeerAddr`. */
module Addresses {
  import opened Text
  import opened Specs
  import opened Bits

  datatype Family = V4 | V6

  function Width(fam: Family): nat {
    match fam
    case V4 => 32
    case V6 => 128
  }

  datatype Addr = Addr(fam: Family, val: nat)

  predicate ValidAddr(a: Addr) {
    a.val < Pow2(Width(a.fam))
  }

  /** A prefix keeps the host bits it was written with, as netip.ParsePrefix does. */
  datatype Prefix = Prefix(addr: Addr, bits: nat) {
    predicate Valid() {
      ValidAddr(addr) && bits <= Width(addr.fam)
    }

    function HostBits(): nat
      requires Valid()
    {
      Width(addr.fam) - bits
    }

    /** Prefix.Masked, also Addr.Prefix(bits) on the address. */
    function Masked(): (m: Prefix)
      requires Valid()
      ensures m.Valid() && m.bits == bits && m.addr.fam == addr.fam
    {
      ClearBound(addr.val, HostBits());
      Prefix(Addr(addr.fam, Clear(addr.val, HostBits())), bits)
    }

    /** The addresses whose leading bits are the prefix's. */
    predicate Contains(a: Addr)
      requires Valid()
    {
      a.fam == addr.fam && Top(a.val, HostBits()) == Top(addr.val, HostBits())
    }
  }

  /** Prefix.Overlaps: compare both networks cut to the shorter length. */
  predicate Overlaps(p: Prefix, q: Prefix)
    requires p.Valid() && q.Valid()
  {
    p == q ||
    (p.addr.fam == q.addr.fam &&
     var minBits := if p.bits < q.bits then p.bits else q.bits;
     minBits == 0 || Prefix(p.addr, minBits).Masked().addr == Prefix(q.addr, minBits).Masked().addr)
  }

  /** Some address lies in both. */
  ghost predicate Intersect(p: Prefix, q: Prefix)
    requires p.Valid() && q.Valid()
  {
    exists a :: ValidAddr(a) && p.Contains(a) && q.Contains(a)
  }

  /** Every address of p lies in q. */
  ghost predicate Inside(p: Prefix, q: Prefix)
    requires p.Valid() && q.Valid()
  {
    forall a :: ValidAddr(a) && p.Contains(a) ==> q.Contains(a)
  }

  lemma MaskedSameAddresses(p: Prefix, a: Addr)
    requires p.Valid()
    ensures p.Masked().Contains(a) <==> p.Contains(a)
    ensures p.Contains(p.Masked().addr)
  {
    TopClear(p.addr.val, p.HostBits());
  }

  /** Two masked networks of one length are equal exactly when the leading bits are. */
  lemma MaskedEqual(a: Addr, b: Addr, bits: nat)
    requires ValidAddr(a) && ValidAddr(b) && a.fam == b.fam && bits <= Width(a.fam)
    ensures Prefix(a, bits).Masked().addr == Prefix(b, bits).Masked().addr
            <==> Top(a.val, Width(a.fam) - bits) == Top(b.val, Width(a.fam) - bits)
  {
    var k := Width(a.fam) - bits;
    TopClear(a.val, k);
    TopClear(b.val, k);
  }

  /** Overlap in one comparison: the longer prefix's address lies in the shorter prefix. */
  lemma OverlapAtShorter(p: Prefix, q: Prefix)
    requires p.Valid() && q.Valid() && p.bits <= q.bits
    ensures Overlaps(p, q) <==> p.Contains(q.addr)
    ensures Overlaps(q, p) <==> p.Contains(q.addr)
  {
    hide Top, Clear, Pow2;
    if p.addr.fam == q.addr.fam {
      MaskedEqual(p.addr, q.addr, p.bits);
      if p.bits == 0 {
        TopZero(p.addr.val, Width(p.addr.fam));
        TopZero(q.addr.val, Width(p.addr.fam));
      }
    }
  }

  /** A shorter prefix that shares one address with a longer one contains all of it. */
  lemma ShorterContains(p: Prefix, q: Prefix, a: Addr)
    requires p.Valid() && q.Valid() && p.bits <= q.bits
    requires p.addr.fam == q.addr.fam && q.Contains(a)
    ensures p.Contains(a) <==> p.Contains(q.addr)
  {
    var k, j := q.HostBits(), p.HostBits();
    TopTop(a.val, k, j);
    TopTop(q.addr.val, k, j);
  }

  /** The bit comparison means what its name says: overlap, a common address, and one prefix
      inside the other are the same thing. */
  lemma OverlapExact(p: Prefix, q: Prefix)
    requires p.Valid() && q.Valid()
    ensures Overlaps(p, q) <==> Intersect(p, q)
    ensures Overlaps(p, q) <==> Inside(p, q) || Inside(q, p)
    ensures Overlaps(p, q) <==> Overlaps(q, p)
  {
    var s, l := if p.bits <= q.bits then p else q, if p.bits <= q.bits then q else p;
    OverlapAtShorter(s, l);
    assert l.Contains(l.addr) && s.Contains(s.addr);
    forall a | ValidAddr(a) && l.Contains(a) && s.addr.fam == l.addr.fam
      ensures s.Contains(a) <==> s.Contains(l.addr)
    {
      ShorterContains(s, l, a);
    }
    if Inside(s, l) {
      assert l.Contains(s.addr);
    }
    if s.Contains(l.addr) {
      assert Inside(l, s);
      assert Intersect(s, l);
    }
  }

  /** The address asked of the routing table for a conflict between a and b is the narrower
      network's own address (internal/ops/preflight.go:132-137). */
  function Probe(a: Prefix, b: Prefix): Prefix {
    if b.bits > a.bits then b else a
  }

  lemma ProbeInBoth(a: Prefix, b: Prefix)
    requires a.Valid() && b.Valid()
    ensures a.Contains(Probe(a, b).addr) && b.Contains(Probe(a, b).addr) <==> Overlaps(a, b)
  {
    if b.bits > a.bits { OverlapAtShorter(a, b); } else { OverlapAtShorter(b, a); }
  }

  // ---- a reported peer address ----

  /** What net/netip makes of the daemon's text: CIDR, a bare address, or neither. */
  datatype PeerAddr = Missing | Cidr(prefix: Prefix) | Bare(addr: Addr) | Garbage

  predicate ValidPeer(s: PeerAddr) {
    match s
    case Cidr(p) => p.Valid()
    case Bare(a) => ValidAddr(a)
    case _ => true
  }

  /** A bare address stands for netbird's default network size. */
  function DefaultBits(fam: Family): nat {
    match fam
    case V4 => 16
    case V6 => 64
  }

  /** The network a reported address claims (preflight.ParseAddr); an absent address does
      not parse either. */
  function ParseAddr(s: PeerAddr): (r: Option<Prefix>)
    requires ValidPeer(s)
    ensures r.Some? <==> s.Cidr? || s.Bare?
    ensures r.Some? ==>
              var (a, bits) := if s.Cidr? then (s.prefix.addr, s.prefix.bits) else (s.addr, if s.addr.fam == V4 then 16 else 64);
              r.value.Valid() && r.value.Masked() == r.value && r.value.bits == bits && r.value.Contains(a)
  {
    match s
    case Cidr(p) => MaskedTwice(p); Some(p.Masked())
    case Bare(a) => MaskedTwice(Prefix(a, DefaultBits(a.fam))); Some(Prefix(a, DefaultBits(a.fam)).Masked())
    case _ => None
  }

  lemma MaskedTwice(p: Prefix)
    requires p.Valid()
    ensures p.Masked().Masked() == p.Masked() && p.Masked().Contains(p.addr)
  {
    TopClear(p.addr.val, p.HostBits());
  }

  // ---- the in-tunnel resolver ----

  function As4(val: nat, i: nat): nat
    requires i < 4
  {
    Group(val, 8 * (3 - i), 8)
  }

  /** Big-endian octets shifted and or-ed into one word. */
  function Assemble(a0: nat, a1: nat, a2: nat, a3: nat): nat {
    Or(Or(Or(Shl(a0, 24), Shl(a1, 16)), Shl(a2, 8)), a3)
  }

  /** Four octets put back together by shifting and or-ing give the word they came from. */
  lemma Reassemble(val: nat)
    requires val < Pow2(32)
    ensures Assemble(As4(val, 0), As4(val, 1), As4(val, 2), As4(val, 3)) == val
  {
    hide Shl, Top, Low, As4, Or, Pow2;
    OctetsAboveEachOther(val);
    PutOctet(Top(val, 24), As4(val, 1), 16);
    PutOctet(Top(val, 16), As4(val, 2), 8);
    PutOctet(Top(val, 8), As4(val, 3), 0);
    NoShift(Shl(Top(val, 8), 8) + As4(val, 3));
    NoShift(As4(val, 3));
  }

  lemma NoShift(t: nat)
    ensures Shl(t, 0) == t
  {
  }

  /** Or-ing the next octet in completes the next part. */
  lemma PutOctet(q: nat, g: nat, k: nat)
    requires g < Pow2(8)
    ensures Or(Shl(q, k + 8), Shl(g, k)) == Shl(Shl(q, 8) + g, k)
  {
    ShlBound(g, k, 8);
    hide Or, Shl;
    OrDisjoint(q, k + 8, Shl(g, k));
    ShlShl(q, 8, k);
    ShlSum(Shl(q, 8), g, k);
    hide Pow2;
  }

  /** Each octet completes the part of the word above it. */
  lemma OctetsAboveEachOther(val: nat)
    requires val < Pow2(32)
    ensures Top(val, 16) == Shl(Top(val, 24), 8) + As4(val, 1)
    ensures Top(val, 8) == Shl(Top(val, 16), 8) + As4(val, 2)
    ensures val == Shl(Top(val, 8), 8) + As4(val, 3)
    ensures As4(val, 0) == Top(val, 24) && As4(val, 1) == Low(Top(val, 16), 8)
    ensures As4(val, 2) == Low(Top(val, 8), 8) && As4(val, 3) == Low(val, 8)
    ensures As4(val, 1) < Pow2(8) && As4(val, 2) < Pow2(8) && As4(val, 3) < Pow2(8)
  {
    TopTop(val, 16, 24);
    TopTop(val, 8, 16);
    TopTop(val, 24, 32);
    TopZero(val, 32);
    TopAndLow(Top(val, 24), 8);
    TopAndLow(Top(val, 16), 8);
    TopAndLow(Top(val, 8), 8);
    TopAndLow(val, 8);
    ShlOne(8);
    assert Top(val, 0) == val;
    hide Top, Low, Shl, Pow2;
  }

  const U32 := 0x1_0000_0000

  /** `v |= ^uint32(0) >> bits; v--` on a 32-bit word. */
  function BroadcastMinusOne(v: nat, bits: nat): nat {
    (Or(v, Top(U32 - 1, bits)) + U32 - 1) % U32
  }

  /** Broadcast minus one, in 32-bit arithmetic, on a peer address in CIDR form. */
  method ResolverAddr(s: PeerAddr) returns (r: Option<AddrPort>)
    requires ValidPeer(s)
    ensures r.Some? <==> s.Cidr? && s.prefix.addr.fam == V4
    ensures r.Some? ==> r.value == ResolverOf(s.prefix)
  {
    if !s.Cidr? || s.prefix.addr.fam != V4 {
      return None;
    }
    var pfx := s.prefix;
    var a := pfx.Masked().addr.val;
    var bits := pfx.bits;
    var v := Assemble(As4(a, 0), As4(a, 1), As4(a, 2), As4(a, 3));
    hide Assemble, As4, Pow2, Or, Top, ResolverOf, BroadcastMinusOne;
    assert v == a by { Reassemble(a); }
    v := BroadcastMinusOne(v, bits);
    ResolverSteps(pfx);
    return Some(AddrPort(v, 53));
  }

  /** Network plus host range minus two, reduced to 32 bits. */
  function ResolverOf(p: Prefix): AddrPort
    requires p.Valid() && p.addr.fam == V4
  {
    AddrPort((p.Masked().addr.val + Pow2(p.HostBits()) - 2 + U32) % U32, 53)
  }

  /** Or-ing the host mask in gives the last address of the network. */
  lemma LastAddress(p: Prefix)
    requires p.Valid() && p.addr.fam == V4
    ensures var net := p.Masked().addr.val;
            Or(net, Top(U32 - 1, p.bits)) == net + Pow2(p.HostBits()) - 1
  {
    hide Or, Shl, Top, Pow2;
    Pow2Values();
    OnesShifted(32, p.bits);
    OrDisjoint(Top(p.addr.val, p.HostBits()), p.HostBits(), Pow2(p.HostBits()) - 1);
  }

  lemma ResolverSteps(p: Prefix)
    requires p.Valid() && p.addr.fam == V4
    ensures BroadcastMinusOne(p.Masked().addr.val, p.bits) == ResolverOf(p).addr
  {
    LastAddress(p);
    assert p.Masked().addr.val + Pow2(p.HostBits()) - 1 + U32 - 1 == p.Masked().addr.val + Pow2(p.HostBits()) - 2 + U32;
  }

  /** The network's addresses are the numbers from the network address up to the broadcast. */
  lemma NetworkRange(p: Prefix, v: nat)
    requires p.Valid()
    ensures var net := p.Masked().addr.val;
            p.Contains(Addr(p.addr.fam, v)) <==> net <= v < net + Pow2(p.HostBits())
    ensures p.Masked().addr.val + Pow2(p.HostBits()) <= Pow2(Width(p.addr.fam))
  {
    var k, w := p.HostBits(), Width(p.addr.fam);
    TopExact(v, k, Top(p.addr.val, k));
    TopBound(p.addr.val, k, w);
    ShlBound(Top(p.addr.val, k), k, w - k);
    hide Top, Shl, Pow2;
  }

  lemma HostBitsAtLeast(k: nat, j: nat)
    requires j <= k
    ensures Pow2(k) >= Pow2(j)
    decreases k
  {
    if k > j { HostBitsAtLeast(k - 1, j); }
  }

  /** The resolver is an address of its own network exactly for prefixes up to /31; then the
      subtraction cannot wrap, and it is network + 2^(32-bits) - 2. Up to /30 it is strictly
      between the network and the broadcast address. On a /32 it falls one below the network. */
  lemma ResolverPlace(p: Prefix)
    requires p.Valid() && p.addr.fam == V4
    ensures p.Contains(Addr(V4, ResolverOf(p).addr)) <==> p.bits <= 31
    ensures p.bits <= 31 ==> ResolverOf(p).addr == p.Masked().addr.val + Pow2(32 - p.bits) - 2 < U32
    ensures p.bits <= 30 ==> p.Masked().addr.val < ResolverOf(p).addr < p.Masked().addr.val + Pow2(32 - p.bits) - 1
    ensures ResolverOf(p).port == 53
  {
    var net, size := p.Masked().addr.val, Pow2(p.HostBits());
    var r := ResolverOf(p).addr;
    NetworkRange(p, r);
    Pow2Values();
    HostBitsAtLeast(p.HostBits(), if p.bits <= 30 then 2 else if p.bits == 31 then 1 else 0);
    hide Top, Shl, Pow2, Clear;
  }

  /** Every host of one network derives the same resolver. */
  lemma ResolverSameForHosts(p: Prefix, a: Addr)
    requires p.Valid() && p.addr.fam == V4 && ValidAddr(a) && p.Contains(a)
    ensures ResolverOf(Prefix(a, p.bits)) == ResolverOf(p)
  {
  }
}
