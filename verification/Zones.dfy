/** Reverse zones (internal/hostdns/hostdns.go:129-176), measured against the names that
    section 3.5 of RFC 1035 and section 2.5 of RFC 3596 give to addresses. */
module Zones {
  import opened Text
  import opened Bits
  import opened Addresses

  function Reversed<T>(s: seq<T>): (r: seq<T>)
    ensures |r| == |s| && forall i :: 0 <= i < |s| ==> r[i] == s[|s| - 1 - i]
  {
    seq(|s|, i requires 0 <= i < |s| => s[|s| - 1 - i])
  }

  // ---- labels ----

  /** Bits per label. */
  function Unit(fam: Family): (u: nat)
    ensures u == 8 || u == 4
  {
    match fam
    case V4 => 8
    case V6 => 4
  }

  /** Labels in a full reverse name. */
  function Count(fam: Family): nat {
    match fam
    case V4 => 4
    case V6 => 32
  }

  function HexChar(n: nat): char
    requires n < 16
  {
    if n < 10 then ('0' as int + n) as char else ('a' as int + n - 10) as char
  }

  function Label(fam: Family, g: nat): string
    requires g < Pow2(Unit(fam))
  {
    match fam
    case V4 => Itoa(g)
    case V6 => assert Pow2(4) == 16; [HexChar(g)]
  }

  function LabelValue(fam: Family, text: string): nat {
    match fam
    case V4 => if AllDigits(text) then Atoi(text) else 0
    case V6 =>
      if |text| != 1 then 0
      else if IsDigit(text[0]) then text[0] as int - '0' as int
      else if 'a' <= text[0] <= 'f' then text[0] as int - 'a' as int + 10
      else 0
  }

  lemma LabelReads(fam: Family, g: nat)
    requires g < Pow2(Unit(fam))
    ensures LabelValue(fam, Label(fam, g)) == g
    ensures Label(fam, g) != "" && Free(Label(fam, g), '.')
  {
    match fam
    case V4 =>
      AtoiItoa(g);
      DigitsFree(Itoa(g), '.');
    case V6 => assert Pow2(4) == 16;
  }

  function Labels(fam: Family, gs: seq<nat>): (ls: seq<string>)
    requires forall i :: 0 <= i < |gs| ==> gs[i] < Pow2(Unit(fam))
    ensures |ls| == |gs|
  {
    seq(|gs|, i requires 0 <= i < |gs| => Label(fam, gs[i]))
  }

  function Suffix(fam: Family): seq<string> {
    match fam
    case V4 => ["in-addr", "arpa"]
    case V6 => ["ip6", "arpa"]
  }

  /** The reverse lookup name of an address: all its octets or nibbles, last one first. */
  function PtrLabels(a: Addr): seq<string> {
    Reversed(Labels(a.fam, Groups(a.val, 0, Unit(a.fam), Count(a.fam)))) + Suffix(a.fam)
  }

  function PtrName(a: Addr): string {
    Join(PtrLabels(a), '.')
  }

  // ---- the zone of a prefix ----

  /** Labels used for a prefix: its length rounded up to whole octets or nibbles. */
  function Used(p: Prefix): (c: nat)
    requires p.Valid()
    ensures c <= Count(p.addr.fam)
    ensures p.bits <= Span(Unit(p.addr.fam), c) < p.bits + Unit(p.addr.fam)
  {
    match p.addr.fam
    case V4 => (p.bits + 7) / 8
    case V6 => (p.bits + 3) / 4
  }

  /** The prefix the zone names: the masked network, rounded up to whole labels. */
  function RoundUp(p: Prefix): (r: Prefix)
    requires p.Valid()
    ensures r.Valid() && r.addr.fam == p.addr.fam
  {
    Prefix(p.Masked().addr, Span(Unit(p.addr.fam), Used(p)))
  }

  function ZoneGroups(p: Prefix): (gs: seq<nat>)
    requires p.Valid()
    ensures |gs| == Used(p) && forall i :: 0 <= i < |gs| ==> gs[i] < Pow2(Unit(p.addr.fam))
  {
    Groups(p.Masked().addr.val, RoundUp(p).HostBits(), Unit(p.addr.fam), Used(p))
  }

  /** A zone of length 0 comes out with an empty first label. */
  function ZoneLabels(p: Prefix): seq<string>
    requires p.Valid()
  {
    (if Used(p) == 0 then [""] else Reversed(Labels(p.addr.fam, ZoneGroups(p)))) + Suffix(p.addr.fam)
  }

  function ZoneText(p: Prefix): string
    requires p.Valid()
  {
    Join(ZoneLabels(p), '.')
  }

  /** The masked network is an IPv4 address written as IPv6 (::ffff:a.b.c.d). */
  predicate IsMapped(p: Prefix)
    requires p.Valid()
  {
    p.addr.fam == V6 && Top(p.Masked().addr.val, 32) == 0xffff
  }

  datatype ZoneResult = Zone(text: string) | BadAddress | IndexPanic

  lemma EvenAbove(t: nat, k: nat)
    requires k > 32
    ensures Top(Shl(t, k), 32) % 2 == 0
  {
    ShlShl(t, k - 32, 32);
    TopShl(Shl(t, k - 32), 32);
  }

  /** A mapped network keeps its IPv6 length, which is at least 96. */
  lemma MappedIsLong(p: Prefix)
    requires p.Valid() && IsMapped(p)
    ensures p.bits >= 96
  {
    if p.bits < 96 {
      EvenAbove(Top(p.addr.val, p.HostBits()), p.HostBits());
    }
  }

  /** Byte i of the 16-byte form. */
  function As16(val: nat, i: nat): nat
    requires i < 16
  {
    Group(val, 8 * (15 - i), 8)
  }

  /** Nibble i of the byte form is group i of the nibble form. */
  lemma NibbleOfByte(val: nat, i: nat)
    requires i < 32
    ensures var b := As16(val, i / 2);
            (if i % 2 == 0 then Top(b, 4) else Low(b, 4)) == Group(val, 4 * (31 - i), 4) < 16
  {
    var k := 8 * (15 - i / 2);
    Pow2Values();
    TopTop(val, k, k + 4);
    TopOfLow(Top(val, k), 4, 4);
    hide Pow2, Top, Low;
    if i % 2 == 0 {
      assert 4 * (31 - i) == k + 4;
    } else {
      assert 4 * (31 - i) == k;
    }
  }

  function OctetLabels(val: nat, c: nat): (ls: seq<string>)
    requires c <= 4
    ensures |ls| == c
  {
    Labels(V4, Groups(val, 32 - 8 * c, 8, c))
  }

  lemma OctetLabel(val: nat, c: nat, i: nat)
    requires i < c <= 4
    ensures OctetLabels(val, c)[i] == Itoa(As4(val, i))
  {
    GroupAt(val, 32 - 8 * c, 8, c, i);
    assert 32 - 8 * c + 8 * (c - 1 - i) == 8 * (3 - i);
    hide Groups, Itoa;
  }

  function NibbleLabels(val: nat, c: nat): (ls: seq<string>)
    requires c <= 32
    ensures |ls| == c
  {
    Labels(V6, Groups(val, 128 - 4 * c, 4, c))
  }

  lemma NibbleLabel(val: nat, c: nat, i: nat)
    requires i < c <= 32
    ensures var b := As16(val, i / 2);
            var n := if i % 2 == 0 then Top(b, 4) else Low(b, 4);
            n < 16 && NibbleLabels(val, c)[i] == [HexChar(n)]
  {
    GroupAt(val, 128 - 4 * c, 4, c, i);
    assert 128 - 4 * c + 4 * (c - 1 - i) == 4 * (31 - i);
    NibbleOfByte(val, i);
    hide Groups, As16, HexChar, Group, Top, Low;
  }

  /** Octet labels from the last used octet to the first; beyond the fourth there is none. */
  method OctetParts(val: nat, octetsToUse: nat) returns (parts: Option<seq<string>>)
    ensures parts == if octetsToUse > 4 then None
                     else Some(Reversed(OctetLabels(val, octetsToUse)))
  {
    var out: seq<string> := [];
    var i := octetsToUse - 1;
    while i >= 0
      invariant -1 <= i < octetsToUse && |out| == octetsToUse - 1 - i
      invariant octetsToUse > 4 ==> i == octetsToUse - 1
      invariant octetsToUse <= 4 ==> out == Reversed(OctetLabels(val, octetsToUse))[..|out|]
    {
      hide OctetLabels, As4, Itoa;
      if i >= 4 {
        return None;
      }
      OctetLabel(val, octetsToUse, i);
      out := out + [Itoa(As4(val, i))];
      i := i - 1;
    }
    assert octetsToUse <= 4 ==> out == Reversed(OctetLabels(val, octetsToUse));
    return Some(out);
  }

  /** Nibble labels from the last used nibble to the first. */
  method NibbleParts(val: nat, nibblesToUse: nat) returns (parts: seq<string>)
    requires nibblesToUse <= 32
    ensures parts == Reversed(NibbleLabels(val, nibblesToUse))
  {
    hide NibbleLabels, As16, HexChar, Top, Low, Pow2, Group;
    parts := [];
    var i := nibblesToUse - 1;
    while i >= 0
      invariant -1 <= i < nibblesToUse && |parts| == nibblesToUse - 1 - i
      invariant parts == Reversed(NibbleLabels(val, nibblesToUse))[..|parts|]
    {
      var b := As16(val, i / 2);
      NibbleLabel(val, nibblesToUse, i);
      if i % 2 == 0 {
        b := Top(b, 4);
      } else {
        b := Low(b, 4);
      }
      parts := parts + [[HexChar(b)]];
      i := i - 1;
    }
  }

  method ReverseZone(s: PeerAddr) returns (r: ZoneResult)
    requires ValidPeer(s)
    ensures r == ZoneOf(s)
  {
    var pfx;
    match s {
      case Cidr(p) => pfx := p;
      case Bare(a) => pfx := Prefix(a, DefaultBits(a.fam)).Masked();
      case _ => return BadAddress;
    }
    SameNetwork(s);
    hide ParseAddr, ZoneText, IsMapped;
    r := ZoneOfPrefix(pfx);
  }

  method ZoneOfPrefix(pfx: Prefix) returns (r: ZoneResult)
    requires pfx.Valid()
    ensures r == if IsMapped(pfx) then IndexPanic else Zone(ZoneText(pfx))
  {
    LabelsUsed(pfx);
    if IsMapped(pfx) { MappedIsLong(pfx); }
    hide Labels, Reversed, ZoneText, ZoneGroups, OctetLabels, NibbleLabels, Pow2, Clear, Shl, Top, Low, Join;
    var net := pfx.Masked().addr;
    var bits := pfx.bits;
    var mapped := net.fam == V6 && Top(net.val, 32) == 0xffff;
    assert mapped <==> IsMapped(pfx);
    hide IsMapped;
    if net.fam == V4 || mapped {
      var parts := OctetParts(if mapped then Low(net.val, 32) else net.val, (bits + 7) / 8);
      if parts.None? {
        return IndexPanic;
      }
      DottedSuffix(pfx, parts.value);
      return Zone(Join(parts.value, '.') + ".in-addr.arpa");
    }
    var parts := NibbleParts(net.val, (bits + 3) / 4);
    DottedSuffix(pfx, parts);
    return Zone(Join(parts, '.') + ".ip6.arpa");
  }

  lemma LabelsUsed(p: Prefix)
    requires p.Valid()
    ensures p.addr.fam == V4 ==> Labels(V4, ZoneGroups(p)) == OctetLabels(p.Masked().addr.val, (p.bits + 7) / 8)
    ensures p.addr.fam == V6 ==> Labels(V6, ZoneGroups(p)) == NibbleLabels(p.Masked().addr.val, (p.bits + 3) / 4)
  {
  }

  /** The zone is that of the network which the preflight takes the address to claim; a mapped
      network indexes past the four octets. */
  function ZoneOf(s: PeerAddr): ZoneResult
    requires ValidPeer(s)
  {
    match ParseAddr(s)
    case None => BadAddress
    case Some(net) => if IsMapped(net) then IndexPanic else Zone(ZoneText(net))
  }

  lemma SameNetwork(s: PeerAddr)
    requires ValidPeer(s) && (s.Cidr? || s.Bare?)
    ensures var pfx := if s.Cidr? then s.prefix else Prefix(s.addr, DefaultBits(s.addr.fam)).Masked();
            && pfx.Valid() && ParseAddr(s) == Some(pfx.Masked())
            && ZoneText(pfx) == ZoneText(pfx.Masked()) && (IsMapped(pfx) <==> IsMapped(pfx.Masked()))
  {
    hide Pow2, Clear, Top, Join, Labels, Groups, Reversed, Suffix;
    var pfx := if s.Cidr? then s.prefix else Prefix(s.addr, DefaultBits(s.addr.fam)).Masked();
    MaskedTwice(pfx);
  }

  lemma DottedSuffix(p: Prefix, parts: seq<string>)
    requires p.Valid() && parts == Reversed(Labels(p.addr.fam, ZoneGroups(p)))
    ensures Join(parts, '.') + (if p.addr.fam == V4 then ".in-addr.arpa" else ".ip6.arpa") == ZoneText(p)
  {
    var suffix := Suffix(p.addr.fam);
    var head := if Used(p) == 0 then [""] else parts;
    SuffixText(p.addr.fam);
    assert Join([""], '.') == "" && Join([], '.') == "";
    assert ZoneLabels(p) == head + suffix;
    assert Used(p) == 0 ==> parts == [];
    hide *;
    JoinAppend(head, suffix, '.');
    ZoneTextJoins(p);
  }

  lemma ZoneTextJoins(p: Prefix)
    requires p.Valid()
    ensures ZoneText(p) == Join(ZoneLabels(p), '.')
  {
  }

  lemma SuffixText(fam: Family)
    ensures Suffix(fam) != []
    ensures ['.'] + Join(Suffix(fam), '.') == if fam == V4 then ".in-addr.arpa" else ".ip6.arpa"
  {
    var suffix := Suffix(fam);
    assert suffix[1..] == ["arpa"] && Join(["arpa"], '.') == "arpa";
  }
}
