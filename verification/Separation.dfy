/** What a clean preflight buys: separate resolvers and separate zones, and the two readings of
    "claims all DNS" compared (internal/preflight with internal/hostdns and internal/nbgrpc). */
module Separation {
  import opened Text
  import opened Bits
  import opened Addresses
  import opened Zones
  import opened ReverseNames
  import opened HostDns
  import opened Preflight
  import opened RootNames
  import DnsConflicts

  predicate AllValid(sts: seq<Status>) {
    forall i :: 0 <= i < |sts| ==> ValidStatus(sts[i])
  }

  /** What the preflight compares: the networks that the instances' IPv4 fields claim, where they
      parse. The IPv6 fields play no part. */
  function Claimed(sts: seq<Status>): (nets: seq<Net>)
    requires AllValid(sts)
    ensures Nets(nets).Valid() && |nets| <= |sts|
  {
    if sts == [] then []
    else
      var rest := Claimed(sts[..|sts| - 1]);
      match ParseAddr(sts[|sts| - 1].ip)
      case Some(p) => rest + [Net("", p)]
      case None => rest
  }

  /** Where a status's network stands among the claimed ones. */
  lemma {:induction false} ClaimedAt(sts: seq<Status>, i: nat)
    requires AllValid(sts) && i < |sts| && ParseAddr(sts[i].ip).Some?
    ensures var n, k := Claimed(sts), |Claimed(sts[..i])|;
            k < |n| && n[k].prefix == ParseAddr(sts[i].ip).value && |Claimed(sts[..i + 1])| == k + 1
    decreases |sts|
  {
    hide ParseAddr;
    var init := sts[..|sts| - 1];
    if i < |sts| - 1 {
      ClaimedAt(init, i);
      assert init[..i] == sts[..i] && init[..i + 1] == sts[..i + 1];
    } else {
      assert sts[..i + 1] == sts && sts[..i] == init;
    }
  }

  lemma {:induction false} ClaimedGrows(sts: seq<Status>, i: nat, j: nat)
    requires AllValid(sts) && i <= j <= |sts|
    ensures |Claimed(sts[..i])| <= |Claimed(sts[..j])|
    decreases j
  {
    hide ParseAddr;
    if i < j {
      ClaimedGrows(sts, i, j - 1);
      assert sts[..j][..j - 1] == sts[..j - 1];
    }
  }

  /** A peer for which the program derives a resolver that lies in its own mesh. */
  predicate HasResolver(s: PeerAddr)
    requires ValidPeer(s)
  {
    s.Cidr? && s.prefix.addr.fam == V4 && s.prefix.bits <= 31
  }

  function Resolver(s: PeerAddr): Addr
    requires ValidPeer(s) && s.Cidr? && s.prefix.addr.fam == V4
  {
    Addr(V4, ResolverOf(s.prefix).addr)
  }

  /** The preflight reports no range conflict. */
  predicate NoConflict(sts: seq<Status>)
    requires AllValid(sts)
  {
    Hits(Nets(Claimed(sts))) == []
  }

  lemma Disjoint(sts: seq<Status>, i: nat, j: nat)
    requires AllValid(sts) && NoConflict(sts) && i < |sts| && j < |sts| && i != j
    ensures ParseAddr(sts[i].ip).Some? && ParseAddr(sts[j].ip).Some? ==>
              !Overlaps(ParseAddr(sts[i].ip).value, ParseAddr(sts[j].ip).value)
  {
    hide Hits, Overlaps, ParseAddr, Claimed;
    if ParseAddr(sts[i].ip).Some? && ParseAddr(sts[j].ip).Some? {
      var b := Nets(Claimed(sts));
      NoHits(b);
      var lo, hi := if i < j then i else j, if i < j then j else i;
      ClaimedAt(sts, lo);
      ClaimedAt(sts, hi);
      ClaimedGrows(sts, lo + 1, hi);
      assert !b.Hit(|Claimed(sts[..lo])|, |Claimed(sts[..hi])|);
      OverlapExact(ParseAddr(sts[i].ip).value, ParseAddr(sts[j].ip).value);
    }
  }

  /** If the preflight reports no range conflict, every resolver lies in its own mesh and in no
      other, so no two are equal. */
  lemma NoConflictSeparates(sts: seq<Status>, i: nat, j: nat)
    requires AllValid(sts) && NoConflict(sts) && i < |sts| && j < |sts|
    ensures HasResolver(sts[i].ip) && ParseAddr(sts[j].ip).Some? ==>
              (ParseAddr(sts[j].ip).value.Contains(Resolver(sts[i].ip)) <==> i == j)
    ensures i != j && HasResolver(sts[i].ip) && HasResolver(sts[j].ip) ==> Resolver(sts[i].ip) != Resolver(sts[j].ip)
  {
    hide ParseAddr, ResolverOf, Overlaps, NoConflict;
    if i != j { Disjoint(sts, i, j); }
    if HasResolver(sts[i].ip) { ResolverInside(sts[i].ip); }
    if HasResolver(sts[j].ip) { ResolverInside(sts[j].ip); }
    if ParseAddr(sts[i].ip).Some? && ParseAddr(sts[j].ip).Some? {
      OverlapExact(ParseAddr(sts[i].ip).value, ParseAddr(sts[j].ip).value);
    }
  }

  // ---- the zones ----

  /** A derivation registers a zone for each of the two addresses in a status. */
  datatype Source = FromIp | FromIpv6

  function Field(st: Status, source: Source): PeerAddr {
    if source == FromIp then st.ip else st.ipv6
  }

  predicate Registers(st: Status, source: Source)
    requires ValidStatus(st)
  {
    ZoneOf(Field(st, source)).Zone?
  }

  function RegisteredZone(st: Status, source: Source): string
    requires ValidStatus(st) && Registers(st, source)
  {
    ZoneOf(Field(st, source)).text
  }

  /** The network behind a registered zone. */
  function Network(st: Status, source: Source): (p: Prefix)
    requires ValidStatus(st) && Registers(st, source)
    ensures p.Valid() && RegisteredZone(st, source) == ZoneText(p)
  {
    ParseAddr(Field(st, source)).value
  }

  lemma ZonesAreMatched(st: Status, source: Source)
    requires ValidStatus(st) && Registers(st, source)
    ensures Derived(st).Ok? ==> RegisteredZone(st, source) in Derived(st).value.matchDomains
  {
    hide Derived, ZoneOf, PeerDomain, FromGroup;
    DeriveMatches(st, RegisteredZone(st, source));
  }

  /** The field for the IPv6 address holds one, if anything that parses. */
  predicate ProperIpv6(st: Status)
    requires ValidStatus(st)
  {
    ParseAddr(st.ipv6).Some? ==> ParseAddr(st.ipv6).value.addr.fam == V6
  }

  /** When a zone that one derivation registers equals or lies under a zone that another one
      registers, although the preflight reports no range conflict: exactly when their networks
      nest, which then is never a matter of the two IPv4 fields, and with proper IPv6 fields only
      of the two IPv6 fields. */
  lemma ZonesMeetExactly(sts: seq<Status>, i: nat, a: Source, j: nat, b: Source)
    requires AllValid(sts) && NoConflict(sts) && i < |sts| && j < |sts| && i != j
    requires Derived(sts[i]).Ok? && Derived(sts[j]).Ok? && Registers(sts[i], a) && Registers(sts[j], b)
    ensures Under(RegisteredZone(sts[i], a), RegisteredZone(sts[j], b)) <==>
            !(a.FromIp? && b.FromIp?) && Nests(Network(sts[i], a), Network(sts[j], b))
    ensures Under(RegisteredZone(sts[i], a), RegisteredZone(sts[j], b)) && ProperIpv6(sts[i]) && ProperIpv6(sts[j]) ==>
            a.FromIpv6? && b.FromIpv6?
  {
    hide Under, ZoneText, Nests, NoConflict, Overlaps, ParseAddr, IsMapped, Registers, Network, RegisteredZone, Derived;
    var p, q := Network(sts[i], a), Network(sts[j], b);
    NestedZones(p, q);
    NestsSameFamily(p, q);
    NetworkOf(sts[i], a);
    NetworkOf(sts[j], b);
    Disjoint(sts, i, j);
    SeparateZones(p, q);
  }

  /** The IPv4 field of a status that derives holds an IPv4 network. */
  lemma NetworkOf(st: Status, source: Source)
    requires ValidStatus(st) && Derived(st).Ok? && Registers(st, source)
    ensures ParseAddr(Field(st, source)) == Some(Network(st, source))
    ensures source.FromIp? ==> Network(st, source).addr.fam == V4
  {
    hide Refused, MatchSet, ZoneText, IsMapped, ResolverOf, PeerDomain, SortedOf;
  }

  /** fd00::/64, on which any number of meshes may be numbered. */
  const SIX: PeerAddr := Cidr(Prefix(Addr(V6, Shl(0xfd00, 112)), 64))

  /** Another IPv4 mesh beside `MESH`, 10.1.0.1/16. */
  const OTHER: PeerAddr := Cidr(Prefix(Addr(V4, 0x0a01_0001), 16))

  lemma SixIsValid()
    ensures ValidPeer(SIX) && ZoneOf(SIX).Zone?
  {
    hide Pow2, Shl, Top, Clear, ZoneText, IsMapped;
    SixFits();
    var m := ParseAddr(SIX).value;
    if IsMapped(m) { MappedIsLong(m); }
  }

  lemma SixFits()
    ensures Shl(0xfd00, 112) < Pow2(128)
  {
    hide Pow2, Shl;
    Pow2Values();
    ShlBound(0xfd00, 112, 16);
  }

  lemma MeshesDisjoint()
    ensures ValidPeer(MESH) && ValidPeer(OTHER) && ParseAddr(MESH).Some? && ParseAddr(OTHER).Some?
    ensures !Overlaps(ParseAddr(MESH).value, ParseAddr(OTHER).value)
  {
    Pow2Values();
    hide Pow2, Top, Shl, Overlaps;
    var p, q := Prefix(Addr(V4, 0x0a00_0001), 16), Prefix(Addr(V4, 0x0a01_0001), 16);
    DropByte(0x0a00_0001, 0x0a_0000);
    DropByte(0x0a_0000, 0x0a00);
    TopTop(0x0a00_0001, 8, 16);
    DropByte(0x0a01_0001, 0x0a_0100);
    DropByte(0x0a_0100, 0x0a01);
    TopTop(0x0a01_0001, 8, 16);
    TopClear(0x0a00_0001, 16);
    TopClear(0x0a01_0001, 16);
    hide Clear;
    OverlapAtShorter(ParseAddr(MESH).value, ParseAddr(OTHER).value);
  }

  /** It happens: two meshes whose IPv4 ranges do not overlap, both on fd00::/64. The preflight
      reports nothing, both derivations succeed, and both register the same zone. */
  lemma SharedIpv6ZoneGoesUnseen()
    ensures var a, b := Status(MESH, SIX, "", []), Status(OTHER, SIX, "", []);
            && AllValid([a, b]) && NoConflict([a, b])
            && Derived(a).Ok? && Derived(b).Ok?
            && ZoneOf(SIX).Zone? && ZoneOf(SIX).text in Derived(a).value.matchDomains && ZoneOf(SIX).text in Derived(b).value.matchDomains
  {
    hide ZoneOf, Overlaps, ParseAddr, Derived, Pow2, NoConflict;
    var a, b := Status(MESH, SIX, "", []), Status(OTHER, SIX, "", []);
    MeshesDisjoint();
    SixIsValid();
    TwoClaims(a, b);
    PlainDerives(MESH);
    PlainDerives(OTHER);
    ZonesAreMatched(a, FromIpv6);
    ZonesAreMatched(b, FromIpv6);
  }

  lemma PlainDerives(ip: PeerAddr)
    requires ValidPeer(ip) && ip.Cidr? && ip.prefix.addr.fam == V4 && ValidPeer(SIX) && ZoneOf(SIX).Zone?
    ensures Derived(Status(ip, SIX, "", [])).Ok?
  {
    hide ZoneOf, PeerDomain, ResolverOf, MatchSet, SortedOf;
    assert !Refused([]);
  }

  lemma TwoClaims(a: Status, b: Status)
    requires ValidStatus(a) && ValidStatus(b) && ParseAddr(a.ip).Some? && ParseAddr(b.ip).Some?
    requires !Overlaps(ParseAddr(a.ip).value, ParseAddr(b.ip).value)
    ensures AllValid([a, b]) && NoConflict([a, b])
  {
    hide Overlaps, ParseAddr, Hits, Claimed;
    var nets := Claimed([a, b]);
    TwoNets(a, b);
    NoHits(Nets(nets));
    forall i, j | 0 <= i < j < |nets| ensures !Nets(nets).Hit(i, j) {
      assert i == 0 && j == 1;
    }
  }

  lemma TwoNets(a: Status, b: Status)
    requires ValidStatus(a) && ValidStatus(b) && ParseAddr(a.ip).Some? && ParseAddr(b.ip).Some?
    ensures Claimed([a, b]) == [Net("", ParseAddr(a.ip).value), Net("", ParseAddr(b.ip).value)]
  {
    hide ParseAddr;
    assert [a, b][..1] == [a] && [a][..0] == [];
    assert Claimed([]) == [];
    assert Claimed([a]) == [Net("", ParseAddr(a.ip).value)];
  }

  lemma ResolverInside(s: PeerAddr)
    requires ValidPeer(s) && HasResolver(s)
    ensures ParseAddr(s).Some? && ParseAddr(s).value.Contains(Resolver(s)) && ValidAddr(Resolver(s))
  {
    ResolverPlace(s.prefix);
    MaskedSameAddresses(s.prefix, Resolver(s));
    Pow2Values();
  }

  /** Why /32 is set apart: two single-address meshes that do not overlap, the resolver of one
      being the address of the other. */
  lemma HostRouteStrays()
    ensures var a, b := Prefix(Addr(V4, 1), 32), Prefix(Addr(V4, 0), 32);
            a.Valid() && b.Valid() && !Overlaps(a, b) && b.Contains(Addr(V4, ResolverOf(a).addr)) && !a.Contains(Addr(V4, ResolverOf(a).addr))
  {
    var a, b := Prefix(Addr(V4, 1), 32), Prefix(Addr(V4, 0), 32);
    Pow2Values();
    assert Pow2(0) == 1;
    ResolverPlace(a);
    assert a.Masked().addr.val == 1;
    assert ResolverOf(a).addr == 0;
    OverlapAtShorter(a, b);
  }

  // ---- two readings of "claims all DNS" ----

  /** The domains of all enabled groups, flattened (nbgrpc.DNSDomains). */
  function EnabledDomains(groups: seq<NSGroup>): seq<string> {
    if groups == [] then []
    else EnabledDomains(groups[..|groups| - 1]) + (if groups[|groups| - 1].enabled then groups[|groups| - 1].domains else [])
  }

  method DNSDomains(groups: seq<NSGroup>) returns (out: seq<string>)
    ensures out == EnabledDomains(groups)
  {
    out := [];
    for i := 0 to |groups|
      invariant out == EnabledDomains(groups[..i])
    {
      assert groups[..i + 1][..i] == groups[..i];
      if !groups[i].enabled {
        continue;
      }
      out := out + groups[i].domains;
    }
    assert groups[..|groups|] == groups;
  }

  /** An enabled group adds its domains at the end, any other nothing. */
  lemma EnabledDomainsSnoc(groups: seq<NSGroup>, g: NSGroup)
    ensures EnabledDomains([]) == [] && EnabledDomains(groups + [g]) == EnabledDomains(groups) + (if g.enabled then g.domains else [])
  {
    assert (groups + [g])[..|groups|] == groups;
  }

  predicate SomeEnabled(groups: seq<NSGroup>) {
    exists i :: 0 <= i < |groups| && groups[i].enabled
  }

  predicate SomeEmpty(groups: seq<NSGroup>) {
    exists i :: 0 <= i < |groups| && groups[i].enabled && groups[i].domains == []
  }

  /** A root name written with blanks around it. */
  predicate PaddedRoot(d: string) {
    RootName(TrimSpace(d)) && !RootName(d)
  }

  lemma {:induction false} EnabledDomainsMember(groups: seq<NSGroup>, d: string)
    ensures d in EnabledDomains(groups) <==> exists i :: 0 <= i < |groups| && groups[i].enabled && d in groups[i].domains
  {
    if groups != [] {
      var init, n := groups[..|groups| - 1], |groups| - 1;
      EnabledDomainsMember(init, d);
      assert forall i :: 0 <= i < n ==> init[i] == groups[i];
      if groups[n].enabled && d in groups[n].domains {
        assert exists i :: 0 <= i < |groups| && groups[i].enabled && d in groups[i].domains;
      }
      if d in EnabledDomains(init) {
        var i :| 0 <= i < |init| && init[i].enabled && d in init[i].domains;
        assert groups[i].enabled && d in groups[i].domains;
      }
      if exists i :: 0 <= i < |groups| && groups[i].enabled && d in groups[i].domains {
        var i :| 0 <= i < |groups| && groups[i].enabled && d in groups[i].domains;
        if i < n { assert init[i].enabled && d in init[i].domains; }
      }
    }
  }

  lemma RefusedExact(groups: seq<NSGroup>)
    ensures Refused(groups) <==> SomeEmpty(groups) || exists d :: d in EnabledDomains(groups) && RootName(TrimSpace(d))
  {
    hide Canon, EnabledDomains, TrimSpace;
    forall i | 0 <= i < |groups| && groups[i].enabled && ClaimsAll(groups[i])
      ensures SomeEmpty(groups) || exists d :: d in EnabledDomains(groups) && RootName(TrimSpace(d))
    {
      if groups[i].domains != [] {
        var j :| 0 <= j < |groups[i].domains| && Canon(groups[i].domains[j]) == "";
        var d := groups[i].domains[j];
        CanonDot(d);
        EnabledDomainsMember(groups, d);
        assert d in groups[i].domains;
      }
    }
    if SomeEmpty(groups) {
      var i :| 0 <= i < |groups| && groups[i].enabled && groups[i].domains == [];
      assert ClaimsAll(groups[i]);
    }
    forall d | d in EnabledDomains(groups) && RootName(TrimSpace(d)) ensures Refused(groups) {
      EnabledDomainsMember(groups, d);
      var i :| 0 <= i < |groups| && groups[i].enabled && d in groups[i].domains;
      var j :| 0 <= j < |groups[i].domains| && groups[i].domains[j] == d;
      CanonDot(d);
      assert Canon(groups[i].domains[j]) == "";
      assert ClaimsAll(groups[i]);
    }
  }

  /** The derivation refuses and the preflight calls the managing intent primary in the same
      cases, except exactly: with no enabled group at all (primary, yet not refused), and with
      proper domains listed while some enabled group is empty or some listed root name is padded
      with blanks (refused, yet not primary). */
  lemma RefusalVersusPrimary(groups: seq<NSGroup>, name: string)
    ensures var flat := EnabledDomains(groups);
            var intent := DnsConflicts.Intent(name, true, flat);
            (Refused(groups) <==> DnsConflicts.Primary(intent)) <==>
            !(|| !SomeEnabled(groups)
              || (flat != [] && "" !in flat && "." !in flat &&
                  (SomeEmpty(groups) || exists d :: d in flat && PaddedRoot(d))))
  {
    var flat := EnabledDomains(groups);
    RefusedExact(groups);
    FlatEmpty(groups);
    TrimRoots();
    hide EnabledDomains, Refused, TrimSpace;
    assert "" in flat ==> RootName(TrimSpace(""));
    assert "." in flat ==> RootName(TrimSpace("."));
    assert forall d :: RootName(d) <==> d == "" || d == ".";
  }

  lemma TrimRoots()
    ensures TrimSpace("") == "" && TrimSpace(".") == "."
  {
  }

  lemma FlatEmpty(groups: seq<NSGroup>)
    ensures EnabledDomains(groups) == [] && SomeEnabled(groups) ==> SomeEmpty(groups)
    ensures !SomeEnabled(groups) ==> EnabledDomains(groups) == [] && !SomeEmpty(groups)
  {
    if EnabledDomains(groups) == [] && SomeEnabled(groups) {
      var i :| 0 <= i < |groups| && groups[i].enabled;
      if groups[i].domains != [] { EnabledDomainsMember(groups, groups[i].domains[0]); }
    }
    if !SomeEnabled(groups) && EnabledDomains(groups) != [] {
      EnabledDomainsMember(groups, EnabledDomains(groups)[0]);
    }
  }

  /** Each exception happens: no group at all, an empty group beside a proper one, and a padded
      root name beside a proper name. */
  lemma ReadingsPart(name: string)
    ensures !Refused([]) && DnsConflicts.Primary(DnsConflicts.Intent(name, true, EnabledDomains([])))
    ensures var groups := [NSGroup(true, []), NSGroup(true, ["x"])];
            Refused(groups) && !DnsConflicts.Primary(DnsConflicts.Intent(name, true, EnabledDomains(groups)))
    ensures var groups := [NSGroup(true, ["x", " ."])];
            Refused(groups) && !DnsConflicts.Primary(DnsConflicts.Intent(name, true, EnabledDomains(groups)))
  {
    var groups := [NSGroup(true, []), NSGroup(true, ["x"])];
    hide Canon;
    assert groups[..1] == [NSGroup(true, [])] && [NSGroup(true, [])][..0] == [];
    assert EnabledDomains([NSGroup(true, [])]) == [];
    assert EnabledDomains(groups) == ["x"];
    assert ClaimsAll(groups[0]);
    PaddedPart(name);
  }

  lemma PaddedPart(name: string)
    ensures var groups := [NSGroup(true, ["x", " ."])];
            Refused(groups) && !DnsConflicts.Primary(DnsConflicts.Intent(name, true, EnabledDomains(groups)))
  {
    hide Canon, TrimSpace;
    var groups := [NSGroup(true, ["x", " ."])];
    assert groups[..0] == [] && EnabledDomains([]) == [];
    assert EnabledDomains(groups) == ["x", " ."];
    TrimPadded(" ", ".", "");
    assert " " + "." + "" == " .";
    CanonDot(" .");
    assert groups[0].domains[1] == " ." && Canon(" .") == "";
    assert ClaimsAll(groups[0]);
  }

  /** In the ordinary case, some group enabled, none of them empty, no padded root name, the two
      readings agree. */
  lemma RefusalIsPrimary(groups: seq<NSGroup>, name: string)
    requires SomeEnabled(groups) && !SomeEmpty(groups)
    requires forall d :: d in EnabledDomains(groups) ==> Unpadded(d)
    ensures Refused(groups) <==> DnsConflicts.Primary(DnsConflicts.Intent(name, true, EnabledDomains(groups)))
  {
    RefusalVersusPrimary(groups, name);
    forall d | d in EnabledDomains(groups) ensures !PaddedRoot(d) { TrimUnpadded(d); }
    hide Refused, EnabledDomains, DnsConflicts.Primary;
  }
}
