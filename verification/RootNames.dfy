/** Where the refusal of route-all DNS has a gap, and a status that crashes the derivation
    (internal/hostdns/hostdns.go:34-99, 124-176). */
module RootNames {
  import opened Text
  import opened Bits
  import opened Addresses
  import opened Zones
  import opened HostDns

  /** A domain that stands for all names. */
  predicate RootName(d: string) {
    d == "" || d == "."
  }

  lemma CanonDot(d: string)
    ensures Canon(d) == "." <==> TrimSpace(d) == ".."
    ensures Canon(d) == "" <==> TrimSpace(d) == "" || TrimSpace(d) == "."
  {
    var t := TrimSpace(d);
    var l := ToLower(t);
    hide TrimSpace;
    if HasSuffix(l, ".") {
      assert l == l[..|l| - 1] + ".";
      if Canon(d) == "." { assert l == ".."; DotsLower(t); }
      if Canon(d) == "" { assert l == "."; DotsLower(t); }
    }
    DotSuffixes();
    DotsLower(t);
  }

  lemma DotSuffixes()
    ensures TrimSuffix(".", ".") == "" && TrimSuffix("..", ".") == "." && TrimSuffix("", ".") == ""
  {
    assert ".."[1..] == "." && ".."[..1] == ".";
  }

  lemma DotsLower(t: string)
    ensures ToLower(t) == ".." <==> t == ".."
    ensures ToLower(t) == "." <==> t == "."
    ensures ToLower(t) == "" <==> t == ""
  {
    assert forall i :: 0 <= i < |t| ==> (LowerChar(t[i]) == '.' <==> t[i] == '.');
    assert |ToLower(t)| == |t|;
    if ToLower(t) == ".." { assert ToLower(t)[0] == LowerChar(t[0]) && ToLower(t)[1] == LowerChar(t[1]); }
    if ToLower(t) == "." { assert ToLower(t)[0] == LowerChar(t[0]); }
  }

  /** A name that ends in three dots after its first label. */
  ghost predicate EndsInThreeDots(fqdn: string) {
    exists x :: Free(x, '.') && TrimSpace(fqdn) == x + "..."
  }

  /** A name whose rest after the first label is "..", up to blanks, and the dot that is stripped. */
  ghost predicate EndsInTwoDots(fqdn: string) {
    exists x, p, q :: Free(x, '.') && Blank(p) && Blank(q) && TrimSpace(fqdn) == x + "." + p + ".." + q + "."
  }

  /** No letter that lower-casing could have made. */
  predicate NoLetters(s: string) {
    forall i :: 0 <= i < |s| ==> !('a' <= s[i] <= 'z') && !('A' <= s[i] <= 'Z')
  }

  lemma LowerTail(t: string, b: string, y: string)
    requires ToLower(t) == b + y && NoLetters(y)
    ensures |b| <= |t| && t == t[..|b|] + y && ToLower(t[..|b|]) == b
  {
    assert |t| == |b| + |y|;
    forall i | 0 <= i < |y| ensures t[|b| + i] == y[i] {
      assert ToLower(t)[|b| + i] == (b + y)[|b| + i] == y[i];
    }
    assert t[|b|..] == y;
    assert forall i :: 0 <= i < |b| ==> LowerChar(t[i]) == (b + y)[i];
  }

  lemma LowerJoin(x: string, y: string)
    requires NoLetters(y)
    ensures ToLower(x + y) == ToLower(x) + y && (Free(x, '.') <==> Free(ToLower(x), '.'))
  {
    assert forall i :: 0 <= i < |x| ==> (LowerChar(x[i]) == '.' <==> x[i] == '.');
    assert forall i :: 0 <= i < |x| ==> ToLower(x)[i] == LowerChar(x[i]);
  }

  lemma BlanksHaveNoLetters(p: string, q: string)
    requires Blank(p) && Blank(q)
    ensures NoLetters("." + p + ".." + q + ".") && NoLetters("...")
  {
  }

  /** The raw names that leave `rest` as the peer domain: something dot-free, a dot, `rest`, a dot. */
  lemma PeerFrom(fqdn: string, x: string, rest: string)
    requires rest != "" && Free(x, '.') && NoLetters("." + rest + ".") && TrimSpace(fqdn) == x + ("." + rest + ".")
    ensures PeerDomain(fqdn) == Some(rest)
  {
    hide TrimSpace, ToLower, Cut;
    LowerJoin(x, "." + rest + ".");
    var l := ToLower(TrimSpace(fqdn));
    assert l == (ToLower(x) + "." + rest) + ".";
    assert l[..|l| - 1] == ToLower(x) + "." + rest;
    CutAt(ToLower(x), ".", rest);
  }

  /** And back, for a rest without letters that ends in a dot or a blank. */
  lemma PeerRaw(fqdn: string, rest: string) returns (x: string)
    requires PeerDomain(fqdn) == Some(rest) && NoLetters(rest)
    requires rest[|rest| - 1] == '.' || IsSpace(rest[|rest| - 1])
    ensures Free(x, '.') && TrimSpace(fqdn) == x + ("." + rest + ".")
  {
    var t := TrimSpace(fqdn);
    var _, _ := TrimParts(fqdn);
    hide TrimSpace, ToLower, Cut;
    var l := ToLower(t);
    var c := Canon(fqdn);
    var b := Cut(c, ".").value.0;
    CutFree(c, '.');
    assert "." == ['.'];
    assert c == b + "." + rest;
    assert c[|c| - 1] == rest[|rest| - 1];
    LowerLast(t);
    assert l != c;
    assert l == c + ".";
    assert l == b + ("." + rest + ".");
    LowerTail(t, b, "." + rest + ".");
    x := t[..|b|];
    LowerJoin(x, "");
    assert x + "" == x && ToLower(x) + "" == ToLower(x);
  }

  lemma LowerLast(t: string)
    ensures |ToLower(t)| == |t|
    ensures t != "" ==> (ToLower(t)[|t| - 1] == '.' <==> t[|t| - 1] == '.')
    ensures t != "" ==> (IsSpace(ToLower(t)[|t| - 1]) <==> IsSpace(t[|t| - 1]))
  {
  }

  lemma SearchRoot(fqdn: string)
    ensures PeerDomain(fqdn) == Some(".") <==> EndsInThreeDots(fqdn)
  {
    hide PeerDomain, TrimSpace;
    assert "." + "." + "." == "...";
    if PeerDomain(fqdn) == Some(".") {
      var x := PeerRaw(fqdn, ".");
      assert TrimSpace(fqdn) == x + "...";
    }
    if EndsInThreeDots(fqdn) {
      var x :| Free(x, '.') && TrimSpace(fqdn) == x + "...";
      PeerFrom(fqdn, x, ".");
    }
  }

  lemma MatchRoot(fqdn: string)
    ensures PeerDomain(fqdn).Some? && TrimSpace(PeerDomain(fqdn).value) == ".." <==> EndsInTwoDots(fqdn)
  {
    hide PeerDomain, TrimSpace;
    if PeerDomain(fqdn).Some? && TrimSpace(PeerDomain(fqdn).value) == ".." {
      var rest := PeerDomain(fqdn).value;
      var p, q := TrimParts(rest);
      assert rest == p + ".." + q;
      BlanksHaveNoLetters(p, q);
      NoLettersInside(p + ".." + q);
      var x := PeerRaw(fqdn, rest);
      assert TrimSpace(fqdn) == x + "." + p + ".." + q + ".";
    }
    if EndsInTwoDots(fqdn) {
      var x, p, q :| Free(x, '.') && Blank(p) && Blank(q) && TrimSpace(fqdn) == x + "." + p + ".." + q + ".";
      BlanksHaveNoLetters(p, q);
      var rest := p + ".." + q;
      assert "." + p + ".." + q + "." == "." + rest + ".";
      assert x + "." + p + ".." + q + "." == x + ("." + rest + ".");
      PeerFrom(fqdn, x, rest);
      TrimPadded(p, "..", q);
    }
  }

  lemma NoLettersInside(s: string)
    requires NoLetters("." + s + ".") || forall i :: 0 <= i < |s| ==> IsSpace(s[i]) || s[i] == '.'
    ensures NoLetters(s)
  {
    if NoLetters("." + s + ".") {
      assert forall i :: 0 <= i < |s| ==> ("." + s + ".")[i + 1] == s[i];
    }
  }

  /** Of the names it derives, the refusal of route-all DNS misses exactly those that lose only one
      of their dots. A successful derivation has the root name among its match domains if and only
      if an enabled group lists "..", or the peer's name ends that way; and among its search
      domains if and only if the peer's name is one label and three dots. (What scutil makes of
      names with blanks in them is another matter: see RootWords.) */
  lemma RootSlipsThrough(st: Status)
    requires ValidStatus(st)
    ensures Derived(st).Ok? ==>
              var spec := Derived(st).value;
              && ((exists d :: d in spec.matchDomains && RootName(d)) <==> EndsInTwoDots(st.fqdn) || ListsTwoDots(st.groups))
              && ((exists d :: d in spec.searchDomains && RootName(d)) <==> EndsInThreeDots(st.fqdn))
  {
    hide Derived, Canon, ZoneOf, TrimSpace, StrictlySorted, Cut, EndsInTwoDots, EndsInThreeDots, PeerDomain;
    if Derived(st).Ok? {
      DeriveMatches(st, ".");
      if PeerDomain(st.fqdn).Some? { CanonDot(PeerDomain(st.fqdn).value); }
      DotsInGroups(st.groups);
      NoEmptyZone(st.ip);
      NoEmptyZone(st.ipv6);
      DerivedParts(st);
      RootIsDot(Derived(st).value.matchDomains);
      SearchRoot(st.fqdn);
      MatchRoot(st.fqdn);
      NoEmptyPeer(st.fqdn);
      var s := Derived(st).value.searchDomains;
      assert forall d :: d in s <==> PeerDomain(st.fqdn) == Some(d);
    }
  }

  /** An enabled group lists "..", up to blanks around it. */
  predicate ListsTwoDots(groups: seq<NSGroup>) {
    exists i, j :: 0 <= i < |groups| && groups[i].enabled && 0 <= j < |groups[i].domains| && TrimSpace(groups[i].domains[j]) == ".."
  }

  /** An ordinary IPv4 mesh address, 10.0.0.1/16. */
  const MESH: PeerAddr := Cidr(Prefix(Addr(V4, 0x0a00_0001), 16))

  lemma MeshIsValid()
    ensures ValidPeer(MESH) && ZoneOf(MESH).Zone?
  {
    Pow2Values();
  }

  lemma NoZone()
    ensures ZoneOf(Missing) == BadAddress
  {
  }

  /** It happens: one enabled group that lists ".." routes all DNS to the mesh, and a peer named
      "..." makes "." a search domain. */
  lemma RootGetsRegistered()
    ensures var st := Status(MESH, Missing, "", [NSGroup(true, [".."])]);
            ValidStatus(st) && Derived(st).Ok? && "." in Derived(st).value.matchDomains
    ensures var st := Status(MESH, Missing, "...", []);
            ValidStatus(st) && Derived(st).Ok? && Derived(st).value.searchDomains == ["."]
  {
    hide ZoneOf, Cut, TrimSpace, Pow2, PeerDomain, ResolverOf;
    MeshIsValid();
    NoZone();
    TwoDots();
    var g := NSGroup(true, [".."]);
    var st := Status(MESH, Missing, "", [g]);
    assert !ClaimsAll(g);
    assert !Refused([g]);
    assert Derived(st).Ok?;
    assert [g][0].enabled && [g][0].domains[0] == "..";
    assert FromGroup([g], ".");
    DeriveMatches(st, ".");
    var st' := Status(MESH, Missing, "...", []);
    assert Derived(st').Ok?;
    assert TrimSpace("...") == "" + "...";
    SearchRoot("...");
  }

  lemma TwoDots()
    ensures Canon("..") == "." && TrimSpace("...") == "..."
  {
    TrimUnpadded("..");
    TrimUnpadded("...");
    CanonDot("..");
  }

  /** An IPv6 network that is IPv4 in disguise, ::ffff:10.0.0.1/112, makes the derivation panic. */
  lemma MappedStatusCrashes()
    ensures var mapped := Cidr(Prefix(Addr(V6, 0xffff_0a00_0001), 112));
            var st := Status(MESH, mapped, "", []);
            ValidStatus(st) && Derived(st) == Err(Crashed)
  {
    MeshIsValid();
    var p := Prefix(Addr(V6, 0xffff_0a00_0001), 112);
    MappedIsValid();
    hide Pow2, Top, Clear, ResolverOf, ZoneText;
    assert !Refused([]);
  }

  lemma MappedIsValid()
    ensures var p := Prefix(Addr(V6, 0xffff_0a00_0001), 112);
            p.Valid() && p.Masked().Valid() && IsMapped(p.Masked())
  {
    hide Top, Shl, Pow2;
    var p := Prefix(Addr(V6, 0xffff_0a00_0001), 112);
    WordFits();
    MaskedTwice(p);
    MappedBits();
    TopClear(0xffff_0a00_0001, 16);
    TopTop(Clear(0xffff_0a00_0001, 16), 16, 32);
    assert p.Masked().addr.val == Clear(0xffff_0a00_0001, 16);
    assert p.Masked().Masked() == p.Masked();
  }

  lemma MappedBits()
    ensures Top(0xffff_0a00_0001, 16) == 0xffff_0a00 && Top(0xffff_0a00, 16) == 0xffff
  {
    hide Top, Shl, Pow2;
    DropByte(0xffff_0a00_0001, 0xff_ff0a_0000);
    DropByte(0xff_ff0a_0000, 0xffff_0a00);
    TopTop(0xffff_0a00_0001, 8, 16);
    DropByte(0xffff_0a00, 0xff_ff0a);
    DropByte(0xff_ff0a, 0xffff);
    TopTop(0xffff_0a00, 8, 16);
  }

  lemma DropByte(val: nat, t: nat)
    requires 256 * t <= val < 256 * t + 256
    ensures Top(val, 8) == t
  {
    ByteShift(t);
    Pow2Values();
    TopExact(val, 8, t);
  }

  lemma WordFits()
    ensures 0xffff_0a00_0001 < Pow2(128)
  {
    Pow2Values();
    assert Pow2(40) == 0x100_0000_0000 && Pow2(48) == 0x1_0000_0000_0000;
    hide Pow2;
    PowGrows(48, 128);
  }

  lemma {:induction false} PowGrows(a: nat, b: nat)
    requires a <= b
    ensures Pow2(a) <= Pow2(b)
    decreases b
  {
    if a < b { PowGrows(a, b - 1); }
  }

  lemma RootIsDot(m: seq<string>)
    requires "" !in m
    ensures (exists d :: d in m && RootName(d)) <==> "." in m
  {
    assert RootName(".");
  }

  lemma DotsInGroups(groups: seq<NSGroup>)
    ensures FromGroup(groups, ".") <==> ListsTwoDots(groups)
  {
    forall i, j | 0 <= i < |groups| && 0 <= j < |groups[i].domains|
      ensures Canon(groups[i].domains[j]) == "." <==> TrimSpace(groups[i].domains[j]) == ".."
    {
      CanonDot(groups[i].domains[j]);
    }
    hide Canon, TrimSpace;
  }

  // ---- when the derivation fails ----

  /** An enabled group asks for all DNS: it lists nothing, or the root name up to blanks. */
  predicate RouteAll(groups: seq<NSGroup>) {
    exists i :: 0 <= i < |groups| && groups[i].enabled &&
                (groups[i].domains == [] || exists j :: 0 <= j < |groups[i].domains| && RootName(TrimSpace(groups[i].domains[j])))
  }

  lemma RouteAllIsRefused(groups: seq<NSGroup>)
    ensures Refused(groups) <==> RouteAll(groups)
  {
    hide Canon, TrimSpace;
    forall i, j | 0 <= i < |groups| && 0 <= j < |groups[i].domains|
      ensures Canon(groups[i].domains[j]) == "" <==> RootName(TrimSpace(groups[i].domains[j]))
    {
      CanonDot(groups[i].domains[j]);
    }
    forall i | 0 <= i < |groups|
      ensures ClaimsAll(groups[i]) <==>
              groups[i].domains == [] || exists j :: 0 <= j < |groups[i].domains| && RootName(TrimSpace(groups[i].domains[j])) { }
    hide ClaimsAll;
  }

  /** The derivation fails without an IPv4 address in CIDR form; with one, it refuses a group that
      asks for all DNS; otherwise it crashes on an IPv6 network that is IPv4 in disguise. */
  lemma DeriveFailsExactly(st: Status)
    requires ValidStatus(st)
    ensures var ipv4 := st.ip.Cidr? && st.ip.prefix.addr.fam == V4;
            var mapped := ParseAddr(st.ipv6).Some? && IsMapped(ParseAddr(st.ipv6).value);
            && (Derived(st) == Err(NoResolver) <==> !ipv4)
            && (Derived(st) == Err(PrimaryClaim) <==> ipv4 && RouteAll(st.groups))
            && (Derived(st) == Err(Crashed) <==> ipv4 && !RouteAll(st.groups) && mapped)
  {
    hide Refused, RouteAll, IsMapped, ZoneText, PeerDomain, MatchSet, SortedOf, ResolverOf;
    RouteAllIsRefused(st.groups);
  }
}
