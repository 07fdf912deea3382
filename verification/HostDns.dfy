/** Deriving an instance's registration from its daemon's status
    (internal/hostdns/hostdns.go:34-99, 124-127; internal/nbgrpc/client.go:175-186). */
module HostDns {
  import opened Text
  import opened Specs
  import opened Bits
  import opened Addresses
  import opened Zones

  datatype NSGroup = NSGroup(enabled: bool, domains: seq<string>)

  /** The part of a daemon's status that DNS depends on. */
  datatype Status = Status(ip: PeerAddr, ipv6: PeerAddr, fqdn: string, groups: seq<NSGroup>)

  predicate ValidStatus(st: Status) {
    ValidPeer(st.ip) && ValidPeer(st.ipv6)
  }

  datatype DeriveError = NoResolver | PrimaryClaim | Crashed

  function Canon(d: string): string {
    TrimSuffix(ToLower(TrimSpace(d)), ".")
  }

  /** The peer domain: the name without its first label. */
  function PeerDomain(fqdn: string): Option<string> {
    match Cut(Canon(fqdn), ".")
    case Some(halves) => if halves.1 != "" then Some(halves.1) else None
    case None => None
  }

  /** A nameserver group that asks for all DNS. */
  predicate ClaimsAll(g: NSGroup) {
    g.domains == [] || exists i :: 0 <= i < |g.domains| && Canon(g.domains[i]) == ""
  }

  predicate Refused(groups: seq<NSGroup>) {
    exists i :: 0 <= i < |groups| && groups[i].enabled && ClaimsAll(groups[i])
  }

  function CanonSet(domains: seq<string>): set<string> {
    set i | 0 <= i < |domains| :: Canon(domains[i])
  }

  /** The canonical domains of all enabled groups. */
  function GroupSet(groups: seq<NSGroup>): set<string> {
    if groups == [] then {}
    else GroupSet(groups[..|groups| - 1]) +
         (if groups[|groups| - 1].enabled then CanonSet(groups[|groups| - 1].domains) else {})
  }

  function ZoneSet(s: PeerAddr): set<string>
    requires ValidPeer(s)
  {
    if ZoneOf(s).Zone? then {ZoneOf(s).text} else {}
  }

  function PeerSet(fqdn: string): set<string> {
    match PeerDomain(fqdn)
    case Some(d) => {Canon(d)} - {""}
    case None => {}
  }

  function MatchSet(st: Status): set<string>
    requires ValidStatus(st)
  {
    PeerSet(st.fqdn) + GroupSet(st.groups) + ZoneSet(st.ip) + ZoneSet(st.ipv6)
  }

  /** The derivation as a function: sets of canonical names, sorted. */
  ghost function Derived(st: Status): Result<Spec, DeriveError>
    requires ValidStatus(st)
  {
    if !(st.ip.Cidr? && st.ip.prefix.addr.fam == V4) then Err(NoResolver)
    else if Refused(st.groups) then Err(PrimaryClaim)
    else if ZoneOf(st.ipv6) == IndexPanic then Err(Crashed)
    else Ok(Spec(ResolverOf(st.ip.prefix),
                 match PeerDomain(st.fqdn) case Some(d) => [d] case None => [],
                 SortedOf(MatchSet(st))))
  }

  // ---- zones are already canonical ----

  predicate PlainText(s: string) {
    forall i :: 0 <= i < |s| ==> !IsSpace(s[i]) && !('A' <= s[i] <= 'Z')
  }

  lemma {:induction false} JoinPlain(parts: seq<string>, sep: char)
    requires (forall i :: 0 <= i < |parts| ==> PlainText(parts[i])) && PlainText([sep])
    ensures PlainText(Join(parts, sep))
  {
    if |parts| > 1 {
      JoinPlain(parts[1..], sep);
      assert PlainText(parts[0]);
      var rest := Join(parts[1..], sep);
      assert forall i :: 0 <= i < |rest| ==> rest[i] == Join(parts, sep)[|parts[0]| + 1 + i];
      assert [sep][0] == sep;
    }
  }

  lemma LabelPlain(fam: Family, g: nat)
    requires g < Pow2(Unit(fam))
    ensures PlainText(Label(fam, g))
  {
    match fam
    case V4 => assert AllDigits(Itoa(g));
    case V6 => assert Pow2(4) == 16;
  }

  lemma LabelsPlain(p: Prefix)
    requires p.Valid()
    ensures forall i :: 0 <= i < |ZoneLabels(p)| ==> PlainText(ZoneLabels(p)[i])
  {
    var fam, gs := p.addr.fam, ZoneGroups(p);
    forall i | 0 <= i < |gs| ensures PlainText(Labels(fam, gs)[i]) { LabelPlain(fam, gs[i]); }
    SuffixPlain(fam);
    hide PlainText, Labels, ZoneGroups, Suffix;
    assert forall i :: 0 <= i < |gs| ==> Reversed(Labels(fam, gs))[i] == Labels(fam, gs)[|gs| - 1 - i];
  }

  lemma SuffixPlain(fam: Family)
    ensures forall i :: 0 <= i < |Suffix(fam)| ==> PlainText(Suffix(fam)[i])
    ensures PlainText("")
  {
  }

  lemma PlainCanon(s: string)
    requires PlainText(s) && s != "" && s[|s| - 1] != '.'
    ensures Canon(s) == s && CleanWord(s)
  {
    TrimUnpadded(s);
    assert ToLower(s) == s;
    assert !HasSuffix(s, ".") by { assert s[|s| - 1..] == [s[|s| - 1]]; }
  }

  lemma ZoneIsCanonical(p: Prefix)
    requires p.Valid()
    ensures Canon(ZoneText(p)) == ZoneText(p) && CleanWord(ZoneText(p))
  {
    LabelsPlain(p);
    ZoneEnds(p);
    hide ZoneLabels;
    JoinPlain(ZoneLabels(p), '.');
    PlainCanon(ZoneText(p));
  }

  lemma ZoneEnds(p: Prefix)
    requires p.Valid()
    ensures ZoneText(p) != "" && ZoneText(p)[|ZoneText(p)| - 1] == 'a'
  {
    DottedSuffix(p, Reversed(Labels(p.addr.fam, ZoneGroups(p))));
  }

  // ---- the derivation as the program runs it ----

  method AddMatch(d: string, seen: set<string>, matches: seq<string>) returns (seen': set<string>, matches': seq<string>)
    requires Distinct(matches) && Elements(matches) == seen
    ensures Distinct(matches') && Elements(matches') == seen' == seen + ({Canon(d)} - {""})
  {
    var c := Canon(d);
    if c != "" && c !in seen {
      assert forall x :: x in matches + [c] <==> x in matches || x == c;
      return seen + {c}, matches + [c];
    }
    return seen, matches;
  }

  lemma CanonSetSnoc(domains: seq<string>, i: nat)
    requires i < |domains|
    ensures CanonSet(domains[..i + 1]) == CanonSet(domains[..i]) + {Canon(domains[i])}
  {
    hide Canon;
    var a, b := domains[..i + 1], domains[..i];
    assert forall j :: 0 <= j < i ==> a[j] == b[j];
    forall c | c in CanonSet(b) ensures c in CanonSet(a) {
      var j :| 0 <= j < |b| && Canon(b[j]) == c;
      assert Canon(a[j]) == c;
    }
    assert Canon(a[i]) in CanonSet(a);
  }

  method AddGroup(g: NSGroup, seen: set<string>, matches: seq<string>)
    returns (refused: bool, seen': set<string>, matches': seq<string>)
    requires Distinct(matches) && Elements(matches) == seen
    ensures refused <==> ClaimsAll(g)
    ensures !refused ==> Distinct(matches') && Elements(matches') == seen' == seen + CanonSet(g.domains)
  {
    hide Canon, Distinct;
    seen', matches' := seen, matches;
    if |g.domains| == 0 {
      return true, seen', matches';
    }
    for i := 0 to |g.domains|
      invariant forall j :: 0 <= j < i ==> Canon(g.domains[j]) != ""
      invariant Distinct(matches') && Elements(matches') == seen' == seen + CanonSet(g.domains[..i])
    {
      var d := g.domains[i];
      if Canon(d) == "" {
        return true, seen', matches';
      }
      CanonSetSnoc(g.domains, i);
      seen', matches' := AddMatch(d, seen', matches');
    }
    assert g.domains[..|g.domains|] == g.domains;
    refused := false;
  }

  method AddZone(s: PeerAddr, seen: set<string>, matches: seq<string>)
    returns (crashed: bool, seen': set<string>, matches': seq<string>)
    requires ValidPeer(s) && Distinct(matches) && Elements(matches) == seen
    ensures crashed <==> ZoneOf(s) == IndexPanic
    ensures !crashed ==> Distinct(matches') && Elements(matches') == seen' == seen + ZoneSet(s)
  {
    hide Canon, Distinct, ZoneText;
    seen', matches' := seen, matches;
    if s.Missing? {
      return false, seen', matches';
    }
    var zone := ReverseZone(s);
    match zone {
      case IndexPanic => return true, seen', matches';
      case BadAddress => return false, seen', matches';
      case Zone(text) =>
        ZoneIsCanonical(ParseAddr(s).value);
        seen', matches' := AddMatch(text, seen', matches');
        return false, seen', matches';
    }
  }

  method Derive(st: Status) returns (r: Result<Spec, DeriveError>)
    requires ValidStatus(st)
    ensures r == Derived(st)
  {
    hide Canon, Distinct, ClaimsAll, CanonSet, ZoneOf, ZoneSet, Elements, ResolverOf;
    var listen := ResolverAddr(st.ip);
    if listen.None? {
      return Err(NoResolver);
    }
    var search: seq<string> := [];
    var seen: set<string> := {};
    var matches: seq<string> := [];
    NothingSeen();
    var peer := PeerDomain(st.fqdn);
    if peer.Some? {
      search := [peer.value];
      seen, matches := AddMatch(peer.value, seen, matches);
    }
    for i := 0 to |st.groups|
      invariant forall j :: 0 <= j < i ==> !(st.groups[j].enabled && ClaimsAll(st.groups[j]))
      invariant Distinct(matches) && Elements(matches) == seen == PeerSet(st.fqdn) + GroupSet(st.groups[..i])
    {
      var g := st.groups[i];
      assert st.groups[..i + 1][..i] == st.groups[..i];
      if !g.enabled {
        continue;
      }
      var refused;
      refused, seen, matches := AddGroup(g, seen, matches);
      if refused {
        return Err(PrimaryClaim);
      }
    }
    assert st.groups[..|st.groups|] == st.groups;
    var crashed;
    V4NeverPanics(st.ip);
    crashed, seen, matches := AddZone(st.ip, seen, matches);
    crashed, seen, matches := AddZone(st.ipv6, seen, matches);
    if crashed {
      return Err(Crashed);
    }
    SortDistinct(matches);
    StrictUnique(Sort(matches), SortedOf(MatchSet(st)));
    return Ok(Spec(listen.value, search, Sort(matches)));
  }

  lemma NothingSeen()
    ensures Distinct([]) && Elements([]) == {}
  {
  }

  lemma V4NeverPanics(s: PeerAddr)
    requires ValidPeer(s) && s.Cidr? && s.prefix.addr.fam == V4
    ensures ZoneOf(s) != IndexPanic
  {
  }

  // ---- what the result is ----

  lemma {:induction false} GroupSetMember(groups: seq<NSGroup>, c: string)
    ensures c in GroupSet(groups) <==>
            exists i, j :: 0 <= i < |groups| && groups[i].enabled && 0 <= j < |groups[i].domains| && Canon(groups[i].domains[j]) == c
  {
    hide Canon;
    if groups != [] {
      var init, last := groups[..|groups| - 1], groups[|groups| - 1];
      GroupSetMember(init, c);
      if c in GroupSet(init) {
        var i, j :| 0 <= i < |init| && init[i].enabled && 0 <= j < |init[i].domains| && Canon(init[i].domains[j]) == c;
        assert groups[i] == init[i] && Canon(groups[i].domains[j]) == c;
      }
      if last.enabled && c in CanonSet(last.domains) {
        var j :| 0 <= j < |last.domains| && Canon(last.domains[j]) == c;
        assert Canon(groups[|groups| - 1].domains[j]) == c;
      }
      forall i, j | 0 <= i < |groups| && groups[i].enabled && 0 <= j < |groups[i].domains| && Canon(groups[i].domains[j]) == c
        ensures c in GroupSet(groups)
      {
        if i < |groups| - 1 {
          assert init[i] == groups[i] && Canon(init[i].domains[j]) == c;
        }
      }
    }
  }

  /** Same resolver inputs, and every enabled group on either side matched by one with the same
      set of domains on the other: this covers reordering groups, reordering or repeating their
      domains, and adding or dropping disabled groups. */
  ghost predicate SameClaims(a: Status, b: Status) {
    && a.ip == b.ip && a.ipv6 == b.ipv6 && a.fqdn == b.fqdn
    && CoveredBy(a.groups, b.groups) && CoveredBy(b.groups, a.groups)
  }

  ghost predicate CoveredBy(gs: seq<NSGroup>, hs: seq<NSGroup>) {
    forall i :: 0 <= i < |gs| && gs[i].enabled ==>
      exists j :: 0 <= j < |hs| && hs[j].enabled && Elements(gs[i].domains) == Elements(hs[j].domains)
  }

  lemma CoveredClaims(gs: seq<NSGroup>, hs: seq<NSGroup>)
    requires CoveredBy(gs, hs)
    ensures Refused(gs) ==> Refused(hs)
    ensures GroupSet(gs) <= GroupSet(hs)
  {
    hide Canon, GroupSet, ClaimsAll;
    forall i | 0 <= i < |gs| && gs[i].enabled && ClaimsAll(gs[i]) ensures Refused(hs) {
      var j :| 0 <= j < |hs| && hs[j].enabled && Elements(gs[i].domains) == Elements(hs[j].domains);
      SameElements(gs[i], hs[j]);
      assert ClaimsAll(hs[j]);
    }
    forall c | c in GroupSet(gs) ensures c in GroupSet(hs) {
      GroupSetMember(gs, c);
      var i, k :| 0 <= i < |gs| && gs[i].enabled && 0 <= k < |gs[i].domains| && Canon(gs[i].domains[k]) == c;
      var j :| 0 <= j < |hs| && hs[j].enabled && Elements(gs[i].domains) == Elements(hs[j].domains);
      assert gs[i].domains[k] in Elements(hs[j].domains);
      var l :| 0 <= l < |hs[j].domains| && hs[j].domains[l] == gs[i].domains[k];
      assert Canon(hs[j].domains[l]) == c;
      GroupSetMember(hs, c);
    }
  }

  lemma SameElements(g: NSGroup, h: NSGroup)
    requires Elements(g.domains) == Elements(h.domains)
    ensures ClaimsAll(g) <==> ClaimsAll(h)
  {
    if g.domains != [] { FirstElement(g.domains); }
    if h.domains != [] { FirstElement(h.domains); }
    hide Canon;
    forall i | 0 <= i < |g.domains| && Canon(g.domains[i]) == "" ensures ClaimsAll(h) {
      assert g.domains[i] in Elements(h.domains);
    }
    forall i | 0 <= i < |h.domains| && Canon(h.domains[i]) == "" ensures ClaimsAll(g) {
      assert h.domains[i] in Elements(g.domains);
    }
  }

  /** The derivation depends on the groups only through the claims of the enabled ones. */
  lemma DeriveIgnoresOrder(a: Status, b: Status)
    requires ValidStatus(a) && ValidStatus(b) && SameClaims(a, b)
    ensures Derived(a) == Derived(b)
  {
    hide Refused, GroupSet, CoveredBy, ZoneOf, ZoneSet, PeerSet, PeerDomain, ResolverOf, ParseAddr;
    CoveredClaims(a.groups, b.groups);
    CoveredClaims(b.groups, a.groups);
    assert MatchSet(a) == MatchSet(b);
    hide MatchSet;
  }

  /** A successful derivation lists its match domains in strictly increasing order, and they are
      exactly: the canonical peer domain, the canonical domains of enabled groups, and the zones
      of the addresses that parse. */
  lemma DeriveMatches(st: Status, c: string)
    requires ValidStatus(st)
    ensures Derived(st).Ok? ==>
              var m := Derived(st).value.matchDomains;
              && StrictlySorted(m) && "" !in m
              && (c in m <==>
                  || (c != "" && PeerDomain(st.fqdn).Some? && Canon(PeerDomain(st.fqdn).value) == c)
                  || FromGroup(st.groups, c)
                  || ZoneOf(st.ip) == Zone(c)
                  || ZoneOf(st.ipv6) == Zone(c))
  {
    hide Canon, ZoneOf, GroupSet, PeerDomain, ResolverOf;
    GroupSetMember(st.groups, c);
    GroupSetMember(st.groups, "");
    NoEmptyZone(st.ip);
    NoEmptyZone(st.ipv6);
    NoEmptyGroupDomain(st.groups);
    if Derived(st).Ok? {
      var m := Derived(st).value.matchDomains;
      assert c in m <==> c in Elements(m);
      assert "" in m <==> "" in Elements(m);
    }
  }

  /** `c` is the canonical form of an enabled group's domain. */
  predicate FromGroup(groups: seq<NSGroup>, c: string) {
    exists i, j :: 0 <= i < |groups| && groups[i].enabled && 0 <= j < |groups[i].domains| && Canon(groups[i].domains[j]) == c
  }

  lemma NoEmptyZone(s: PeerAddr)
    requires ValidPeer(s)
    ensures ZoneOf(s) != Zone("") && ZoneOf(s) != Zone(".")
  {
    if ParseAddr(s).Some? { ZoneEnds(ParseAddr(s).value); }
  }

  lemma NoEmptyGroupDomain(groups: seq<NSGroup>)
    ensures "" in GroupSet(groups) ==> Refused(groups)
  {
    GroupSetMember(groups, "");
    hide Canon, GroupSet;
    if "" in GroupSet(groups) {
      var i, j :| 0 <= i < |groups| && groups[i].enabled && 0 <= j < |groups[i].domains| && Canon(groups[i].domains[j]) == "";
      assert ClaimsAll(groups[i]);
    }
  }

  // ---- fit for the script ----

  predicate IsBreak(c: char) {
    c == '\n'
  }

  predicate Avoids(s: string, bad: char -> bool) {
    forall i :: 0 <= i < |s| ==> !bad(s[i])
  }

  /** No name in the status has a bad character inside it; at the ends it would be trimmed. */
  predicate NeatStatus(st: Status, bad: char -> bool) {
    && Avoids(TrimSpace(st.fqdn), bad)
    && forall i, j :: 0 <= i < |st.groups| && st.groups[i].enabled && 0 <= j < |st.groups[i].domains| ==>
         Avoids(TrimSpace(st.groups[i].domains[j]), bad)
  }

  /** No blanks inside the names. */
  predicate CleanStatus(st: Status) {
    ValidStatus(st) && NeatStatus(st, IsSpace)
  }

  /** No line breaks inside the names. */
  predicate OneLineStatus(st: Status) {
    ValidStatus(st) && NeatStatus(st, IsBreak)
  }

  ghost predicate Blanks(bad: char -> bool) {
    forall c :: bad(c) ==> IsSpace(c)
  }

  lemma TrimAvoids(s: string, bad: char -> bool)
    requires Avoids(s, bad)
    ensures Avoids(TrimSpace(s), bad)
  {
    var p, q := TrimParts(s);
    hide TrimSpace;
    var t := TrimSpace(s);
    assert forall i :: 0 <= i < |t| ==> s[|p| + i] == t[i];
  }

  lemma CanonAvoids(d: string, bad: char -> bool)
    requires Avoids(TrimSpace(d), bad) && Blanks(bad)
    ensures Avoids(Canon(d), bad)
  {
    var t := TrimSpace(d);
    hide TrimSpace;
    assert forall i :: 0 <= i < |t| ==> ToLower(t)[i] == LowerChar(t[i]);
    assert forall c :: IsSpace(LowerChar(c)) ==> LowerChar(c) == c;
  }

  lemma PeerAvoids(fqdn: string, bad: char -> bool)
    requires Avoids(TrimSpace(fqdn), bad) && Blanks(bad) && PeerDomain(fqdn).Some?
    ensures Avoids(PeerDomain(fqdn).value, bad) && Avoids(Canon(PeerDomain(fqdn).value), bad)
  {
    hide *;
    var d := PeerDomain(fqdn).value;
    CanonAvoids(fqdn, bad);
    PeerIsTail(fqdn);
    TailAvoids(Canon(fqdn), d, bad);
    TrimAvoids(d, bad);
    CanonAvoids(d, bad);
  }

  lemma NoEmptyPeer(fqdn: string)
    ensures PeerDomain(fqdn) != Some("")
  {
    hide Canon, Cut;
  }

  lemma PeerIsTail(fqdn: string)
    requires PeerDomain(fqdn).Some?
    ensures var c, d := Canon(fqdn), PeerDomain(fqdn).value;
            d != "" && |d| <= |c| && c[|c| - |d|..] == d
  {
    hide Canon, Cut;
  }

  lemma TailAvoids(c: string, d: string, bad: char -> bool)
    requires Avoids(c, bad) && |d| <= |c| && c[|c| - |d|..] == d
    ensures Avoids(d, bad)
  {
    assert forall i :: 0 <= i < |d| ==> d[i] == c[|c| - |d| + i];
  }

  lemma DerivedParts(st: Status)
    requires ValidStatus(st)
    ensures Derived(st).Ok? ==>
              var spec := Derived(st).value;
              && spec.listen.addr < 0x1_0000_0000
              && spec.listen == ResolverOf(st.ip.prefix) && spec.listen.port == 53
              && spec.searchDomains == match PeerDomain(st.fqdn) case Some(d) => [d] case None => []
  {
    hide PeerDomain, MatchSet, Refused, ZoneOf, StrictlySorted;
  }

  /** What no reported name has inside it, no derived domain has. */
  lemma DerivedAvoids(st: Status, bad: char -> bool)
    requires ValidStatus(st) && NeatStatus(st, bad) && Blanks(bad)
    ensures Derived(st).Ok? ==>
              var spec := Derived(st).value;
              && (forall i :: 0 <= i < |spec.searchDomains| ==> spec.searchDomains[i] != "" && Avoids(spec.searchDomains[i], bad))
              && (forall i :: 0 <= i < |spec.matchDomains| ==> spec.matchDomains[i] != "" && Avoids(spec.matchDomains[i], bad))
  {
    hide Derived, NeatStatus, Avoids, TrimSpace, ValidStatus, PeerDomain;
    if Derived(st).Ok? {
      DerivedParts(st);
      NoEmptyPeer(st.fqdn);
      if PeerDomain(st.fqdn).Some? { NeatPeer(st, bad); }
      var m := Derived(st).value.matchDomains;
      forall k | 0 <= k < |m| ensures m[k] != "" && Avoids(m[k], bad) {
        MatchAvoids(st, m[k], bad);
      }
    }
  }

  lemma NeatPeer(st: Status, bad: char -> bool)
    requires NeatStatus(st, bad) && Blanks(bad) && PeerDomain(st.fqdn).Some?
    ensures Avoids(PeerDomain(st.fqdn).value, bad) && Avoids(Canon(PeerDomain(st.fqdn).value), bad)
  {
    hide PeerDomain, Canon, TrimSpace, Avoids;
    PeerAvoids(st.fqdn, bad);
  }

  lemma MatchAvoids(st: Status, c: string, bad: char -> bool)
    requires ValidStatus(st) && NeatStatus(st, bad) && Blanks(bad)
    ensures Derived(st).Ok? && c in Derived(st).value.matchDomains ==> c != "" && Avoids(c, bad)
  {
    hide Derived, NeatStatus, Avoids, TrimSpace, ValidPeer, ZoneOf, PeerDomain, Canon, FromGroup;
    DeriveMatches(st, c);
    if Derived(st).Ok? && c in Derived(st).value.matchDomains {
      if ZoneOf(st.ip) == Zone(c) {
        ZoneAvoids(st.ip, bad);
      } else if ZoneOf(st.ipv6) == Zone(c) {
        ZoneAvoids(st.ipv6, bad);
      } else if FromGroup(st.groups, c) {
        GroupAvoids(st, c, bad);
      } else {
        NeatPeer(st, bad);
      }
    }
  }

  lemma ZoneAvoids(s: PeerAddr, bad: char -> bool)
    requires ValidPeer(s) && Blanks(bad)
    ensures ZoneOf(s).Zone? ==> Avoids(ZoneOf(s).text, bad)
  {
    hide ZoneText, IsMapped;
    if ZoneOf(s).Zone? { ZoneIsCanonical(ParseAddr(s).value); }
  }

  lemma GroupAvoids(st: Status, c: string, bad: char -> bool)
    requires NeatStatus(st, bad) && Blanks(bad) && FromGroup(st.groups, c)
    ensures Avoids(c, bad)
  {
    hide Canon, TrimSpace, Avoids;
    var i, j :| 0 <= i < |st.groups| && st.groups[i].enabled && 0 <= j < |st.groups[i].domains| && Canon(st.groups[i].domains[j]) == c;
    CanonAvoids(st.groups[i].domains[j], bad);
  }

  /** When no name in the status has blanks inside it, every derived domain is one word, so the
      registration script carries it unchanged. */
  lemma DerivedIsClean(st: Status)
    requires CleanStatus(st)
    ensures Derived(st).Ok? ==> CleanSpec(Derived(st).value)
  {
    hide Derived, NeatStatus;
    DerivedAvoids(st, IsSpace);
    DerivedParts(st);
  }

  /** When none has a line break inside it, every derived domain fits on its line. */
  lemma DerivedIsOneLine(st: Status)
    requires OneLineStatus(st)
    ensures Derived(st).Ok? ==> OneLineSpec(Derived(st).value)
  {
    hide Derived, NeatStatus;
    DerivedAvoids(st, IsBreak);
  }

  // ---- lower case ----

  lemma CanonLower(d: string)
    ensures ToLower(Canon(d)) == Canon(d)
  {
    var t := ToLower(TrimSpace(d));
    hide TrimSpace;
    assert forall i :: 0 <= i < |t| ==> LowerChar(t[i]) == t[i];
    assert forall i :: 0 <= i < |Canon(d)| ==> Canon(d)[i] == t[i];
  }

  lemma PeerLower(fqdn: string)
    requires PeerDomain(fqdn).Some?
    ensures ToLower(PeerDomain(fqdn).value) == PeerDomain(fqdn).value
  {
    hide *;
    PeerIsTail(fqdn);
    CanonLower(fqdn);
    TailLower(Canon(fqdn), PeerDomain(fqdn).value);
  }

  lemma TailLower(c: string, d: string)
    requires ToLower(c) == c && |d| <= |c| && c[|c| - |d|..] == d
    ensures ToLower(d) == d
  {
    forall i | 0 <= i < |d| ensures ToLower(d)[i] == d[i] {
      assert d[i] == c[|c| - |d| + i];
      assert ToLower(c)[|c| - |d| + i] == LowerChar(c[|c| - |d| + i]);
    }
  }

  lemma ZoneLower(s: PeerAddr)
    requires ValidPeer(s)
    ensures ZoneOf(s).Zone? ==> ToLower(ZoneOf(s).text) == ZoneOf(s).text
  {
    hide ZoneText, IsMapped, Canon;
    if ZoneOf(s).Zone? {
      ZoneIsCanonical(ParseAddr(s).value);
      CanonLower(ZoneOf(s).text);
    }
  }

  /** Whatever a status contains, what is derived from it is in lower case. */
  lemma DerivedIsLower(st: Status)
    requires ValidStatus(st)
    ensures Derived(st).Ok? ==> LowerSpec(Derived(st).value)
  {
    hide Derived, PeerDomain, ZoneOf, Canon, FromGroup, ToLower, ValidPeer;
    if Derived(st).Ok? {
      var spec := Derived(st).value;
      DerivedParts(st);
      if PeerDomain(st.fqdn).Some? { PeerLower(st.fqdn); }
      forall i | 0 <= i < |spec.matchDomains| ensures ToLower(spec.matchDomains[i]) == spec.matchDomains[i] {
        MatchLower(st, spec.matchDomains[i]);
      }
    }
  }

  lemma MatchLower(st: Status, c: string)
    requires ValidStatus(st)
    ensures Derived(st).Ok? && c in Derived(st).value.matchDomains ==> ToLower(c) == c
  {
    hide Derived, PeerDomain, ZoneOf, Canon, ToLower;
    DeriveMatches(st, c);
    if Derived(st).Ok? && c in Derived(st).value.matchDomains {
      ZoneLower(st.ip);
      ZoneLower(st.ipv6);
      if FromGroup(st.groups, c) {
        var i, j :| 0 <= i < |st.groups| && st.groups[i].enabled && 0 <= j < |st.groups[i].domains| && Canon(st.groups[i].domains[j]) == c;
        CanonLower(st.groups[i].domains[j]);
      } else if PeerDomain(st.fqdn).Some? {
        CanonLower(PeerDomain(st.fqdn).value);
      }
    }
  }
}
