/** The root name as scutil reads it: a word of its own inside a name, which the derivation's
    refusal of route-all DNS does not look for (internal/hostdns/hostdns.go:63-85, 124-127 with
    internal/platform/scutil.go:102-114). */
module RootWords {
  import opened Text
  import opened Specs
  import opened Addresses
  import opened Zones
  import opened HostDns
  import opened RootNames
  import opened Scutil
  import opened Keys
  import opened HostScripts
  import opened Listings
  import opened DynamicStore
  import opened StoredWords

  // ---- dots that stand alone ----

  /** A dot between blanks or the ends. */
  predicate Alone(s: string, i: int) {
    0 <= i < |s| && s[i] == '.' && (i == 0 || s[i - 1] == ' ') && (i == |s| - 1 || s[i + 1] == ' ')
  }

  predicate SomeAlone(s: string) {
    exists i :: 0 <= i < |s| && Alone(s, i)
  }

  lemma FirstBlank(s: string) returns (k: nat)
    ensures k <= |s| && Free(s[..k], ' ') && (k < |s| ==> s[k] == ' ')
  {
    k := 0;
    while k < |s| && s[k] != ' '
      invariant k <= |s| && Free(s[..k], ' ')
    {
      assert s[..k + 1] == s[..k] + [s[k]];
      k := k + 1;
    }
  }

  lemma {:induction false} AloneIsWord(s: string)
    ensures "." in Words(s) <==> SomeAlone(s)
    decreases |s|
  {
    var k := FirstBlank(s);
    var w := s[..k];
    if k == |s| {
      assert w == s;
      WordOrNothing(s);
    } else {
      var rest := s[k + 1..];
      assert s == w + [' '] + rest;
      WordsAppend(w, rest);
      AloneIsWord(rest);
      WordOrNothing(w);
      hide Words;
      AloneCut(s, k);
    }
  }

  lemma WordOrNothing(w: string)
    requires Free(w, ' ')
    ensures "." in Words(w) <==> w == "."
    ensures SomeAlone(w) <==> w == "."
  {
    if w == "" { NoWords(); } else { OneWord(w); }
    hide Words;
    assert forall j :: 0 <= j < |w| ==> w[j] in w;
    assert forall i :: 0 <= i < |w| && Alone(w, i) ==> i == 0 && |w| == 1;
    if w == "." { assert Alone(w, 0); }
  }

  lemma AloneCut(s: string, k: nat)
    requires k < |s| && s[k] == ' ' && Free(s[..k], ' ')
    ensures SomeAlone(s) <==> s[..k] == "." || SomeAlone(s[k + 1..])
  {
    var rest := s[k + 1..];
    forall i | k < i < |s| ensures Alone(s, i) <==> Alone(rest, i - k - 1) { AloneLater(s, k, i); }
    forall i | 0 <= i <= k && Alone(s, i) ensures s[..k] == "." { AloneBefore(s, k, i); }
    if s[..k] == "." { assert s[..k][0] == s[0] && Alone(s, 0); }
    if i :| 0 <= i < |rest| && Alone(rest, i) {
      assert Alone(s, k + 1 + i) <==> Alone(rest, (k + 1 + i) - k - 1);
    }
  }

  lemma AloneLater(s: string, k: nat, i: nat)
    requires k < i < |s| && s[k] == ' '
    ensures Alone(s, i) <==> Alone(s[k + 1..], i - k - 1)
  {
    var rest, j := s[k + 1..], i - k - 1;
    assert rest[j] == s[i];
    assert j > 0 ==> rest[j - 1] == s[i - 1];
    assert j < |rest| - 1 ==> rest[j + 1] == s[i + 1];
  }

  lemma AloneBefore(s: string, k: nat, i: nat)
    requires i <= k < |s| && s[k] == ' ' && Free(s[..k], ' ') && Alone(s, i)
    ensures s[..k] == "."
  {
    var w := s[..k];
    assert forall j :: 0 <= j < k ==> w[j] == s[j] && w[j] in w;
  }

  /** The dot at `i` starts a word and is followed by a blank or by the last character, a dot. */
  predicate RootAt(t: string, i: int) {
    0 <= i < |t| - 1 && t[i] == '.' && (i == 0 || t[i - 1] == ' ') && (t[i + 1] == ' ' || (i + 1 == |t| - 1 && t[i + 1] == '.'))
  }

  /** A word "." that is not the last, or a last word "..". */
  predicate RootInside(t: string) {
    exists i :: 0 <= i < |t| && RootAt(t, i)
  }

  /** Dropping a last dot and the case leaves a dot alone in exactly these texts. */
  lemma CutDot(t: string)
    ensures SomeAlone(TrimSuffix(ToLower(t), ".")) <==> RootInside(t)
  {
    var l := ToLower(t);
    var c := TrimSuffix(l, ".");
    SameDots(t);
    EndsInDot(l);
    hide TrimSuffix, ToLower;
    forall i | 0 <= i < |t| ensures Alone(c, i) <==> RootAt(t, i) { CutDotAt(t, l, c, i); }
    hide Alone, RootAt;
  }

  /** Dots and blanks are where they were, whatever the case. */
  predicate SameMarks(t: string, l: string) {
    |l| == |t| && forall i :: 0 <= i < |t| ==> (l[i] == '.' <==> t[i] == '.') && (l[i] == ' ' <==> t[i] == ' ')
  }

  lemma SameDots(t: string)
    ensures SameMarks(t, ToLower(t))
  {
  }

  lemma CutDotAt(t: string, l: string, c: string, i: nat)
    requires SameMarks(t, l) && i < |t| && c == if l[|l| - 1] == '.' then l[..|l| - 1] else l
    ensures Alone(c, i) <==> RootAt(t, i)
  {
    assert forall j :: 0 <= j < |c| ==> c[j] == l[j];
  }

  lemma EndsInDot(l: string)
    ensures var c := TrimSuffix(l, ".");
            if l != "" && l[|l| - 1] == '.' then c == l[..|l| - 1] else c == l
  {
    if l != "" { assert l[|l| - 1..] == [l[|l| - 1]]; }
  }

  lemma CanonRoot(d: string)
    ensures "." in Words(Canon(d)) <==> RootInside(TrimSpace(d))
  {
    hide Words, SomeAlone, RootInside, TrimSpace, ToLower;
    AloneIsWord(Canon(d));
    CutDot(TrimSpace(d));
  }

  // ---- the peer's name ----

  /** What follows the first dot. */
  function AfterDot(t: string): string {
    match Cut(t, ".")
    case Some(halves) => halves.1
    case None => ""
  }

  lemma LowerDots(s: string)
    ensures |ToLower(s)| == |s| && (Free(ToLower(s), '.') <==> Free(s, '.'))
  {
    assert forall i :: 0 <= i < |s| ==> (ToLower(s)[i] == '.' <==> s[i] == '.');
  }

  lemma {:induction false} NoCut(s: string)
    ensures Cut(s, ".").None? <==> Free(s, '.')
  {
    if s != "" {
      NoCut(s[1..]);
      assert s == [s[0]] + s[1..];
      assert HasPrefix(s, ".") <==> s[0] == '.' by { assert s[..1] == [s[0]]; }
    }
  }

  /** The peer domain in terms of the name as reported. */
  lemma PeerIsRest(fqdn: string)
    ensures var rest := TrimSuffix(ToLower(AfterDot(TrimSpace(fqdn))), ".");
            PeerDomain(fqdn) == if rest == "" then None else Some(rest)
  {
    hide TrimSpace, ToLower, Cut, TrimSuffix;
    var t := TrimSpace(fqdn);
    var l := ToLower(t);
    NoCut(t);
    NoCut(Canon(fqdn));
    LowerDots(t);
    EndsInDot(l);
    if Cut(t, ".").None? {
      NothingLower();
    } else {
      var x, r := Cut(t, ".").value.0, Cut(t, ".").value.1;
      CutFree(t, '.');
      assert "." == ['.'];
      LowerDots(x);
      LowerDots(r);
      LowerAppend(x + ".", r);
      LowerAppend(x, ".");
      LowerDot();
      assert l == ToLower(x) + "." + ToLower(r);
      EndsInDot(ToLower(r));
      RestOfCanon(ToLower(x), ToLower(r), Canon(fqdn));
    }
  }

  lemma LowerDot()
    ensures ToLower(".") == "."
  {
  }

  lemma NothingLower()
    ensures TrimSuffix(ToLower(""), ".") == ""
  {
  }

  lemma RestOfCanon(x: string, r: string, c: string)
    requires Free(x, '.') && c == TrimSuffix(x + "." + r, ".")
    ensures var rest := TrimSuffix(r, ".");
            (match Cut(c, ".") case Some(halves) => (if halves.1 != "" then Some(halves.1) else None) case None => None) ==
            if rest == "" then None else Some(rest)
  {
    hide Cut;
    var l := x + "." + r;
    EndsInDot(l);
    EndsInDot(r);
    hide TrimSuffix;
    if r == "" {
      assert c == x;
      NoCut(c);
    } else {
      assert l[|l| - 1] == r[|r| - 1];
      assert c == x + "." + TrimSuffix(r, ".");
      CutAt(x, ".", TrimSuffix(r, "."));
    }
  }

  /** Trimming does not look at case. */
  lemma LowerTrim(s: string)
    ensures TrimSpace(ToLower(s)) == ToLower(TrimSpace(s))
  {
    var p, q := TrimParts(s);
    hide TrimSpace;
    var t := TrimSpace(s);
    LowerAppend(p + t, q);
    LowerAppend(p, t);
    LowerBlank(p);
    LowerBlank(q);
    if t == "" {
      assert s == p + q;
      AllBlank(ToLower(p) + ToLower(q));
      assert ToLower(s) == ToLower(p) + ToLower(q);
      assert ToLower("") == "";
    } else {
      LowerEnds(t);
      hide ToLower;
      TrimPadded(ToLower(p), ToLower(t), ToLower(q));
    }
  }

  lemma LowerBlank(p: string)
    requires Text.Blank(p)
    ensures Text.Blank(ToLower(p))
  {
  }

  lemma LowerEnds(t: string)
    requires t != "" && Unpadded(t)
    ensures ToLower(t) != "" && Unpadded(ToLower(t))
  {
  }

  lemma {:induction false} AllBlank(s: string)
    requires Text.Blank(s)
    ensures TrimLeft(s) == "" && TrimSpace(s) == ""
  {
    if s != "" { AllBlank(s[1..]); }
  }

  /** Case plays no part in where dots and blanks are. */
  lemma LowerRoot(t: string)
    ensures RootInside(ToLower(t)) <==> RootInside(t)
  {
    var l := ToLower(t);
    SameDots(t);
    hide ToLower;
    forall i | 0 <= i < |t| ensures RootAt(l, i) <==> RootAt(t, i) { }
    hide RootAt;
  }

  lemma LowerSuffix(r: string)
    ensures TrimSuffix(ToLower(r), ".") == ToLower(TrimSuffix(r, "."))
  {
    EndsInDot(r);
    EndsInDot(ToLower(r));
    hide TrimSuffix;
    assert r != "" ==> (ToLower(r)[|r| - 1] == '.' <==> r[|r| - 1] == '.');
    assert r != "" ==> ToLower(r)[..|r| - 1] == ToLower(r[..|r| - 1]);
  }

  // ---- which names bring the root in ----

  /** An enabled group lists a name with the root name as one of its words. */
  predicate GroupHasRoot(groups: seq<NSGroup>) {
    exists i, j :: 0 <= i < |groups| && groups[i].enabled && 0 <= j < |groups[i].domains| && RootInside(TrimSpace(groups[i].domains[j]))
  }

  /** What follows the first dot of the peer's name has it, as a search domain. */
  predicate PeerSearchesRoot(fqdn: string) {
    RootInside(AfterDot(TrimSpace(fqdn)))
  }

  /** What is left of that after a last dot and blanks at the ends has it, as a match domain. */
  predicate PeerMatchesRoot(fqdn: string) {
    RootInside(TrimSpace(TrimSuffix(AfterDot(TrimSpace(fqdn)), ".")))
  }

  lemma PeerSearch(fqdn: string)
    ensures PeerDomain(fqdn).Some? && "." in Words(PeerDomain(fqdn).value) <==> PeerSearchesRoot(fqdn)
  {
    hide PeerDomain, Words, RootInside, TrimSpace, AfterDot, ToLower, TrimSuffix, SomeAlone;
    PeerIsRest(fqdn);
    var r := AfterDot(TrimSpace(fqdn));
    CutDot(r);
    AloneIsWord(TrimSuffix(ToLower(r), "."));
    NoWords();
  }

  lemma PeerMatch(fqdn: string)
    ensures PeerDomain(fqdn).Some? && "." in Words(Canon(PeerDomain(fqdn).value)) <==> PeerMatchesRoot(fqdn)
  {
    hide PeerDomain, Words, RootInside, TrimSpace, AfterDot, ToLower, TrimSuffix, SomeAlone, Canon;
    PeerIsRest(fqdn);
    var r := AfterDot(TrimSpace(fqdn));
    var d := TrimSuffix(ToLower(r), ".");
    LowerSuffix(r);
    LowerTrim(TrimSuffix(r, "."));
    LowerRoot(TrimSpace(TrimSuffix(r, ".")));
    CanonRoot(d);
    NothingInside();
  }

  lemma NothingInside()
    ensures !RootInside(TrimSpace(""))
  {
  }

  lemma ZoneWords(s: PeerAddr, c: string)
    requires ValidPeer(s) && ZoneOf(s) == Zone(c)
    ensures Words(c) == [c] && c != "."
  {
    hide ZoneText, IsMapped, Words, Canon;
    ZoneIsCanonical(ParseAddr(s).value);
    NoEmptyZone(s);
    CleanIsWord(c);
    OneWord(c);
  }

  lemma GroupWord(groups: seq<NSGroup>, c: string)
    requires FromGroup(groups, c) && "." in Words(c)
    ensures GroupHasRoot(groups)
  {
    hide Words, Canon, RootInside, TrimSpace;
    var i, j :| 0 <= i < |groups| && groups[i].enabled && 0 <= j < |groups[i].domains| && Canon(groups[i].domains[j]) == c;
    CanonRoot(groups[i].domains[j]);
  }

  lemma GroupRoot(groups: seq<NSGroup>) returns (c: string)
    requires GroupHasRoot(groups)
    ensures FromGroup(groups, c) && "." in Words(c)
  {
    hide Words, Canon, RootInside, TrimSpace;
    var i, j :| 0 <= i < |groups| && groups[i].enabled && 0 <= j < |groups[i].domains| && RootInside(TrimSpace(groups[i].domains[j]));
    CanonRoot(groups[i].domains[j]);
    c := Canon(groups[i].domains[j]);
  }

  lemma MatchRoots(st: Status)
    requires ValidStatus(st)
    ensures Derived(st).Ok? ==>
              (SomeDomainHas(Derived(st).value.matchDomains, ".") <==> GroupHasRoot(st.groups) || PeerMatchesRoot(st.fqdn))
  {
    hide Derived, Words, Canon, PeerDomain, FromGroup, GroupHasRoot, PeerMatchesRoot, ZoneOf, StrictlySorted;
    if Derived(st).Ok? {
      var m := Derived(st).value.matchDomains;
      PeerMatch(st.fqdn);
      NoWords();
      forall i | 0 <= i < |m| && "." in Words(m[i]) ensures GroupHasRoot(st.groups) || PeerMatchesRoot(st.fqdn) {
        MatchRootFrom(st, m[i]);
      }
      if GroupHasRoot(st.groups) {
        var c := GroupRoot(st.groups);
        DeriveMatches(st, c);
        InHas(m, c);
      }
      if PeerMatchesRoot(st.fqdn) {
        var c := Canon(PeerDomain(st.fqdn).value);
        DeriveMatches(st, c);
        InHas(m, c);
      }
    }
  }

  lemma InHas(m: seq<string>, c: string)
    requires c in m && "." in Words(c)
    ensures SomeDomainHas(m, ".")
  {
    hide Words;
    var i :| 0 <= i < |m| && m[i] == c;
    assert "." in Words(m[i]);
  }

  lemma MatchRootFrom(st: Status, c: string)
    requires ValidStatus(st) && "." in Words(c)
    ensures Derived(st).Ok? && c in Derived(st).value.matchDomains ==> GroupHasRoot(st.groups) || PeerMatchesRoot(st.fqdn)
  {
    hide Derived, Words, Canon, PeerDomain, FromGroup, GroupHasRoot, PeerMatchesRoot, ZoneOf, StrictlySorted;
    DeriveMatches(st, c);
    PeerMatch(st.fqdn);
    if ZoneOf(st.ip) == Zone(c) { ZoneWords(st.ip, c); }
    if ZoneOf(st.ipv6) == Zone(c) { ZoneWords(st.ipv6, c); }
    if FromGroup(st.groups, c) { GroupWord(st.groups, c); }
  }

  lemma SearchRoots(st: Status)
    requires ValidStatus(st)
    ensures Derived(st).Ok? ==> (SomeDomainHas(Derived(st).value.searchDomains, ".") <==> PeerSearchesRoot(st.fqdn))
  {
    hide Derived, Words, PeerDomain, PeerSearchesRoot;
    DerivedParts(st);
    PeerSearch(st.fqdn);
    if Derived(st).Ok? && PeerSearchesRoot(st.fqdn) { InHas(Derived(st).value.searchDomains, PeerDomain(st.fqdn).value); }
  }

  /** Of statuses without line breaks, a registration that lands stores the root name for matching
      if and only if an enabled group or the peer's name has it among its words, and for searching
      if and only if the peer's name has. */
  lemma RootWordsExactly(store: Store, owner: string, st: Status, s: Surroundings)
    requires CleanWord(owner) && OneLineStatus(st) && Derived(st).Ok?
    ensures var (after, err) := ApplyResult(store, owner, Derived(st).value, s);
            Lands(err) ==>
              && (StoredWord(after, owner, Match, ".") <==> GroupHasRoot(st.groups) || PeerMatchesRoot(st.fqdn))
              && (StoredWord(after, owner, Search, ".") <==> PeerSearchesRoot(st.fqdn))
  {
    hide *;
    OneLineIsValid(st);
    var spec := Derived(st).value;
    DerivedIsOneLine(st);
    StoredExactly(store, owner, spec, s, Match, ".");
    StoredExactly(store, owner, spec, s, Search, ".");
    KindLists(spec);
    MatchRoots(st);
    SearchRoots(st);
  }

  lemma OneLineIsValid(st: Status)
    requires OneLineStatus(st)
    ensures ValidStatus(st)
  {
  }

  lemma KindLists(spec: Spec)
    ensures DomainsOf(spec, Search) == spec.searchDomains && DomainsOf(spec, Match) == spec.matchDomains
  {
  }

  // ---- it happens ----

  const PLAIN := Surroundings(true, false, false, false, [])

  lemma SpacedDots()
    ensures Canon(". .") == ". " && TrimSpace(". .") == ". ." && Words(". ") == ["."]
  {
    TrimUnpadded(". .");
    assert ToLower(". .") == ". .";
    EndsInDot(". .");
    assert ". ."[..2] == ". ";
    OneWord(".");
    NoWords();
    WordsAppend(".", "");
    assert "." + [' '] + "" == ". ";
    hide Words;
    assert ["."] + [] == ["."];
  }

  lemma SpacedStatus(st: Status)
    requires st == Status(MESH, Missing, "", [NSGroup(true, [". ."])])
    ensures ValidStatus(st) && OneLineStatus(st) && Derived(st).Ok? && GroupHasRoot(st.groups) && PeerDomain(st.fqdn) == None
    ensures forall c :: FromGroup(st.groups, c) <==> c == ". "
  {
    hide Canon, TrimSpace, ZoneOf, ResolverOf, MatchSet, SortedOf, Words;
    MeshIsValid();
    NoZone();
    SpacedDots();
    var g := st.groups[0];
    assert g.domains[0] == ". .";
    assert Canon(". .") != "";
    assert !ClaimsAll(g);
    assert !Refused(st.groups);
    assert RootAt(". .", 0);
    assert RootInside(TrimSpace(g.domains[0]));
    NoPeer();
    EmptyTrim();
  }

  lemma EmptyTrim()
    ensures TrimSpace("") == ""
  {
  }

  lemma NoPeer()
    ensures PeerDomain("") == None
  {
    EmptyTrim();
    assert TrimSuffix("", ".") == "" && Cut("", ".") == None;
  }

  lemma SpacedWords(st: Status)
    requires st == Status(MESH, Missing, "", [NSGroup(true, [". ."])])
    ensures ValidStatus(st) && Derived(st).Ok? && ". " in Derived(st).value.matchDomains
    ensures OneWordEach(Derived(st).value.searchDomains) && OneWordEach(Derived(st).value.matchDomains)
    ensures forall i :: 0 <= i < |Derived(st).value.matchDomains| ==> !RootName(Derived(st).value.matchDomains[i])
  {
    hide Derived, Words, PeerDomain, FromGroup, ZoneOf, StrictlySorted, Canon;
    SpacedStatus(st);
    SpacedDots();
    MeshIsValid();
    NoZone();
    DerivedParts(st);
    DeriveMatches(st, ". ");
    var m := Derived(st).value.matchDomains;
    forall i | 0 <= i < |m| ensures |Words(m[i])| == 1 && !RootName(m[i]) {
      DeriveMatches(st, m[i]);
      if ZoneOf(MESH) == Zone(m[i]) { ZoneWords(MESH, m[i]); }
    }
  }

  lemma OneWordLands(spec: Spec)
    requires OneLineSpec(spec) && OneWordEach(spec.searchDomains) && OneWordEach(spec.matchDomains)
    ensures ApplyResult(map[], "a", spec, PLAIN).1 == None
  {
    hide Slice, Put, SeenMap, AllSeenOut, Layout, Written, LooksFailed, OneLineSpec, OneWordEach, Order;
    QuietLayout("a", spec);
    WrittenPuts(map[], Order(PLAIN.order, map[]), "a", spec);
    QuietOutput();
  }

  /** A group that lists ". ." is not refused, no root name is derived, and yet the root name is
      registered for matching. */
  lemma SpacedRootGetsStored()
    ensures var st := Status(MESH, Missing, "", [NSGroup(true, [". ."])]);
            && ValidStatus(st) && Derived(st).Ok?
            && (forall d :: d in Derived(st).value.matchDomains ==> !RootName(d))
            && var (after, err) := ApplyResult(map[], "a", Derived(st).value, PLAIN);
            err == None && StoredWord(after, "a", Match, ".")
  {
    hide *;
    var st := Status(MESH, Missing, "", [NSGroup(true, [". ."])]);
    SpacedStatus(st);
    SpacedWords(st);
    OneLineIsValid(st);
    DerivedIsOneLine(st);
    OneWordLands(Derived(st).value);
    LetterIsClean();
    LandsOnNone();
    RootWordsExactly(map[], "a", st, PLAIN);
  }

  lemma LetterIsClean()
    ensures CleanWord("a")
  {
  }

  lemma LandsOnNone()
    ensures Lands(None)
  {
  }
}
