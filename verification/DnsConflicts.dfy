/** Fights over host DNS between running instances (internal/preflight/routes.go:57-145). */
module DnsConflicts {
  import opened Text

  /** One running instance's claim on host DNS. */
  datatype Intent = Intent(instanceName: string, managesDNS: bool, domains: seq<string>)

  datatype Conflict = PrimaryFight(instances: seq<string>) | DomainFight(instances: seq<string>, domain: string)

  /** Managing with no split domains, or with a domain that stands for all names. */
  predicate Primary(d: Intent) {
    d.managesDNS && (d.domains == [] || "" in d.domains || "." in d.domains)
  }

  method IsPrimary(d: Intent) returns (r: bool)
    ensures r <==> Primary(d)
  {
    if !d.managesDNS {
      return false;
    }
    if |d.domains| == 0 {
      return true;
    }
    for i := 0 to |d.domains|
      invariant "" !in d.domains[..i] && "." !in d.domains[..i]
    {
      if d.domains[i] == "" || d.domains[i] == "." {
        return true;
      }
    }
    assert d.domains[..|d.domains|] == d.domains;
    return false;
  }

  function Norm(dom: string): string {
    TrimSuffix(ToLower(dom), ".")
  }

  function NormSet(domains: seq<string>): set<string> {
    set i | 0 <= i < |domains| :: Norm(domains[i])
  }

  /** The two questions asked of every intent. */
  datatype Question = ClaimsRoot | ClaimsDomain(domain: string)

  predicate Chosen(d: Intent, q: Question) {
    match q
    case ClaimsRoot => Primary(d)
    case ClaimsDomain(dom) => d.managesDNS && dom != "" && dom in NormSet(d.domains)
  }

  /** The instances of the chosen intents, in the order given. */
  function Names(intents: seq<Intent>, q: Question): seq<string> {
    if intents == [] then []
    else Names(intents[..|intents| - 1], q) +
         (if Chosen(intents[|intents| - 1], q) then [intents[|intents| - 1].instanceName] else [])
  }

  function Mentioned(intents: seq<Intent>): set<string> {
    set i, j | 0 <= i < |intents| && 0 <= j < |intents[i].domains| :: Norm(intents[i].domains[j])
  }

  /** The domains with more than one claimant. */
  function Contested(intents: seq<Intent>): set<string> {
    set dom | dom in Mentioned(intents) && |Names(intents, ClaimsDomain(dom))| > 1
  }

  function DomainReports(intents: seq<Intent>, doms: seq<string>): seq<Conflict> {
    seq(|doms|, i requires 0 <= i < |doms| => DomainFight(Sort(Names(intents, ClaimsDomain(doms[i]))), doms[i]))
  }

  /** The report: at most one primary fight, then the contested domains in increasing order,
      each with all its claimants sorted. */
  ghost function Report(intents: seq<Intent>): seq<Conflict> {
    var primaries := Names(intents, ClaimsRoot);
    (if |primaries| > 1 then [PrimaryFight(Sort(primaries))] else []) + DomainReports(intents, SortedOf(Contested(intents)))
  }

  // ---- the map the program builds ----

  type Index = map<string, seq<string>>

  function At(m: Index, dom: string): seq<string> {
    if dom in m then m[dom] else []
  }

  /** Every domain with its claimants so far, and only domains that have one. */
  ghost predicate Indexes(m: Index, intents: seq<Intent>) {
    && (forall dom :: At(m, dom) == Names(intents, ClaimsDomain(dom)))
    && (forall dom :: dom in m ==> m[dom] != [])
  }

  /** `after` lists one more claimant for each of the domains in `doms`. */
  ghost predicate Grown(before: Index, doms: set<string>, name: string, after: Index) {
    && (forall dom :: At(after, dom) == At(before, dom) + (if dom in doms then [name] else []))
    && ((forall dom :: dom in before ==> before[dom] != []) ==> forall dom :: dom in after ==> after[dom] != [])
  }

  lemma GrowOne(before: Index, doms: set<string>, name: string, after: Index, dom: string)
    requires Grown(before, doms, name, after) && dom !in doms
    ensures Grown(before, doms + {dom}, name, after[dom := At(after, dom) + [name]])
  {
    var next := after[dom := At(after, dom) + [name]];
    assert At(after, dom) == At(before, dom);
    forall d ensures At(next, d) == At(before, d) + (if d in doms + {dom} then [name] else []) {
      assert d != dom ==> At(next, d) == At(after, d);
    }
  }

  lemma GrowNone(m: Index, name: string)
    ensures Grown(m, {}, name, m)
  {
  }

  lemma NormSetNone()
    ensures NormSet([]) == {}
  {
  }

  method AddIntent(m: Index, d: Intent) returns (m': Index)
    ensures Grown(m, if d.managesDNS then NormSet(d.domains) - {""} else {}, d.instanceName, m')
  {
    hide Norm, Grown, NormSet, At;
    GrowNone(m, d.instanceName);
    NormSetNone();
    m' := m;
    if !d.managesDNS {
      return;
    }
    var seen: set<string> := {};
    assert d.domains[..0] == [];
    for j := 0 to |d.domains|
      invariant seen == NormSet(d.domains[..j]) - {""}
      invariant Grown(m, seen, d.instanceName, m')
    {
      var dom := Norm(d.domains[j]);
      NormSetSnoc(d.domains, j);
      if dom == "" || dom in seen {
        continue;
      }
      GrowOne(m, seen, d.instanceName, m', dom);
      seen := seen + {dom};
      m' := m'[dom := At(m', dom) + [d.instanceName]];
    }
    assert d.domains[..|d.domains|] == d.domains;
  }

  lemma NormSetSnoc(domains: seq<string>, i: nat)
    requires i < |domains|
    ensures NormSet(domains[..i + 1]) == NormSet(domains[..i]) + {Norm(domains[i])}
  {
    hide Norm;
    var a, b := domains[..i + 1], domains[..i];
    assert forall j :: 0 <= j < i ==> a[j] == b[j];
    forall c | c in NormSet(b) ensures c in NormSet(a) {
      var j :| 0 <= j < |b| && Norm(b[j]) == c;
      assert Norm(a[j]) == c;
    }
    assert Norm(a[i]) in NormSet(a);
  }

  lemma IndexOneMore(intents: seq<Intent>, i: nat, before: Index, after: Index)
    requires i < |intents| && Indexes(before, intents[..i])
    requires Grown(before, if intents[i].managesDNS then NormSet(intents[i].domains) - {""} else {}, intents[i].instanceName, after)
    ensures Indexes(after, intents[..i + 1])
  {
    assert intents[..i + 1][..i] == intents[..i];
    hide NormSet;
    forall dom ensures At(after, dom) == Names(intents[..i + 1], ClaimsDomain(dom)) {
      assert At(before, dom) == Names(intents[..i], ClaimsDomain(dom));
    }
  }

  method BuildIndex(intents: seq<Intent>) returns (m: Index)
    ensures Indexes(m, intents)
  {
    m := map[];
    for i := 0 to |intents|
      invariant Indexes(m, intents[..i])
    {
      ghost var before := m;
      m := AddIntent(m, intents[i]);
      IndexOneMore(intents, i, before, m);
    }
    assert intents[..|intents|] == intents;
  }

  lemma {:induction false} NamesMentioned(intents: seq<Intent>, dom: string)
    requires Names(intents, ClaimsDomain(dom)) != []
    ensures dom in Mentioned(intents)
  {
    var init, last := intents[..|intents| - 1], intents[|intents| - 1];
    if Chosen(last, ClaimsDomain(dom)) {
      hide Norm;
      var j :| 0 <= j < |last.domains| && Norm(last.domains[j]) == dom;
      assert Norm(intents[|intents| - 1].domains[j]) == dom;
    } else {
      NamesMentioned(init, dom);
      hide Norm;
      var i, j :| 0 <= i < |init| && 0 <= j < |init[i].domains| && Norm(init[i].domains[j]) == dom;
      assert intents[i] == init[i] && Norm(intents[i].domains[j]) == dom;
    }
  }

  method DNSConflicts(intents: seq<Intent>) returns (out: seq<Conflict>)
    ensures out == Report(intents)
  {
    var primaries := PrimaryNames(intents);
    hide Sort, Names, Contested;
    out := [];
    if |primaries| > 1 {
      out := out + [PrimaryFight(Sort(primaries))];
    }
    var byDomain := BuildIndex(intents);
    var doms := ContestedDomains(intents, byDomain);
    var reports := ReportDomains(intents, byDomain, doms);
    out := out + reports;
  }

  method PrimaryNames(intents: seq<Intent>) returns (primaries: seq<string>)
    ensures primaries == Names(intents, ClaimsRoot)
  {
    primaries := [];
    for i := 0 to |intents|
      invariant primaries == Names(intents[..i], ClaimsRoot)
    {
      assert intents[..i + 1][..i] == intents[..i];
      var p := IsPrimary(intents[i]);
      if p {
        primaries := primaries + [intents[i].instanceName];
      }
    }
    assert intents[..|intents|] == intents;
  }

  method ReportDomains(intents: seq<Intent>, byDomain: Index, doms: seq<string>) returns (out: seq<Conflict>)
    requires Indexes(byDomain, intents)
    requires forall i :: 0 <= i < |doms| ==> doms[i] in byDomain
    ensures out == DomainReports(intents, doms)
  {
    hide Sort, Names;
    out := [];
    for i := 0 to |doms|
      invariant out == DomainReports(intents, doms[..i])
    {
      assert byDomain[doms[i]] == At(byDomain, doms[i]);
      out := out + [DomainFight(Sort(byDomain[doms[i]]), doms[i])];
    }
    assert doms[..|doms|] == doms;
  }

  /** The map is walked in no particular order; sorting makes the outcome the same. */
  method ContestedDomains(intents: seq<Intent>, byDomain: Index) returns (doms: seq<string>)
    requires Indexes(byDomain, intents)
    ensures doms == SortedOf(Contested(intents))
    ensures forall i :: 0 <= i < |doms| ==> doms[i] in byDomain
  {
    doms := [];
    var todo := byDomain.Keys;
    while todo != {}
      invariant todo <= byDomain.Keys
      invariant Distinct(doms)
      invariant forall d :: d in doms <==> d in byDomain && d !in todo && |byDomain[d]| > 1
      decreases |todo|
    {
      var dom :| dom in todo;
      todo := todo - {dom};
      if |byDomain[dom]| > 1 {
        assert forall x :: x in doms + [dom] <==> x in doms || x == dom;
        doms := doms + [dom];
      }
    }
    ContestedKeys(intents, byDomain);
    assert Elements(doms) == Contested(intents) by {
      assert forall d :: d in Elements(doms) <==> d in doms;
    }
    SortDistinct(doms);
    StrictUnique(Sort(doms), SortedOf(Contested(intents)));
    doms := Sort(doms);
    assert forall i :: 0 <= i < |doms| ==> doms[i] in Elements(doms);
  }

  lemma ContestedKeys(intents: seq<Intent>, byDomain: Index)
    requires Indexes(byDomain, intents)
    ensures forall d :: d in Contested(intents) <==> d in byDomain && |byDomain[d]| > 1
  {
    forall d | |Names(intents, ClaimsDomain(d))| > 1 ensures d in Mentioned(intents) {
      NamesMentioned(intents, d);
    }
    hide Names, Mentioned;
    forall d ensures d in Contested(intents) <==> d in byDomain && |byDomain[d]| > 1 {
      assert At(byDomain, d) == Names(intents, ClaimsDomain(d));
    }
  }

  // ---- what the report says ----

  lemma {:induction false} NamesCount(intents: seq<Intent>, q: Question)
    ensures Names(intents, q) == [] <==> forall i :: 0 <= i < |intents| ==> !Chosen(intents[i], q)
    ensures |Names(intents, q)| > 1 <==> exists i, j :: 0 <= i < j < |intents| && Chosen(intents[i], q) && Chosen(intents[j], q)
  {
    hide Chosen;
    if intents != [] {
      var init, n := intents[..|intents| - 1], |intents| - 1;
      NamesCount(init, q);
      assert forall i :: 0 <= i < n ==> init[i] == intents[i];
      if Names(init, q) != [] && Chosen(intents[n], q) {
        var i :| 0 <= i < |init| && Chosen(init[i], q);
        assert Chosen(intents[i], q) && Chosen(intents[n], q);
      }
      if exists i, j :: 0 <= i < j < |init| && Chosen(init[i], q) && Chosen(init[j], q) {
        var i, j :| 0 <= i < j < |init| && Chosen(init[i], q) && Chosen(init[j], q);
        assert Chosen(intents[i], q) && Chosen(intents[j], q);
      }
      if exists i, j :: 0 <= i < j < |intents| && Chosen(intents[i], q) && Chosen(intents[j], q) {
        var i, j :| 0 <= i < j < |intents| && Chosen(intents[i], q) && Chosen(intents[j], q);
        assert Chosen(init[i], q);
        if j < n { assert Chosen(init[j], q); }
      }
    }
  }

  predicate TwoChosen(intents: seq<Intent>, q: Question) {
    exists i, j :: 0 <= i < j < |intents| && Chosen(intents[i], q) && Chosen(intents[j], q)
  }

  lemma DomainReportsMember(intents: seq<Intent>, doms: seq<string>, names: seq<string>, dom: string)
    ensures DomainFight(names, dom) in DomainReports(intents, doms) <==>
            dom in doms && names == Sort(Names(intents, ClaimsDomain(dom)))
    ensures PrimaryFight(names) !in DomainReports(intents, doms)
  {
    hide Names, Sort;
    var r := DomainReports(intents, doms);
    if dom in doms {
      var i :| 0 <= i < |doms| && doms[i] == dom;
      assert r[i] == DomainFight(Sort(Names(intents, ClaimsDomain(dom))), dom);
    }
  }

  /** A primary fight is reported exactly when two intents are primary, and a domain exactly when
      two managing intents list it; each report names all claimants of its kind, sorted. */
  lemma ReportExact(intents: seq<Intent>, names: seq<string>, dom: string)
    ensures PrimaryFight(names) in Report(intents) <==>
            TwoChosen(intents, ClaimsRoot) && names == Sort(Names(intents, ClaimsRoot))
    ensures DomainFight(names, dom) in Report(intents) <==>
            TwoChosen(intents, ClaimsDomain(dom)) && names == Sort(Names(intents, ClaimsDomain(dom)))
  {
    NamesCount(intents, ClaimsRoot);
    NamesCount(intents, ClaimsDomain(dom));
    if |Names(intents, ClaimsDomain(dom))| > 1 { NamesMentioned(intents, dom); }
    var doms := SortedOf(Contested(intents));
    hide Names, Sort, Mentioned, Chosen;
    assert dom in Contested(intents) <==> dom in doms by { assert dom in doms <==> dom in Elements(doms); }
    DomainReportsMember(intents, doms, names, dom);
    hide DomainReports;
  }

  /** After a primary fight, if any, come the domains in strictly increasing order. */
  lemma ReportOrdered(intents: seq<Intent>, i: nat, j: nat)
    requires i < j < |Report(intents)|
    ensures var r := Report(intents);
            r[j].DomainFight? && (r[i].DomainFight? ==> Le(r[i].domain, r[j].domain) && r[i].domain != r[j].domain)
  {
    var doms := SortedOf(Contested(intents));
    var primaries := Names(intents, ClaimsRoot);
    var shift := if |primaries| > 1 then 1 else 0;
    hide Names, Sort, Contested, Le;
    var r := Report(intents);
    assert r[j] == DomainReports(intents, doms)[j - shift];
    if i >= shift { assert r[i] == DomainReports(intents, doms)[i - shift]; }
  }

  // ---- what the report does not depend on ----

  lemma {:induction false} NamesAppend(a: seq<Intent>, b: seq<Intent>, q: Question)
    ensures Names(a + b, q) == Names(a, q) + Names(b, q)
  {
    if b == [] {
      assert a + b == a;
    } else {
      assert (a + b)[..|a + b| - 1] == a + b[..|b| - 1];
      NamesAppend(a, b[..|b| - 1], q);
    }
  }

  lemma TakeOut(b: seq<Intent>, k: nat)
    requires k < |b|
    ensures multiset(b[..k] + b[k + 1..]) == multiset(b) - multiset{b[k]}
    ensures b == b[..k] + [b[k]] + b[k + 1..]
  {
    assert b == b[..k] + [b[k]] + b[k + 1..];
    assert multiset(b) == multiset(b[..k]) + multiset{b[k]} + multiset(b[k + 1..]);
  }

  lemma NamesTakeOut(b: seq<Intent>, k: nat, q: Question)
    requires k < |b|
    ensures multiset(Names(b, q)) == multiset(Names([b[k]], q)) + multiset(Names(b[..k] + b[k + 1..], q))
  {
    TakeOut(b, k);
    NamesAppend(b[..k] + [b[k]], b[k + 1..], q);
    NamesAppend(b[..k], [b[k]], q);
    NamesAppend(b[..k], b[k + 1..], q);
    hide Names;
  }

  lemma {:induction false} NamesPermuted(a: seq<Intent>, b: seq<Intent>, q: Question)
    requires multiset(a) == multiset(b)
    ensures multiset(Names(a, q)) == multiset(Names(b, q))
    decreases |a|
  {
    hide Names;
    assert |a| == |multiset(a)| == |multiset(b)| == |b|;
    if a == [] {
      assert a == b;
    } else {
      assert a[0] in multiset(b);
      var k :| 0 <= k < |b| && b[k] == a[0];
      TakeOut(a, 0);
      TakeOut(b, k);
      assert a[..0] + a[1..] == a[1..];
      NamesPermuted(a[1..], b[..k] + b[k + 1..], q);
      NamesTakeOut(a, 0, q);
      NamesTakeOut(b, k, q);
    }
  }

  /** The same instances making the same claims: domains may be reordered or repeated. */
  predicate SameClaims(a: seq<Intent>, b: seq<Intent>) {
    && |a| == |b|
    && forall i :: 0 <= i < |a| ==>
         a[i].instanceName == b[i].instanceName && a[i].managesDNS == b[i].managesDNS && Elements(a[i].domains) == Elements(b[i].domains)
  }

  lemma ChosenSame(a: Intent, b: Intent, q: Question)
    requires a.managesDNS == b.managesDNS && Elements(a.domains) == Elements(b.domains)
    ensures Chosen(a, q) <==> Chosen(b, q)
  {
    assert forall d :: d in a.domains <==> d in Elements(a.domains);
    assert forall d :: d in b.domains <==> d in Elements(b.domains);
    if a.domains != [] { FirstElement(a.domains); }
    if b.domains != [] { FirstElement(b.domains); }
    NormSubset(a.domains, b.domains);
    NormSubset(b.domains, a.domains);
    hide Norm;
  }

  lemma NormSubset(a: seq<string>, b: seq<string>)
    requires forall d :: d in a ==> d in b
    ensures NormSet(a) <= NormSet(b)
  {
    hide Norm;
    forall c | c in NormSet(a) ensures c in NormSet(b) {
      var i :| 0 <= i < |a| && Norm(a[i]) == c;
      assert a[i] in b;
      var j :| 0 <= j < |b| && b[j] == a[i];
      assert Norm(b[j]) == c;
    }
  }

  lemma {:induction false} NamesSame(a: seq<Intent>, b: seq<Intent>, q: Question)
    requires SameClaims(a, b)
    ensures Names(a, q) == Names(b, q)
  {
    if a != [] {
      NamesSame(a[..|a| - 1], b[..|b| - 1], q);
      ChosenSame(a[|a| - 1], b[|b| - 1], q);
    }
  }

  /** Reordering the intents, or reordering and repeating the domains of any of them, leaves the
      whole report unchanged. */
  lemma ReportIgnoresOrder(a: seq<Intent>, shuffled: seq<Intent>, b: seq<Intent>)
    requires multiset(a) == multiset(shuffled) && SameClaims(shuffled, b)
    ensures Report(a) == Report(b)
  {
    forall q ensures Sort(Names(a, q)) == Sort(Names(b, q)) && |Names(a, q)| == |Names(b, q)| {
      NamesReordered(a, shuffled, b, q);
    }
    ContestedByCount(a);
    ContestedByCount(b);
    hide Names, Sort, Contested, SameClaims;
    assert Contested(a) == Contested(b);
  }

  lemma NamesReordered(a: seq<Intent>, shuffled: seq<Intent>, b: seq<Intent>, q: Question)
    requires multiset(a) == multiset(shuffled) && SameClaims(shuffled, b)
    ensures Sort(Names(a, q)) == Sort(Names(b, q)) && |Names(a, q)| == |Names(b, q)|
  {
    NamesPermuted(a, shuffled, q);
    NamesSame(shuffled, b, q);
    SortSpec(Names(a, q));
    SortSpec(Names(b, q));
    SortedUnique(Sort(Names(a, q)), Sort(Names(b, q)));
    hide Names, Sort, SameClaims;
    assert |multiset(Names(a, q))| == |Names(a, q)|;
    assert |multiset(Names(b, q))| == |Names(b, q)|;
  }

  lemma ContestedByCount(a: seq<Intent>)
    ensures forall d :: d in Contested(a) <==> |Names(a, ClaimsDomain(d))| > 1
  {
    forall d | |Names(a, ClaimsDomain(d))| > 1 ensures d in Mentioned(a) {
      NamesMentioned(a, d);
    }
  }

  // ---- who claims what ----

  /** Domains are compared without their case and one trailing dot. */
  lemma NormExactly(x: string, dom: string)
    ensures Norm(x) == dom <==> ToLower(x) == dom + "." || (ToLower(x) == dom && !HasSuffix(dom, "."))
  {
    var l := ToLower(x);
    hide ToLower;
    if HasSuffix(l, ".") { assert l == l[..|l| - 1] + "."; }
    if l == dom + "." { assert l[|l| - 1..] == "." && l[..|l| - 1] == dom; }
  }

  /** An intent claims a domain when it manages DNS and lists it, in any case and with or without a
      trailing dot; and all names when it manages DNS and lists none, "" or ".". */
  lemma ClaimsExactly(d: Intent, dom: string)
    ensures Chosen(d, ClaimsDomain(dom)) <==>
            d.managesDNS && dom != "" &&
            exists i :: 0 <= i < |d.domains| &&
              (ToLower(d.domains[i]) == dom + "." || (ToLower(d.domains[i]) == dom && !HasSuffix(dom, ".")))
    ensures Chosen(d, ClaimsRoot) <==> d.managesDNS && (|d.domains| == 0 || "" in d.domains || "." in d.domains)
  {
    hide ToLower, Norm;
    forall i | 0 <= i < |d.domains|
      ensures Norm(d.domains[i]) == dom <==> ToLower(d.domains[i]) == dom + "." || (ToLower(d.domains[i]) == dom && !HasSuffix(dom, "."))
    {
      NormExactly(d.domains[i], dom);
    }
  }

  predicate SomeChosen(intents: seq<Intent>, q: Question, name: string) {
    exists i :: 0 <= i < |intents| && Chosen(intents[i], q) && intents[i].instanceName == name
  }

  /** A fight names exactly the claimants, in increasing order. */
  lemma FightNames(intents: seq<Intent>, q: Question, name: string)
    ensures var names := Sort(Names(intents, q));
            Sorted(names) && |names| == |Names(intents, q)| && (name in names <==> SomeChosen(intents, q, name))
  {
    var names := Names(intents, q);
    SortSpec(names);
    NamesMember(intents, q, name);
    hide Sort, Names, Sorted, Chosen;
    assert name in Sort(names) <==> name in multiset(Sort(names));
    assert name in names <==> name in multiset(names);
    assert |multiset(Sort(names))| == |multiset(names)|;
  }

  lemma {:induction false} NamesMember(intents: seq<Intent>, q: Question, name: string)
    ensures name in Names(intents, q) <==> SomeChosen(intents, q, name)
  {
    hide Chosen;
    if intents != [] {
      var init, n := intents[..|intents| - 1], |intents| - 1;
      NamesMember(init, q, name);
      assert forall i :: 0 <= i < n ==> init[i] == intents[i];
      if SomeChosen(init, q, name) {
        var i :| 0 <= i < |init| && Chosen(init[i], q) && init[i].instanceName == name;
        assert Chosen(intents[i], q);
      }
      if SomeChosen(intents, q, name) {
        var i :| 0 <= i < |intents| && Chosen(intents[i], q) && intents[i].instanceName == name;
        if i < n { assert Chosen(init[i], q); }
      }
    }
  }
}
