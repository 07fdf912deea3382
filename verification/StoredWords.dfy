/** Which words a registration stores, as scutil reads them off its domains
    (internal/platform/scutil.go:93-117). */
module StoredWords {
  import opened Text
  import opened Specs
  import opened Batching
  import opened Scutil
  import opened Keys
  import opened HostScripts
  import opened Listings
  import opened DynamicStore

  /** `w` stands in the domain list of one of the owner's keys of that kind. */
  ghost predicate StoredWord(store: Store, owner: string, kind: Kind, w: string) {
    exists n: nat :: KeyName(owner, kind, n) in store && w in DomainsIn(store[KeyName(owner, kind, n)])
  }

  predicate SomeDomainHas(domains: seq<string>, w: string) {
    exists i :: 0 <= i < |domains| && w in Words(domains[i])
  }

  function DomainsOf(spec: Spec, kind: Kind): seq<string> {
    if kind == Search then spec.searchDomains else spec.matchDomains
  }

  // ---- the words of a batch ----

  lemma {:induction false} SeenWordsMember(b: seq<string>, w: string)
    ensures w in SeenWords(b) <==> SomeDomainHas(b, w)
  {
    hide Words;
    if b == [] {
      NoWords();
    } else if |b| == 1 {
      assert Join(b, ' ') == b[0];
    } else {
      WordsAppend(b[0], Join(b[1..], ' '));
      SeenWordsMember(b[1..], w);
      assert Join(b, ' ') == b[0] + [' '] + Join(b[1..], ' ');
      HasCons(b, w);
    }
  }

  lemma NoWords()
    ensures Words("") == [] && Join([], ' ') == ""
  {
  }

  lemma HasCons(domains: seq<string>, w: string)
    requires domains != []
    ensures SomeDomainHas(domains, w) <==> w in Words(domains[0]) || SomeDomainHas(domains[1..], w)
  {
    hide Words;
    if SomeDomainHas(domains[1..], w) {
      var i :| 0 <= i < |domains[1..]| && w in Words(domains[1..][i]);
      assert w in Words(domains[i + 1]);
    }
    if SomeDomainHas(domains, w) {
      var i :| 0 <= i < |domains| && w in Words(domains[i]);
      if i > 0 { assert domains[1..][i - 1] == domains[i]; }
    }
  }

  lemma {:induction false} HasAppend(a: seq<string>, b: seq<string>, w: string)
    ensures SomeDomainHas(a + b, w) <==> SomeDomainHas(a, w) || SomeDomainHas(b, w)
    decreases |a|
  {
    hide Words;
    if a == [] {
      assert a + b == b;
    } else {
      assert (a + b)[1..] == a[1..] + b;
      HasAppend(a[1..], b, w);
      hide SomeDomainHas;
      HasCons(a + b, w);
      HasCons(a, w);
    }
  }

  lemma {:induction false} HasInBatches(batches: seq<seq<string>>, w: string)
    ensures SomeDomainHas(Flatten(batches), w) <==> exists n :: 0 <= n < |batches| && SomeDomainHas(batches[n], w)
    decreases |batches|
  {
    hide SomeDomainHas;
    if batches == [] {
      NothingHas(w);
    } else {
      HasInBatches(batches[1..], w);
      HasAppend(batches[0], Flatten(batches[1..]), w);
      if n :| 0 <= n < |batches[1..]| && SomeDomainHas(batches[1..][n], w) {
        assert SomeDomainHas(batches[n + 1], w);
      }
      if n :| 0 < n < |batches| && SomeDomainHas(batches[n], w) {
        assert SomeDomainHas(batches[1..][n - 1], w);
      }
    }
  }

  lemma NothingHas(w: string)
    ensures !SomeDomainHas([], w)
  {
  }

  // ---- a list that is too long is an error ----

  const COMPLAINT := "  unknown command"
  const ERROR := "d.add failed: too many values"

  /** What scutil prints about one list, without the line break. */
  function OutLine(domains: seq<string>): seq<string> {
    var ws := SeenWords(domains);
    if ws == [] then [COMPLAINT] else if |ws| > MAX_VALUES then [ERROR] else []
  }

  function OutLines(keys: seq<DNSKey>): seq<string> {
    if keys == [] then [] else OutLine(keys[0].domains) + OutLines(keys[1..])
  }

  lemma OutIsLine(domains: seq<string>)
    ensures SeenOut(domains) == Unlines(OutLine(domains)) && AllFree(OutLine(domains), '\n')
  {
    hide SeenWords, Unlines;
    NoLines();
    OneOutLine(COMPLAINT);
    OneOutLine(ERROR);
    PrintedLines();
  }

  lemma OneOutLine(line: string)
    ensures Unlines([line]) == line + "\n"
  {
    assert [line][1..] == [];
    assert line + "\n" + "" == line + "\n";
  }

  lemma PrintedLines()
    ensures UNKNOWN_COMMAND == COMPLAINT + "\n" && TOO_MANY == ERROR + "\n"
    ensures Free(COMPLAINT, '\n') && Free(ERROR, '\n')
  {
  }

  lemma {:induction false} OutIsLines(keys: seq<DNSKey>)
    ensures AllSeenOut(keys) == Unlines(OutLines(keys)) && AllFree(OutLines(keys), '\n')
    decreases |keys|
  {
    hide OutLine, SeenOut, Unlines, Free;
    if keys == [] {
      NoLines();
    } else {
      OutIsLine(keys[0].domains);
      OutIsLines(keys[1..]);
      UnlinesAppend(OutLine(keys[0].domains), OutLines(keys[1..]));
    }
  }

  lemma {:induction false} ErrorPrinted(keys: seq<DNSKey>, i: nat)
    requires i < |keys| && |SeenWords(keys[i].domains)| > MAX_VALUES
    ensures ERROR in OutLines(keys)
    decreases |keys|
  {
    hide SeenWords;
    if i > 0 { ErrorPrinted(keys[1..], i - 1); }
  }

  lemma TooManyIsError()
    ensures ErrorLine(ERROR)
  {
    hide TrimSpace, ToLower, Contains;
    ErrorTrimmed();
    ErrorLowered();
    ErrorAlarms();
  }

  lemma ErrorTrimmed()
    ensures TrimSpace(ERROR) == ERROR && ERROR != ""
  {
    TrimUnpadded(ERROR);
  }

  lemma ErrorLowered()
    ensures ToLower(ERROR) == ERROR
  {
  }

  lemma ErrorAlarms()
    ensures Contains(ERROR, "failed")
  {
    hide Contains;
    ErrorText();
    ContainsSkip("d.add ", "failed" + ": too many values", "failed");
    BeginsWith("failed", ": too many values");
  }

  lemma ErrorText()
    ensures ERROR == "d.add " + ("failed" + ": too many values") && Free("d.add ", 'f')
  {
  }

  lemma BeginsWith(w: string, rest: string)
    ensures Contains(w + rest, w)
  {
  }

  lemma TooManyFails(keys: seq<DNSKey>, i: nat)
    requires i < |keys| && |SeenWords(keys[i].domains)| > MAX_VALUES
    ensures LooksFailed(AllSeenOut(keys))
  {
    hide SeenWords, AllSeenOut, OutLines, Unlines, Split, ErrorLine, Free;
    OutIsLines(keys);
    ErrorPrinted(keys, i);
    SplitUnlines(OutLines(keys));
    TooManyIsError();
    var lines := OutLines(keys);
    var k :| 0 <= k < |lines| && lines[k] == ERROR;
    assert (lines + [""])[k] == lines[k];
  }

  // ---- what is stored ----

  lemma SeenDomains(domains: seq<string>, noSearch: bool, listen: AddrPort)
    requires |SeenWords(domains)| <= MAX_VALUES
    ensures DomainsIn(SeenDict(domains, noSearch, listen)) == SeenWords(domains)
  {
    hide SeenWords, Dotted;
    NamesDiffer();
  }

  lemma LayoutKey(owner: string, spec: Spec, kind: Kind, n: nat)
    requires OwnerName(owner) && n < |Batches(DomainsOf(spec, kind))|
    requires forall i :: 0 <= i < |Layout(owner, spec)| ==> |SeenWords(Layout(owner, spec)[i].domains)| <= MAX_VALUES
    ensures var k := KeyName(owner, kind, n);
            k in SeenMap(owner, spec) && DomainsIn(SeenMap(owner, spec)[k]) == SeenWords(Batches(DomainsOf(spec, kind))[n])
  {
    hide KeyName, Batches, Layout, OwnerName, SeenDict, SeenWords, WriteKeys, DomainsIn;
    var keys := Layout(owner, spec);
    LayoutDistinct(owner, spec);
    WrittenExact(keys, spec.listen, Seen);
    LayoutAt(owner, spec);
    var i := if kind == Search then n else |Batches(spec.searchDomains)| + n;
    assert Stores(SeenMap(owner, spec), keys[i], spec.listen, Seen);
    SeenDomains(keys[i].domains, keys[i].noSearch, spec.listen);
  }

  lemma SeenStored(owner: string, spec: Spec, kind: Kind, w: string)
    requires OwnerName(owner)
    requires forall i :: 0 <= i < |Layout(owner, spec)| ==> |SeenWords(Layout(owner, spec)[i].domains)| <= MAX_VALUES
    ensures StoredWord(SeenMap(owner, spec), owner, kind, w) <==> SomeDomainHas(DomainsOf(spec, kind), w)
  {
    hide KeyName, Batches, Layout, OwnerName, SeenDict, SeenWords, WriteKeys, DomainsIn, SeenMap, SomeDomainHas, Optimal;
    var batches := Batches(DomainsOf(spec, kind));
    SplitBack(DomainsOf(spec, kind));
    HasInBatches(batches, w);
    if n: nat :| KeyName(owner, kind, n) in SeenMap(owner, spec) && w in DomainsIn(SeenMap(owner, spec)[KeyName(owner, kind, n)]) {
      SeenAmong(owner, spec, kind, n);
      LayoutKey(owner, spec, kind, n);
      SeenWordsMember(batches[n], w);
    }
    if n :| 0 <= n < |batches| && SomeDomainHas(batches[n], w) {
      LayoutKey(owner, spec, kind, n);
      SeenWordsMember(batches[n], w);
    }
  }

  lemma SplitBack(domains: seq<string>)
    ensures Flatten(Batches(domains)) == domains
  {
    BatchesOptimal(domains);
  }

  lemma SeenAmong(owner: string, spec: Spec, kind: Kind, n: nat)
    requires OwnerName(owner) && KeyName(owner, kind, n) in SeenMap(owner, spec)
    ensures n < |Batches(DomainsOf(spec, kind))|
  {
    hide KeyName, Batches, Layout, OwnerName, SeenDict, WriteKeys;
    LayoutDistinct(owner, spec);
    WrittenExact(Layout(owner, spec), spec.listen, Seen);
    assert Among(KeyName(owner, kind, n), Layout(owner, spec));
    LayoutNames(owner, spec, kind, n);
  }

  lemma InSlice(store: Store, owner: string, kind: Kind, w: string)
    requires OwnerName(owner)
    ensures StoredWord(store, owner, kind, w) <==> StoredWord(Slice(store, owner), owner, kind, w)
  {
    hide KeyName, DomainsIn, OwnerName;
    forall n: nat ensures OwnerOfKey(KeyName(owner, kind, n)) == owner { KeyNameParses(owner, kind, n); }
    hide OwnerOfKey;
    assert forall n: nat :: KeyName(owner, kind, n) in store <==> KeyName(owner, kind, n) in Slice(store, owner);
  }

  /** A registration without line breaks that lands stores exactly the words of its domains. */
  lemma StoredExactly(store: Store, owner: string, spec: Spec, s: Surroundings, kind: Kind, w: string)
    requires CleanWord(owner) && OneLineSpec(spec)
    ensures Lands(ApplyResult(store, owner, spec, s).1) ==>
              (StoredWord(ApplyResult(store, owner, spec, s).0, owner, kind, w) <==> SomeDomainHas(DomainsOf(spec, kind), w))
  {
    hide StoredWord, SomeDomainHas, ApplyResult, Slice, SeenMap, Layout, SeenWords, OwnerName, CleanWord, OneLineSpec;
    if Lands(ApplyResult(store, owner, spec, s).1) {
      CleanNames(owner);
      ApplyFrame(store, owner, spec, s);
      InSlice(ApplyResult(store, owner, spec, s).0, owner, kind, w);
      LandsWithinLimits(store, owner, spec, s);
      SeenStored(owner, spec, kind, w);
    }
  }

  lemma LandsWithinLimits(store: Store, owner: string, spec: Spec, s: Surroundings)
    requires CleanWord(owner) && OneLineSpec(spec) && Lands(ApplyResult(store, owner, spec, s).1)
    ensures forall i :: 0 <= i < |Layout(owner, spec)| ==> |SeenWords(Layout(owner, spec)[i].domains)| <= MAX_VALUES
  {
    hide Slice, SeenMap, Layout, SeenWords, CleanWord, OneLineSpec, Written, LooksFailed, AllSeenOut, ListFails, Order, Put;
    WrittenPuts(store, Order(s.order, store), owner, spec);
    forall i | 0 <= i < |Layout(owner, spec)| ensures |SeenWords(Layout(owner, spec)[i].domains)| <= MAX_VALUES {
      if |SeenWords(Layout(owner, spec)[i].domains)| > MAX_VALUES { TooManyFails(Layout(owner, spec), i); }
    }
  }

  // ---- domains that are one word each, blanks beside it or not ----

  predicate OneWordEach(domains: seq<string>) {
    forall i :: 0 <= i < |domains| ==> |Words(domains[i])| == 1
  }

  lemma {:induction false} AsManyWords(b: seq<string>)
    requires OneWordEach(b)
    ensures |SeenWords(b)| == |b|
    decreases |b|
  {
    hide Words;
    if b == [] {
      NoWords();
    } else if |b| == 1 {
      assert Join(b, ' ') == b[0];
    } else {
      WordsAppend(b[0], Join(b[1..], ' '));
      AsManyWords(b[1..]);
      assert Join(b, ' ') == b[0] + [' '] + Join(b[1..], ' ');
    }
  }

  lemma {:induction false} QuietKeys(keys: seq<DNSKey>)
    requires forall i :: 0 <= i < |keys| ==> OneWordEach(keys[i].domains) && 1 <= |keys[i].domains| <= MAX_VALUES
    ensures AllSeenOut(keys) == ""
    decreases |keys|
  {
    hide SeenWords, OneWordEach;
    if keys != [] {
      AsManyWords(keys[0].domains);
      QuietKeys(keys[1..]);
    }
  }

  lemma QuietBatches(owner: string, kind: Kind, domains: seq<string>)
    requires OneWordEach(domains)
    ensures forall n :: 0 <= n < |Batches(domains)| ==> OneWordEach(Batches(domains)[n]) && 1 <= |Batches(domains)[n]| <= MAX_VALUES
  {
    BatchesOptimal(domains);
    hide Batches, Words;
    var batches := Batches(domains);
    forall n | 0 <= n < |batches| ensures OneWordEach(batches[n]) && 1 <= |batches[n]| <= MAX_VALUES {
      assert Fits(batches[n]);
      forall j | 0 <= j < |batches[n]| ensures |Words(batches[n][j])| == 1 {
        InFlatten(batches, n, j);
        assert batches[n][j] in domains;
      }
    }
  }

  /** They are registered without a complaint. */
  lemma QuietLayout(owner: string, spec: Spec)
    requires OneWordEach(spec.searchDomains) && OneWordEach(spec.matchDomains)
    ensures AllSeenOut(Layout(owner, spec)) == ""
  {
    hide OneWordEach, KeyName, Batches, AllSeenOut;
    QuietBatches(owner, Search, spec.searchDomains);
    QuietBatches(owner, Match, spec.matchDomains);
    QuietKeys(Layout(owner, spec));
  }
}
