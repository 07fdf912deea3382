/** What a registration leaves of its owner's keys, whatever its domains contain
    (internal/platform/platform_darwin.go:62-86, internal/platform/scutil.go:93-117). */
module Registrations {
  import opened Text
  import opened Specs
  import opened Batching
  import opened Addresses
  import opened Scutil
  import opened Keys
  import opened HostScripts
  import opened Listings
  import opened DynamicStore
  import opened OwnKeys

  /** What the owner's keys hold once the script that registers `spec` has run. */
  function LeavesMap(owner: string, spec: Spec): Store {
    Slice(Written(map[], [], Layout(owner, spec), spec.listen).store, owner)
  }

  // ---- nothing else in the store plays a part ----

  /** Two machines that differ at most in other owners' keys and in what they printed. */
  predicate SameOwn(m: Machine, m': Machine, owner: string) {
    m.dict == m'.dict && m.live == m'.live && Slice(m.store, owner) == Slice(m'.store, owner)
  }

  lemma SliceSet(store: Store, key: string, d: Dict, owner: string)
    ensures Slice(store[key := d], owner) == if OwnerOfKey(key) == owner then Slice(store, owner)[key := d] else Slice(store, owner)
  {
    hide OwnerOfKey;
  }

  lemma SliceRemove(store: Store, key: string, owner: string)
    ensures Slice(store - {key}, owner) == Slice(store, owner) - {key}
    ensures key !in store ==> Slice(store, owner) - {key} == Slice(store, owner)
  {
    hide OwnerOfKey;
  }

  lemma SameOwnExec(m: Machine, order: seq<string>, m': Machine, order': seq<string>, c: Command, owner: string)
    requires SameOwn(m, m', owner)
    ensures SameOwn(Exec(m, order, c), Exec(m', order', c), owner)
  {
    hide Slice, OwnerOfKey, Listing, Select, Unlines;
    if c.SetKey? {
      SliceSet(m.store, c.key, m.dict, owner);
      SliceSet(m'.store, c.key, m'.dict, owner);
    }
    if c.RemoveKey? {
      SliceRemove(m.store, c.key, owner);
      SliceRemove(m'.store, c.key, owner);
    }
  }

  lemma {:induction false} SameOwnRun(m: Machine, order: seq<string>, m': Machine, order': seq<string>, lines: seq<string>, owner: string)
    requires SameOwn(m, m', owner)
    ensures SameOwn(RunLines(m, order, lines), RunLines(m', order', lines), owner)
    decreases |lines|
  {
    hide Slice, Exec, CommandOf, Words;
    if m.live && lines != [] {
      var c := CommandOf(Words(lines[0]));
      SameOwnExec(m, order, m', order', c, owner);
      SameOwnRun(Exec(m, order, c), order, Exec(m', order', c), order', lines[1..], owner);
    }
  }

  lemma WrittenLeaves(store: Store, order: seq<string>, owner: string, spec: Spec)
    ensures Slice(Written(store - Slice(store, owner).Keys, order, Layout(owner, spec), spec.listen).store, owner) == LeavesMap(owner, spec)
  {
    hide Slice, Layout, RunLines, Split, Unlines, AllKeyLines;
    var rest := store - Slice(store, owner).Keys;
    NoneLeft(store, owner);
    SameOwnRun(Machine(rest, map[], "", true), order, Machine(map[], map[], "", true), [],
               Split(Unlines(AllKeyLines(Layout(owner, spec), spec.listen) + ["quit"]), '\n'), owner);
  }

  lemma NoneLeft(store: Store, owner: string)
    ensures Slice(store - Slice(store, owner).Keys, owner) == Slice(map[], owner)
  {
    hide OwnerOfKey;
  }

  lemma NothingLeaves(owner: string, spec: Spec)
    ensures Layout(owner, spec) == [] ==> LeavesMap(owner, spec) == map[]
  {
    hide Layout, RunLines, Split, Unlines;
    QuitText();
    QuitRuns(Machine(map[], map[], "", true), []);
  }

  /** Without line breaks that is the layout as scutil sees it. */
  lemma OneLineLeaves(owner: string, spec: Spec)
    requires CleanWord(owner) && OneLineSpec(spec)
    ensures LeavesMap(owner, spec) == SeenMap(owner, spec) && OwnedBy(SeenMap(owner, spec), owner)
  {
    hide Slice, Layout, Written, SeenMap, OneLineSpec, CleanWord, OwnedBy, Put, AllSeenOut, OwnerName;
    CleanNames(owner);
    LayoutOwned(owner, spec);
    WrittenPuts(map[], [], owner, spec);
    WrittenLeaves(map[], [], owner, spec);
    PutLaws(map[], owner, SeenMap(owner, spec));
  }

  // ---- what is stored was read off single lines ----

  /** Every list in a dictionary is made of words without line breaks. */
  predicate ReadOff(d: Dict) {
    forall n :: n in d && d[n].Strings? ==> AllWords(d[n].values) && AllFree(d[n].values, '\n')
  }

  lemma ExecReadsOff(m: Machine, order: seq<string>, line: string)
    requires Free(line, '\n') && ReadOff(m.dict) && forall k :: k in m.store ==> ReadOff(m.store[k])
    ensures var m' := Exec(m, order, CommandOf(Words(line)));
            ReadOff(m'.dict) && forall k :: k in m'.store ==> ReadOff(m'.store[k])
  {
    hide Words, Listing, Select, Unlines, AllDigits, Atoi, Word, Free;
    WordsAreWords(line, '\n');
  }

  lemma {:induction false} RunReadsOff(m: Machine, order: seq<string>, lines: seq<string>)
    requires AllFree(lines, '\n') && ReadOff(m.dict) && forall k :: k in m.store ==> ReadOff(m.store[k])
    ensures forall k :: k in RunLines(m, order, lines).store ==> ReadOff(RunLines(m, order, lines).store[k])
    decreases |lines|
  {
    hide ReadOff, Exec, CommandOf, Words, Free;
    if m.live && lines != [] {
      ExecReadsOff(m, order, lines[0]);
      RunReadsOff(Exec(m, order, CommandOf(Words(lines[0]))), order, lines[1..]);
    }
  }

  lemma LeavesReadOff(owner: string, spec: Spec)
    ensures forall k :: k in LeavesMap(owner, spec) ==> ReadOff(LeavesMap(owner, spec)[k])
  {
    hide Layout, RunLines, Split, Unlines, AllKeyLines, ReadOff, OwnerOfKey;
    var text := Unlines(AllKeyLines(Layout(owner, spec), spec.listen) + ["quit"]);
    SplitParts(text, '\n', '\n');
    NothingReadOff();
    RunReadsOff(Machine(map[], map[], "", true), [], Split(text, '\n'));
  }

  lemma NothingReadOff()
    ensures ReadOff(map[])
  {
  }

  lemma DictReadOff(domains: seq<string>, noSearch: bool, listen: AddrPort)
    requires ReadOff(DictOf(domains, noSearch, listen))
    ensures AllWords(domains) && AllFree(domains, '\n')
  {
    hide Dotted, AllWords, AllFree;
    NamesDiffer();
    FourEntries(SERVER_ADDRESSES, Strings([Dotted(listen.addr)]), SERVER_PORT, Number(listen.port),
                MATCH_DOMAINS, Strings(domains), NO_SEARCH, Number(if noSearch then 1 else 0));
  }

  // ---- when that is what was meant ----

  /** The keys hold exactly what was meant if and only if every domain is one word on one line. */
  lemma LeftAsMeantExactly(owner: string, spec: Spec)
    requires CleanWord(owner)
    ensures LeavesMap(owner, spec) == LayoutMap(owner, spec) <==> FitSpec(spec)
  {
    hide LeavesMap, LayoutMap, SeenMap, WordSpec, CleanWord, OwnedBy, Layout, AllSeenOut;
    if FitSpec(spec) {
      OneLineLeaves(owner, spec);
      WordsSeen(owner, spec);
    }
    if LeavesMap(owner, spec) == LayoutMap(owner, spec) {
      LeavesReadOff(owner, spec);
      ReadOffFits(owner, spec, Search);
      ReadOffFits(owner, spec, Match);
      BothFit(spec);
    }
  }

  lemma BothFit(spec: Spec)
    requires AllWords(spec.searchDomains) && AllFree(spec.searchDomains, '\n')
    requires AllWords(spec.matchDomains) && AllFree(spec.matchDomains, '\n')
    ensures FitSpec(spec)
  {
  }

  lemma ReadOffFits(owner: string, spec: Spec, kind: Kind)
    requires CleanWord(owner) && forall k :: k in LayoutMap(owner, spec) ==> ReadOff(LayoutMap(owner, spec)[k])
    ensures var domains := if kind == Search then spec.searchDomains else spec.matchDomains;
            AllWords(domains) && AllFree(domains, '\n')
  {
    hide Batches, LayoutMap, KeyName, AllWords, AllFree, DictOf, ReadOff, OwnerName, CleanWord;
    var batches := Batches(if kind == Search then spec.searchDomains else spec.matchDomains);
    CleanNames(owner);
    forall n | 0 <= n < |batches| ensures AllWords(batches[n]) && AllFree(batches[n], '\n') {
      LayoutExact(owner, spec, kind, n);
      DictReadOff(batches[n], kind == Match, spec.listen);
    }
    BatchesFit(if kind == Search then spec.searchDomains else spec.matchDomains);
  }

  lemma BatchesFit(domains: seq<string>)
    requires forall n :: 0 <= n < |Batches(domains)| ==> AllWords(Batches(domains)[n]) && AllFree(Batches(domains)[n], '\n')
    ensures AllWords(domains) && AllFree(domains, '\n')
  {
    BatchesOptimal(domains);
    hide Batches;
    FlattenFits(Batches(domains));
  }

  lemma {:induction false} FlattenFits(batches: seq<seq<string>>)
    requires forall n :: 0 <= n < |batches| ==> AllWords(batches[n]) && AllFree(batches[n], '\n')
    ensures AllWords(Flatten(batches)) && AllFree(Flatten(batches), '\n')
  {
    hide Word, Free;
    if batches != [] { FlattenFits(batches[1..]); }
  }

  // ---- the operation ----

  /** Running the script rendered from the owner's current keys leaves its slice as just said; when
      no domain has a line break it replaces exactly that slice, and prints nothing when each is
      one word too. */
  lemma ApplyScriptPuts(store: Store, order: seq<string>, stale: seq<string>, owner: string, spec: Spec)
    requires CleanWord(owner) && Current(store, owner, stale)
    ensures var r := RunScript(store, order, Unlines(ApplyLines(stale, Layout(owner, spec), spec.listen)));
            && Slice(r.store, owner) == LeavesMap(owner, spec)
            && (OneLineSpec(spec) ==> r.store == Put(store, owner, SeenMap(owner, spec)) && r.out == AllSeenOut(Layout(owner, spec)))
            && (FitSpec(spec) ==> r.store == Put(store, owner, LayoutMap(owner, spec)) && r.out == "")
  {
    hide LeavesMap, RunScript, Slice, Put, LayoutMap, SeenMap, WordSpec, OneLineSpec, AllSeenOut, Layout, Written, Unlines, ApplyLines,
         Current, CleanWord;
    ApplyScriptWrites(store, order, stale, owner, spec);
    WrittenLeaves(store, order, owner, spec);
    if OneLineSpec(spec) { WrittenPuts(store, order, owner, spec); }
    if FitSpec(spec) { WordsSeen(owner, spec); }
  }

  lemma ApplyLeaves(store: Store, owner: string, spec: Spec, s: Surroundings)
    ensures Lands(ApplyResult(store, owner, spec, s).1) ==>
              Slice(ApplyResult(store, owner, spec, s).0, owner) == LeavesMap(owner, spec)
  {
    hide ListFails, Layout, Written, Slice, LooksFailed, LeavesMap;
    NothingLeaves(owner, spec);
    WrittenLeaves(store, Order(s.order, store), owner, spec);
  }

  /** A registration that lands leaves exactly the layout if and only if every domain is one word
      on one line; then it decodes to the registration, and an error other than a failed cache
      flush means that nothing was written. Doing it again leaves the same. Keys of other
      instances stay in any case if the domains are in lower case or on one line, foreign keys
      and with them the whole store on repetition if they are on one line. */
  lemma ApplyMeaning(store: Store, owner: string, spec: Spec, s: Surroundings, again: Surroundings)
    requires CleanWord(owner)
    ensures var (after, err) := ApplyResult(store, owner, spec, s);
            var (later, err') := ApplyResult(after, owner, spec, again);
            && (Lands(err) ==> (Slice(after, owner) == LayoutMap(owner, spec) <==> FitSpec(spec)))
            && (Lands(err) && FitSpec(spec) && spec.listen.addr < U32 ==>
                  Decode(Slice(after, owner), owner) == if spec.searchDomains == [] && spec.matchDomains == [] then None else Some(spec))
            && (FitSpec(spec) && !Lands(err) ==> after == store)
            && (Lands(err) && Lands(err') ==> Slice(later, owner) == Slice(after, owner))
            && (Lands(err) && OneLineSpec(spec) ==> later == after)
            && (LowerSpec(spec) || OneLineSpec(spec) ==>
                  forall other :: other != owner && other != "" ==> Slice(after, other) == Slice(store, other))
            && (OneLineSpec(spec) ==> Slice(after, "") == Slice(store, ""))
  {
    hide LeavesMap, LayoutMap, Decode, Slice, ApplyResult, WordSpec, OneLineSpec, LowerSpec, CleanWord, OwnerName, Layout, Put, ListFails;
    var (after, err) := ApplyResult(store, owner, spec, s);
    LeftAsMeantExactly(owner, spec);
    CleanNames(owner);
    if spec.listen.addr < U32 { DecodeLayout(owner, spec); }
    ApplyLeaves(store, owner, spec, s);
    ApplyLeaves(after, owner, spec, again);
    if FitSpec(spec) { ApplyWhenFit(store, owner, spec, s); }
    if LowerSpec(spec) {
      forall other | other != owner && other != "" ensures Slice(after, other) == Slice(store, other) {
        OthersUntouched(store, owner, spec, s, other);
      }
    }
    if OneLineSpec(spec) {
      NamedOwner(owner);
      ApplyFrame(store, owner, spec, s);
      if Lands(err) { ApplyTwice(after, owner, spec, again); }
    }
  }

  lemma NamedOwner(owner: string)
    requires CleanWord(owner)
    ensures owner != ""
  {
  }

  lemma ApplyTwice(store: Store, owner: string, spec: Spec, s: Surroundings)
    requires CleanWord(owner) && OneLineSpec(spec) && Slice(store, owner) == SeenMap(owner, spec)
    ensures ApplyResult(store, owner, spec, s).0 == store
  {
    hide Slice, Layout, Written, ListFails, Put, SeenMap, OwnedBy, OwnerName, OneLineSpec, LooksFailed, CleanWord, AllSeenOut;
    CleanNames(owner);
    LayoutOwned(owner, spec);
    WrittenPuts(store, Order(s.order, store), owner, spec);
    PutLaws(store, owner, SeenMap(owner, spec));
  }

  // ---- success and failure ----

  lemma EmptyLayout(owner: string, spec: Spec)
    ensures Layout(owner, spec) == [] <==> spec.searchDomains == [] && spec.matchDomains == []
  {
    BatchesOptimal(spec.searchDomains);
    BatchesOptimal(spec.matchDomains);
    hide Batches, KeyName;
  }

  /** Registering fit domains succeeds exactly with root, a listing that works, and, unless there
      was and is nothing to register, a scutil that starts and a cache that can be flushed; the
      error otherwise is the first of these that is missing. */
  lemma ApplySucceedsExactly(store: Store, owner: string, spec: Spec, s: Surroundings)
    requires CleanWord(owner) && FitSpec(spec)
    ensures var err := ApplyResult(store, owner, spec, s).1;
            var idle := Slice(store, owner) == map[] && spec.searchDomains == [] && spec.matchDomains == [];
            && (err == None <==> s.root && !s.listExec && !ListFails(store) && (idle || (!s.scriptExec && !s.flush)))
            && (err == Some(NeedsRoot) <==> !s.root)
            && (err == Some(ListFailed) <==> s.root && (s.listExec || ListFails(store)))
  {
    hide ListFails, Slice, Layout, Put, LayoutMap, FitSpec, CleanWord, ApplyResult;
    ApplyWhenFit(store, owner, spec, s);
    EmptyLayout(owner, spec);
  }

  /** Removing needs a listing that works and, only when there is something to remove, root, a
      scutil that starts and a cache that can be flushed. */
  lemma RemoveSucceedsExactly(store: Store, owner: string, s: Surroundings)
    ensures var err := RemoveResult(store, owner, s).1;
            var idle := Slice(store, owner) == map[];
            && (err == None <==> !s.listExec && !ListFails(store) && (idle || (s.root && !s.scriptExec && !s.flush)))
            && (err == Some(NeedsRoot) <==> !s.listExec && !ListFails(store) && !idle && !s.root)
            && (err == Some(ListFailed) <==> s.listExec || ListFails(store))
  {
    hide ListFails, Slice, Put, Free;
  }

  /** Keys that vanish raise no alarm. */
  lemma RemovalsStayQuiet(store: Store, owner: string, s: Surroundings)
    ensures ListFails(RemoveResult(store, owner, s).0) ==> ListFails(store)
  {
    hide Listable, Suspicious, Free, OwnerOfKey;
    if ListFails(RemoveResult(store, owner, s).0) {
      var k :| k in RemoveResult(store, owner, s).0 && Listable(k) && Suspicious(k);
      assert k in store;
    }
  }
}
