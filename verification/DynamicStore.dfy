/** The shared dynamic store seen as one slice per owner, and the platform operations on it
    (internal/platform/platform_darwin.go:20-118). */
module DynamicStore {
  import opened Text
  import opened Specs
  import opened Batching
  import opened Addresses
  import opened Scutil
  import opened Keys
  import opened HostScripts
  import opened Listings

  // ---- slices ----

  /** The keys of one owner; owner "" collects every key outside the contract. */
  function Slice(store: Store, owner: string): Store {
    map k | k in store && OwnerOfKey(k) == owner :: store[k]
  }

  function Put(store: Store, owner: string, slice: Store): Store {
    (map k | k in store && OwnerOfKey(k) != owner :: store[k]) + slice
  }

  predicate OwnedBy(slice: Store, owner: string) {
    forall k :: k in slice ==> OwnerOfKey(k) == owner
  }

  /** What an owner's keys hold after a registration, whatever they held before. */
  function LayoutMap(owner: string, spec: Spec): Store {
    WriteKeys(map[], Layout(owner, spec), spec.listen, Meant)
  }

  /** The same with the domains as scutil sees them. */
  function SeenMap(owner: string, spec: Spec): Store {
    WriteKeys(map[], Layout(owner, spec), spec.listen, Seen)
  }

  /** Every domain of a registration is one word to scutil. */
  predicate WordSpec(spec: Spec) {
    AllWords(spec.searchDomains) && AllWords(spec.matchDomains)
  }

  /** A script can carry every domain of a registration as it is: one word on one line. */
  predicate FitSpec(spec: Spec) {
    WordSpec(spec) && OneLineSpec(spec)
  }

  lemma CleanFits(spec: Spec)
    requires CleanSpec(spec)
    ensures FitSpec(spec)
  {
    hide Word;
    forall i | 0 <= i < |spec.searchDomains| { CleanIsWord(spec.searchDomains[i]); }
    forall i | 0 <= i < |spec.matchDomains| { CleanIsWord(spec.matchDomains[i]); }
  }

  lemma PutGet(store: Store, owner: string, slice: Store)
    requires OwnedBy(slice, owner)
    ensures Slice(Put(store, owner, slice), owner) == slice
  {
    hide OwnerOfKey;
  }

  lemma PutOther(store: Store, owner: string, slice: Store, other: string)
    requires OwnedBy(slice, owner) && other != owner
    ensures Slice(Put(store, owner, slice), other) == Slice(store, other)
  {
    hide OwnerOfKey;
  }

  lemma PutPut(store: Store, owner: string, slice: Store, slice': Store)
    requires OwnedBy(slice, owner)
    ensures Put(Put(store, owner, slice), owner, slice') == Put(store, owner, slice')
  {
    hide OwnerOfKey;
    var a, b := Put(Put(store, owner, slice), owner, slice'), Put(store, owner, slice');
    assert a.Keys == b.Keys;
  }

  lemma PutSame(store: Store, owner: string)
    ensures Put(store, owner, Slice(store, owner)) == store
  {
    hide OwnerOfKey;
    assert Put(store, owner, Slice(store, owner)).Keys == store.Keys;
  }

  /** A store is determined by its slices. */
  lemma SlicesDetermine(a: Store, b: Store)
    requires forall o :: Slice(a, o) == Slice(b, o)
    ensures a == b
  {
    forall k ensures k in a <==> k in b {
      assert k in a <==> k in Slice(a, OwnerOfKey(k));
      assert k in b <==> k in Slice(b, OwnerOfKey(k));
    }
    forall k | k in a ensures a[k] == b[k] {
      assert a[k] == Slice(a, OwnerOfKey(k))[k];
    }
  }

  // ---- the layout of a spec as store contents ----

  lemma {:induction false} WriteKeysOver(store: Store, keys: seq<DNSKey>, listen: AddrPort, r: Reading)
    ensures WriteKeys(store, keys, listen, r) == store + WriteKeys(map[], keys, listen, r)
    decreases |keys|
  {
    hide KeyDict;
    if keys == [] {
      assert store + map[] == store;
    } else {
      var key, d := keys[0].key, KeyDict(keys[0], listen, r);
      WriteKeysOver(store[key := d], keys[1..], listen, r);
      WriteKeysOver(map[key := d], keys[1..], listen, r);
      var rest := WriteKeys(map[], keys[1..], listen, r);
      assert map[][key := d] == map[key := d];
      assert store[key := d] + rest == store + (map[key := d] + rest);
    }
  }

  predicate DistinctKeys(keys: seq<DNSKey>) {
    forall i, j :: 0 <= i < j < |keys| ==> keys[i].key != keys[j].key
  }

  predicate Stores(w: Store, k: DNSKey, listen: AddrPort, r: Reading) {
    k.key in w && w[k.key] == KeyDict(k, listen, r)
  }

  predicate Among(name: string, keys: seq<DNSKey>) {
    exists i :: 0 <= i < |keys| && keys[i].key == name
  }

  /** A store that holds each of `keys` with its dictionary, and nothing more. */
  predicate Holds(w: Store, keys: seq<DNSKey>, listen: AddrPort, r: Reading) {
    && |w| == |keys|
    && (forall i :: 0 <= i < |keys| ==> Stores(w, keys[i], listen, r))
    && (forall k :: k in w ==> Among(k, keys))
  }

  lemma AmongCons(name: string, keys: seq<DNSKey>)
    requires keys != []
    ensures Among(name, keys) <==> name == keys[0].key || Among(name, keys[1..])
  {
    var tail := keys[1..];
    if Among(name, tail) {
      var i :| 0 <= i < |tail| && tail[i].key == name;
      assert keys[i + 1].key == name;
    }
    forall i | 0 < i < |keys| && keys[i].key == name ensures Among(name, tail) {
      assert tail[i - 1].key == name;
    }
  }

  lemma SizePlusOne(w: Store, key: string, d: Dict)
    requires key !in w
    ensures |w[key := d]| == |w| + 1
  {
    assert w[key := d].Keys == w.Keys + {key};
  }

  lemma StoresMore(w: Store, k: DNSKey, other: DNSKey, listen: AddrPort, r: Reading)
    ensures var w' := w[k.key := KeyDict(k, listen, r)];
            Stores(w', k, listen, r) && (other.key != k.key && Stores(w, other, listen, r) ==> Stores(w', other, listen, r))
  {
    hide KeyDict;
  }

  lemma FirstNotAmongRest(keys: seq<DNSKey>)
    requires keys != [] && DistinctKeys(keys)
    ensures !Among(keys[0].key, keys[1..])
  {
  }

  lemma HoldsCons(rest: Store, keys: seq<DNSKey>, listen: AddrPort, r: Reading)
    requires keys != [] && DistinctKeys(keys) && Holds(rest, keys[1..], listen, r)
    ensures keys[0].key !in rest
    ensures Holds(rest[keys[0].key := KeyDict(keys[0], listen, r)], keys, listen, r)
  {
    hide KeyDict, Among, Stores;
    FirstNotAmongRest(keys);
    var w := rest[keys[0].key := KeyDict(keys[0], listen, r)];
    SizePlusOne(rest, keys[0].key, KeyDict(keys[0], listen, r));
    forall i | 0 <= i < |keys| ensures Stores(w, keys[i], listen, r) {
      assert i > 0 ==> keys[1..][i - 1] == keys[i] && Stores(rest, keys[1..][i - 1], listen, r);
      StoresMore(rest, keys[0], keys[i], listen, r);
    }
    forall k | k in w ensures Among(k, keys) { AmongCons(k, keys); }
  }

  /** Writing distinct keys stores each one's dictionary and nothing more. */
  lemma {:induction false} WrittenExact(keys: seq<DNSKey>, listen: AddrPort, r: Reading)
    requires DistinctKeys(keys)
    ensures Holds(WriteKeys(map[], keys, listen, r), keys, listen, r)
    decreases |keys|
  {
    hide KeyDict;
    if keys != [] {
      WrittenExact(keys[1..], listen, r);
      HoldsCons(WriteKeys(map[], keys[1..], listen, r), keys, listen, r);
      hide Holds, DistinctKeys;
      WriteFirst(keys, listen, r);
    }
  }

  lemma WriteFirst(keys: seq<DNSKey>, listen: AddrPort, r: Reading)
    requires keys != [] && keys[0].key !in WriteKeys(map[], keys[1..], listen, r)
    ensures WriteKeys(map[], keys, listen, r) == WriteKeys(map[], keys[1..], listen, r)[keys[0].key := KeyDict(keys[0], listen, r)]
  {
    hide KeyDict;
    var k, d := keys[0].key, KeyDict(keys[0], listen, r);
    var rest := WriteKeys(map[], keys[1..], listen, r);
    assert WriteKeys(map[], keys, listen, r) == WriteKeys(map[][k := d], keys[1..], listen, r);
    WriteKeysOver(map[][k := d], keys[1..], listen, r);
    assert map[][k := d] + rest == rest[k := d];
  }

  lemma LayoutDistinct(owner: string, spec: Spec)
    requires OwnerName(owner)
    ensures DistinctKeys(Layout(owner, spec))
  {
    var keys := Layout(owner, spec);
    var s := |Batches(spec.searchDomains)|;
    hide KeyName, Batches;
    forall i, j | 0 <= i < j < |keys| ensures keys[i].key != keys[j].key {
      var ki, ni := if i < s then Search else Match, if i < s then i else i - s;
      var kj, nj := if j < s then Search else Match, if j < s then j else j - s;
      assert keys[i].key == KeyName(owner, ki, ni) && keys[j].key == KeyName(owner, kj, nj);
      if keys[i].key == keys[j].key { KeyNameInjective(owner, ki, ni, owner, kj, nj); }
    }
  }

  /** Exactly the keys the layout names, each with its batch, flag and resolver. */
  lemma LayoutExact(owner: string, spec: Spec, kind: Kind, n: nat)
    requires OwnerName(owner)
    ensures var batches := Batches(if kind == Search then spec.searchDomains else spec.matchDomains);
            var w := LayoutMap(owner, spec);
            && (KeyName(owner, kind, n) in w <==> n < |batches|)
            && (n < |batches| ==> w[KeyName(owner, kind, n)] == DictOf(batches[n], kind == Match, spec.listen))
            && |w| == |Batches(spec.searchDomains)| + |Batches(spec.matchDomains)|
  {
    var keys := Layout(owner, spec);
    var sb, mb := Batches(spec.searchDomains), Batches(spec.matchDomains);
    LayoutDistinct(owner, spec);
    WrittenExact(keys, spec.listen, Meant);
    LayoutAt(owner, spec);
    hide KeyName, Batches, DictOf, WriteKeys, Layout, Among;
    var w := LayoutMap(owner, spec);
    if kind == Search && n < |sb| { assert Stores(w, keys[n], spec.listen, Meant); }
    if kind == Match && n < |mb| { assert Stores(w, keys[|sb| + n], spec.listen, Meant); }
    if KeyName(owner, kind, n) in w { LayoutNames(owner, spec, kind, n); }
  }

  /** Every key of the layout, by its position. */
  lemma LayoutAt(owner: string, spec: Spec)
    ensures var keys := Layout(owner, spec);
            var sb, mb := Batches(spec.searchDomains), Batches(spec.matchDomains);
            && |keys| == |sb| + |mb|
            && (forall n :: 0 <= n < |sb| ==> keys[n] == DNSKey(KeyName(owner, Search, n), sb[n], false))
            && (forall n :: 0 <= n < |mb| ==> keys[|sb| + n] == DNSKey(KeyName(owner, Match, n), mb[n], true))
  {
    hide KeyName, Batches;
  }

  lemma LayoutNames(owner: string, spec: Spec, kind: Kind, n: nat)
    requires OwnerName(owner) && Among(KeyName(owner, kind, n), Layout(owner, spec))
    ensures n < |Batches(if kind == Search then spec.searchDomains else spec.matchDomains)|
  {
    var keys := Layout(owner, spec);
    var sb, mb := Batches(spec.searchDomains), Batches(spec.matchDomains);
    LayoutAt(owner, spec);
    hide KeyName, Batches, Layout, OwnerName;
    var i :| 0 <= i < |keys| && keys[i].key == KeyName(owner, kind, n);
    if i < |sb| {
      KeyNameInjective(owner, kind, n, owner, Search, i);
    } else {
      assert keys[|sb| + (i - |sb|)] == keys[i];
      KeyNameInjective(owner, kind, n, owner, Match, i - |sb|);
    }
  }

  lemma LayoutOwned(owner: string, spec: Spec)
    requires OwnerName(owner)
    ensures OwnedBy(LayoutMap(owner, spec), owner) && OwnedBy(SeenMap(owner, spec), owner)
  {
    hide WriteKeys, OwnedBy, OwnerName, Layout;
    WrittenOwned(owner, spec, Meant);
    WrittenOwned(owner, spec, Seen);
  }

  lemma WrittenOwned(owner: string, spec: Spec, r: Reading)
    requires OwnerName(owner)
    ensures OwnedBy(WriteKeys(map[], Layout(owner, spec), spec.listen, r), owner)
  {
    hide KeyName, Batches, KeyDict, WriteKeys, OwnerOfKey, OwnerName, Layout;
    var keys := Layout(owner, spec);
    LayoutDistinct(owner, spec);
    WrittenExact(keys, spec.listen, r);
    LayoutAt(owner, spec);
    var s := |Batches(spec.searchDomains)|;
    forall k | k in WriteKeys(map[], keys, spec.listen, r) ensures OwnerOfKey(k) == owner {
      assert Among(k, keys);
      var i :| 0 <= i < |keys| && keys[i].key == k;
      if i < s {
        KeyNameParses(owner, Search, i);
      } else {
        assert keys[s + (i - s)] == keys[i];
        KeyNameParses(owner, Match, i - s);
      }
    }
  }

  // ---- decoding a slice ----

  function DomainsIn(d: Dict): seq<string> {
    if MATCH_DOMAINS in d && d[MATCH_DOMAINS].Strings? then d[MATCH_DOMAINS].values else []
  }

  function ListenIn(d: Dict): AddrPort {
    AddrPort(
      if SERVER_ADDRESSES in d && d[SERVER_ADDRESSES].Strings? && |d[SERVER_ADDRESSES].values| == 1
      then Undotted(d[SERVER_ADDRESSES].values[0]) else 0,
      if SERVER_PORT in d && d[SERVER_PORT].Number? then d[SERVER_PORT].n else 0)
  }

  function NoSearchIn(d: Dict): bool {
    NO_SEARCH in d && d[NO_SEARCH] == Number(1)
  }

  lemma DictDecodes(domains: seq<string>, noSearch: bool, listen: AddrPort)
    requires listen.addr < U32
    ensures var d := DictOf(domains, noSearch, listen);
            DomainsIn(d) == domains && ListenIn(d) == listen && NoSearchIn(d) == noSearch
  {
    UndottedDotted(listen.addr);
    hide Dotted, Undotted;
    NamesDiffer();
    FourEntries(SERVER_ADDRESSES, Strings([Dotted(listen.addr)]), SERVER_PORT, Number(listen.port),
                MATCH_DOMAINS, Strings(domains), NO_SEARCH, Number(if noSearch then 1 else 0));
  }

  lemma FourEntries(a: string, va: Value, b: string, vb: Value, c: string, vc: Value, d: string, vd: Value)
    requires a != b && a != c && a != d && b != c && b != d && c != d
    ensures var m := map[][a := va][b := vb][c := vc][d := vd];
            a in m && m[a] == va && b in m && m[b] == vb && c in m && m[c] == vc && d in m && m[d] == vd
  {
  }

  /** The domains of an owner's keys of one kind from the n-th on, in key order. */
  function DecodeList(slice: Store, owner: string, kind: Kind, n: nat): seq<string>
    decreases |slice| - n
  {
    if n < |slice| && KeyName(owner, kind, n) in slice then
      DomainsIn(slice[KeyName(owner, kind, n)]) + DecodeList(slice, owner, kind, n + 1)
    else []
  }

  /** The registration a slice stands for, if it has any key. */
  function Decode(slice: Store, owner: string): Option<Spec> {
    var first := if KeyName(owner, Search, 0) in slice then KeyName(owner, Search, 0) else KeyName(owner, Match, 0);
    if first in slice then
      Some(Spec(ListenIn(slice[first]), DecodeList(slice, owner, Search, 0), DecodeList(slice, owner, Match, 0)))
    else None
  }

  lemma {:induction false} DecodeListFrom(owner: string, spec: Spec, kind: Kind, n: nat)
    requires OwnerName(owner) && spec.listen.addr < U32
    requires n <= |Batches(if kind == Search then spec.searchDomains else spec.matchDomains)|
    ensures DecodeList(LayoutMap(owner, spec), owner, kind, n)
            == Flatten(Batches(if kind == Search then spec.searchDomains else spec.matchDomains)[n..])
    decreases |Batches(if kind == Search then spec.searchDomains else spec.matchDomains)| - n
  {
    hide LayoutMap, KeyName, Batches, DictOf, OwnerName, Layout;
    var batches := Batches(if kind == Search then spec.searchDomains else spec.matchDomains);
    LayoutExact(owner, spec, kind, n);
    if n < |batches| {
      DictDecodes(batches[n], kind == Match, spec.listen);
      DecodeListFrom(owner, spec, kind, n + 1);
      assert batches[n..][0] == batches[n] && batches[n..][1..] == batches[n + 1..];
    }
  }

  /** Reading a registration back gives the spec that was registered; nothing reads as nothing. */
  lemma DecodeLayout(owner: string, spec: Spec)
    requires OwnerName(owner) && spec.listen.addr < U32
    ensures Decode(LayoutMap(owner, spec), owner) ==
            if spec.searchDomains == [] && spec.matchDomains == [] then None else Some(spec)
  {
    BatchesOptimal(spec.searchDomains);
    BatchesOptimal(spec.matchDomains);
    DecodeListFrom(owner, spec, Search, 0);
    DecodeListFrom(owner, spec, Match, 0);
    LayoutExact(owner, spec, Search, 0);
    LayoutExact(owner, spec, Match, 0);
    var sb, mb := Batches(spec.searchDomains), Batches(spec.matchDomains);
    assert sb[0..] == sb && mb[0..] == mb;
    hide LayoutMap, KeyName, Batches, DictOf, DecodeList;
    if sb != [] { DictDecodes(sb[0], false, spec.listen); }
    if mb != [] { DictDecodes(mb[0], true, spec.listen); }
    assert sb == [] <==> spec.searchDomains == [];
    assert mb == [] <==> spec.matchDomains == [];
  }

  // ---- the words of a layout are fit for a script ----

  lemma {:induction false} InFlatten(batches: seq<seq<string>>, i: nat, j: nat)
    requires i < |batches| && j < |batches[i]|
    ensures batches[i][j] in Flatten(batches)
  {
    if i > 0 { InFlatten(batches[1..], i - 1, j); }
  }

  lemma BatchesWritable(owner: string, kind: Kind, domains: seq<string>)
    requires AllWords(domains)
    ensures AllWritable(KeysOfBatches(owner, kind, Batches(domains)))
  {
    var batches := Batches(domains);
    BatchesOptimal(domains);
    hide Batches, Word, KeyName;
    var keys := KeysOfBatches(owner, kind, batches);
    forall n | 0 <= n < |keys| ensures Writable(keys[n]) {
      assert Fits(batches[n]);
      forall j | 0 <= j < |batches[n]| ensures Word(batches[n][j]) {
        InFlatten(batches, n, j);
        assert batches[n][j] in domains;
      }
    }
  }

  lemma BatchesOneLined(owner: string, kind: Kind, domains: seq<string>)
    requires CleanWord(owner) && AllFree(domains, '\n')
    ensures AllOneLined(KeysOfBatches(owner, kind, Batches(domains)))
  {
    var batches := Batches(domains);
    BatchesOptimal(domains);
    hide Batches, Free;
    var keys := KeysOfBatches(owner, kind, batches);
    forall n | 0 <= n < |keys| ensures OneLined(keys[n]) {
      NoSpaceKey(Parts(owner, kind, Itoa(n))) by { CleanIsWord(owner); }
      forall j | 0 <= j < |batches[n]| ensures Free(batches[n][j], '\n') {
        InFlatten(batches, n, j);
        assert batches[n][j] in domains;
      }
    }
  }

  lemma LayoutOneLined(owner: string, spec: Spec)
    requires CleanWord(owner) && OneLineSpec(spec)
    ensures AllOneLined(Layout(owner, spec))
  {
    BatchesOneLined(owner, Search, spec.searchDomains);
    BatchesOneLined(owner, Match, spec.matchDomains);
  }

  lemma LayoutWritable(owner: string, spec: Spec)
    requires WordSpec(spec)
    ensures AllWritable(Layout(owner, spec))
  {
    BatchesWritable(owner, Search, spec.searchDomains);
    BatchesWritable(owner, Match, spec.matchDomains);
  }

  // ---- the list step ----

  predicate Enumerates(order: seq<string>, store: Store) {
    Distinct(order) && Elements(order) == store.Keys
  }

  /** Some key of ours in the store makes the whole listing look like a failure. */
  ghost predicate ListFails(store: Store) {
    exists k :: k in store && Listable(k) && Suspicious(k)
  }

  lemma {:induction false} SelectDistinct(order: seq<string>, store: Store, pattern: string)
    requires Distinct(order)
    ensures Distinct(Select(order, store, pattern))
  {
    if order != [] {
      SelectDistinct(order[1..], store, pattern);
      assert order == [order[0]] + order[1..];
    }
  }

  lemma {:induction false} OwnedDistinct(keys: seq<string>, owner: string)
    requires Distinct(keys)
    ensures Distinct(OwnedKeys(keys, owner))
  {
    if keys != [] {
      OwnedDistinct(keys[1..], owner);
      OwnedKeysExact(keys[1..], owner);
      assert keys == [keys[0]] + keys[1..];
    }
  }

  lemma OwnedIsListable(key: string)
    requires OwnerOfKey(key) != ""
    ensures Listable(key)
  {
  }

  function ListOutput(store: Store, order: seq<string>): string {
    RunScript(store, order, ListScript()).out
  }

  function StaleKeys(store: Store, order: seq<string>, owner: string): seq<string> {
    OwnedKeys(ListedKeys(ListOutput(store, order)), owner)
  }

  function Listed(store: Store, order: seq<string>): seq<string> {
    Select(order, store, ListPattern())
  }

  lemma ListedExact(store: Store, order: seq<string>)
    requires Enumerates(order, store)
    ensures Distinct(Listed(store, order))
    ensures forall k :: k in Listed(store, order) <==> k in store && Listable(k)
    ensures ListOutput(store, order) == Unlines(Listing(Listed(store, order)))
  {
    ListScriptRuns(store, order);
    SelectDistinct(order, store, ListPattern());
    hide ListPattern, ListScript, RunScript, Listing, Unlines, Listable;
    forall k ensures k in Listed(store, order) <==> k in store && Listable(k) {
      PatternExact(k);
      assert k in order <==> k in Elements(order);
    }
  }

  lemma ListErrorExact(store: Store, order: seq<string>)
    requires Printable(store) && Enumerates(order, store)
    ensures LooksFailed(ListOutput(store, order)) <==> ListFails(store)
  {
    var keys := Listed(store, order);
    ListedExact(store, order);
    hide Listed, ListOutput, Listable, Suspicious, LooksFailed, Listing, Unlines, Enumerates;
    ListingLooksFailed(keys);
  }

  lemma ListedParses(store: Store, order: seq<string>)
    requires Printable(store) && Enumerates(order, store)
    ensures ListedKeys(ListOutput(store, order)) == Listed(store, order)
  {
    ListedExact(store, order);
    hide Listed, ListOutput, Listable, ListedKeys, Listing, Unlines, Enumerates;
    ListingParses(Listed(store, order));
  }

  lemma StaleExact(store: Store, order: seq<string>, owner: string)
    requires Printable(store) && Enumerates(order, store) && owner != ""
    ensures Distinct(StaleKeys(store, order, owner))
    ensures Elements(StaleKeys(store, order, owner)) == Slice(store, owner).Keys
  {
    hide OwnerOfKey, Listable, ListOutput, Listed, ListedKeys, Listing, Unlines, Enumerates, Printable, OwnedKeys, Distinct, ListPattern;
    var keys := Listed(store, order);
    ListedExact(store, order);
    ListedParses(store, order);
    OwnedDistinct(keys, owner);
    OwnedKeysExact(keys, owner);
    forall k | OwnerOfKey(k) == owner { OwnedIsListable(k); }
  }

  /** In whatever order the store is enumerated, the listing fails for the same reason and
      yields each of the owner's keys once. */
  lemma ListStepExact(store: Store, order: seq<string>, owner: string)
    requires Printable(store) && Enumerates(order, store) && owner != ""
    ensures LooksFailed(ListOutput(store, order)) <==> ListFails(store)
    ensures Distinct(StaleKeys(store, order, owner))
    ensures Elements(StaleKeys(store, order, owner)) == Slice(store, owner).Keys
  {
    ListErrorExact(store, order);
    StaleExact(store, order, owner);
    hide *;
  }

  /** In a store whose owned keys carry blank-free names and whose other keys raise no alarm,
      the listing fails exactly when some owner's name contains "failed". */
  lemma ListFailsExact(store: Store)
    requires forall k :: k in store && Listable(k) ==> OwnerOfKey(k) != "" && NoSpace(OwnerOfKey(k))
    ensures ListFails(store) <==> exists k :: k in store && OwnerOfKey(k) != "" && Contains(ToLower(OwnerOfKey(k)), "failed")
  {
    forall k | k in store && OwnerOfKey(k) != ""
      ensures Listable(k) && (Suspicious(k) <==> Contains(ToLower(OwnerOfKey(k)), "failed"))
    {
      OwnedIsListable(k);
      ParseKeySound(k);
      SuspiciousOwner(ParseKey(k).value);
    }
  }

  // ---- the script step ----

  lemma OwnedClean(key: string, owner: string)
    requires owner != "" && NoSpace(owner) && OwnerOfKey(key) == owner
    ensures CleanWord(key)
  {
    SpaceFree(key);
  }

  /** `keys` lists each key of the owner's slice once. */
  predicate Current(store: Store, owner: string, keys: seq<string>) {
    Distinct(keys) && Elements(keys) == Slice(store, owner).Keys
  }

  /** Running an apply script for the owner's current keys drops its slice and then writes. */
  lemma ApplyScriptWrites(store: Store, order: seq<string>, stale: seq<string>, owner: string, spec: Spec)
    requires CleanWord(owner) && Current(store, owner, stale)
    ensures RunScript(store, order, Unlines(ApplyLines(stale, Layout(owner, spec), spec.listen))) ==
            Written(store - Slice(store, owner).Keys, order, Layout(owner, spec), spec.listen)
  {
    hide Layout, RunScript, ApplyLines, Unlines, Written;
    StaleClean(store, stale, owner);
    ApplyScriptRuns(store, order, stale, Layout(owner, spec), spec.listen);
  }

  lemma StaleClean(store: Store, stale: seq<string>, owner: string)
    requires CleanWord(owner) && Current(store, owner, stale)
    ensures forall k :: k in stale ==> k in store && Word(k) && Free(k, '\n')
  {
    hide OwnerOfKey, NoSpace, Word;
    forall k | k in stale ensures k in store && Word(k) && Free(k, '\n') {
      assert k in Elements(stale);
      CleanIsWord(owner);
      OwnedClean(k, owner);
      CleanIsWord(k);
    }
  }

  /** When every domain fits on its line, that replaces the slice by what scutil sees. */
  lemma WrittenPuts(store: Store, order: seq<string>, owner: string, spec: Spec)
    requires CleanWord(owner) && OneLineSpec(spec)
    ensures var m := Written(store - Slice(store, owner).Keys, order, Layout(owner, spec), spec.listen);
            m.store == Put(store, owner, SeenMap(owner, spec)) && m.out == AllSeenOut(Layout(owner, spec))
  {
    hide Layout, Written, WriteKeys, AllSeenOut, OwnerOfKey;
    var rest := store - Slice(store, owner).Keys;
    LayoutOneLined(owner, spec);
    WrittenRuns(rest, order, Layout(owner, spec), spec.listen);
    WriteKeysOver(rest, Layout(owner, spec), spec.listen, Seen);
    assert rest == (map k | k in store && OwnerOfKey(k) != owner :: store[k]);
  }

  /** Single-word domains are seen as they were meant, and nothing is printed. */
  lemma WordsSeen(owner: string, spec: Spec)
    requires WordSpec(spec)
    ensures SeenMap(owner, spec) == LayoutMap(owner, spec) && AllSeenOut(Layout(owner, spec)) == ""
  {
    hide Layout, WriteKeys, AllSeenOut, WordSpec;
    LayoutWritable(owner, spec);
    WritableSeen(map[], Layout(owner, spec), spec.listen);
  }

  /** scutil can name an owner's keys exactly when the owner's name has no blank in it. */
  lemma OwnedKeyWords(key: string, owner: string)
    requires owner != "" && OwnerOfKey(key) == owner
    ensures Free(owner, ' ') ==> Word(key)
    ensures !Free(owner, ' ') ==> Broken(key)
  {
    ParseKeySound(key);
    hide ParseKey, Words;
    BlankInOwner(ParseKey(key).value);
    OwnedIsListable(key);
    ListableEnds(key);
    hide KeyText;
    if !Free(owner, ' ') { BlankBreaks(key); }
  }

  lemma BlankBreaks(key: string)
    requires !Free(key, ' ') && key[0] != ' ' && key[|key| - 1] != ' '
    ensures Broken(key)
  {
    hide Words;
    var i :| 0 <= i < |key| && key[i] == ' ';
    var x, y := key[..i], key[i + 1..];
    assert key == x + [' '] + y;
    WordsAppend(x, y);
    SomeWord(x, 0);
    SomeWord(y, |y| - 1);
  }

  /** The removal script empties the slice of an owner whose name has no blank in it; of any other
      it removes nothing. Neither looks like a failure. */
  lemma RemoveScriptPuts(store: Store, order: seq<string>, stale: seq<string>, owner: string)
    requires owner != "" && AllFree(stale, '\n') && Current(store, owner, stale)
    ensures var r := RunScript(store, order, Unlines(ApplyLines(stale, [], AddrPort(0, 0))));
            r.store == (if Free(owner, ' ') then Put(store, owner, map[]) else store) && !LooksFailed(r.out)
  {
    hide RunScript, ApplyLines, Unlines, OwnerOfKey, LooksFailed, Word, Broken, Written;
    forall k | k in stale
      ensures k in store && Free(k, '\n') && (Free(owner, ' ') ==> Word(k)) && (!Free(owner, ' ') ==> Broken(k))
    {
      assert k in Elements(stale);
      var i :| 0 <= i < |stale| && stale[i] == k;
      OwnedKeyWords(k, owner);
    }
    if Free(owner, ' ') {
      ApplyScriptRuns(store, order, stale, [], AddrPort(0, 0));
      WrittenRuns(store - Elements(stale), order, [], AddrPort(0, 0));
      QuietOutput();
      assert store - Elements(stale) == Put(store, owner, map[]);
    } else {
      RemovesNothing(store, order, stale);
    }
  }

  lemma RemovesNothing(store: Store, order: seq<string>, stale: seq<string>)
    requires forall k :: k in stale ==> Broken(k) && Free(k, '\n')
    ensures var r := RunScript(store, order, Unlines(ApplyLines(stale, [], AddrPort(0, 0))));
            r.store == store && !LooksFailed(r.out)
  {
    hide RunLines, ApplyLines, RemoveLines, Unlines, Split, Broken, LooksFailed, Complaints;
    var m := Machine(store, map[], "", true);
    var rest := Split(Unlines(AllKeyLines([], AddrPort(0, 0)) + ["quit"]), '\n');
    ApplySplits(stale, [], AddrPort(0, 0));
    RunAppend(m, order, RemoveLines(stale), rest);
    RemoveLinesStuck(m, order, stale);
    QuitText();
    QuitRuns(m.(out := m.out + Complaints(|stale|)), order);
    ComplaintsQuiet(|stale|);
    assert m.out + Complaints(|stale|) == Complaints(|stale|);
  }

  lemma QuitText()
    ensures Split(Unlines(AllKeyLines([], AddrPort(0, 0)) + ["quit"]), '\n') == ["quit", ""]
  {
    SplitUnlines(["quit"]);
    hide Split, Unlines;
    assert AllKeyLines([], AddrPort(0, 0)) + ["quit"] == ["quit"];
    assert ["quit"] + [""] == ["quit", ""];
  }

  function ComplaintLines(n: nat): seq<string> {
    if n == 0 then [] else ["  unknown command"] + ComplaintLines(n - 1)
  }

  lemma {:induction false} ComplaintsAreLines(n: nat)
    ensures Complaints(n) == Unlines(ComplaintLines(n)) && AllFree(ComplaintLines(n), '\n')
    ensures forall i :: 0 <= i < |ComplaintLines(n)| ==> ComplaintLines(n)[i] == "  unknown command"
  {
    if n > 0 {
      ComplaintsAreLines(n - 1);
      assert UNKNOWN_COMMAND == "  unknown command" + "\n";
    }
  }

  lemma ComplaintsQuiet(n: nat)
    ensures !LooksFailed(Complaints(n))
  {
    ComplaintsAreLines(n);
    hide Complaints, ComplaintLines, Split, ErrorLine;
    SplitUnlines(ComplaintLines(n));
    ComplaintIsFine();
  }

  lemma ComplaintIsFine()
    ensures !ErrorLine("  unknown command") && !ErrorLine("")
  {
    ComplaintTrimmed();
    ComplaintIsQuiet();
    hide TrimSpace, Alarming, ToLower;
  }

  lemma ComplaintTrimmed()
    ensures ToLower(TrimSpace("  unknown command")) == "unknown command" && ToLower(TrimSpace("")) == ""
  {
    TrimTwoBlanks("unknown command");
    TrimUnpadded("");
    hide TrimSpace;
    assert "  unknown command" == "  " + "unknown command";
    assert ToLower("unknown command") == "unknown command";
  }

  lemma ComplaintIsQuiet()
    ensures !Alarming("unknown command")
  {
    hide Contains;
    ContainsNeeds("unknown command", "failed", 'f');
    ContainsNeeds("unknown command", "not permitted", 'p');
    ContainsNeeds("unknown command", "permission denied", 'p');
    ContainsNeeds("unknown command", "access denied", 's');
  }

  lemma QuietOutput()
    ensures !LooksFailed("")
  {
    assert Split("", '\n') == [""];
  }

  // ---- the platform operations ----

  datatype HostError = NeedsRoot | ListFailed | WriteFailed | FlushFailed

  /** What the surroundings do to one operation: privilege, which of the processes it runs fail,
      and the order in which scutil happens to enumerate the store. */
  datatype Surroundings = Surroundings(root: bool, listExec: bool, scriptExec: bool, flush: bool, order: seq<string>)

  /** Any order that enumerates the store is possible. */
  ghost function Order(hint: seq<string>, store: Store): (order: seq<string>)
    ensures Enumerates(order, store)
    ensures Enumerates(hint, store) ==> order == hint
  {
    if Enumerates(hint, store) then hint
    else
      StrictIsDistinct(SortedOf(store.Keys));
      SortedOf(store.Keys)
  }

  lemma StrictIsDistinct(s: seq<string>)
    requires StrictlySorted(s)
    ensures Distinct(s)
  {
  }

  /** ApplyHostDNS as a step on the store, whatever the domains contain: an error in the script's
      output does not undo what the script did. */
  ghost function ApplyResult(store: Store, owner: string, spec: Spec, s: Surroundings): (Store, Option<HostError>) {
    if !s.root then (store, Some(NeedsRoot))
    else if s.listExec || ListFails(store) then (store, Some(ListFailed))
    else if Slice(store, owner) == map[] && Layout(owner, spec) == [] then (store, None)
    else if s.scriptExec then (store, Some(WriteFailed))
    else
      var m := Written(store - Slice(store, owner).Keys, Order(s.order, store), Layout(owner, spec), spec.listen);
      (m.store, if LooksFailed(m.out) then Some(WriteFailed) else if s.flush then Some(FlushFailed) else None)
  }

  /** RemoveHostDNS as a step on the store. */
  ghost function RemoveResult(store: Store, owner: string, s: Surroundings): (Store, Option<HostError>) {
    if s.listExec || ListFails(store) then (store, Some(ListFailed))
    else if Slice(store, owner) == map[] then (store, None)
    else if !s.root then (store, Some(NeedsRoot))
    else if s.scriptExec then (store, Some(WriteFailed))
    else (if Free(owner, ' ') then Put(store, owner, map[]) else store, if s.flush then Some(FlushFailed) else None)
  }

  /** The outcome for domains that a script can carry as they are. */
  lemma ApplyWhenFit(store: Store, owner: string, spec: Spec, s: Surroundings)
    requires CleanWord(owner) && FitSpec(spec)
    ensures ApplyResult(store, owner, spec, s) ==
            if !s.root then (store, Some(NeedsRoot))
            else if s.listExec || ListFails(store) then (store, Some(ListFailed))
            else if Slice(store, owner) == map[] && Layout(owner, spec) == [] then (store, None)
            else if s.scriptExec then (store, Some(WriteFailed))
            else (Put(store, owner, LayoutMap(owner, spec)), if s.flush then Some(FlushFailed) else None)
  {
    hide ListFails, Layout, Written, Slice, Put, LooksFailed, WordSpec, CleanWord, LayoutMap, SeenMap, AllSeenOut, OneLineSpec;
    WordsSeen(owner, spec);
    WrittenPuts(store, Order(s.order, store), owner, spec);
    QuietOutput();
  }

  /** The script ran and printed no error; only the cache flush after it may have failed. */
  predicate Lands(err: Option<HostError>) {
    err.None? || err == Some(FlushFailed)
  }

  /** As long as no domain has a line break in it, a registration touches nobody else's key, and
      when it lands the slice is the layout as scutil sees it. */
  lemma ApplyFrame(store: Store, owner: string, spec: Spec, s: Surroundings)
    requires CleanWord(owner) && OneLineSpec(spec)
    ensures var (after, err) := ApplyResult(store, owner, spec, s);
            && (forall other :: other != owner ==> Slice(after, other) == Slice(store, other))
            && (Lands(err) ==> Slice(after, owner) == SeenMap(owner, spec))
  {
    hide ListFails, Layout, Written, Slice, Put, LooksFailed, SeenMap, AllSeenOut, OneLineSpec, OwnerName, CleanWord;
    NothingToWrite(owner, spec);
    WrittenPuts(store, Order(s.order, store), owner, spec);
    CleanNames(owner);
    LayoutOwned(owner, spec);
    PutLaws(store, owner, SeenMap(owner, spec));
  }

  lemma CleanNames(owner: string)
    requires CleanWord(owner)
    ensures OwnerName(owner)
  {
    CleanIsWord(owner);
  }

  /** Replacing a slice sets that slice, leaves every other one, and repeating it changes nothing. */
  lemma PutLaws(store: Store, owner: string, slice: Store)
    requires OwnedBy(slice, owner)
    ensures var after := Put(store, owner, slice);
            && Slice(after, owner) == slice
            && (forall other :: other != owner ==> Slice(after, other) == Slice(store, other))
            && Put(after, owner, slice) == after
            && (Slice(store, owner) == slice ==> after == store)
  {
    hide Put, Slice, OwnedBy;
    PutGet(store, owner, slice);
    PutPut(store, owner, slice, slice);
    PutSame(store, owner);
    forall other | other != owner ensures Slice(Put(store, owner, slice), other) == Slice(store, other) {
      PutOther(store, owner, slice, other);
    }
  }

  lemma NothingToWrite(owner: string, spec: Spec)
    ensures Layout(owner, spec) == [] ==> LayoutMap(owner, spec) == map[] && SeenMap(owner, spec) == map[]
  {
  }

  /** A successful removal empties the owner's slice, unless the owner's name has a blank in it:
      then it reports success and removes nothing. Nobody else's keys change in any case. */
  lemma RemoveMeaning(store: Store, owner: string, s: Surroundings)
    ensures var (after, err) := RemoveResult(store, owner, s);
            && (err.None? ==> (Slice(after, owner) == map[] <==> Free(owner, ' ') || Slice(store, owner) == map[]))
            && (err.None? && Free(owner, ' ') ==> after == Put(store, owner, map[]))
            && (forall other :: other != owner ==> Slice(after, other) == Slice(store, other))
            && (err.Some? && err.value != FlushFailed ==> after == store)
  {
    hide Put, Slice, ListFails, Free;
    NothingOwned(owner);
    PutLaws(store, owner, map[]);
  }

  lemma NothingOwned(owner: string)
    ensures OwnedBy(map[], owner)
  {
  }

  // ---- keys stay free of line breaks ----

  lemma SetKeyFree(line: string, key: string)
    requires Free(line, '\n') && CommandOf(Words(line)) == SetKey(key)
    ensures Free(key, '\n')
  {
    WordsAreWords(line, '\n');
    hide Words;
  }

  lemma {:induction false} RunKeepsPrintable(m: Machine, order: seq<string>, lines: seq<string>)
    requires Printable(m.store) && AllFree(lines, '\n')
    ensures Printable(RunLines(m, order, lines).store)
    decreases |lines|
  {
    if m.live && lines != [] {
      var c := CommandOf(Words(lines[0]));
      if c.SetKey? { SetKeyFree(lines[0], c.key); }
      hide CommandOf, Words, Free, Select, Listing, Unlines;
      RunKeepsPrintable(Exec(m, order, c), order, lines[1..]);
    }
  }

  /** Keys stay free of line breaks through every operation. */
  lemma PrintableKept(store: Store, owner: string, spec: Spec, s: Surroundings)
    requires Printable(store)
    ensures Printable(ApplyResult(store, owner, spec, s).0) && Printable(RemoveResult(store, owner, s).0)
  {
    hide Layout, Slice, ListFails, OwnerOfKey, RunLines, Unlines, AllKeyLines, LooksFailed, Split, Free;
    var rest := store - Slice(store, owner).Keys;
    var text := Unlines(AllKeyLines(Layout(owner, spec), spec.listen) + ["quit"]);
    SplitParts(text, '\n', '\n');
    RunKeepsPrintable(Machine(rest, map[], "", true), Order(s.order, store), Split(text, '\n'));
  }

  // ---- the host ----

  method Enumerate(store: Store, hint: seq<string>) returns (order: seq<string>)
    ensures order == Order(hint, store)
  {
    hide Distinct, Elements, StrictlySorted, SortedOf;
    if Enumerates(hint, store) {
      return hint;
    }
    order := SortedKeys(store);
  }

  method SortedKeys(store: Store) returns (order: seq<string>)
    ensures order == SortedOf(store.Keys)
  {
    hide StrictlySorted, Sort, Sorted;
    order := [];
    var todo := store.Keys;
    while todo != {}
      invariant Distinct(order) && Elements(order) !! todo && Elements(order) + todo == store.Keys
      decreases |todo|
    {
      var k :| k in todo;
      assert forall x :: x in order + [k] <==> x in order || x == k;
      order := order + [k];
      todo := todo - {k};
    }
    SortDistinct(order);
    StrictUnique(Sort(order), SortedOf(store.Keys));
    order := Sort(order);
  }

  /** The script ran on a store enumerated in some order, and its output decided the outcome. */
  predicate Ran(before: Store, order: seq<string>, script: string, after: Store, r: Result<string, string>) {
    var m := RunScript(before, order, script);
    && Enumerates(order, before)
    && after == m.store
    && (r.Err? <==> LooksFailed(m.out))
    && (r.Ok? ==> r.value == m.out)
  }

  lemma OwnedFree(store: Store, owner: string, keys: seq<string>)
    requires Printable(store) && owner != ""
    ensures Current(store, owner, keys) ==> AllFree(keys, '\n')
  {
    hide OwnerOfKey, Listable, Distinct;
    if Current(store, owner, keys) {
      forall i | 0 <= i < |keys| ensures Free(keys[i], '\n') {
        assert keys[i] in Elements(keys);
        OwnedIsListable(keys[i]);
      }
    }
  }

  lemma OwnedNow(store: Store, order: seq<string>, owner: string, keys: seq<string>)
    requires Printable(store) && owner != "" && Enumerates(order, store)
    requires keys == OwnedKeys(ListedKeys(ListOutput(store, order)), owner)
    ensures Current(store, owner, keys) && AllFree(keys, '\n')
    ensures keys == [] <==> Slice(store, owner) == map[]
  {
    OwnedFree(store, owner, keys);
    hide Printable, Enumerates, ListOutput, ListedKeys, OwnedKeys, LooksFailed, ListFails, OwnerOfKey;
    ListStepExact(store, order, owner);
    EmptyElements(keys);
  }

  /** The host: its dynamic store, reached only by running scutil scripts. */
  class Host {
    var store: Store

    constructor (initial: Store)
      ensures store == initial
    {
      store := initial;
    }

    /** One scutil process: a start failure, or the script's output judged by its text. */
    method RunScutil(script: string, execFails: bool, hint: seq<string>) returns (r: Result<string, string>)
      modifies this
      ensures execFails ==> r.Err? && store == old(store)
      ensures !execFails ==> Ran(old(store), Order(hint, old(store)), script, store, r)
    {
      if execFails {
        return Err("scutil");
      }
      var order := Enumerate(store, hint);
      var m := RunScript(store, order, script);
      store := m.store;
      var serr := ScutilOutputError(m.out);
      r := if serr.Some? then Err(serr.value) else Ok(m.out);
    }

    method ListMultibirdKeys(execFails: bool, hint: seq<string>) returns (r: Result<seq<string>, string>)
      requires Printable(store)
      modifies this
      ensures store == old(store)
      ensures r.Err? <==> execFails || ListFails(store)
      ensures r.Ok? ==> r.value == ListedKeys(ListOutput(store, Order(hint, store)))
    {
      hide Printable, Enumerates, Order, RunScript, ListFails, LooksFailed, ListedKeys, Unlines, Listing, Select, ListScript;
      var out := RunScutil(ListScript(), execFails, hint);
      if !execFails {
        ghost var order := Order(hint, old(store));
        ListScriptRuns(old(store), order);
        ListStepExact(old(store), order, "owner");
      }
      if out.Err? {
        return Err(out.error);
      }
      var keys := ParseListedKeys(out.value);
      return Ok(keys);
    }

    method ApplyHostDNS(instanceName: string, spec: Spec, s: Surroundings) returns (err: Option<HostError>)
      requires Printable(store) && CleanWord(instanceName)
      modifies this
      ensures (store, err) == ApplyResult(old(store), instanceName, spec, s)
    {
      hide Slice, Layout, ListFails, CleanWord, Enumerates, Order, ListOutput, ListedKeys, OwnedKeys, ApplyLines, Unlines, Printable,
           RunScript, Written, LooksFailed, Current;
      if !s.root {
        return Some(NeedsRoot);
      }
      var existing := ListMultibirdKeys(s.listExec, s.order);
      if existing.Err? {
        return Some(ListFailed);
      }
      ghost var order := Order(s.order, store);
      var stale := KeysOfInstance(existing.value, instanceName);
      var keys := HostDNSKeys(instanceName, spec);
      NotEmpty(instanceName);
      OwnedNow(store, order, instanceName, stale);
      if |stale| == 0 && |keys| == 0 {
        return None;
      }
      var script := RenderApplyScript(stale, keys, spec.listen);
      ApplyScriptWrites(store, order, stale, instanceName, spec);
      var r := RunScutil(script, s.scriptExec, s.order);
      if r.Err? {
        return Some(WriteFailed);
      }
      if s.flush {
        return Some(FlushFailed);
      }
      return None;
    }

    method RemoveHostDNS(instanceName: string, s: Surroundings) returns (err: Option<HostError>)
      requires Printable(store) && instanceName != ""
      modifies this
      ensures (store, err) == RemoveResult(old(store), instanceName, s)
    {
      hide Put, Slice, ListFails, Enumerates, Order, ListOutput, ListedKeys, OwnedKeys, ApplyLines, Unlines, Printable, RunScript,
           LooksFailed, Current, Free;
      var existing := ListMultibirdKeys(s.listExec, s.order);
      if existing.Err? {
        return Some(ListFailed);
      }
      ghost var order := Order(s.order, store);
      var keys := KeysOfInstance(existing.value, instanceName);
      OwnedNow(store, order, instanceName, keys);
      if |keys| == 0 {
        return None;
      }
      if !s.root {
        return Some(NeedsRoot);
      }
      var script := RenderRemoveScript(keys);
      RemoveScriptPuts(store, order, keys, instanceName);
      var r := RunScutil(script, s.scriptExec, s.order);
      if r.Err? {
        return Some(WriteFailed);
      }
      if s.flush {
        return Some(FlushFailed);
      }
      return None;
    }

    /** The sorted names with registered keys: exactly the owners present in the store. */
    method ListHostDNSOwners(execFails: bool, hint: seq<string>) returns (r: Result<seq<string>, string>)
      requires Printable(store)
      modifies this
      ensures store == old(store)
      ensures r.Err? <==> execFails || ListFails(store)
      ensures r.Ok? ==> StrictlySorted(r.value) && Elements(r.value) == Owners(store)
    {
      hide Printable, ListFails, ListedKeys, ListOutput, OwnerOfKey, OwnerSet, StrictlySorted;
      var keys := ListMultibirdKeys(execFails, hint);
      if keys.Err? {
        return Err(keys.error);
      }
      ListedOwners(store, Order(hint, store));
      var owners := OwnersFromKeys(keys.value);
      return Ok(owners);
    }
  }

  lemma NotEmpty(owner: string)
    requires CleanWord(owner)
    ensures owner != ""
  {
  }

  lemma EmptyElements(s: seq<string>)
    ensures s == [] <==> Elements(s) == {}
  {
    if s != [] { FirstElement(s); }
  }

  /** The owners of the keys in a store. */
  function Owners(store: Store): set<string> {
    set k | k in store && OwnerOfKey(k) != "" :: OwnerOfKey(k)
  }

  lemma ListedOwners(store: Store, order: seq<string>)
    requires Printable(store) && Enumerates(order, store)
    ensures OwnerSet(ListedKeys(ListOutput(store, order))) == Owners(store)
  {
    var listed := Listed(store, order);
    ListedExact(store, order);
    ListedParses(store, order);
    hide Listed, ListOutput, ListedKeys, Listing, Unlines, Enumerates, Printable;
    SameOwners(listed, store);
  }

  lemma SameOwners(listed: seq<string>, store: Store)
    requires forall k :: k in listed <==> k in store && Listable(k)
    ensures OwnerSet(listed) == Owners(store)
  {
    forall k | OwnerOfKey(k) != "" ensures Listable(k) { OwnedIsListable(k); }
    hide OwnerOfKey, Listable;
    forall o | o in Owners(store) ensures o in OwnerSet(listed) {
      var k :| k in store && OwnerOfKey(k) != "" && o == OwnerOfKey(k);
      assert k in listed;
      var i :| 0 <= i < |listed| && listed[i] == k;
      assert OwnerOfKey(listed[i]) == o;
    }
    forall o | o in OwnerSet(listed) ensures o in Owners(store) {
      var i :| 0 <= i < |listed| && OwnerOfKey(listed[i]) != "" && o == OwnerOfKey(listed[i]);
      assert listed[i] in listed;
    }
  }
}
