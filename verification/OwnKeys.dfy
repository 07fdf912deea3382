/** Why a registration cannot touch another instance's keys, whatever its domains contain: a line
    break in one can add commands to the script, but canonical domains are in lower case and the
    keys of instances are not (internal/platform/scutil.go:93-117 with
    internal/hostdns/hostdns.go:124-127). */
module OwnKeys {
  import opened Text
  import opened Specs
  import opened Batching
  import opened Scutil
  import opened Keys
  import opened HostScripts
  import opened Listings
  import opened DynamicStore

  /** A command that writes or removes a key at most of its owner or of nobody. */
  predicate Harmless(c: Command, owner: string) {
    (c.SetKey? || c.RemoveKey?) ==> OwnerOfKey(c.key) == owner || OwnerOfKey(c.key) == ""
  }

  predicate Tame(line: string, owner: string) {
    Harmless(CommandOf(Words(line)), owner)
  }

  predicate AllTame(lines: seq<string>, owner: string) {
    forall i :: 0 <= i < |lines| ==> Tame(lines[i], owner)
  }

  // ---- what tame lines do ----

  lemma TameExec(m: Machine, order: seq<string>, c: Command, owner: string, other: string)
    requires Harmless(c, owner) && other != owner && other != ""
    ensures Slice(Exec(m, order, c).store, other) == Slice(m.store, other)
  {
    hide OwnerOfKey, Listing, Select, Unlines;
  }

  lemma {:induction false} TameRun(m: Machine, order: seq<string>, lines: seq<string>, owner: string, other: string)
    requires AllTame(lines, owner) && other != owner && other != ""
    ensures Slice(RunLines(m, order, lines).store, other) == Slice(m.store, other)
    decreases |lines|
  {
    hide CommandOf, Words, Slice, Exec, Harmless;
    if m.live && lines != [] {
      assert Tame(lines[0], owner);
      TameExec(m, order, CommandOf(Words(lines[0])), owner, other);
      TameRun(Exec(m, order, CommandOf(Words(lines[0]))), order, lines[1..], owner, other);
    }
  }

  // ---- which lines are tame ----

  /** Keys of instances have a capital letter in them. */
  lemma OwnedHasCapital(key: string)
    ensures OwnerOfKey(key) != "" ==> !Free(key, 'S')
  {
    hide Unwrap, ParseBody;
    if OwnerOfKey(key) != "" {
      OwnedIsListable(key);
      ListableEnds(key);
    }
  }

  lemma FreeIsTame(line: string, owner: string)
    requires Free(line, 'S')
    ensures Tame(line, owner)
  {
    hide Words, OwnerOfKey;
    WordsAreWords(line, 'S');
    var c := CommandOf(Words(line));
    if c.SetKey? || c.RemoveKey? { OwnedHasCapital(c.key); }
  }

  lemma AddIsTame(rest: string, owner: string)
    ensures Tame("d.add " + rest, owner)
  {
    hide OwnerOfKey;
    assert "d.add " + rest == "d.add" + [' '] + rest;
    WordsAppend("d.add", rest);
    OneWord("d.add");
    hide Words;
    assert (["d.add"] + Words(rest))[0] == "d.add";
  }

  lemma SetIsTame(key: string, owner: string)
    requires Word(key) && OwnerOfKey(key) == owner
    ensures Tame("set " + key, owner)
  {
    hide OwnerOfKey, Words, CommandOf;
    SetCommand(key);
  }

  lemma OneTame(line: string, owner: string)
    requires Tame(line, owner) && Free(line, '\n')
    ensures AllTame(Split(line, '\n'), owner)
  {
    hide Tame, Split;
    SplitFree(line, '\n');
  }

  /** Text after a line's beginning can only lengthen its first part. */
  lemma {:induction false} SplitAfter(before: string, text: string)
    requires Free(before, '\n')
    ensures var a, b := Split(before + text, '\n'), Split(text, '\n');
            a == [before + b[0]] + b[1..]
    decreases |before|
  {
    if before == "" {
      var b := Split(text, '\n');
      assert before + text == text && "" + b[0] == b[0] && b == [b[0]] + b[1..];
    } else {
      assert (before + text)[1..] == before[1..] + text;
      SplitAfter(before[1..], text);
      hide Split;
      var b := Split(text, '\n');
      assert [before[0]] + (before[1..] + b[0]) == before + b[0];
    }
  }

  lemma DomainsTame(domains: seq<string>, owner: string)
    requires AllFree(domains, 'S')
    ensures AllTame(Split(DomainsLine(domains), '\n'), owner)
  {
    hide Tame, Split, Join;
    var text := Join(domains, ' ');
    JoinFree(domains, ' ', 'S');
    SplitParts(text, '\n', 'S');
    var before := "d.add " + (MATCH_DOMAINS + " * ");
    assert DomainsLine(domains) == before + text;
    SplitAfter(before, text);
    var parts := Split(text, '\n');
    AddIsTame(MATCH_DOMAINS + " * " + parts[0], owner);
    assert before + parts[0] == "d.add " + (MATCH_DOMAINS + " * " + parts[0]);
    forall i | 1 <= i < |parts| ensures Tame(parts[i], owner) { FreeIsTame(parts[i], owner); }
  }

  /** A key that the owner's script may write. */
  predicate OwnKey(k: DNSKey, owner: string) {
    CleanWord(k.key) && OwnerOfKey(k.key) == owner && AllFree(k.domains, 'S')
  }

  lemma {:induction false} LinesTame(lines: seq<string>, owner: string)
    requires forall i :: 0 <= i < |lines| ==> AllTame(Split(lines[i], '\n'), owner)
    ensures AllTame(Split(Unlines(lines), '\n'), owner)
  {
    hide Split, Unlines, Tame;
    if lines == [] {
      NoLines();
      FreeIsTame("", owner);
      OneTame("", owner);
    } else {
      OneMoreLine(lines);
      LinesTame(lines[1..], owner);
      SplitAppend(lines[0], '\n', Unlines(lines[1..]));
    }
  }

  lemma KeyLinesTame(k: DNSKey, listen: AddrPort, owner: string, i: nat)
    requires OwnKey(k, owner) && i < 6
    ensures |KeyLines(k, listen)| == 6 && AllTame(Split(KeyLines(k, listen)[i], '\n'), owner)
  {
    hide Tame, Split, OwnerOfKey, Dotted, Itoa, AllTame, AddressLine, PortLine, NoSearchLine, DomainsLine, Free;
    var ls := KeyLines(k, listen);
    if i == 3 {
      DomainsTame(k.domains, owner);
    } else {
      PlainLinesFree(k, listen, i);
      if i == 0 { InitIsTame(owner); }
      if i == 1 { AddressTame(listen, owner); }
      if i == 2 { PortTame(listen, owner); }
      if i == 4 { NoSearchTame(k.noSearch, owner); }
      if i == 5 { CleanIsWord(k.key); SetIsTame(k.key, owner); }
      OneTame(ls[i], owner);
    }
  }

  lemma PlainLinesFree(k: DNSKey, listen: AddrPort, i: nat)
    requires CleanWord(k.key) && i < 6 && i != 3
    ensures Free(KeyLines(k, listen)[i], '\n')
  {
    hide AddressLine, PortLine, NoSearchLine, DomainsLine, Free, CleanWord;
    KeyLinesFree(k.(domains := []), listen);
    assert KeyLines(k, listen)[i] == KeyLines(k.(domains := []), listen)[i];
  }

  lemma InitIsTame(owner: string)
    ensures Tame("d.init", owner) && Tame("quit", owner) && Free("quit", '\n')
  {
    FreeIsTame("d.init", owner);
    FreeIsTame("quit", owner);
  }

  lemma AddressTame(listen: AddrPort, owner: string)
    ensures Tame(AddressLine(listen), owner)
  {
    hide Dotted, Tame;
    assert AddressLine(listen) == "d.add " + (SERVER_ADDRESSES + " * " + Dotted(listen.addr));
    AddIsTame(SERVER_ADDRESSES + " * " + Dotted(listen.addr), owner);
  }

  lemma PortTame(listen: AddrPort, owner: string)
    ensures Tame(PortLine(listen), owner)
  {
    hide Itoa, Tame;
    assert PortLine(listen) == "d.add " + (SERVER_PORT + " # " + Itoa(listen.port));
    AddIsTame(SERVER_PORT + " # " + Itoa(listen.port), owner);
  }

  lemma NoSearchTame(noSearch: bool, owner: string)
    ensures Tame(NoSearchLine(noSearch), owner)
  {
    hide Itoa, Tame;
    var n := if noSearch then 1 else 0;
    assert NoSearchLine(noSearch) == "d.add " + (NO_SEARCH + " # " + Itoa(n));
    AddIsTame(NO_SEARCH + " # " + Itoa(n), owner);
  }

  lemma {:induction false} AllKeyLinesTame(keys: seq<DNSKey>, listen: AddrPort, owner: string)
    requires forall i :: 0 <= i < |keys| ==> OwnKey(keys[i], owner)
    ensures forall i :: 0 <= i < |AllKeyLines(keys, listen)| ==> AllTame(Split(AllKeyLines(keys, listen)[i], '\n'), owner)
  {
    hide Split, AllTame, OwnKey, KeyLines;
    if keys != [] {
      AllKeyLinesTame(keys[1..], listen, owner);
      KeyLinesTame(keys[0], listen, owner, 0);
      forall i | 0 <= i < 6 ensures AllTame(Split(KeyLines(keys[0], listen)[i], '\n'), owner) {
        KeyLinesTame(keys[0], listen, owner, i);
      }
    }
  }

  // ---- the layout ----

  lemma LowerFree(d: string)
    requires ToLower(d) == d
    ensures Free(d, 'S')
  {
    assert forall i :: 0 <= i < |d| ==> ToLower(d)[i] == LowerChar(d[i]);
  }

  lemma BatchesOwn(owner: string, kind: Kind, domains: seq<string>)
    requires CleanWord(owner) && LowerCase(domains)
    ensures var keys := KeysOfBatches(owner, kind, Batches(domains));
            forall n :: 0 <= n < |keys| ==> OwnKey(keys[n], owner)
  {
    hide Batches, Free, KeyName, OwnerOfKey, CleanWord, ToLower;
    var batches := Batches(domains);
    BatchesOptimal(domains);
    var keys := KeysOfBatches(owner, kind, batches);
    CleanNames(owner);
    forall n | 0 <= n < |keys| ensures OwnKey(keys[n], owner) {
      KeyNameParses(owner, kind, n);
      CleanKeyName(owner, kind, n);
      forall j | 0 <= j < |batches[n]| ensures Free(batches[n][j], 'S') {
        InFlatten(batches, n, j);
        assert batches[n][j] in domains;
        LowerFree(batches[n][j]);
      }
    }
  }

  lemma CleanKeyName(owner: string, kind: Kind, n: nat)
    requires CleanWord(owner)
    ensures CleanWord(KeyName(owner, kind, n))
  {
    CleanNames(owner);
    NoSpaceKey(Parts(owner, kind, Itoa(n)));
  }

  /** No line of what is written for a lower-case registration is about another instance's key. */
  lemma WrittenTame(owner: string, spec: Spec)
    requires CleanWord(owner) && LowerSpec(spec)
    ensures AllTame(Split(Unlines(AllKeyLines(Layout(owner, spec), spec.listen) + ["quit"]), '\n'), owner)
  {
    hide Batches, KeyName, OwnKey, CleanWord, LowerCase, AllTame, Split, Unlines, AllKeyLines, Tame, Free;
    BatchesOwn(owner, Search, spec.searchDomains);
    BatchesOwn(owner, Match, spec.matchDomains);
    AllKeyLinesTame(Layout(owner, spec), spec.listen, owner);
    InitIsTame(owner);
    OneTame("quit", owner);
    LinesTame(AllKeyLines(Layout(owner, spec), spec.listen) + ["quit"], owner);
  }

  /** So carrying out what is written changes no key of another instance. */
  lemma WrittenOthers(store: Store, order: seq<string>, owner: string, spec: Spec, other: string)
    requires CleanWord(owner) && LowerSpec(spec) && other != owner && other != ""
    ensures Slice(Written(store - Slice(store, owner).Keys, order, Layout(owner, spec), spec.listen).store, other) == Slice(store, other)
  {
    hide Slice, Layout, CleanWord, LowerSpec, RunLines, Split, Unlines, AllKeyLines, AllTame;
    WrittenTame(owner, spec);
    TameRun(Machine(store - Slice(store, owner).Keys, map[], "", true), order,
            Split(Unlines(AllKeyLines(Layout(owner, spec), spec.listen) + ["quit"]), '\n'), owner, other);
    RestKeeps(store, owner, other);
  }

  /** Whatever its domains contain, as long as they are in lower case, a registration changes no
      key of another instance. */
  lemma OthersUntouched(store: Store, owner: string, spec: Spec, s: Surroundings, other: string)
    requires CleanWord(owner) && LowerSpec(spec) && other != owner && other != ""
    ensures Slice(ApplyResult(store, owner, spec, s).0, other) == Slice(store, other)
  {
    hide Slice, Layout, ListFails, CleanWord, LowerSpec, Written, LooksFailed, Order;
    WrittenOthers(store, Order(s.order, store), owner, spec, other);
  }

  lemma RestKeeps(store: Store, owner: string, other: string)
    requires other != owner
    ensures Slice(store - Slice(store, owner).Keys, other) == Slice(store, other)
  {
    hide OwnerOfKey;
  }
}
