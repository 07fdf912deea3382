/** What happens to names that a script cannot carry: blanks and line breaks inside them
    (internal/platform/scutil.go:93-127; internal/hostdns/hostdns.go:124-127 trims only the ends). */
module UnfitText {
  import opened Text
  import opened Specs
  import opened Batching
  import opened Scutil
  import opened Keys
  import opened HostScripts
  import opened Listings
  import opened DynamicStore

  const ROOT := Surroundings(true, false, false, false, [])

  lemma OneBatch(d: string)
    ensures Batches([d]) == [[d]]
  {
    assert [d][1..] == [] && [] + [d] == [d];
    assert BatchFrom([d], []) == [[d]];
    assert BatchFrom([], [d]) == BatchFrom([d], []);
  }

  /** A domain with a blank in it is registered as two domains. */
  lemma BlankSplitsDomain()
    ensures var k := DNSKey("key", ["a b"], true);
            SeenWords(k.domains) == ["a", "b"] && KeyDict(k, AddrPort(0, 53), Seen) != KeyDict(k, AddrPort(0, 53), Meant)
  {
    OneWord("a");
    OneWord("b");
    WordsAppend("a", "b");
    assert "a b" == "a" + [' '] + "b";
    hide Words;
    assert ["a"] + ["b"] == ["a", "b"];
    assert !Word("a b");
    hide SeenDict, DictOf;
    SeenExact(["a b"], true, AddrPort(0, 53));
  }

  /** A domain with a line break in it. */
  function BrokenDomain(second: string): string {
    "x" + ['\n'] + second
  }

  /** The lines that scutil reads where the program wrote a key with such a domain. */
  function BrokenLines(key: string, listen: AddrPort, second: string): seq<string> {
    ["d.init", AddressLine(listen), PortLine(listen), DomainsLine(["x"]), second, NoSearchLine(true), "set " + key, "quit"]
  }

  lemma SplitsUp(key: string, listen: AddrPort, second: string)
    requires Free(key, '\n') && Free(second, '\n')
    ensures Split(Unlines(AllKeyLines([DNSKey(key, [BrokenDomain(second)], true)], listen) + ["quit"]), '\n') == BrokenLines(key, listen, second) + [""]
  {
    LinesAreFree(key, listen, second);
    hide AddressLine, PortLine, NoSearchLine, Split, Free;
    var k := DNSKey(key, [BrokenDomain(second)], true);
    var a, b := ["d.init", AddressLine(listen), PortLine(listen)], [NoSearchLine(true), "set " + key, "quit"];
    assert [k][1..] == [];
    assert AllKeyLines([k], listen) + ["quit"] == a + [DomainsLine([BrokenDomain(second)])] + b;
    assert BrokenLines(key, listen, second) == a + [DomainsLine(["x"]), second] + b;
    LineInTwo(second);
    SameText(a, DomainsLine(["x"]), second, b);
    SplitUnlines(BrokenLines(key, listen, second));
  }

  lemma LineInTwo(second: string)
    ensures DomainsLine([BrokenDomain(second)]) == DomainsLine(["x"]) + "\n" + second
  {
    assert Join([BrokenDomain(second)], ' ') == BrokenDomain(second) && Join(["x"], ' ') == "x";
  }

  lemma SameText(a: seq<string>, u: string, v: string, b: seq<string>)
    ensures Unlines(a + [u + "\n" + v] + b) == Unlines(a + [u, v] + b)
  {
    UnlinesAppend(a + [u + "\n" + v], b);
    UnlinesAppend(a, [u + "\n" + v]);
    UnlinesAppend(a + [u, v], b);
    UnlinesAppend(a, [u, v]);
    assert [u + "\n" + v][1..] == [] && [u, v][1..] == [v] && [v][1..] == [];
    assert Unlines([]) == "";
    assert Unlines([v]) == v + "\n" + "";
    assert Unlines([u + "\n" + v]) == u + "\n" + v + "\n" + "";
    assert Unlines([u, v]) == u + "\n" + (v + "\n" + "");
  }

  lemma LinesAreFree(key: string, listen: AddrPort, second: string)
    requires Free(key, '\n') && Free(second, '\n')
    ensures AllFree(BrokenLines(key, listen, second), '\n')
  {
    hide Itoa, Dotted;
    DottedWord(listen.addr);
    DigitsFree(Itoa(listen.port), '\n');
    DigitsFree(Itoa(1), '\n');
    var ls := BrokenLines(key, listen, second);
    assert Join(["x"], ' ') == "x";
    assert Free(ls[0], '\n') && Free(ls[1], '\n') && Free(ls[2], '\n') && Free(ls[3], '\n');
    assert Free(ls[4], '\n') && Free(ls[5], '\n') && Free(ls[6], '\n') && Free(ls[7], '\n');
  }

  /** The machine after the first four of those lines: nothing stored, nothing printed. */
  lemma FourLinesRun(store: Store, order: seq<string>, key: string, listen: AddrPort, second: string)
    ensures var ls := BrokenLines(key, listen, second) + [""];
            exists d :: RunLines(Machine(store, map[], "", true), order, ls) == RunLines(Machine(store, d, "", true), order, ls[4..])
  {
    hide AddressLine, PortLine, DomainsLine, NoSearchLine, RunLines, CommandOf, Words, Dotted, Itoa;
    var ls := BrokenLines(key, listen, second) + [""];
    OneWordCommands();
    AddressCommand(listen);
    PortCommand(listen);
    DomainsCommand(["x"]);
    OneWord("x");
    assert Join(["x"], ' ') == "x" && SeenWords(["x"]) == ["x"];
    var m0 := Machine(store, map[], "", true);
    var m1 := Exec(m0, order, CommandOf(Words(ls[0])));
    var m2 := Exec(m1, order, CommandOf(Words(ls[1])));
    var m3 := Exec(m2, order, CommandOf(Words(ls[2])));
    var m4 := Exec(m3, order, CommandOf(Words(ls[3])));
    OneLine(m0, order, ls, 0);
    OneLine(m1, order, ls, 1);
    OneLine(m2, order, ls, 2);
    OneLine(m3, order, ls, 3);
    assert ls[0..] == ls;
    assert m4 == Machine(store, m4.dict, "", true);
  }

  /** A key stays while nothing removes it. */
  lemma {:induction false} KeyStays(m: Machine, order: seq<string>, lines: seq<string>, key: string)
    requires key in m.store && forall i :: 0 <= i < |lines| ==> CommandOf(Words(lines[i])) != RemoveKey(key)
    ensures key in RunLines(m, order, lines).store
    decreases |lines|
  {
    hide CommandOf, Words;
    if m.live && lines != [] {
      KeyStays(Exec(m, order, CommandOf(Words(lines[0]))), order, lines[1..], key);
    }
  }

  lemma SetsOther(store: Store, order: seq<string>, key: string, listen: AddrPort)
    requires Word(key) && key != "other"
    ensures "other" in RunLines(Machine(store, map[], "", true), order, BrokenLines(key, listen, "set other") + [""]).store
  {
    hide AddressLine, PortLine, DomainsLine, NoSearchLine, RunLines, CommandOf, Words, SeenWords, Dotted, Itoa, Word;
    var ls := BrokenLines(key, listen, "set other") + [""];
    FourLinesRun(store, order, key, listen, "set other");
    var d :| RunLines(Machine(store, map[], "", true), order, ls) == RunLines(Machine(store, d, "", true), order, ls[4..]);
    OneWordCommands();
    NoSearchCommand(true);
    OtherIsWord();
    SetCommand("other");
    assert "set " + "other" == "set other";
    SetCommand(key);
    NothingRead();
    var m4 := Machine(store, d, "", true);
    var m5 := Exec(m4, order, CommandOf(Words(ls[4])));
    OneLine(m4, order, ls, 4);
    assert ls[5..] == [NoSearchLine(true), "set " + key, "quit", ""];
    KeyStays(m5, order, ls[5..], "other");
  }

  lemma QuitsEarly(store: Store, order: seq<string>, key: string, listen: AddrPort)
    ensures var m := RunLines(Machine(store, map[], "", true), order, BrokenLines(key, listen, "quit") + [""]);
            m.store == store && m.out == ""
  {
    hide AddressLine, PortLine, DomainsLine, NoSearchLine, CommandOf, Words, SeenWords, Dotted, Itoa;
    var ls := BrokenLines(key, listen, "quit") + [""];
    FourLinesRun(store, order, key, listen, "quit");
    var d :| RunLines(Machine(store, map[], "", true), order, ls) == RunLines(Machine(store, d, "", true), order, ls[4..]);
    OneWordCommands();
    OneLine(Machine(store, d, "", true), order, ls, 4);
  }

  lemma OtherIsWord()
    ensures Word("other")
  {
  }

  lemma NothingRead()
    ensures CommandOf(Words("")) == Blank
  {
  }

  lemma OneBrokenKey(second: string)
    requires Free(second, '\n')
    ensures var spec := Spec(AddrPort(0, 53), [], [BrokenDomain(second)]);
            var key := KeyName("a", Match, 0);
            && !OneLineSpec(spec) && Layout("a", spec) == [DNSKey(key, [BrokenDomain(second)], true)]
            && forall order :: Written(map[], order, Layout("a", spec), spec.listen) ==
                 RunLines(Machine(map[], map[], "", true), order, BrokenLines(key, spec.listen, second) + [""])
  {
    var spec := Spec(AddrPort(0, 53), [], [BrokenDomain(second)]);
    OneBatch(BrokenDomain(second));
    assert BrokenDomain(second)[1] == '\n';
    KeyIsWord();
    assert Layout("a", spec) == [DNSKey(KeyName("a", Match, 0), [BrokenDomain(second)], true)];
    hide KeyName, AllKeyLines, Unlines, Split, RunLines, BrokenLines, Batches;
    SplitsUp(KeyName("a", Match, 0), spec.listen, second);
  }

  lemma EmptyStore()
    ensures var none: Store := map[]; !ListFails(none) && Slice(none, "a") == none && none - Slice(none, "a").Keys == none
  {
  }

  /** A domain with a line break in it is more than one line of the script, and the rest of it is
      a command: registering it can write a key that is nobody's. */
  lemma LineBreakWritesForeignKey()
    ensures var spec := Spec(AddrPort(0, 53), [], ["x\nset other"]);
            !OneLineSpec(spec) && OwnerOfKey("other") == "" && "other" in ApplyResult(map[], "a", spec, ROOT).0
  {
    assert "x\nset other" == BrokenDomain("set other");
    KeyIsWord();
    EmptyStore();
    OneBrokenKey("set other");
    hide *;
    var spec := Spec(AddrPort(0, 53), [], ["x\nset other"]);
    SetsOther(map[], Order(ROOT.order, map[]), KeyName("a", Match, 0), spec.listen);
    FirstApply(spec);
  }

  lemma FirstApply(spec: Spec)
    requires Layout("a", spec) != []
    ensures var m := Written(map[], Order(ROOT.order, map[]), Layout("a", spec), spec.listen);
            ApplyResult(map[], "a", spec, ROOT) == (m.store, if LooksFailed(m.out) then Some(WriteFailed) else None)
  {
    hide ListFails, Slice, Layout, Written, LooksFailed, Order;
    EmptyStore();
  }

  /** Or the registration ends before its key is set: each of its domains is one word to scutil,
      success is reported, and nothing is stored. */
  lemma QuitLosesRegistration()
    ensures var spec := Spec(AddrPort(0, 53), [], ["x\nquit"]);
            && WordSpec(spec) && !OneLineSpec(spec) && Layout("a", spec) != []
            && ApplyResult(map[], "a", spec, ROOT) == (map[], None)
  {
    assert "x\nquit" == BrokenDomain("quit");
    OneBrokenKey("quit");
    assert WordSpec(Spec(AddrPort(0, 53), [], ["x\nquit"]));
    hide *;
    var spec := Spec(AddrPort(0, 53), [], ["x\nquit"]);
    QuitsEarly(map[], Order(ROOT.order, map[]), KeyName("a", Match, 0), spec.listen);
    FirstApply(spec);
    QuietOutput();
  }

  lemma KeyIsWord()
    ensures var key := KeyName("a", Match, 0);
            Word(key) && Free(key, '\n') && key != "other" && OwnerOfKey("other") == ""
  {
    KeyNameParses("a", Match, 0);
    NoSpaceKey(Parts("a", Match, Itoa(0)));
    CleanIsWord(KeyName("a", Match, 0));
    assert |DYN_STORE_PREFIX| > 5;
    hide KeyName;
  }

  const STRAY := "State:/Network/Service/multibird-a b-Match-0/DNS"

  lemma StrayIsKey()
    ensures STRAY == KeyName("a b", Match, 0)
  {
    assert Itoa(0) == "0";
  }

  predicate TwoCs(s: string) {
    exists i :: 0 <= i < |s| - 1 && s[i] == 'c' && s[i + 1] == 'c'
  }

  lemma {:induction false} DeniedNeedsTwoCs(s: string)
    requires Contains(s, "access denied")
    ensures TwoCs(s)
  {
    if HasPrefix(s, "access denied") {
      assert s[1] == s[..13][1] && s[2] == s[..13][2];
    } else {
      DeniedNeedsTwoCs(s[1..]);
      var i :| 0 <= i < |s[1..]| - 1 && s[1..][i] == 'c' && s[1..][i + 1] == 'c';
      assert s[i + 1] == 'c' && s[i + 2] == 'c';
    }
  }

  lemma LowerFreeOf(s: string, c: char, upper: char)
    requires Free(s, c) && Free(s, upper) && upper as int + 32 == c as int && 'A' <= upper <= 'Z'
    ensures Free(ToLower(s), c)
  {
    assert forall i :: 0 <= i < |s| ==> ToLower(s)[i] == LowerChar(s[i]);
  }

  lemma CsApart(p: string, q: string, r: string)
    requires Free(p, 'c') && Free(q, 'c') && Free(r, 'c') && q != ""
    ensures !TwoCs(p + "c" + q + "c" + r)
  {
    var t := p + "c" + q + "c" + r;
    assert forall i :: 0 <= i < |t| && t[i] == 'c' ==> i == |p| || i == |p| + 1 + |q|;
  }

  const BEFORE := "State:/Network/Servi"
  const BETWEEN := "e/multibird-a b-Mat"
  const AFTER := "h-0/DNS"

  lemma StrayText()
    ensures STRAY == BEFORE + "c" + BETWEEN + "c" + AFTER
  {
  }

  /** None of these letters, in either case. */
  predicate Spared(s: string) {
    Free(s, 'f') && Free(s, 'F') && Free(s, 'p') && Free(s, 'P')
  }

  lemma PiecesSpared()
    ensures Spared(BEFORE) && Spared(BETWEEN) && Spared(AFTER) && Spared("c")
  {
    hide Spared;
    BeforeSpared();
    BetweenSpared();
    AfterSpared();
  }

  lemma BeforeSpared()
    ensures Spared(BEFORE)
  {
    var s := BEFORE;
    assert 'f' !in s;
    assert 'F' !in s;
    assert 'p' !in s;
    assert 'P' !in s;
  }

  lemma BetweenSpared()
    ensures Spared(BETWEEN)
  {
    var s := BETWEEN;
    assert 'f' !in s;
    assert 'F' !in s;
    assert 'p' !in s;
    assert 'P' !in s;
  }

  lemma AfterSpared()
    ensures Spared(AFTER) && Spared("c")
  {
  }

  lemma SparedJoin(a: string, b: string)
    requires Spared(a) && Spared(b)
    ensures Spared(a + b)
  {
  }

  lemma StraySpared()
    ensures Spared(STRAY)
  {
    hide Spared;
    StrayText();
    PiecesSpared();
    SparedJoin(BEFORE, "c");
    SparedJoin(BEFORE + "c", BETWEEN);
    SparedJoin(BEFORE + "c" + BETWEEN, "c");
    SparedJoin(BEFORE + "c" + BETWEEN + "c", AFTER);
  }

  lemma PiecesHaveNoC()
    ensures Free(BEFORE, 'c') && Free(BETWEEN, 'c') && Free(AFTER, 'c')
    ensures Free(BEFORE, 'C') && Free(BETWEEN, 'C') && Free(AFTER, 'C') && BETWEEN != ""
  {
  }

  lemma StrayCs()
    ensures !TwoCs(ToLower(STRAY))
  {
    hide ToLower, TwoCs, Free;
    StrayText();
    PiecesHaveNoC();
    LowerFreeOf(BEFORE, 'c', 'C');
    LowerFreeOf(BETWEEN, 'c', 'C');
    LowerFreeOf(AFTER, 'c', 'C');
    LowerAppend(BEFORE + "c" + BETWEEN + "c", AFTER);
    LowerAppend(BEFORE + "c" + BETWEEN, "c");
    LowerAppend(BEFORE + "c", BETWEEN);
    LowerAppend(BEFORE, "c");
    LowerC();
    LowerSize(BETWEEN);
    CsApart(ToLower(BEFORE), ToLower(BETWEEN), ToLower(AFTER));
  }

  lemma LowerC()
    ensures ToLower("c") == "c"
  {
  }

  lemma LowerSize(s: string)
    ensures |ToLower(s)| == |s|
  {
  }

  lemma StrayIsQuiet()
    ensures !Suspicious(STRAY)
  {
    hide Contains, ToLower, TwoCs;
    StraySpared();
    StrayCs();
    LowerFreeOf(STRAY, 'f', 'F');
    LowerFreeOf(STRAY, 'p', 'P');
    ContainsNeeds(ToLower(STRAY), "failed", 'f');
    ContainsNeeds(ToLower(STRAY), "not permitted", 'p');
    ContainsNeeds(ToLower(STRAY), "permission denied", 'p');
    if Contains(ToLower(STRAY), "access denied") { DeniedNeedsTwoCs(ToLower(STRAY)); }
  }

  /** Keys of an owner with a blank in its name, which another program may write, are reported as
      removed and stay. */
  lemma BlankOwnerStays(d: Dict)
    ensures var store: Store := map[KeyName("a b", Match, 0) := d];
            Slice(store, "a b") != map[] && RemoveResult(store, "a b", ROOT) == (store, None)
  {
    hide *;
    StrayIsKey();
    StrayIsQuiet();
    BlankIsOwnerName();
    KeyNameParses("a b", Match, 0);
    OnlyQuietKey(STRAY, "a b", d);
  }

  lemma BlankIsOwnerName()
    ensures OwnerName("a b") && !Free("a b", ' ')
  {
    assert "a b"[1] == ' ';
  }

  lemma OnlyQuietKey(key: string, owner: string, d: Dict)
    requires OwnerOfKey(key) == owner && !Free(owner, ' ') && !Suspicious(key)
    ensures var store: Store := map[key := d];
            Slice(store, owner) != map[] && RemoveResult(store, owner, ROOT) == (store, None)
  {
    hide OwnerOfKey, Suspicious, Listable, Free;
    assert key in Slice(map[key := d], owner);
  }
}
