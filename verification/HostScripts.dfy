/** The scripts the program feeds to scutil, and what running their text does to the store
    (internal/platform/scutil.go:93-149). */
module HostScripts {
  import opened Text
  import opened Specs
  import opened Bits
  import opened Addresses
  import opened Scutil

  // ---- the text of an address ----

  function OctetTexts(gs: seq<nat>): seq<string> {
    seq(|gs|, i requires 0 <= i < |gs| => Itoa(gs[i]))
  }

  /** Dotted-quad text of an IPv4 address. */
  function Dotted(addr: nat): string {
    Join(OctetTexts(Groups(addr, 0, 8, 4)), '.')
  }

  function NumberOf(text: string): nat {
    if AllDigits(text) then Atoi(text) else 0
  }

  /** The address a dotted-quad text stands for. */
  function Undotted(text: string): nat {
    var parts := Split(text, '.');
    if |parts| != 4 then 0
    else ((NumberOf(parts[0]) * 256 + NumberOf(parts[1])) * 256 + NumberOf(parts[2])) * 256 + NumberOf(parts[3])
  }

  lemma OctetTextsFree(gs: seq<nat>)
    ensures AllFree(OctetTexts(gs), '.') && AllFree(OctetTexts(gs), ' ') && AllFree(OctetTexts(gs), '\n')
  {
  }

  lemma FourOctets(addr: nat)
    ensures Groups(addr, 0, 8, 4) == [As4(addr, 0), As4(addr, 1), As4(addr, 2), As4(addr, 3)]
  {
    assert Groups(addr, 24, 8, 1) == Groups(addr, 32, 8, 0) + [As4(addr, 0)];
    assert Groups(addr, 16, 8, 2) == Groups(addr, 24, 8, 1) + [As4(addr, 1)];
    assert Groups(addr, 8, 8, 3) == Groups(addr, 16, 8, 2) + [As4(addr, 2)];
    assert Groups(addr, 0, 8, 4) == Groups(addr, 8, 8, 3) + [As4(addr, 3)];
  }

  lemma UndottedDotted(addr: nat)
    requires addr < U32
    ensures Undotted(Dotted(addr)) == addr
  {
    var gs := Groups(addr, 0, 8, 4);
    var parts := OctetTexts(gs);
    OctetTextsFree(gs);
    SplitJoin(parts, '.');
    FourOctets(addr);
    forall i | 0 <= i < 4 ensures NumberOf(parts[i]) == gs[i] { AtoiItoa(gs[i]); }
    Pow2Values();
    OctetsAboveEachOther(addr);
    ByteShift(Top(addr, 24));
    ByteShift(Top(addr, 16));
    ByteShift(Top(addr, 8));
    hide Shl, Top, Low, As4, Pow2, Groups;
  }

  lemma {:induction false} JoinFree(parts: seq<string>, sep: char, c: char)
    requires AllFree(parts, c) && c != sep
    ensures Free(Join(parts, sep), c)
  {
    if |parts| > 1 { JoinFree(parts[1..], sep, c); }
  }

  lemma DottedWord(addr: nat)
    ensures Word(Dotted(addr)) && Free(Dotted(addr), '\n')
  {
    var gs := Groups(addr, 0, 8, 4);
    OctetTextsFree(gs);
    JoinFree(OctetTexts(gs), '.', ' ');
    JoinFree(OctetTexts(gs), '.', '\n');
    assert Dotted(addr) == OctetTexts(gs)[0] + ['.'] + Join(OctetTexts(gs)[1..], '.');
  }

  // ---- what one key holds ----

  const SERVER_ADDRESSES := "ServerAddresses"
  const SERVER_PORT := "ServerPort"
  const MATCH_DOMAINS := "SupplementalMatchDomains"
  const NO_SEARCH := "SupplementalMatchDomainsNoSearch"

  function DictOf(domains: seq<string>, noSearch: bool, listen: AddrPort): Dict {
    map[][SERVER_ADDRESSES := Strings([Dotted(listen.addr)])]
         [SERVER_PORT := Number(listen.port)]
         [MATCH_DOMAINS := Strings(domains)]
         [NO_SEARCH := Number(if noSearch then 1 else 0)]
  }

  /** The words scutil sees where the program wrote a list of domains. */
  function SeenWords(domains: seq<string>): seq<string> {
    Words(Join(domains, ' '))
  }

  /** The dictionary scutil builds for a key, whatever its domains contain: their words, if there
      are any and not too many. */
  function SeenDict(domains: seq<string>, noSearch: bool, listen: AddrPort): Dict {
    var base: Dict := map[][SERVER_ADDRESSES := Strings([Dotted(listen.addr)])][SERVER_PORT := Number(listen.port)];
    var ws := SeenWords(domains);
    (if 1 <= |ws| <= MAX_VALUES then base[MATCH_DOMAINS := Strings(ws)] else base)
      [NO_SEARCH := Number(if noSearch then 1 else 0)]
  }

  /** What scutil prints while it reads that list. */
  function SeenOut(domains: seq<string>): string {
    var ws := SeenWords(domains);
    if ws == [] then UNKNOWN_COMMAND else if |ws| > MAX_VALUES then TOO_MANY else ""
  }

  // ---- rendering ----

  function RemoveLine(key: string): string {
    "remove " + key
  }

  function RemoveLines(keys: seq<string>): seq<string> {
    if keys == [] then [] else [RemoveLine(keys[0])] + RemoveLines(keys[1..])
  }

  function AddressLine(listen: AddrPort): string {
    "d.add " + SERVER_ADDRESSES + " * " + Dotted(listen.addr)
  }

  function PortLine(listen: AddrPort): string {
    "d.add " + SERVER_PORT + " # " + Itoa(listen.port)
  }

  function DomainsLine(domains: seq<string>): string {
    "d.add " + MATCH_DOMAINS + " * " + Join(domains, ' ')
  }

  function NoSearchLine(noSearch: bool): string {
    "d.add " + NO_SEARCH + " # " + Itoa(if noSearch then 1 else 0)
  }

  function KeyLines(k: DNSKey, listen: AddrPort): seq<string> {
    ["d.init", AddressLine(listen), PortLine(listen), DomainsLine(k.domains), NoSearchLine(k.noSearch), "set " + k.key]
  }

  function AllKeyLines(keys: seq<DNSKey>, listen: AddrPort): seq<string> {
    if keys == [] then [] else KeyLines(keys[0], listen) + AllKeyLines(keys[1..], listen)
  }

  function ApplyLines(stale: seq<string>, keys: seq<DNSKey>, listen: AddrPort): seq<string> {
    RemoveLines(stale) + AllKeyLines(keys, listen) + ["quit"]
  }

  method RenderApplyScript(stale: seq<string>, keys: seq<DNSKey>, listen: AddrPort) returns (script: string)
    ensures script == Unlines(ApplyLines(stale, keys, listen))
  {
    hide *;
    script := RenderRemoves(stale);
    assert keys[0..] == keys;
    for i := 0 to |keys|
      invariant script + Unlines(AllKeyLines(keys[i..], listen)) == Unlines(RemoveLines(stale)) + Unlines(AllKeyLines(keys, listen))
    {
      KeysTurn(script, keys, i, listen);
      script := RenderKey(script, keys[i], listen);
    }
    KeysTurn(script, keys, |keys|, listen);
    ApplyText(stale, keys, listen);
    script := Emit(script, "quit");
  }

  /** What remains to be written, one key on. */
  lemma KeysTurn(script: string, keys: seq<DNSKey>, i: nat, listen: AddrPort)
    requires i <= |keys|
    ensures script + Unlines(AllKeyLines(keys[i..], listen)) ==
            if i == |keys| then script
            else (script + Unlines(KeyLines(keys[i], listen))) + Unlines(AllKeyLines(keys[i + 1..], listen))
  {
    hide KeyLines;
    if i == |keys| {
      assert keys[i..] == [] && script + "" == script;
    } else {
      assert keys[i..][0] == keys[i] && keys[i..][1..] == keys[i + 1..];
      UnlinesAppend(KeyLines(keys[i], listen), AllKeyLines(keys[i + 1..], listen));
      hide Unlines;
    }
  }

  lemma ApplyText(stale: seq<string>, keys: seq<DNSKey>, listen: AddrPort)
    ensures Unlines(ApplyLines(stale, keys, listen)) == Emit(Unlines(RemoveLines(stale)) + Unlines(AllKeyLines(keys, listen)), "quit")
  {
    var a, b := RemoveLines(stale), AllKeyLines(keys, listen);
    UnlinesAppend(a + b, ["quit"]);
    UnlinesAppend(a, b);
    hide RemoveLines, AllKeyLines;
    assert Unlines(["quit"]) == "quit" + "\n" + Unlines([]);
    assert Unlines([]) == "";
  }

  method RenderKey(before: string, k: DNSKey, listen: AddrPort) returns (script: string)
    ensures script == before + Unlines(KeyLines(k, listen))
  {
    SixLines(before, "d.init", AddressLine(listen), PortLine(listen), DomainsLine(k.domains), NoSearchLine(k.noSearch), "set " + k.key);
    hide Emit, AddressLine, PortLine, DomainsLine, NoSearchLine, Unlines;
    script := Emit(before, "d.init");
    script := Emit(script, AddressLine(listen));
    script := Emit(script, PortLine(listen));
    script := Emit(script, DomainsLine(k.domains));
    script := Emit(script, NoSearchLine(k.noSearch));
    script := Emit(script, "set " + k.key);
  }

  lemma SixLines(before: string, a: string, b: string, c: string, d: string, e: string, f: string)
    ensures Emit(Emit(Emit(Emit(Emit(Emit(before, a), b), c), d), e), f) == before + Unlines([a, b, c, d, e, f])
  {
    var ls := [a, b, c, d, e, f];
    EmitLine(before, ls, 0);
    EmitLine(before, ls, 1);
    EmitLine(before, ls, 2);
    EmitLine(before, ls, 3);
    EmitLine(before, ls, 4);
    EmitLine(before, ls, 5);
    hide *;
    assert ls[..6] == ls && ls[..0] == [];
  }

  /** One formatted write into the builder. */
  function Emit(script: string, line: string): string {
    script + line + "\n"
  }

  lemma EmitLine(before: string, ls: seq<string>, i: nat)
    requires i < |ls|
    ensures Emit(before + Unlines(ls[..i]), ls[i]) == before + Unlines(ls[..i + 1])
    ensures before + Unlines([]) == before
  {
    UnlinesAppend(ls[..i], [ls[i]]);
    assert ls[..i] + [ls[i]] == ls[..i + 1];
    assert Unlines([ls[i]]) == ls[i] + "\n" + Unlines([]);
  }

  method RenderRemoves(keys: seq<string>) returns (script: string)
    ensures script == Unlines(RemoveLines(keys))
  {
    script := "";
    for i := 0 to |keys|
      invariant script + Unlines(RemoveLines(keys[i..])) == Unlines(RemoveLines(keys))
    {
      assert keys[i..][0] == keys[i] && keys[i..][1..] == keys[i + 1..];
      script := Emit(script, RemoveLine(keys[i]));
    }
  }

  method RenderRemoveScript(keys: seq<string>) returns (script: string)
    ensures script == Unlines(ApplyLines(keys, [], AddrPort(0, 0)))
  {
    script := RenderRemoves(keys);
    script := Emit(script, "quit");
    assert RemoveLines(keys) + [] + ["quit"] == RemoveLines(keys) + ["quit"];
    UnlinesAppend(RemoveLines(keys), ["quit"]);
    assert Unlines(["quit"]) == "quit\n";
  }

  // ---- running ----

  lemma CleanIsWord(w: string)
    requires CleanWord(w)
    ensures Word(w) && Free(w, '\n')
  {
  }

  /** Domains that scutil sees as they were meant: one word each, within the value limit. */
  predicate Writable(k: DNSKey) {
    AllWords(k.domains) && 1 <= |k.domains| <= MAX_VALUES
  }

  predicate AllWritable(keys: seq<DNSKey>) {
    forall i :: 0 <= i < |keys| ==> Writable(keys[i])
  }

  /** A key that takes six lines to write. */
  predicate OneLined(k: DNSKey) {
    CleanWord(k.key) && AllFree(k.domains, '\n')
  }

  predicate AllOneLined(keys: seq<DNSKey>) {
    forall i :: 0 <= i < |keys| ==> OneLined(keys[i])
  }

  /** A key's domains as the program meant them, or as scutil sees them. */
  datatype Reading = Meant | Seen

  function KeyDict(k: DNSKey, listen: AddrPort, r: Reading): Dict {
    if r == Meant then DictOf(k.domains, k.noSearch, listen) else SeenDict(k.domains, k.noSearch, listen)
  }

  function WriteKeys(store: Store, keys: seq<DNSKey>, listen: AddrPort, r: Reading): Store
    decreases |keys|
  {
    if keys == [] then store else WriteKeys(store[keys[0].key := KeyDict(keys[0], listen, r)], keys[1..], listen, r)
  }

  function AllSeenOut(keys: seq<DNSKey>): string {
    if keys == [] then "" else SeenOut(keys[0].domains) + AllSeenOut(keys[1..])
  }

  /** The lists that scutil sees as they were meant are exactly the lists of single words. */
  lemma SeenExact(domains: seq<string>, noSearch: bool, listen: AddrPort)
    requires 1 <= |domains| <= MAX_VALUES
    ensures SeenDict(domains, noSearch, listen) == DictOf(domains, noSearch, listen) <==> AllWords(domains)
    ensures AllWords(domains) ==> SeenOut(domains) == ""
  {
    SeenAsMeant(domains);
    hide SeenWords, Dotted, AllWords;
    NamesDiffer();
    assert MATCH_DOMAINS in DictOf(domains, noSearch, listen);
    assert DictOf(domains, noSearch, listen)[MATCH_DOMAINS] == Strings(domains);
    var d := SeenDict(domains, noSearch, listen);
    assert MATCH_DOMAINS in d ==> d[MATCH_DOMAINS] == Strings(SeenWords(domains));
  }

  lemma SeenAsMeant(domains: seq<string>)
    requires domains != []
    ensures SeenWords(domains) == domains <==> AllWords(domains)
  {
    WordsAreWords(Join(domains, ' '), ' ');
    if AllWords(domains) { WordsOfJoin(domains); }
    hide Words, Join;
  }

  lemma NamesDiffer()
    ensures SERVER_ADDRESSES != SERVER_PORT && SERVER_ADDRESSES != MATCH_DOMAINS && SERVER_ADDRESSES != NO_SEARCH
    ensures SERVER_PORT != MATCH_DOMAINS && SERVER_PORT != NO_SEARCH && MATCH_DOMAINS != NO_SEARCH
  {
    assert |SERVER_ADDRESSES| == 15 && |SERVER_PORT| == 10 && |MATCH_DOMAINS| == 24 && |NO_SEARCH| == 32;
  }

  lemma {:induction false} WritableSeen(store: Store, keys: seq<DNSKey>, listen: AddrPort)
    requires AllWritable(keys)
    ensures WriteKeys(store, keys, listen, Seen) == WriteKeys(store, keys, listen, Meant) && AllSeenOut(keys) == ""
    decreases |keys|
  {
    if keys != [] {
      hide KeyDict, SeenOut, Writable;
      WritableIsSeen(keys[0], listen);
      WritableSeen(store[keys[0].key := KeyDict(keys[0], listen, Meant)], keys[1..], listen);
    }
  }

  lemma WritableIsSeen(k: DNSKey, listen: AddrPort)
    requires Writable(k)
    ensures KeyDict(k, listen, Seen) == KeyDict(k, listen, Meant) && SeenOut(k.domains) == ""
  {
    hide SeenDict, DictOf, SeenOut;
    SeenExact(k.domains, k.noSearch, listen);
  }

  lemma RemoveCommand(key: string)
    requires Word(key)
    ensures CommandOf(Words(RemoveLine(key))) == RemoveKey(key)
  {
    TwoWords("remove", key);
    assert "remove " + key == "remove" + " " + key;
  }

  lemma SetCommand(key: string)
    requires Word(key)
    ensures CommandOf(Words("set " + key)) == SetKey(key)
  {
    TwoWords("set", key);
    assert "set " + key == "set" + " " + key;
  }

  lemma StringsCommand(name: string, text: string)
    requires Word(name)
    ensures CommandOf(Words("d.add " + name + " * " + text)) ==
            if Words(text) == [] then Unknown else AddStrings(name, Words(text))
  {
    AddLine(name, "*", text);
    StarLine(name, text);
    hide Words;
    var ws := ["d.add", name, "*"] + Words(text);
    assert ws[3..] == Words(text);
    StringsRead(name, Words(text));
  }

  lemma StarLine(name: string, text: string)
    ensures "d.add " + name + " " + "*" + " " + text == "d.add " + name + " * " + text
  {
    hide *;
    assert "d.add " + name + " " + "*" + " " == "d.add " + name + " * ";
  }

  lemma StringsRead(name: string, values: seq<string>)
    ensures CommandOf(["d.add", name, "*"] + values) == if values == [] then Unknown else AddStrings(name, values)
  {
    var ws := ["d.add", name, "*"] + values;
    assert ws[3..] == values && ws[2] == "*" && ws[0] == "d.add";
    assert |ws| == 3 + |values|;
  }

  lemma NumberCommand(name: string, n: nat)
    requires Word(name)
    ensures CommandOf(Words("d.add " + name + " # " + Itoa(n))) == AddNumber(name, n)
  {
    DigitsFree(Itoa(n), ' ');
    AddLine(name, "#", Itoa(n));
    OneWord(Itoa(n));
    hide Words;
    assert "d.add " + name + " " + "#" + " " + Itoa(n) == "d.add " + name + " # " + Itoa(n);
    assert ["d.add", name, "#"] + [Itoa(n)] == ["d.add", name, "#", Itoa(n)];
    AtoiItoa(n);
  }

  /** The six lines written for a key put exactly the dictionary that scutil sees under it. */
  lemma KeyLinesRun(m: Machine, order: seq<string>, k: DNSKey, listen: AddrPort)
    requires m.live && Word(k.key)
    ensures var d := SeenDict(k.domains, k.noSearch, listen);
            RunLines(m, order, KeyLines(k, listen)) ==
            m.(store := m.store[k.key := d], dict := d, out := m.out + SeenOut(k.domains))
  {
    hide CommandOf, Words, Dotted, Itoa, KeyLines, RunLines, Word;
    KeyCommands(k, listen);
    var base: Dict := map[][SERVER_ADDRESSES := Strings([Dotted(listen.addr)])][SERVER_PORT := Number(listen.port)];
    var ws := SeenWords(k.domains);
    var d := if 1 <= |ws| <= MAX_VALUES then base[MATCH_DOMAINS := Strings(ws)] else base;
    hide SeenWords;
    assert m.out + "" == m.out;
    SixCommands(m, order, KeyLines(k, listen), [Dotted(listen.addr)], listen.port, d, SeenOut(k.domains),
                if k.noSearch then 1 else 0, k.key);
  }

  /** What scutil reads on the six lines. */
  lemma KeyCommands(k: DNSKey, listen: AddrPort)
    requires Word(k.key)
    ensures var ls := KeyLines(k, listen);
            && |ls| == 6
            && CommandOf(Words(ls[0])) == Init
            && CommandOf(Words(ls[1])) == AddStrings(SERVER_ADDRESSES, [Dotted(listen.addr)])
            && CommandOf(Words(ls[2])) == AddNumber(SERVER_PORT, listen.port)
            && CommandOf(Words(ls[3])) == (if SeenWords(k.domains) == [] then Unknown else AddStrings(MATCH_DOMAINS, SeenWords(k.domains)))
            && CommandOf(Words(ls[4])) == AddNumber(NO_SEARCH, if k.noSearch then 1 else 0)
            && CommandOf(Words(ls[5])) == SetKey(k.key)
  {
    hide CommandOf, Words, SeenWords, Dotted, Itoa, AddressLine, DomainsLine, PortLine, NoSearchLine, Word;
    OneWordCommands();
    AddressCommand(listen);
    PortCommand(listen);
    DomainsCommand(k.domains);
    NoSearchCommand(k.noSearch);
    SetCommand(k.key);
  }

  lemma PortCommand(listen: AddrPort)
    ensures CommandOf(Words(PortLine(listen))) == AddNumber(SERVER_PORT, listen.port)
  {
    NumberCommand(SERVER_PORT, listen.port);
  }

  lemma NoSearchCommand(noSearch: bool)
    ensures CommandOf(Words(NoSearchLine(noSearch))) == AddNumber(NO_SEARCH, if noSearch then 1 else 0)
  {
    NumberCommand(NO_SEARCH, if noSearch then 1 else 0);
  }

  lemma AddressCommand(listen: AddrPort)
    ensures CommandOf(Words(AddressLine(listen))) == AddStrings(SERVER_ADDRESSES, [Dotted(listen.addr)])
  {
    hide Dotted, CommandOf, Words;
    DottedWord(listen.addr);
    OneWord(Dotted(listen.addr));
    StringsCommand(SERVER_ADDRESSES, Dotted(listen.addr));
  }

  lemma DomainsCommand(domains: seq<string>)
    ensures CommandOf(Words(DomainsLine(domains))) ==
            if SeenWords(domains) == [] then Unknown else AddStrings(MATCH_DOMAINS, SeenWords(domains))
  {
    hide CommandOf, Words, Join;
    StringsCommand(MATCH_DOMAINS, Join(domains, ' '));
  }

  lemma SixCommands(m: Machine, order: seq<string>, ls: seq<string>, addrs: seq<string>, port: nat, d: Dict, text: string,
                    flag: nat, key: string)
    requires m.live && |ls| == 6 && |addrs| <= MAX_VALUES
    requires CommandOf(Words(ls[0])) == Init
    requires CommandOf(Words(ls[1])) == AddStrings(SERVER_ADDRESSES, addrs)
    requires CommandOf(Words(ls[2])) == AddNumber(SERVER_PORT, port)
    requires var base: Dict := map[][SERVER_ADDRESSES := Strings(addrs)][SERVER_PORT := Number(port)];
             Exec(m.(dict := base), order, CommandOf(Words(ls[3]))) == m.(dict := d, out := m.out + text)
    requires CommandOf(Words(ls[4])) == AddNumber(NO_SEARCH, flag)
    requires CommandOf(Words(ls[5])) == SetKey(key)
    ensures var d' := d[NO_SEARCH := Number(flag)];
            RunLines(m, order, ls) == m.(store := m.store[key := d'], dict := d', out := m.out + text)
  {
    hide CommandOf, Words, RunLines;
    var d0: Dict := map[];
    var d1 := d0[SERVER_ADDRESSES := Strings(addrs)];
    var d2 := d1[SERVER_PORT := Number(port)];
    var m3 := m.(dict := d, out := m.out + text);
    var d' := d[NO_SEARCH := Number(flag)];
    OneLine(m, order, ls, 0);
    OneLine(m.(dict := d0), order, ls, 1);
    OneLine(m.(dict := d1), order, ls, 2);
    OneLine(m.(dict := d2), order, ls, 3);
    OneLine(m3, order, ls, 4);
    OneLine(m3.(dict := d'), order, ls, 5);
    assert ls[0..] == ls && ls[6..] == [];
    RunNothing(m3.(store := m.store[key := d'], dict := d'), order);
  }

  lemma RunNothing(m: Machine, order: seq<string>)
    ensures RunLines(m, order, []) == m
  {
  }

  lemma {:induction false} AllKeyLinesRun(m: Machine, order: seq<string>, keys: seq<DNSKey>, listen: AddrPort)
    requires m.live && AllOneLined(keys)
    ensures var r := RunLines(m, order, AllKeyLines(keys, listen));
            r.store == WriteKeys(m.store, keys, listen, Seen) && r.out == m.out + AllSeenOut(keys) && r.live
    decreases |keys|
  {
    hide KeyLines, SeenDict, SeenOut;
    if keys == [] {
      assert m.out + "" == m.out;
    } else {
      var k := keys[0];
      var d := SeenDict(k.domains, k.noSearch, listen);
      var m' := m.(store := m.store[k.key := d], dict := d, out := m.out + SeenOut(k.domains));
      RunAppend(m, order, KeyLines(k, listen), AllKeyLines(keys[1..], listen));
      CleanIsWord(k.key);
      KeyLinesRun(m, order, k, listen);
      AllKeyLinesRun(m', order, keys[1..], listen);
      assert m'.out + AllSeenOut(keys[1..]) == m.out + (SeenOut(k.domains) + AllSeenOut(keys[1..]));
    }
  }

  lemma {:induction false} RemoveLinesRun(m: Machine, order: seq<string>, keys: seq<string>)
    requires m.live && Distinct(keys)
    requires forall k :: k in keys ==> k in m.store && Word(k)
    ensures RunLines(m, order, RemoveLines(keys)) == m.(store := m.store - Elements(keys))
    decreases |keys|
  {
    if keys == [] {
      assert m.store - Elements(keys) == m.store;
    } else {
      assert keys[0] in keys;
      RemoveCommand(keys[0]);
      var m' := m.(store := m.store - {keys[0]});
      RemoveLinesRun(m', order, keys[1..]);
      assert keys == [keys[0]] + keys[1..];
      assert Elements(keys) == {keys[0]} + Elements(keys[1..]);
      assert m'.store - Elements(keys[1..]) == m.store - Elements(keys);
    }
  }

  /** A key that scutil takes for more than one word. */
  predicate Broken(key: string) {
    |Words(key)| >= 2
  }

  function Complaints(n: nat): string {
    if n == 0 then "" else UNKNOWN_COMMAND + Complaints(n - 1)
  }

  /** Lines that try to remove such keys do nothing but make scutil complain. */
  lemma {:induction false} RemoveLinesStuck(m: Machine, order: seq<string>, keys: seq<string>)
    requires m.live && forall k :: k in keys ==> Broken(k)
    ensures RunLines(m, order, RemoveLines(keys)) == m.(out := m.out + Complaints(|keys|))
    decreases |keys|
  {
    if keys == [] {
      assert m.out + "" == m.out;
    } else {
      assert keys[0] in keys;
      StuckCommand(keys[0]);
      var m' := m.(out := m.out + UNKNOWN_COMMAND);
      hide Broken, Words, CommandOf;
      RemoveLinesStuck(m', order, keys[1..]);
      assert m'.out + Complaints(|keys[1..]|) == m.out + (UNKNOWN_COMMAND + Complaints(|keys[1..]|));
    }
  }

  lemma StuckCommand(key: string)
    requires Broken(key)
    ensures CommandOf(Words(RemoveLine(key))) == Unknown
  {
    hide Words;
    OneWord("remove");
    WordsAppend("remove", key);
    assert RemoveLine(key) == "remove" + [' '] + key;
    var ws := ["remove"] + Words(key);
    assert ws[0] == "remove" && |ws| >= 3;
  }

  lemma {:induction false} RemoveLinesFree(keys: seq<string>)
    requires forall k :: k in keys ==> Free(k, '\n')
    ensures AllFree(RemoveLines(keys), '\n')
  {
    if keys != [] {
      assert keys[0] in keys;
      RemoveLinesFree(keys[1..]);
    }
  }

  lemma KeyLinesFree(k: DNSKey, listen: AddrPort)
    requires OneLined(k)
    ensures AllFree(KeyLines(k, listen), '\n')
  {
    CleanIsWord(k.key);
    DottedWord(listen.addr);
    JoinFree(k.domains, ' ', '\n');
    DigitsFree(Itoa(listen.port), '\n');
    DigitsFree(Itoa(if k.noSearch then 1 else 0), '\n');
    var ls := KeyLines(k, listen);
    hide Dotted, Itoa, Join;
    assert Free(ls[0], '\n') && Free(ls[1], '\n') && Free(ls[2], '\n');
    assert Free(ls[3], '\n') && Free(ls[4], '\n') && Free(ls[5], '\n');
  }

  lemma {:induction false} AllKeyLinesFree(keys: seq<DNSKey>, listen: AddrPort)
    requires AllOneLined(keys)
    ensures AllFree(AllKeyLines(keys, listen), '\n')
  {
    if keys != [] {
      KeyLinesFree(keys[0], listen);
      AllKeyLinesFree(keys[1..], listen);
    }
  }

  /** What the writing part of a script does to a store, line by line of its text: a domain with
      a line break in it is more than one line. */
  function Written(store: Store, order: seq<string>, keys: seq<DNSKey>, listen: AddrPort): Machine {
    RunLines(Machine(store, map[], "", true), order, Split(Unlines(AllKeyLines(keys, listen) + ["quit"]), '\n'))
  }

  /** Running the text of an apply script removes the stale keys and then writes, whatever the
      domains contain. */
  lemma ApplyScriptRuns(store: Store, order: seq<string>, stale: seq<string>, keys: seq<DNSKey>, listen: AddrPort)
    requires Distinct(stale) && forall k :: k in stale ==> k in store && Word(k) && Free(k, '\n')
    ensures RunScript(store, order, Unlines(ApplyLines(stale, keys, listen))) ==
            Written(store - Elements(stale), order, keys, listen)
  {
    hide RemoveLines, AllKeyLines, ApplyLines, Unlines, Split, Words, CommandOf, RunLines, Elements, Distinct;
    var m := Machine(store, map[], "", true);
    ApplySplits(stale, keys, listen);
    RunAppend(m, order, RemoveLines(stale), Split(Unlines(AllKeyLines(keys, listen) + ["quit"]), '\n'));
    RemoveLinesRun(m, order, stale);
  }

  lemma ApplySplits(stale: seq<string>, keys: seq<DNSKey>, listen: AddrPort)
    requires forall k :: k in stale ==> Free(k, '\n')
    ensures Split(Unlines(ApplyLines(stale, keys, listen)), '\n') ==
            RemoveLines(stale) + Split(Unlines(AllKeyLines(keys, listen) + ["quit"]), '\n')
  {
    RemoveLinesFree(stale);
    hide RemoveLines, AllKeyLines, Unlines, Split;
    var rest := AllKeyLines(keys, listen) + ["quit"];
    assert ApplyLines(stale, keys, listen) == RemoveLines(stale) + rest;
    UnlinesAppend(RemoveLines(stale), rest);
    SplitLinesOff(RemoveLines(stale), Unlines(rest));
  }

  /** When every domain fits on its line, the keys are stored with what scutil sees of them, and
      nothing else is touched. */
  lemma WrittenRuns(store: Store, order: seq<string>, keys: seq<DNSKey>, listen: AddrPort)
    requires AllOneLined(keys)
    ensures var r := Written(store, order, keys, listen);
            r.store == WriteKeys(store, keys, listen, Seen) && r.out == AllSeenOut(keys)
  {
    AllKeyLinesFree(keys, listen);
    hide AllKeyLines, Unlines, Split, Words, CommandOf, RunLines, WriteKeys, OneLined;
    var m := Machine(store, map[], "", true);
    var lines := AllKeyLines(keys, listen);
    SplitUnlines(lines + ["quit"]);
    assert lines + ["quit"] + [""] == lines + ["quit", ""];
    RunAppend(m, order, lines, ["quit", ""]);
    AllKeyLinesRun(m, order, keys, listen);
    QuitRuns(RunLines(m, order, lines), order);
    assert "" + AllSeenOut(keys) == AllSeenOut(keys);
  }

  lemma QuitRuns(m: Machine, order: seq<string>)
    requires m.live
    ensures RunLines(m, order, ["quit", ""]) == m.(live := false)
  {
    hide Words, CommandOf;
    OneWordCommands();
    OneLine(m, order, ["quit", ""], 0);
    assert ["quit", ""][0..] == ["quit", ""] && ["quit", ""][1..] == [""];
  }
}
