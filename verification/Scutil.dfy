/** A small interpreter for the scutil commands the program writes: one command a line, words
    separated by blanks. It runs the script text itself, so printing and reading are checked
    against each other and not against a shared data structure. */
module Scutil {
  import opened Text

  datatype Value = Strings(values: seq<string>) | Number(n: nat)

  type Dict = map<string, Value>

  type Store = map<string, Dict>

  /** The store, the dictionary being built, the text printed so far, and whether `quit` is
      still to come. */
  datatype Machine = Machine(store: Store, dict: Dict, out: string, live: bool)

  datatype Command =
    | Init
    | AddStrings(name: string, values: seq<string>)
    | AddNumber(name: string, n: nat)
    | SetKey(key: string)
    | RemoveKey(key: string)
    | ListKeys(pattern: string)
    | Quit
    | Blank
    | Unknown

  /** scutil accepts at most 99 values in one d.add (scutil.go:39). */
  const MAX_VALUES := 99

  const UNKNOWN_COMMAND := "  unknown command\n"
  const TOO_MANY := "d.add failed: too many values\n"

  function NonEmpty(words: seq<string>): seq<string> {
    if words == [] then []
    else if words[0] == "" then NonEmpty(words[1..])
    else [words[0]] + NonEmpty(words[1..])
  }

  function Words(line: string): seq<string> {
    NonEmpty(Split(line, ' '))
  }

  function CommandOf(words: seq<string>): Command {
    if |words| == 0 then Blank
    else if words == ["d.init"] then Init
    else if words == ["quit"] then Quit
    else if |words| == 2 && words[0] == "set" then SetKey(words[1])
    else if |words| == 2 && words[0] == "remove" then RemoveKey(words[1])
    else if |words| == 2 && words[0] == "list" then ListKeys(words[1])
    else if |words| == 4 && words[0] == "d.add" && words[2] == "#" && AllDigits(words[3]) then
      AddNumber(words[1], Atoi(words[3]))
    else if |words| >= 4 && words[0] == "d.add" && words[2] == "*" then AddStrings(words[1], words[3..])
    else Unknown
  }

  // ---- `list`: keys matching a pattern as a whole, printed one a line ----

  predicate IsMeta(c: char) {
    c in "\\.+*?()|[]{}^$"
  }

  /** regexp.QuoteMeta. */
  function QuoteMeta(s: string): string {
    if s == "" then ""
    else (if IsMeta(s[0]) then ['\\', s[0]] else [s[0]]) + QuoteMeta(s[1..])
  }

  /** The part of the pattern language in use: literals, escaped characters, `.` and `.*`. */
  predicate Matches(p: string, s: string)
    decreases |p| + |s|
  {
    if p == "" then s == ""
    else if |p| >= 2 && p[0] == '.' && p[1] == '*' then Matches(p[2..], s) || (s != "" && Matches(p, s[1..]))
    else if |p| >= 2 && p[0] == '\\' then s != "" && s[0] == p[1] && Matches(p[2..], s[1..])
    else s != "" && (p[0] == '.' || s[0] == p[0]) && Matches(p[1..], s[1..])
  }

  function Select(order: seq<string>, store: Store, pattern: string): (keys: seq<string>)
    ensures forall k :: k in keys <==> k in order && k in store && Matches(pattern, k)
  {
    if order == [] then []
    else
      var rest := Select(order[1..], store, pattern);
      assert order == [order[0]] + order[1..];
      if order[0] in store && Matches(pattern, order[0]) then [order[0]] + rest else rest
  }

  function SubKey(i: nat): string {
    "  subKey [" + Itoa(i) + "] = "
  }

  function SubKeyLines(keys: seq<string>, from: nat): seq<string> {
    if keys == [] then [] else [SubKey(from) + keys[0]] + SubKeyLines(keys[1..], from + 1)
  }

  function Listing(keys: seq<string>): seq<string> {
    if keys == [] then ["  no keys."] else SubKeyLines(keys, 0)
  }

  // ---- running a script ----

  /** `order` is the order in which `list` happens to enumerate the store. */
  function Exec(m: Machine, order: seq<string>, c: Command): Machine {
    match c
    case Init => m.(dict := map[])
    case AddStrings(name, values) =>
      if |values| > MAX_VALUES then m.(out := m.out + TOO_MANY)
      else m.(dict := m.dict[name := Strings(values)])
    case AddNumber(name, n) => m.(dict := m.dict[name := Number(n)])
    case SetKey(key) => m.(store := m.store[key := m.dict])
    case RemoveKey(key) =>
      if key in m.store then m.(store := m.store - {key}) else m.(out := m.out + "  No such key\n")
    case ListKeys(pattern) => m.(out := m.out + Unlines(Listing(Select(order, m.store, pattern))))
    case Quit => m.(live := false)
    case Blank => m
    case Unknown => m.(out := m.out + UNKNOWN_COMMAND)
  }

  function RunLines(m: Machine, order: seq<string>, lines: seq<string>): Machine
    decreases |lines|
  {
    if !m.live || lines == [] then m
    else RunLines(Exec(m, order, CommandOf(Words(lines[0]))), order, lines[1..])
  }

  function RunScript(store: Store, order: seq<string>, script: string): Machine {
    RunLines(Machine(store, map[], "", true), order, Split(script, '\n'))
  }

  // ---- reading words back ----

  predicate Word(w: string) {
    w != "" && Free(w, ' ')
  }

  predicate AllWords(ws: seq<string>) {
    forall i :: 0 <= i < |ws| ==> Word(ws[i])
  }

  lemma {:induction false} NonEmptyWords(ws: seq<string>)
    requires AllWords(ws)
    ensures NonEmpty(ws) == ws
  {
    if ws != [] { NonEmptyWords(ws[1..]); }
  }

  /** A line made of blank-free words reads back as those words. */
  lemma WordsOfJoin(ws: seq<string>)
    requires ws != [] && AllWords(ws)
    ensures Words(Join(ws, ' ')) == ws
  {
    SplitJoin(ws, ' ');
    NonEmptyWords(ws);
  }

  lemma {:induction false} NonEmptyAppend(a: seq<string>, b: seq<string>)
    ensures NonEmpty(a + b) == NonEmpty(a) + NonEmpty(b)
  {
    if a == [] {
      assert a + b == b;
    } else {
      assert (a + b)[1..] == a[1..] + b;
      NonEmptyAppend(a[1..], b);
    }
  }

  /** A blank separates the words before it from the words after it. */
  lemma WordsAppend(x: string, y: string)
    ensures Words(x + [' '] + y) == Words(x) + Words(y)
  {
    SplitAppend(x, ' ', y);
    hide Split;
    NonEmptyAppend(Split(x, ' '), Split(y, ' '));
  }

  lemma {:induction false} NonEmptyOf(ws: seq<string>, c: char)
    requires AllFree(ws, ' ')
    ensures AllWords(NonEmpty(ws))
    ensures AllFree(ws, c) ==> AllFree(NonEmpty(ws), c)
  {
    if ws != [] { NonEmptyOf(ws[1..], c); }
  }

  /** What is read off a line are words, with no character the line has not. */
  lemma WordsAreWords(line: string, c: char)
    ensures AllWords(Words(line))
    ensures Free(line, c) ==> AllFree(Words(line), c)
  {
    SplitParts(line, ' ', c);
    hide Split;
    NonEmptyOf(Split(line, ' '), c);
  }

  lemma {:induction false} SomeWord(line: string, i: nat)
    requires i < |line| && line[i] != ' '
    ensures Words(line) != []
  {
    if line[0] == ' ' { SomeWord(line[1..], i - 1); }
  }

  lemma OneWord(w: string)
    requires Word(w)
    ensures Words(w) == [w]
  {
    WordsOfJoin([w]);
  }

  lemma TwoWords(a: string, b: string)
    requires Word(a) && Word(b)
    ensures Words(a + " " + b) == [a, b]
  {
    hide Words;
    OneWord(a);
    OneWord(b);
    WordsAppend(a, b);
    assert a + " " + b == a + [' '] + b;
  }

  lemma AddLine(name: string, marker: string, text: string)
    requires Word(name) && Word(marker)
    ensures Words("d.add " + name + " " + marker + " " + text) == ["d.add", name, marker] + Words(text)
  {
    hide Words;
    TwoWords("d.add", name);
    OneWord(marker);
    ThreeJoin("d.add " + name, marker, text);
    assert "d.add" + " " + name == "d.add " + name;
  }

  lemma ThreeJoin(a: string, b: string, c: string)
    ensures Words(a + " " + b + " " + c) == Words(a) + Words(b) + Words(c)
  {
    hide Words;
    WordsAppend(a, b);
    WordsAppend(a + " " + b, c);
    assert a + " " + b == a + [' '] + b;
    assert a + " " + b + " " + c == (a + " " + b) + [' '] + c;
  }

  lemma RunAppend(m: Machine, order: seq<string>, a: seq<string>, b: seq<string>)
    ensures RunLines(m, order, a + b) == RunLines(RunLines(m, order, a), order, b)
    decreases |a|
  {
    if a == [] {
      assert a + b == b;
    } else {
      assert (a + b)[1..] == a[1..] + b;
      if m.live { RunAppend(Exec(m, order, CommandOf(Words(a[0]))), order, a[1..], b); }
    }
  }

  lemma OneLine(m: Machine, order: seq<string>, ls: seq<string>, i: nat)
    requires i < |ls| && m.live
    ensures RunLines(m, order, ls[i..]) == RunLines(Exec(m, order, CommandOf(Words(ls[i]))), order, ls[i + 1..])
  {
    assert ls[i..][0] == ls[i] && ls[i..][1..] == ls[i + 1..];
  }

  lemma OneWordCommands()
    ensures CommandOf(Words("d.init")) == Init && CommandOf(Words("quit")) == Quit
  {
    WordsOfJoin(["d.init"]);
    WordsOfJoin(["quit"]);
  }

  // ---- what a quoted pattern matches ----

  /** A quoted literal in a pattern matches itself and nothing else. */
  lemma {:induction false} MatchesQuoted(lit: string, rest: string, s: string)
    ensures Matches(QuoteMeta(lit) + rest, s) <==> HasPrefix(s, lit) && Matches(rest, s[|lit|..])
  {
    var p := QuoteMeta(lit) + rest;
    if lit == "" {
      assert p == rest;
    } else {
      var c := lit[0];
      MatchesQuotedStep(lit, rest, s);
      if s != "" {
        MatchesQuoted(lit[1..], rest, s[1..]);
        assert s == [s[0]] + s[1..] && lit == [c] + lit[1..];
        assert |s| >= |lit| ==> s[1..][|lit[1..]|..] == s[|lit|..];
      }
    }
  }

  lemma MatchesOne(c: char, tail: string, s: string)
    ensures Matches((if IsMeta(c) then ['\\', c] else [c]) + tail, s) <==> s != "" && s[0] == c && Matches(tail, s[1..])
  {
    if IsMeta(c) {
      assert (['\\', c] + tail)[2..] == tail;
    } else {
      assert ([c] + tail)[1..] == tail;
    }
  }

  lemma MatchesQuotedStep(lit: string, rest: string, s: string)
    requires lit != ""
    ensures Matches(QuoteMeta(lit) + rest, s) <==>
            s != "" && s[0] == lit[0] && Matches(QuoteMeta(lit[1..]) + rest, s[1..])
  {
    var head := if IsMeta(lit[0]) then ['\\', lit[0]] else [lit[0]];
    assert QuoteMeta(lit) == head + QuoteMeta(lit[1..]);
    hide *;
    assert QuoteMeta(lit) + rest == head + (QuoteMeta(lit[1..]) + rest);
    MatchesOne(lit[0], QuoteMeta(lit[1..]) + rest, s);
  }

  /** `.*` before a quoted literal: anything that ends in it. */
  lemma {:induction false} MatchesAnyThen(lit: string, s: string)
    ensures Matches(".*" + QuoteMeta(lit), s) <==> HasSuffix(s, lit)
  {
    var p := ".*" + QuoteMeta(lit);
    assert p[2..] == QuoteMeta(lit) && QuoteMeta(lit) + "" == QuoteMeta(lit);
    MatchesQuoted(lit, "", s);
    if s != "" {
      MatchesAnyThen(lit, s[1..]);
      assert |s| > |lit| ==> s[1..][|s[1..]| - |lit|..] == s[|s| - |lit|..];
    }
  }
}
