/** Listing our keys through scutil, and telling a listing from an error message
    (internal/platform/scutil.go:129-164, internal/platform/platform_darwin.go:24-49). */
module Listings {
  import opened Text
  import opened Specs
  import opened Scutil
  import opened Keys

  // ---- error-looking output ----

  predicate Contains(s: string, sub: string) {
    HasPrefix(s, sub) || (s != "" && Contains(s[1..], sub))
  }

  /** The phrases that mark a failure in output that comes with exit code 0. */
  predicate Alarming(text: string) {
    || Contains(text, "failed")
    || Contains(text, "not permitted")
    || Contains(text, "permission denied")
    || Contains(text, "access denied")
  }

  predicate ErrorLine(line: string) {
    var l := ToLower(TrimSpace(line));
    l != "" && Alarming(l)
  }

  predicate AnyErrorLine(lines: seq<string>) {
    exists i :: 0 <= i < |lines| && ErrorLine(lines[i])
  }

  predicate LooksFailed(out: string) {
    AnyErrorLine(Split(out, '\n'))
  }

  /** `text` is the first error-looking line, trimmed. */
  predicate FirstError(lines: seq<string>, text: string) {
    exists i :: 0 <= i < |lines| && ErrorLine(lines[i]) && text == TrimSpace(lines[i]) && !AnyErrorLine(lines[..i])
  }

  method ScutilOutputError(out: string) returns (err: Option<string>)
    ensures err.Some? <==> LooksFailed(out)
    ensures err.Some? ==> FirstError(Split(out, '\n'), err.value)
  {
    hide Alarming, TrimSpace, ToLower;
    var lines := Split(out, '\n');
    for i := 0 to |lines|
      invariant forall j :: 0 <= j < i ==> !ErrorLine(lines[j])
    {
      var l := ToLower(TrimSpace(lines[i]));
      if l == "" {
        continue;
      }
      if Alarming(l) {
        assert ErrorLine(lines[i]) && !AnyErrorLine(lines[..i]);
        return Some(TrimSpace(lines[i]));
      }
    }
    return None;
  }

  // ---- the list script ----

  function ListPattern(): string {
    QuoteMeta(DYN_STORE_PREFIX) + ".*/DNS"
  }

  function ListScript(): string {
    "list " + ListPattern() + "\nquit\n"
  }

  /** Beginning and end of a key as the listing wants them; not every such key has an owner. */
  predicate Listable(key: string) {
    HasPrefix(key, DYN_STORE_PREFIX) && HasSuffix(key[|DYN_STORE_PREFIX|..], DNS_SUFFIX)
  }

  lemma {:induction false} PlainQuote(s: string)
    requires forall i :: 0 <= i < |s| ==> !IsMeta(s[i])
    ensures QuoteMeta(s) == s
  {
    if s != "" {
      PlainQuote(s[1..]);
      assert s == [s[0]] + s[1..];
    }
  }

  lemma PatternExact(key: string)
    ensures Matches(ListPattern(), key) <==> Listable(key)
  {
    PatternText();
    hide QuoteMeta, Matches, ListPattern, HasPrefix, HasSuffix;
    MatchesBetween(DYN_STORE_PREFIX, DNS_SUFFIX, key);
  }

  lemma PatternText()
    ensures ListPattern() == QuoteMeta(DYN_STORE_PREFIX) + (".*" + QuoteMeta(DNS_SUFFIX))
  {
    hide QuoteMeta;
    SuffixIsPlain();
    SuffixPattern();
  }

  lemma SuffixIsPlain()
    ensures QuoteMeta(DNS_SUFFIX) == DNS_SUFFIX
  {
    PlainQuote(DNS_SUFFIX);
  }

  lemma SuffixPattern()
    ensures ".*/DNS" == ".*" + DNS_SUFFIX
  {
  }

  lemma MatchesBetween(before: string, after: string, key: string)
    ensures Matches(QuoteMeta(before) + (".*" + QuoteMeta(after)), key) <==>
            HasPrefix(key, before) && HasSuffix(key[|before|..], after)
  {
    MatchesQuoted(before, ".*" + QuoteMeta(after), key);
    if |key| >= |before| { MatchesAnyThen(after, key[|before|..]); }
  }

  lemma PatternIsWord()
    ensures Word(ListPattern()) && Free(ListPattern(), '\n')
  {
    PrefixIsPlain();
    PrefixIsWord();
    TailIsPlain();
    hide QuoteMeta;
    FreeAppend(DYN_STORE_PREFIX, ".*/DNS", ' ');
    FreeAppend(DYN_STORE_PREFIX, ".*/DNS", '\n');
  }

  lemma PrefixIsPlain()
    ensures QuoteMeta(DYN_STORE_PREFIX) == DYN_STORE_PREFIX
  {
    PlainQuote(DYN_STORE_PREFIX);
  }

  lemma PrefixIsWord()
    ensures Free(DYN_STORE_PREFIX, ' ') && Free(DYN_STORE_PREFIX, '\n')
  {
    assert forall i :: 0 <= i < |DYN_STORE_PREFIX| ==> DYN_STORE_PREFIX[i] >= '-';
  }

  lemma TailIsPlain()
    ensures Free(".*/DNS", ' ') && Free(".*/DNS", '\n')
  {
  }

  lemma FreeAppend(a: string, b: string, c: char)
    requires Free(a, c) && Free(b, c)
    ensures Free(a + b, c)
  {
  }

  /** Running the list script prints the listing of the matching keys and changes nothing. */
  lemma ListScriptRuns(store: Store, order: seq<string>)
    ensures var m := RunScript(store, order, ListScript());
            m.store == store && m.out == Unlines(Listing(Select(order, store, ListPattern())))
  {
    PatternIsWord();
    hide ListPattern;
    ListRuns(store, order, ListPattern());
  }

  lemma ListRuns(store: Store, order: seq<string>, pattern: string)
    requires Word(pattern) && Free(pattern, '\n')
    ensures var m := RunScript(store, order, "list " + pattern + "\nquit\n");
            m.store == store && m.out == Unlines(Listing(Select(order, store, pattern)))
  {
    var line := "list " + pattern;
    ListScriptLines(line);
    TwoWords("list", pattern);
    assert line == "list" + " " + pattern;
    assert CommandOf(Words(line)) == ListKeys(pattern);
    OneWordCommands();
    hide Words, Select, Listing, Split, CommandOf, Unlines;
    assert "" + Unlines(Listing(Select(order, store, pattern))) == Unlines(Listing(Select(order, store, pattern)));
    ListThenQuit(Machine(store, map[], "", true), order, [line, "quit", ""], pattern);
  }

  lemma ListScriptLines(line: string)
    requires Free(line, '\n')
    ensures Split(line + "\nquit\n", '\n') == [line, "quit", ""]
  {
    SplitOneLine("quit");
    SplitFree(line, '\n');
    hide *;
    SplitAppend(line, '\n', "quit" + "\n");
    assert line + ['\n'] + ("quit" + "\n") == line + "\nquit\n";
    assert [line] + ["quit", ""] == [line, "quit", ""];
  }

  lemma SplitOneLine(line: string)
    requires Free(line, '\n')
    ensures Split(line + "\n", '\n') == [line, ""] && Unlines([line]) == line + "\n"
  {
    hide Split, Unlines, Free;
    OneMoreLine([line]);
    NoLines();
    assert [line][1..] == [];
    assert line + ['\n'] + "" == line + "\n";
    SplitUnlines([line]);
    assert [line] + [""] == [line, ""];
  }

  lemma ListThenQuit(m: Machine, order: seq<string>, ls: seq<string>, pattern: string)
    requires m.live && |ls| == 3
    requires CommandOf(Words(ls[0])) == ListKeys(pattern) && CommandOf(Words(ls[1])) == Quit
    ensures RunLines(m, order, ls) == m.(out := m.out + Unlines(Listing(Select(order, m.store, pattern))), live := false)
  {
    hide CommandOf, Words, Select, Listing, Unlines;
    OneLine(m, order, ls, 0);
    assert ls[0..] == ls;
    OneLine(m.(out := m.out + Unlines(Listing(Select(order, m.store, pattern)))), order, ls, 1);
  }

  // ---- parsing the listing back ----

  /** The keys that a listing prints fit on their lines. */
  predicate Printable(store: Store) {
    forall k :: k in store && Listable(k) ==> Free(k, '\n')
  }

  lemma ListableEnds(key: string)
    requires Listable(key)
    ensures key != "" && key[0] == 'S' && key[|key| - 1] == 'S'
  {
    assert key[..|DYN_STORE_PREFIX|][0] == 'S';
    var rest := key[|DYN_STORE_PREFIX|..];
    assert rest[|rest| - 4..][3] == DNS_SUFFIX[3] == 'S';
  }

  lemma SubKeyLine(i: nat, key: string)
    requires Listable(key) && Free(key, '\n')
    ensures LineKey(SubKey(i) + key) == Some(key)
    ensures Free(SubKey(i) + key, '\n')
  {
    var before := "  subKey [" + Itoa(i) + "] ";
    DigitsFree(Itoa(i), '=');
    DigitsFree(Itoa(i), '\n');
    assert SubKey(i) + key == before + "= " + key;
    CutAt(before, "= ", key);
    ListableEnds(key);
    TrimUnpadded(key);
  }

  lemma {:induction false} SubKeyLinesParse(keys: seq<string>, from: nat)
    requires forall k :: k in keys ==> Listable(k) && Free(k, '\n')
    ensures KeysOnLines(SubKeyLines(keys, from) + [""]) == keys
    ensures AllFree(SubKeyLines(keys, from), '\n')
    decreases |keys|
  {
    hide LineKey, SubKey, Listable, Free, KeysOnLines, SubKeyLines;
    FewerSubKeys(keys, from);
    if keys == [] {
      EmptyLineIsNoKey();
      assert [] + [""] == [""];
    } else {
      assert keys[0] in keys;
      SubKeyLine(from, keys[0]);
      SubKeyLinesParse(keys[1..], from + 1);
      var rest := SubKeyLines(keys[1..], from + 1);
      KeyFirst(SubKey(from) + keys[0], rest + [""]);
      assert ([SubKey(from) + keys[0]] + rest) + [""] == [SubKey(from) + keys[0]] + (rest + [""]);
      assert keys == [keys[0]] + keys[1..];
    }
  }

  lemma FewerSubKeys(keys: seq<string>, from: nat)
    ensures SubKeyLines(keys, from) == if keys == [] then [] else [SubKey(from) + keys[0]] + SubKeyLines(keys[1..], from + 1)
  {
  }

  lemma EmptyLineIsNoKey()
    ensures KeysOnLines([""]) == []
  {
    assert [""][1..] == [];
    assert Cut("", "= ") == None;
  }

  lemma KeyFirst(line: string, rest: seq<string>)
    requires LineKey(line).Some?
    ensures KeysOnLines([line] + rest) == [LineKey(line).value] + KeysOnLines(rest)
  {
    hide LineKey;
    assert ([line] + rest)[1..] == rest;
  }

  /** Parsing the listing gives back exactly the listed keys, in order. */
  lemma ListingParses(keys: seq<string>)
    requires forall k :: k in keys ==> Listable(k) && Free(k, '\n')
    ensures ListedKeys(Unlines(Listing(keys))) == keys
    ensures AllFree(Listing(keys), '\n')
  {
    if keys == [] {
      NoKeysParse();
    } else {
      SubKeyLinesParse(keys, 0);
      hide KeysOnLines, SubKeyLines, Unlines, Split;
      SplitUnlines(Listing(keys));
    }
  }

  lemma NoKeysParse()
    ensures ListedKeys(Unlines(Listing([]))) == [] && AllFree(Listing([]), '\n')
  {
    KeylessLine("  no keys.");
  }

  lemma KeylessLine(line: string)
    requires Free(line, '=') && Free(line, '\n')
    ensures ListedKeys(Unlines([line])) == []
  {
    SplitOneLine(line);
    NoCut(line, "= ");
    NoCut("", "= ");
    hide Cut, Split, Unlines;
    assert KeysOnLines([""][1..]) == [];
    assert KeysOnLines([line, ""][1..]) == KeysOnLines([""]) == [];
  }

  lemma {:induction false} NoCut(s: string, sep: string)
    requires sep != "" && Free(s, sep[0])
    ensures Cut(s, sep) == None
  {
    if s != "" {
      DifferentHead(s, sep);
      NoCut(s[1..], sep);
    }
  }

  // ---- when a listing looks like an error ----

  /** A listed key whose own text contains a failure phrase. */
  predicate Suspicious(key: string) {
    Alarming(ToLower(key))
  }

  lemma {:induction false} ContainsSkip(before: string, s: string, w: string)
    requires w != "" && Free(before, w[0])
    ensures Contains(before + s, w) <==> Contains(s, w)
  {
    if before == "" {
      assert before + s == s;
    } else {
      assert (before + s)[1..] == before[1..] + s;
      DifferentHead(before + s, w);
      ContainsSkip(before[1..], s, w);
    }
  }

  lemma {:induction false} ContainsAround(x: string, c: char, y: string, w: string)
    requires w != "" && Free(w, c)
    ensures Contains(x + [c] + y, w) <==> Contains(x, w) || Contains(y, w)
  {
    var s := x + [c] + y;
    if x == "" {
      assert s[1..] == y;
      DifferentHead(s, w);
    } else {
      assert s[1..] == x[1..] + [c] + y;
      ContainsAround(x[1..], c, y, w);
      PrefixBefore(x, c, y, w);
    }
  }

  lemma PrefixBefore(x: string, c: char, y: string, w: string)
    requires Free(w, c)
    ensures HasPrefix(x + [c] + y, w) <==> HasPrefix(x, w)
  {
    var s := x + [c] + y;
    if |w| <= |x| {
      assert s[..|w|] == x[..|w|];
    } else if |w| <= |s| {
      assert s[..|w|][|x|] == c;
    }
  }

  lemma {:induction false} ContainsNeeds(s: string, w: string, c: char)
    requires c in w && Free(s, c)
    ensures !Contains(s, w)
  {
    assert !HasPrefix(s, w) by { assert |w| <= |s| ==> forall i :: 0 <= i < |w| ==> s[..|w|][i] != c; }
    if s != "" { ContainsNeeds(s[1..], w, c); }
  }

  lemma LowerAppend(a: string, b: string)
    ensures ToLower(a + b) == ToLower(a) + ToLower(b)
  {
  }

  lemma TrimTwoBlanks(s: string)
    requires s != "" && Unpadded(s)
    ensures TrimSpace("  " + s) == s
  {
    var line := "  " + s;
    assert line[1..][1..] == s;
    assert TrimLeft(line) == TrimLeft(line[1..]) == TrimLeft(s);
    TrimUnpadded(s);
  }

  lemma SubKeyError(i: nat, key: string)
    requires Listable(key)
    ensures ErrorLine(SubKey(i) + key) <==> Suspicious(key)
  {
    hide Itoa, Contains, Listable, TrimSpace, ToLower;
    var text := SubKeyText(i);
    ListableEnds(key);
    SubKeyTrimmed(i, key);
    LowerAppend(text, key);
    LowerSubKey(i);
    var lower := ToLower(text);
    ContainsSkip(lower, ToLower(key), "failed");
    ContainsSkip(lower, ToLower(key), "not permitted");
    ContainsSkip(lower, ToLower(key), "permission denied");
    ContainsSkip(lower, ToLower(key), "access denied");
  }

  /** The beginning of a listed line, without its indentation. */
  function SubKeyText(i: nat): string {
    "subKey [" + Itoa(i) + "] = "
  }

  lemma SubKeyTrimmed(i: nat, key: string)
    requires Listable(key)
    ensures TrimSpace(SubKey(i) + key) == SubKeyText(i) + key
  {
    hide Itoa, TrimSpace;
    ListableEnds(key);
    hide Listable;
    assert SubKey(i) + key == "  " + (SubKeyText(i) + key);
    TrimTwoBlanks(SubKeyText(i) + key);
  }

  lemma LowerSubKey(i: nat)
    ensures ToLower(SubKeyText(i)) != ""
    ensures forall c :: c in "fnpa" ==> Free(ToLower(SubKeyText(i)), c)
  {
    DigitsFree(Itoa(i), 'f');
    forall c | c in "fnpa" ensures Free(ToLower(SubKeyText(i)), c) { LowerFree(i, c); }
  }

  lemma LowerFree(i: nat, c: char)
    requires c in "fnpa"
    ensures Free(ToLower("subKey [" + Itoa(i) + "] = "), c)
  {
    LowerAppend("subKey [" + Itoa(i), "] = ");
    LowerAppend("subKey [", Itoa(i));
    assert AllDigits(ToLower(Itoa(i)));
  }

  lemma {:induction false} SubKeyLinesError(keys: seq<string>, from: nat)
    requires forall k :: k in keys ==> Listable(k)
    ensures AnyErrorLine(SubKeyLines(keys, from)) <==> exists k :: k in keys && Suspicious(k)
    decreases |keys|
  {
    if keys != [] {
      assert keys[0] in keys && keys == [keys[0]] + keys[1..];
      SubKeyError(from, keys[0]);
      SubKeyLinesError(keys[1..], from + 1);
      var lines := SubKeyLines(keys, from);
      assert lines[0] == SubKey(from) + keys[0] && lines[1..] == SubKeyLines(keys[1..], from + 1);
      AnyErrorCons(lines);
    }
  }

  lemma AnyErrorCons(lines: seq<string>)
    requires lines != []
    ensures AnyErrorLine(lines) <==> ErrorLine(lines[0]) || AnyErrorLine(lines[1..])
  {
    if AnyErrorLine(lines) && !ErrorLine(lines[0]) {
      var i :| 0 <= i < |lines| && ErrorLine(lines[i]);
      assert lines[1..][i - 1] == lines[i];
    }
    if AnyErrorLine(lines[1..]) {
      var i :| 0 <= i < |lines[1..]| && ErrorLine(lines[1..][i]);
      assert lines[i + 1] == lines[1..][i];
    }
  }

  /** The program takes a listing for a failure exactly when some listed key contains a phrase. */
  lemma ListingLooksFailed(keys: seq<string>)
    requires forall k :: k in keys ==> Listable(k) && Free(k, '\n')
    ensures LooksFailed(Unlines(Listing(keys))) <==> exists k :: k in keys && Suspicious(k)
  {
    var lines := Listing(keys);
    ListingParses(keys);
    SplitUnlines(lines);
    AnyErrorSnoc(lines);
    if keys == [] {
      NoKeysIsFine();
    } else {
      SubKeyLinesError(keys, 0);
    }
  }

  lemma AnyErrorSnoc(lines: seq<string>)
    ensures AnyErrorLine(lines + [""]) <==> AnyErrorLine(lines)
  {
    assert !ErrorLine("");
    if AnyErrorLine(lines) {
      var i :| 0 <= i < |lines| && ErrorLine(lines[i]);
      assert (lines + [""])[i] == lines[i];
    }
  }

  lemma NoKeysIsFine()
    ensures !AnyErrorLine(["  no keys."])
  {
    TrimTwoBlanks("no keys.");
    NoKeysQuiet();
    assert "  no keys." == "  " + "no keys.";
    assert ToLower("no keys.") == "no keys.";
    hide Alarming, TrimSpace, ToLower;
  }

  lemma NoKeysQuiet()
    ensures !Alarming("no keys.")
  {
    hide Contains;
    ContainsNeeds("no keys.", "failed", 'f');
    ContainsNeeds("no keys.", "not permitted", 't');
    ContainsNeeds("no keys.", "permission denied", 'p');
    ContainsNeeds("no keys.", "access denied", 'a');
  }

  /** For a blank-free owner only the word "failed" inside the name itself can do it. */
  lemma SuspiciousOwner(p: Parts)
    requires WellFormed(p) && NoSpace(p.owner)
    ensures Suspicious(KeyText(p.owner, p.kind, p.digits)) <==> Contains(ToLower(p.owner), "failed")
  {
    var key := KeyText(p.owner, p.kind, p.digits);
    ParseKeyComplete(p);
    SpaceFree(key);
    FailedInKey(p);
    hide KeyText, ToLower, Contains;
    ContainsNeeds(ToLower(key), "not permitted", ' ');
    ContainsNeeds(ToLower(key), "permission denied", ' ');
    ContainsNeeds(ToLower(key), "access denied", ' ');
  }

  function KeyTail(p: Parts): string {
    KindText(p.kind) + "-" + p.digits + DNS_SUFFIX
  }

  lemma LowerKey(p: Parts)
    ensures ToLower(KeyText(p.owner, p.kind, p.digits)) ==
            ToLower(DYN_STORE_PREFIX) + (ToLower(p.owner) + ['-'] + ToLower(KeyTail(p)))
  {
    assert KeyText(p.owner, p.kind, p.digits) == DYN_STORE_PREFIX + (p.owner + "-" + KeyTail(p));
    hide KeyText, KeyTail;
    LowerAppend(DYN_STORE_PREFIX, p.owner + "-" + KeyTail(p));
    LowerAppend(p.owner + "-", KeyTail(p));
    LowerAppend(p.owner, "-");
    assert ToLower("-") == ['-'];
  }

  lemma FailedInKey(p: Parts)
    requires WellFormed(p)
    ensures Contains(ToLower(KeyText(p.owner, p.kind, p.digits)), "failed") <==> Contains(ToLower(p.owner), "failed")
  {
    LowerKey(p);
    LowerRest(p);
    LowerPrefix();
    hide KeyText, KeyTail, ToLower, Contains;
    ContainsSkip(ToLower(DYN_STORE_PREFIX), ToLower(p.owner) + ['-'] + ToLower(KeyTail(p)), "failed");
    ContainsAround(ToLower(p.owner), '-', ToLower(KeyTail(p)), "failed");
    ContainsNeeds(ToLower(KeyTail(p)), "failed", 'f');
  }

  lemma LowerPrefix()
    ensures Free(ToLower(DYN_STORE_PREFIX), 'f')
  {
    assert forall i :: 0 <= i < |DYN_STORE_PREFIX| ==> LowerChar(DYN_STORE_PREFIX[i]) != 'f';
  }

  lemma LowerRest(p: Parts)
    requires WellFormed(p)
    ensures Free(ToLower(KeyTail(p)), 'f')
  {
    var rest := KeyTail(p);
    assert forall i :: 0 <= i < |rest| ==> rest[i] != 'f' && rest[i] != 'F';
  }

  lemma SpaceFree(key: string)
    requires ParseKey(key).Some? && NoSpace(ParseKey(key).value.owner)
    ensures Free(ToLower(key), ' ') && CleanWord(key)
  {
    var p := ParseKey(key).value;
    ParseKeySound(key);
    NoSpaceKey(p);
    assert forall i :: 0 <= i < |key| ==> LowerChar(key[i]) != ' ';
  }

  lemma NoSpaceKey(p: Parts)
    requires WellFormed(p) && NoSpace(p.owner)
    ensures CleanWord(KeyText(p.owner, p.kind, p.digits))
  {
    hide NoSpace, KindText;
    PartsHaveNoSpace(p);
    NoSpaceAppend(DYN_STORE_PREFIX, p.owner);
    NoSpaceAppend(DYN_STORE_PREFIX + p.owner, "-");
    NoSpaceAppend(DYN_STORE_PREFIX + p.owner + "-", KindText(p.kind));
    NoSpaceAppend(DYN_STORE_PREFIX + p.owner + "-" + KindText(p.kind), "-");
    NoSpaceAppend(DYN_STORE_PREFIX + p.owner + "-" + KindText(p.kind) + "-", p.digits);
    NoSpaceAppend(DYN_STORE_PREFIX + p.owner + "-" + KindText(p.kind) + "-" + p.digits, DNS_SUFFIX);
  }

  lemma PartsHaveNoSpace(p: Parts)
    requires WellFormed(p)
    ensures NoSpace(DYN_STORE_PREFIX) && NoSpace("-") && NoSpace(KindText(p.kind)) && NoSpace(p.digits) && NoSpace(DNS_SUFFIX)
  {
  }

  lemma NoSpaceAppend(a: string, b: string)
    requires NoSpace(a) && NoSpace(b)
    ensures NoSpace(a + b)
  {
  }

  /** Blanks in a key come from its owner's name. */
  lemma BlankInOwner(p: Parts)
    requires WellFormed(p)
    ensures Free(KeyText(p.owner, p.kind, p.digits), ' ') <==> Free(p.owner, ' ')
  {
    var tail := "-" + KindText(p.kind) + "-" + p.digits + DNS_SUFFIX;
    PrefixIsWord();
    TailIsWord(p);
    var key := KeyText(p.owner, p.kind, p.digits);
    assert key == DYN_STORE_PREFIX + p.owner + tail;
    hide KeyText, KindText, AllDigits;
    assert forall i :: 0 <= i < |p.owner| ==> key[|DYN_STORE_PREFIX| + i] == p.owner[i];
  }

  lemma TailIsWord(p: Parts)
    requires WellFormed(p)
    ensures Free("-" + KindText(p.kind) + "-" + p.digits + DNS_SUFFIX, ' ')
  {
    assert Free("-", ' ') && Free(KindText(p.kind), ' ') && Free(p.digits, ' ') && Free(DNS_SUFFIX, ' ');
  }

  // ---- what an error message is ----

  lemma {:induction false} ContainsExactly(s: string, w: string)
    ensures Contains(s, w) <==> exists x, y :: s == x + w + y
  {
    if Contains(s, w) {
      var x, y := ContainsParts(s, w);
      assert s == x + w + y;
    }
    forall x, y | s == x + w + y ensures Contains(s, w) { PartsContain(x, w, y); }
  }

  lemma {:induction false} ContainsParts(s: string, w: string) returns (x: string, y: string)
    requires Contains(s, w)
    ensures s == x + w + y
  {
    if HasPrefix(s, w) {
      x, y := "", s[|w|..];
    } else {
      x, y := ContainsParts(s[1..], w);
      x := [s[0]] + x;
    }
  }

  lemma {:induction false} PartsContain(x: string, w: string, y: string)
    ensures Contains(x + w + y, w)
  {
    var s := x + w + y;
    if x == "" {
      assert s == w + y && s[..|w|] == w;
    } else {
      assert s[1..] == x[1..] + w + y;
      PartsContain(x[1..], w, y);
    }
  }

  /** A line is taken for an error when it has one of four phrases in it, in any case. */
  lemma ErrorExactly(line: string)
    ensures ErrorLine(line) <==>
            exists x, w, y :: w in ["failed", "not permitted", "permission denied", "access denied"] && ToLower(TrimSpace(line)) == x + w + y
  {
    hide Contains, TrimSpace, ToLower;
    var l := ToLower(TrimSpace(line));
    var phrases := ["failed", "not permitted", "permission denied", "access denied"];
    forall w ensures w in phrases <==> w == "failed" || w == "not permitted" || w == "permission denied" || w == "access denied" { }
    forall w | w in phrases ensures Contains(l, w) <==> exists x, y :: l == x + w + y { ContainsExactly(l, w); }
    if w :| w in phrases && Contains(l, w) {
      var x, y :| l == x + w + y;
      assert |w| > 0;
    }
  }
}
