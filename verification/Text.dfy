/** Byte strings as the Go code uses them: a `string` holds one `char` per byte.
    Only what the writer, the parser and the domain code need is here, together with
    the laws that make printing and parsing inverse to each other. */
module Text {

  datatype Option<+T> = None | Some(value: T)

  datatype Result<+T, +E> = Ok(value: T) | Err(error: E)

  predicate HasPrefix(s: string, p: string) {
    |p| <= |s| && s[..|p|] == p
  }

  predicate HasSuffix(s: string, p: string) {
    |p| <= |s| && s[|s| - |p|..] == p
  }

  function TrimSuffix(s: string, p: string): string {
    if HasSuffix(s, p) then s[..|s| - |p|] else s
  }

  // ---- white space and case (the ASCII part of strings.TrimSpace and strings.ToLower) ----

  predicate IsSpace(c: char) {
    c == ' ' || '\t' <= c <= '\r'
  }

  predicate NoSpace(s: string) {
    forall i :: 0 <= i < |s| ==> !IsSpace(s[i])
  }

  function TrimLeft(s: string): string {
    if s != "" && IsSpace(s[0]) then TrimLeft(s[1..]) else s
  }

  function TrimRight(s: string): string {
    if s != "" && IsSpace(s[|s| - 1]) then TrimRight(s[..|s| - 1]) else s
  }

  function TrimSpace(s: string): string {
    TrimRight(TrimLeft(s))
  }

  /** No white space at either end, so trimming changes nothing. */
  predicate Unpadded(s: string) {
    s != "" ==> !IsSpace(s[0]) && !IsSpace(s[|s| - 1])
  }

  lemma TrimUnpadded(s: string)
    requires Unpadded(s)
    ensures TrimSpace(s) == s
  {
  }

  predicate Blank(s: string) {
    forall i :: 0 <= i < |s| ==> IsSpace(s[i])
  }

  lemma {:induction false} TrimLeftParts(s: string) returns (before: string)
    ensures Blank(before) && s == before + TrimLeft(s)
    ensures TrimLeft(s) != "" ==> !IsSpace(TrimLeft(s)[0])
  {
    if s != "" && IsSpace(s[0]) {
      var rest := TrimLeftParts(s[1..]);
      before := [s[0]] + rest;
    } else {
      before := "";
    }
  }

  lemma {:induction false} TrimRightParts(s: string) returns (after: string)
    ensures Blank(after) && s == TrimRight(s) + after
    ensures TrimRight(s) != "" ==> !IsSpace(TrimRight(s)[|TrimRight(s)| - 1])
  {
    if s != "" && IsSpace(s[|s| - 1]) {
      var rest := TrimRightParts(s[..|s| - 1]);
      after := rest + [s[|s| - 1]];
    } else {
      after := "";
    }
  }

  /** Trimming takes blanks off both ends and leaves none there. */
  lemma TrimParts(s: string) returns (before: string, after: string)
    ensures Blank(before) && Blank(after) && s == before + TrimSpace(s) + after && Unpadded(TrimSpace(s))
  {
    before := TrimLeftParts(s);
    after := TrimRightParts(TrimLeft(s));
    hide TrimLeft, TrimRight;
    var t := TrimSpace(s);
    assert s == before + (t + after);
    if t != "" { assert TrimLeft(s)[0] == t[0]; }
  }

  lemma {:induction false} TrimLeftOff(before: string, s: string)
    requires Blank(before) && s != "" && !IsSpace(s[0])
    ensures TrimLeft(before + s) == s
  {
    if before == "" {
      assert before + s == s;
    } else {
      assert (before + s)[1..] == before[1..] + s;
      TrimLeftOff(before[1..], s);
    }
  }

  lemma {:induction false} TrimRightOff(s: string, after: string)
    requires Blank(after) && s != "" && !IsSpace(s[|s| - 1])
    ensures TrimRight(s + after) == s
  {
    if after == "" {
      assert s + after == s;
    } else {
      assert (s + after)[..|s + after| - 1] == s + after[..|after| - 1];
      TrimRightOff(s, after[..|after| - 1]);
    }
  }

  lemma TrimPadded(before: string, s: string, after: string)
    requires Blank(before) && Blank(after) && s != "" && Unpadded(s)
    ensures TrimSpace(before + s + after) == s
  {
    hide TrimLeft, TrimRight;
    TrimLeftOff(before, s + after);
    assert before + s + after == before + (s + after);
    TrimRightOff(s, after);
  }

  function LowerChar(c: char): char {
    if 'A' <= c <= 'Z' then (c as int + 32) as char else c
  }

  function ToLower(s: string): string {
    seq(|s|, i requires 0 <= i < |s| => LowerChar(s[i]))
  }

  // ---- splitting and joining ----

  /** strings.Split with a one-byte separator. */
  function Split(s: string, sep: char): (parts: seq<string>)
    ensures |parts| >= 1
  {
    if s == "" then [""]
    else if s[0] == sep then [""] + Split(s[1..], sep)
    else
      var rest := Split(s[1..], sep);
      [[s[0]] + rest[0]] + rest[1..]
  }

  /** strings.Join with a one-byte separator. */
  function Join(parts: seq<string>, sep: char): string {
    if |parts| == 0 then ""
    else if |parts| == 1 then parts[0]
    else parts[0] + [sep] + Join(parts[1..], sep)
  }

  predicate Free(s: string, c: char) {
    c !in s
  }

  predicate AllFree(parts: seq<string>, c: char) {
    forall i :: 0 <= i < |parts| ==> Free(parts[i], c)
  }

  lemma {:induction false} SplitFree(s: string, sep: char)
    requires Free(s, sep)
    ensures Split(s, sep) == [s]
  {
    if s != "" {
      SplitFree(s[1..], sep);
      assert s == [s[0]] + s[1..];
    }
  }

  lemma {:induction false} SplitAppend(x: string, sep: char, y: string)
    ensures Split(x + [sep] + y, sep) == Split(x, sep) + Split(y, sep)
  {
    var s := x + [sep] + y;
    if x == "" {
      assert s[1..] == y;
    } else {
      assert s[1..] == x[1..] + [sep] + y;
      SplitAppend(x[1..], sep, y);
    }
  }

  /** The parts hold no separator, and nothing that was not in the text. */
  lemma {:induction false} SplitParts(s: string, sep: char, c: char)
    ensures AllFree(Split(s, sep), sep)
    ensures Free(s, c) ==> AllFree(Split(s, sep), c)
  {
    if s != "" {
      SplitParts(s[1..], sep, c);
      var rest := Split(s[1..], sep);
      assert Free(s, c) ==> Free(s[1..], c);
      assert Free(rest[0], sep) && (Free(s, c) ==> Free(rest[0], c));
      hide Split;
      assert forall i :: 0 <= i < |rest[1..]| ==> rest[1..][i] == rest[i + 1];
    }
  }

  /** Splitting undoes joining. */
  lemma {:induction false} SplitJoin(parts: seq<string>, sep: char)
    requires |parts| >= 1 && AllFree(parts, sep)
    ensures Split(Join(parts, sep), sep) == parts
  {
    SplitFree(parts[0], sep);
    if |parts| > 1 {
      SplitJoin(parts[1..], sep);
      SplitAppend(parts[0], sep, Join(parts[1..], sep));
      assert parts == [parts[0]] + parts[1..];
    }
  }

  lemma {:induction false} JoinAppend(a: seq<string>, b: seq<string>, sep: char)
    requires |a| >= 1 && |b| >= 1
    ensures Join(a + b, sep) == Join(a, sep) + [sep] + Join(b, sep)
  {
    if |a| == 1 {
      assert (a + b)[1..] == b;
    } else {
      assert (a + b)[1..] == a[1..] + b;
      JoinAppend(a[1..], b, sep);
    }
  }

  /** Every line followed by a newline, as the renderers write them. */
  function Unlines(lines: seq<string>): string {
    if lines == [] then "" else lines[0] + "\n" + Unlines(lines[1..])
  }

  lemma {:induction false} UnlinesAppend(a: seq<string>, b: seq<string>)
    ensures Unlines(a + b) == Unlines(a) + Unlines(b)
  {
    if a == [] {
      assert a + b == b;
    } else {
      assert (a + b)[1..] == a[1..] + b;
      UnlinesAppend(a[1..], b);
      assert Unlines(a + b) == a[0] + "\n" + (Unlines(a[1..]) + Unlines(b));
    }
  }

  lemma {:induction false} SplitUnlines(lines: seq<string>)
    requires AllFree(lines, '\n')
    ensures Split(Unlines(lines), '\n') == lines + [""]
  {
    if lines != [] {
      SplitUnlines(lines[1..]);
      SplitFree(lines[0], '\n');
      assert Unlines(lines) == lines[0] + ['\n'] + Unlines(lines[1..]);
      SplitAppend(lines[0], '\n', Unlines(lines[1..]));
      assert lines == [lines[0]] + lines[1..];
    }
  }

  /** Whole lines at the beginning of a text split off. */
  lemma {:induction false} SplitLinesOff(lines: seq<string>, text: string)
    requires AllFree(lines, '\n')
    ensures Split(Unlines(lines) + text, '\n') == lines + Split(text, '\n')
  {
    hide Split, Unlines, Free;
    if lines == [] {
      NoLines();
      assert "" + text == text && lines + Split(text, '\n') == Split(text, '\n');
    } else {
      SplitLinesOff(lines[1..], text);
      SplitFree(lines[0], '\n');
      FirstLineOff(lines, text);
      SplitAppend(lines[0], '\n', Unlines(lines[1..]) + text);
      assert lines + Split(text, '\n') == [lines[0]] + (lines[1..] + Split(text, '\n'));
    }
  }

  lemma NoLines()
    ensures Unlines([]) == ""
  {
  }

  lemma FirstLineOff(lines: seq<string>, text: string)
    requires lines != []
    ensures Unlines(lines) + text == lines[0] + ['\n'] + (Unlines(lines[1..]) + text)
  {
    hide Unlines;
    OneMoreLine(lines);
    var rest := Unlines(lines[1..]);
    assert (lines[0] + ['\n'] + rest) + text == lines[0] + ['\n'] + (rest + text);
  }

  lemma OneMoreLine(lines: seq<string>)
    requires lines != []
    ensures Unlines(lines) == lines[0] + ['\n'] + Unlines(lines[1..])
  {
    var rest := Unlines(lines[1..]);
    assert lines[0] + "\n" + rest == lines[0] + ['\n'] + rest;
  }

  /** strings.Cut: the parts before and after the first `sep`. */
  function Cut(s: string, sep: string): (r: Option<(string, string)>)
    ensures r.Some? ==> s == r.value.0 + sep + r.value.1
  {
    if HasPrefix(s, sep) then
      assert s == "" + sep + s[|sep|..];
      Some(("", s[|sep|..]))
    else if s == "" then None
    else match Cut(s[1..], sep)
      case None => None
      case Some(p) =>
        HeadJoins(s, p.0, sep, p.1);
        Some(([s[0]] + p.0, p.1))
  }

  /** What stands before the first dot holds none. */
  lemma {:induction false} CutFree(s: string, sep: char)
    ensures Cut(s, [sep]).Some? ==> Free(Cut(s, [sep]).value.0, sep)
  {
    if s != "" {
      CutFree(s[1..], sep);
      if s[0] == sep { assert s[..1] == [sep]; }
    }
  }

  lemma HeadJoins(s: string, before: string, sep: string, after: string)
    requires s != "" && s[1..] == before + sep + after
    ensures s == [s[0]] + before + sep + after
  {
    assert s == [s[0]] + s[1..];
    assert [s[0]] + (before + sep + after) == [s[0]] + before + sep + after;
  }

  lemma DifferentHead(s: string, p: string)
    requires s != "" && p != "" && s[0] != p[0]
    ensures !HasPrefix(s, p)
  {
    assert |p| <= |s| ==> s[..|p|][0] == s[0];
  }

  /** The first occurrence is found: nothing before it can start one. */
  lemma {:induction false} CutAt(before: string, sep: string, after: string)
    requires sep != "" && Free(before, sep[0])
    ensures Cut(before + sep + after, sep) == Some((before, after))
  {
    var s := before + sep + after;
    if before == "" {
      assert s[..|sep|] == sep && s[|sep|..] == after;
    } else {
      assert s[0] == before[0] && sep[0] != s[0];
      assert s[1..] == before[1..] + sep + after;
      CutAt(before[1..], sep, after);
      assert before == [before[0]] + before[1..];
      DifferentHead(s, sep);
    }
  }

  // ---- decimal and hexadecimal numbers ----

  predicate IsDigit(c: char) {
    '0' <= c <= '9'
  }

  predicate AllDigits(s: string) {
    forall i :: 0 <= i < |s| ==> IsDigit(s[i])
  }

  function DigitChar(n: nat): (c: char)
    requires n < 10
    ensures IsDigit(c) && c as int - '0' as int == n
  {
    ('0' as int + n) as char
  }

  /** fmt's %d for a non-negative number. */
  function Itoa(n: nat): (s: string)
    ensures s != "" && AllDigits(s)
  {
    if n < 10 then [DigitChar(n)] else Itoa(n / 10) + [DigitChar(n % 10)]
  }

  function Atoi(s: string): nat
    requires AllDigits(s)
  {
    if s == "" then 0 else 10 * Atoi(s[..|s| - 1]) + (s[|s| - 1] as int - '0' as int)
  }

  lemma {:induction false} AtoiItoa(n: nat)
    ensures Atoi(Itoa(n)) == n
  {
    if n >= 10 {
      AtoiItoa(n / 10);
      assert Itoa(n)[..|Itoa(n)| - 1] == Itoa(n / 10);
    } else {
      assert Itoa(n)[..0] == "";
    }
  }

  lemma ItoaInjective(a: nat, b: nat)
    requires Itoa(a) == Itoa(b)
    ensures a == b
  {
    AtoiItoa(a);
    AtoiItoa(b);
  }

  lemma DigitsFree(s: string, c: char)
    requires AllDigits(s) && !IsDigit(c)
    ensures Free(s, c)
  {
  }

  // ---- byte order on strings and sorting (sort.Strings) ----

  predicate Le(a: string, b: string) {
    a == "" || (b != "" && (a[0] < b[0] || (a[0] == b[0] && Le(a[1..], b[1..]))))
  }

  lemma {:induction false} LeRefl(a: string)
    ensures Le(a, a)
  {
    if a != "" { LeRefl(a[1..]); }
  }

  lemma {:induction false} LeTotal(a: string, b: string)
    ensures Le(a, b) || Le(b, a)
  {
    if a != "" && b != "" { LeTotal(a[1..], b[1..]); }
  }

  lemma {:induction false} LeAntisym(a: string, b: string)
    requires Le(a, b) && Le(b, a)
    ensures a == b
  {
    if a != "" {
      LeAntisym(a[1..], b[1..]);
      assert a == [a[0]] + a[1..] && b == [b[0]] + b[1..];
    }
  }

  lemma {:induction false} LeTrans(a: string, b: string, c: string)
    requires Le(a, b) && Le(b, c)
    ensures Le(a, c)
  {
    if a != "" && a[0] == b[0] && b[0] == c[0] { LeTrans(a[1..], b[1..], c[1..]); }
  }

  predicate Sorted(s: seq<string>) {
    forall i, j :: 0 <= i < j < |s| ==> Le(s[i], s[j])
  }

  predicate StrictlySorted(s: seq<string>) {
    forall i, j :: 0 <= i < j < |s| ==> Le(s[i], s[j]) && s[i] != s[j]
  }

  function Insert(x: string, s: seq<string>): seq<string> {
    if s == [] then [x]
    else if Le(x, s[0]) then [x] + s
    else [s[0]] + Insert(x, s[1..])
  }

  /** sort.Strings; `SortedUnique` shows that how it sorts does not matter. */
  function Sort(s: seq<string>): seq<string> {
    if s == [] then [] else Insert(s[0], Sort(s[1..]))
  }

  lemma {:induction false} InsertMultiset(x: string, s: seq<string>)
    ensures multiset(Insert(x, s)) == multiset(s) + multiset{x}
  {
    if s != [] {
      assert s == [s[0]] + s[1..];
      if !Le(x, s[0]) { InsertMultiset(x, s[1..]); }
    }
  }

  lemma {:induction false} InsertSorted(x: string, s: seq<string>)
    requires Sorted(s)
    ensures Sorted(Insert(x, s))
  {
    if s == [] {
    } else if Le(x, s[0]) {
      forall j | 0 <= j < |s| ensures Le(x, s[j]) {
        if j > 0 { LeTrans(x, s[0], s[j]); }
      }
    } else {
      LeTotal(x, s[0]);
      InsertSorted(x, s[1..]);
      var r := Insert(x, s[1..]);
      InsertMultiset(x, s[1..]);
      forall j | 0 <= j < |r| ensures Le(s[0], r[j]) {
        assert r[j] in multiset(r);
        assert r[j] in multiset(s[1..]) || r[j] == x;
        if r[j] != x { assert r[j] in s[1..]; }
      }
    }
  }

  lemma {:induction false} SortSpec(s: seq<string>)
    ensures Sorted(Sort(s)) && multiset(Sort(s)) == multiset(s)
  {
    if s != [] {
      SortSpec(s[1..]);
      InsertSorted(s[0], Sort(s[1..]));
      InsertMultiset(s[0], Sort(s[1..]));
      assert s == [s[0]] + s[1..];
    }
  }

  lemma SameLeast(a: seq<string>, b: seq<string>)
    requires Sorted(a) && Sorted(b) && a != [] && b != [] && a[0] in b && b[0] in a
    ensures a[0] == b[0]
  {
    var i :| 0 <= i < |b| && b[i] == a[0];
    var j :| 0 <= j < |a| && a[j] == b[0];
    LeRefl(a[0]);
    LeRefl(b[0]);
    assert Le(b[0], a[0]) && Le(a[0], b[0]);
    LeAntisym(a[0], b[0]);
  }

  lemma DropFirst(a: seq<string>)
    requires a != []
    ensures multiset(a[1..]) == multiset(a) - multiset{a[0]}
  {
    assert a == [a[0]] + a[1..];
  }

  lemma {:induction false} SortedUnique(a: seq<string>, b: seq<string>)
    requires Sorted(a) && Sorted(b) && multiset(a) == multiset(b)
    ensures a == b
  {
    hide Le;
    if a == [] {
      assert |multiset(b)| == 0;
    } else {
      assert |multiset(a)| == |multiset(b)|;
      assert a[0] in b by { assert a[0] in multiset(b); }
      assert b[0] in a by { assert b[0] in multiset(a); }
      SameLeast(a, b);
      DropFirst(a);
      DropFirst(b);
      SortedUnique(a[1..], b[1..]);
      assert a == [a[0]] + a[1..] && b == [b[0]] + b[1..];
    }
  }

  function Elements(s: seq<string>): set<string> {
    set x | x in s
  }

  /** A strictly sorted list is determined by the set of its elements. */
  lemma {:induction false} StrictUnique(a: seq<string>, b: seq<string>)
    requires StrictlySorted(a) && StrictlySorted(b) && Elements(a) == Elements(b)
    ensures a == b
  {
    if b != [] { FirstElement(b); }
    if a != [] {
      FirstElement(a);
      SameLeast(a, b);
      TailElements(a);
      TailElements(b);
      StrictUnique(a[1..], b[1..]);
      assert a == [a[0]] + a[1..] && b == [b[0]] + b[1..];
    }
  }

  lemma FirstElement(a: seq<string>)
    requires a != []
    ensures a[0] in Elements(a)
  {
  }

  lemma TailElements(a: seq<string>)
    requires a != [] && StrictlySorted(a)
    ensures Elements(a[1..]) == Elements(a) - {a[0]}
  {
    assert a == [a[0]] + a[1..];
  }

  predicate Distinct(s: seq<string>) {
    forall i, j :: 0 <= i < j < |s| ==> s[i] != s[j]
  }

  lemma SortDistinct(s: seq<string>)
    requires Distinct(s)
    ensures StrictlySorted(Sort(s)) && Elements(Sort(s)) == Elements(s)
  {
    var t := Sort(s);
    SortSpec(s);
    forall x ensures x in t <==> x in s {
      assert x in t <==> x in multiset(t);
      assert x in s <==> x in multiset(s);
    }
    forall i, j | 0 <= i < j < |t| ensures t[i] != t[j] {
      if t[i] == t[j] {
        TwiceInMultiset(t, i, j);
        OnceInMultiset(s, t[i]);
      }
    }
  }

  lemma TwiceInMultiset(s: seq<string>, i: nat, j: nat)
    requires i < j < |s| && s[i] == s[j]
    ensures multiset(s)[s[i]] >= 2
  {
    assert s == s[..i] + [s[i]] + s[i + 1..j] + [s[j]] + s[j + 1..];
  }

  lemma {:induction false} OnceInMultiset(s: seq<string>, x: string)
    requires Distinct(s)
    ensures multiset(s)[x] <= 1
  {
    if s != [] {
      OnceInMultiset(s[1..], x);
      assert s == [s[0]] + s[1..];
      if s[0] == x { assert x !in s[1..]; }
    }
  }

  /** The strictly sorted list of a set of strings. */
  ghost function SortedOf(s: set<string>): (r: seq<string>)
    ensures StrictlySorted(r) && Elements(r) == s
  {
    if s == {} then []
    else
      var x :| x in s;
      var rest := SortedOf(s - {x});
      assert x !in Elements(rest);
      assert forall y :: y in [x] + rest <==> y == x || y in Elements(rest);
      SortDistinct([x] + rest);
      Sort([x] + rest)
  }

  // ---- the order of sort.Strings ----

  /** Byte by byte: at the first difference the smaller byte comes first, and a beginning comes
      before the whole. */
  lemma {:induction false} LeExactly(a: string, b: string)
    ensures Le(a, b) <==>
            exists i :: 0 <= i <= |a| && i <= |b| && a[..i] == b[..i] && (i == |a| || (i < |b| && a[i] < b[i]))
  {
    if a != "" && b != "" && a[0] == b[0] {
      LeExactly(a[1..], b[1..]);
      if i :| 0 <= i <= |a[1..]| && i <= |b[1..]| && a[1..][..i] == b[1..][..i] && (i == |a[1..]| || (i < |b[1..]| && a[1..][i] < b[1..][i])) {
        assert a[..i + 1] == [a[0]] + a[1..][..i] && b[..i + 1] == [b[0]] + b[1..][..i];
      }
      if i :| 0 <= i <= |a| && i <= |b| && a[..i] == b[..i] && (i == |a| || (i < |b| && a[i] < b[i])) {
        assert i > 0;
        assert a[1..][..i - 1] == a[..i][1..] == b[..i][1..] == b[1..][..i - 1];
      }
    } else if Le(a, b) {
      assert a[..0] == b[..0];
    } else {
      forall i | 0 < i <= |a| && i <= |b| ensures a[..i] != b[..i] {
        assert a[..i][0] == a[0] && b[..i][0] == b[0];
      }
    }
  }

  /** Decimal numbers: a single digit, or the digits of the tenth and one more. */
  lemma ItoaExactly(n: nat, d: nat)
    requires d < 10
    ensures Itoa(d) == ["0123456789"[d]]
    ensures n > 0 ==> Itoa(10 * n + d) == Itoa(n) + ["0123456789"[d]]
  {
    assert (10 * n + d) / 10 == n && (10 * n + d) % 10 == d;
  }
}
