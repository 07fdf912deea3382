/** Instance names (internal/instance/store.go:14-23). */
module Names {
  import opened Text
  import opened Specs

  predicate LowerOrDigit(c: char) {
    'a' <= c <= 'z' || '0' <= c <= '9'
  }

  /** At most 31 lower-case letters, digits and dashes, not starting with a dash. */
  predicate ValidName(name: string) {
    && 1 <= |name| <= 31
    && LowerOrDigit(name[0])
    && forall i :: 0 <= i < |name| ==> LowerOrDigit(name[i]) || name[i] == '-'
  }

  lemma ValidIsClean(name: string)
    requires ValidName(name)
    ensures CleanWord(name) && ToLower(name) == name
  {
    assert forall i :: 0 <= i < |name| ==> LowerChar(name[i]) == name[i];
  }

  // ---- the expression names are checked with ----

  /** [a-z0-9] in ASCII. */
  predicate First(c: char) {
    97 <= c as int <= 122 || 48 <= c as int <= 57
  }

  /** At most `k` more characters, each of the first ones or a dash. */
  predicate Rest(s: string, k: nat) {
    s == "" || (k > 0 && (First(s[0]) || s[0] == '-') && Rest(s[1..], k - 1))
  }

  /** `^[a-z0-9][a-z0-9-]{0,30}$`, read from left to right. */
  predicate MatchesNameRe(s: string) {
    s != "" && First(s[0]) && Rest(s[1..], 30)
  }

  lemma FirstChars(c: char)
    ensures LowerOrDigit(c) <==> First(c)
  {
  }

  lemma {:induction false} RestExact(s: string, k: nat)
    ensures Rest(s, k) <==> |s| <= k && forall i :: 0 <= i < |s| ==> LowerOrDigit(s[i]) || s[i] == '-'
    decreases |s|
  {
    hide LowerOrDigit;
    if s != "" {
      FirstChars(s[0]);
      if k > 0 {
        RestExact(s[1..], k - 1);
        assert forall i :: 1 <= i < |s| ==> s[1..][i - 1] == s[i];
      }
    }
  }

  /** Valid names are exactly the ones the expression matches. */
  lemma ValidNameExactly(name: string)
    ensures ValidName(name) <==> MatchesNameRe(name)
  {
    hide LowerOrDigit;
    if name != "" {
      FirstChars(name[0]);
      RestExact(name[1..], 30);
      assert forall i :: 1 <= i < |name| ==> name[1..][i - 1] == name[i];
    }
  }
}
