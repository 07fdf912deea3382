/** Key names in the dynamic store: writing them, and reading the owner back
    (internal/platform/scutil.go:26, 54-71, 151-201). */
module Keys {
  import opened Text
  import opened Specs
  import opened Batching

  const DYN_STORE_PREFIX := "State:/Network/Service/multibird-"
  const DNS_SUFFIX := "/DNS"

  datatype Kind = Search | Match

  function KindText(kind: Kind): string {
    match kind
    case Search => "Search"
    case Match => "Match"
  }

  function KeyText(owner: string, kind: Kind, digits: string): string {
    DYN_STORE_PREFIX + owner + "-" + KindText(kind) + "-" + digits + DNS_SUFFIX
  }

  /** The name of the n-th key of one kind. */
  function KeyName(owner: string, kind: Kind, n: nat): string {
    KeyText(owner, kind, Itoa(n))
  }

  /** What the expression `(.+)` accepts: at least one byte and no line break. */
  predicate OwnerName(owner: string) {
    owner != "" && Free(owner, '\n')
  }

  /** The three groups of the key expression: owner, kind, run of digits. */
  datatype Parts = Parts(owner: string, kind: Kind, digits: string)

  predicate WellFormed(p: Parts) {
    OwnerName(p.owner) && p.digits != "" && AllDigits(p.digits)
  }

  /** What is left of `s` between a given beginning and a given end. */
  function Unwrap(s: string, before: string, after: string): Option<string> {
    if HasPrefix(s, before) && HasSuffix(s[|before|..], after) then Some(s[|before|..|s| - |after|]) else None
  }

  lemma UnwrapExact(s: string, before: string, after: string, inner: string)
    ensures Unwrap(s, before, after) == Some(inner) <==> s == before + inner + after
  {
    if s == before + inner + after {
      assert s[..|before|] == before && s[|before|..] == inner + after;
    }
    if Unwrap(s, before, after) == Some(inner) {
      assert s == s[..|before|] + s[|before|..|s| - |after|] + s[|s| - |after|..];
    }
  }

  function StripDigits(s: string): (r: string)
    ensures |r| <= |s| && s[..|r|] == r && AllDigits(s[|r|..])
  {
    if s != "" && IsDigit(s[|s| - 1]) then
      var r := StripDigits(s[..|s| - 1]);
      assert s[|r|..] == s[..|s| - 1][|r|..] + [s[|s| - 1]];
      r
    else s
  }

  /** The part of a key between the fixed beginning and the fixed end. */
  function ParseBody(body: string): Option<Parts> {
    var stem := StripDigits(body);
    var digits := body[|stem|..];
    if digits == "" then None
    else match Unwrap(stem, "", "-Match-")
      case Some(owner) => CheckOwner(owner, Match, digits)
      case None =>
        match Unwrap(stem, "", "-Search-")
        case Some(owner) => CheckOwner(owner, Search, digits)
        case None => None
  }

  function CheckOwner(owner: string, kind: Kind, digits: string): Option<Parts> {
    if OwnerName(owner) then Some(Parts(owner, kind, digits)) else None
  }

  /** Matching a key against the contract expression (scutil.go:166). */
  function ParseKey(key: string): Option<Parts> {
    match Unwrap(key, DYN_STORE_PREFIX, DNS_SUFFIX)
    case Some(body) => ParseBody(body)
    case None => None
  }

  /** The owner named by a key, or "" when the key is outside the contract. */
  function OwnerOfKey(key: string): string {
    match ParseKey(key)
    case Some(p) => p.owner
    case None => ""
  }

  lemma {:induction false} StripDigitsOf(x: string, digits: string)
    requires x != "" && !IsDigit(x[|x| - 1]) && AllDigits(digits)
    ensures StripDigits(x + digits) == x
  {
    if digits == "" {
      assert x + digits == x;
    } else {
      var init := digits[..|digits| - 1];
      assert (x + digits)[..|x + digits| - 1] == x + init;
      StripDigitsOf(x, init);
    }
  }

  function BodyText(p: Parts): string {
    p.owner + "-" + KindText(p.kind) + "-" + p.digits
  }

  lemma KeyTextBody(p: Parts)
    ensures KeyText(p.owner, p.kind, p.digits) == DYN_STORE_PREFIX + BodyText(p) + DNS_SUFFIX
  {
  }

  lemma ParseBodyComplete(p: Parts)
    requires WellFormed(p)
    ensures ParseBody(BodyText(p)) == Some(p)
  {
    var mid := if p.kind == Match then "-Match-" else "-Search-";
    var stem := p.owner + mid;
    assert BodyText(p) == stem + p.digits;
    StripDigitsOf(stem, p.digits);
    assert (stem + p.digits)[|stem|..] == p.digits;
    assert "" + p.owner + mid == stem;
    UnwrapExact(stem, "", mid, p.owner);
    SearchIsNotMatch(p.owner);
    hide Unwrap, StripDigits, AllDigits, OwnerName, BodyText;
  }

  lemma SearchIsNotMatch(owner: string)
    ensures Unwrap(owner + "-Search-", "", "-Match-") == None
  {
    var stem := owner + "-Search-";
    assert stem[|stem| - 7] == 'S' && "-Match-"[0] == '-';
    assert stem[|""|..] == stem;
    assert stem[|stem| - 7..][0] == 'S';
  }

  lemma ParseBodySound(body: string)
    requires ParseBody(body).Some?
    ensures WellFormed(ParseBody(body).value) && body == BodyText(ParseBody(body).value)
  {
    hide *;
    var p := ParseBody(body).value;
    BodyCut(body);
    UnwrapExact(StripDigits(body), "", Middle(p.kind), p.owner);
    BodyTextParts(p);
    assert "" + p.owner + Middle(p.kind) == p.owner + Middle(p.kind);
  }

  function Middle(kind: Kind): string {
    if kind == Match then "-Match-" else "-Search-"
  }

  /** How a body that parses is cut. */
  lemma BodyCut(body: string)
    requires ParseBody(body).Some?
    ensures var p := ParseBody(body).value;
            && WellFormed(p)
            && body == StripDigits(body) + p.digits && Unwrap(StripDigits(body), "", Middle(p.kind)) == Some(p.owner)
  {
    hide Unwrap, OwnerName, StripDigits, AllDigits;
    var stem := StripDigits(body);
    assert body == stem + body[|stem|..];
  }

  lemma BodyTextParts(p: Parts)
    ensures BodyText(p) == (p.owner + Middle(p.kind)) + p.digits
  {
  }

  /** Parsing accepts every key of the shape and recovers its three parts. */
  lemma ParseKeyComplete(p: Parts)
    requires WellFormed(p)
    ensures ParseKey(KeyText(p.owner, p.kind, p.digits)) == Some(p)
  {
    KeyTextBody(p);
    hide KeyText, BodyText;
    UnwrapExact(KeyText(p.owner, p.kind, p.digits), DYN_STORE_PREFIX, DNS_SUFFIX, BodyText(p));
    ParseBodyComplete(p);
  }

  /** Parsing accepts nothing else. */
  lemma ParseKeySound(key: string)
    requires ParseKey(key).Some?
    ensures WellFormed(ParseKey(key).value)
    ensures var p := ParseKey(key).value; key == KeyText(p.owner, p.kind, p.digits)
  {
    var p := ParseKey(key).value;
    var body := Unwrap(key, DYN_STORE_PREFIX, DNS_SUFFIX).value;
    UnwrapExact(key, DYN_STORE_PREFIX, DNS_SUFFIX, body);
    ParseBodySound(body);
    KeyTextBody(p);
  }

  /** A key belongs to `owner` exactly when it has the contract's shape with that name in it,
      so the greedy match of the expression has only one way to succeed. */
  lemma OwnerOfKeyExact(key: string, owner: string)
    requires owner != ""
    ensures OwnerOfKey(key) == owner <==>
            exists kind, digits :: WellFormed(Parts(owner, kind, digits)) && key == KeyText(owner, kind, digits)
  {
    if OwnerOfKey(key) == owner {
      ParseKeySound(key);
      var p := ParseKey(key).value;
      assert WellFormed(Parts(owner, p.kind, p.digits)) && key == KeyText(owner, p.kind, p.digits);
    }
    forall kind, digits | WellFormed(Parts(owner, kind, digits)) && key == KeyText(owner, kind, digits)
      ensures OwnerOfKey(key) == owner
    {
      ParseKeyComplete(Parts(owner, kind, digits));
    }
  }

  /** Every key we write names its instance, and no two of them coincide. */
  lemma KeyNameParses(owner: string, kind: Kind, n: nat)
    requires OwnerName(owner)
    ensures ParseKey(KeyName(owner, kind, n)) == Some(Parts(owner, kind, Itoa(n)))
    ensures OwnerOfKey(KeyName(owner, kind, n)) == owner
  {
    ParseKeyComplete(Parts(owner, kind, Itoa(n)));
  }

  lemma KeyNameInjective(owner: string, kind: Kind, n: nat, owner': string, kind': Kind, n': nat)
    requires OwnerName(owner) && OwnerName(owner')
    requires KeyName(owner, kind, n) == KeyName(owner', kind', n')
    ensures owner == owner' && kind == kind' && n == n'
  {
    KeyNameParses(owner, kind, n);
    KeyNameParses(owner', kind', n');
    ItoaInjective(n, n');
  }

  // ---- layout of a spec into keys ----

  function KeysOfBatches(owner: string, kind: Kind, batches: seq<seq<string>>): seq<DNSKey> {
    seq(|batches|, n requires 0 <= n < |batches| => DNSKey(KeyName(owner, kind, n), batches[n], kind == Match))
  }

  function Layout(owner: string, spec: Spec): seq<DNSKey> {
    KeysOfBatches(owner, Search, Batches(spec.searchDomains)) + KeysOfBatches(owner, Match, Batches(spec.matchDomains))
  }

  method HostDNSKeys(instanceName: string, spec: Spec) returns (keys: seq<DNSKey>)
    ensures keys == Layout(instanceName, spec)
  {
    hide KeyName, Batches, Optimal;
    keys := [];
    var search := BatchDomains(spec.searchDomains);
    for n := 0 to |search|
      invariant keys == KeysOfBatches(instanceName, Search, search[..n])
    {
      keys := keys + [DNSKey(KeyName(instanceName, Search, n), search[n], false)];
    }
    assert search[..|search|] == search;
    ghost var first := keys;
    var matches := BatchDomains(spec.matchDomains);
    for n := 0 to |matches|
      invariant keys == first + KeysOfBatches(instanceName, Match, matches[..n])
    {
      keys := keys + [DNSKey(KeyName(instanceName, Match, n), matches[n], true)];
    }
    assert matches[..|matches|] == matches;
  }

  // ---- reading `list` output back ----

  /** The key on one line of `list` output, if the line carries one of ours. */
  function LineKey(line: string): Option<string> {
    match Cut(line, "= ")
    case None => None
    case Some(halves) =>
      var key := TrimSpace(halves.1);
      if HasPrefix(key, DYN_STORE_PREFIX) then Some(key) else None
  }

  function KeysOnLines(lines: seq<string>): seq<string> {
    if lines == [] then []
    else
      var rest := KeysOnLines(lines[1..]);
      match LineKey(lines[0])
      case Some(key) => [key] + rest
      case None => rest
  }

  function ListedKeys(out: string): seq<string> {
    KeysOnLines(Split(out, '\n'))
  }

  method ParseListedKeys(out: string) returns (keys: seq<string>)
    ensures keys == ListedKeys(out)
  {
    keys := [];
    var lines := Split(out, '\n');
    for i := 0 to |lines|
      invariant keys + KeysOnLines(lines[i..]) == ListedKeys(out)
    {
      var halves := Cut(lines[i], "= ");
      assert lines[i..][0] == lines[i] && lines[i..][1..] == lines[i + 1..];
      if halves.Some? {
        var key := TrimSpace(halves.value.1);
        if HasPrefix(key, DYN_STORE_PREFIX) {
          keys := keys + [key];
        }
      }
    }
  }

  function OwnedKeys(keys: seq<string>, owner: string): seq<string> {
    if keys == [] then []
    else if OwnerOfKey(keys[0]) == owner then [keys[0]] + OwnedKeys(keys[1..], owner)
    else OwnedKeys(keys[1..], owner)
  }

  lemma {:induction false} OwnedKeysExact(keys: seq<string>, owner: string)
    ensures forall k :: k in OwnedKeys(keys, owner) <==> k in keys && OwnerOfKey(k) == owner
  {
    if keys != [] {
      OwnedKeysExact(keys[1..], owner);
      assert keys == [keys[0]] + keys[1..];
    }
  }

  method KeysOfInstance(keys: seq<string>, instanceName: string) returns (out: seq<string>)
    ensures out == OwnedKeys(keys, instanceName)
  {
    out := [];
    for i := 0 to |keys|
      invariant out + OwnedKeys(keys[i..], instanceName) == OwnedKeys(keys, instanceName)
    {
      assert keys[i..][0] == keys[i] && keys[i..][1..] == keys[i + 1..];
      if OwnerOfKey(keys[i]) == instanceName {
        out := out + [keys[i]];
      }
    }
  }

  function OwnerSet(keys: seq<string>): set<string> {
    set i | 0 <= i < |keys| && OwnerOfKey(keys[i]) != "" :: OwnerOfKey(keys[i])
  }

  /** The sorted owners, each once. */
  method OwnersFromKeys(keys: seq<string>) returns (out: seq<string>)
    ensures StrictlySorted(out) && Elements(out) == OwnerSet(keys)
  {
    var seen: set<string> := {};
    out := [];
    for i := 0 to |keys|
      invariant seen == Elements(out) == OwnerSet(keys[..i])
      invariant Distinct(out)
    {
      var o := OwnerOfKey(keys[i]);
      OwnerSetSnoc(keys, i);
      if o != "" && o !in seen {
        assert forall x :: x in out + [o] <==> x in out || x == o;
        seen := seen + {o};
        out := out + [o];
      }
    }
    assert keys[..|keys|] == keys;
    SortDistinct(out);
    out := Sort(out);
  }

  lemma OwnerSetSnoc(keys: seq<string>, i: nat)
    requires i < |keys|
    ensures OwnerSet(keys[..i + 1]) == OwnerSet(keys[..i]) + (if OwnerOfKey(keys[i]) != "" then {OwnerOfKey(keys[i])} else {})
  {
    hide OwnerOfKey;
    var a, b := keys[..i + 1], keys[..i];
    assert forall j :: 0 <= j < i ==> a[j] == b[j];
    assert a[i] == keys[i];
    forall o | o in OwnerSet(b) ensures o in OwnerSet(a) {
      var j :| 0 <= j < |b| && OwnerOfKey(b[j]) != "" && o == OwnerOfKey(b[j]);
      assert OwnerOfKey(a[j]) == o;
    }
    if OwnerOfKey(keys[i]) != "" {
      assert OwnerOfKey(a[i]) in OwnerSet(a);
    }
  }
}
