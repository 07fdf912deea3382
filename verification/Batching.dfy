/** Splitting a domain list into dynamic-store keys (internal/platform/scutil.go:39-91). */
module Batching {

  const MAX_DOMAINS_PER_KEY := 50
  const MAX_DOMAIN_BYTES_PER_KEY := 1500

  function Bytes(batch: seq<string>): nat {
    if batch == [] then 0 else |batch[0]| + Bytes(batch[1..])
  }

  /** What one key may hold: a lone oversized domain still gets a key. */
  predicate Fits(batch: seq<string>) {
    && 1 <= |batch| <= MAX_DOMAINS_PER_KEY
    && (Bytes(batch) <= MAX_DOMAIN_BYTES_PER_KEY || |batch| == 1)
  }

  function Flatten(batches: seq<seq<string>>): seq<string> {
    if batches == [] then [] else batches[0] + Flatten(batches[1..])
  }

  /** An order-preserving split of `domains` into batches that each fit one key. */
  predicate IsSplit(batches: seq<seq<string>>, domains: seq<string>) {
    && Flatten(batches) == domains
    && forall i :: 0 <= i < |batches| ==> Fits(batches[i])
  }

  /** Starting a new batch is forced exactly when the next domain would not fit. */
  predicate Full(cur: seq<string>, d: string) {
    |cur| > 0 && (|cur| >= MAX_DOMAINS_PER_KEY || Bytes(cur) + |d| > MAX_DOMAIN_BYTES_PER_KEY)
  }

  function BatchFrom(cur: seq<string>, rest: seq<string>): seq<seq<string>>
    decreases |rest|
  {
    if rest == [] then
      if cur == [] then [] else [cur]
    else if Full(cur, rest[0]) then [cur] + BatchFrom([rest[0]], rest[1..])
    else BatchFrom(cur + [rest[0]], rest[1..])
  }

  function Batches(domains: seq<string>): seq<seq<string>> {
    BatchFrom([], domains)
  }

  lemma {:induction false} BytesAppend(a: seq<string>, b: seq<string>)
    ensures Bytes(a + b) == Bytes(a) + Bytes(b)
  {
    if a == [] {
      assert a + b == b;
    } else {
      assert (a + b)[1..] == a[1..] + b;
      BytesAppend(a[1..], b);
    }
  }

  lemma BytesSnoc(a: seq<string>, d: string)
    ensures Bytes(a + [d]) == Bytes(a) + |d|
  {
    BytesAppend(a, [d]);
    assert Bytes([d]) == |d| + Bytes([d][1..]);
  }

  /** A batch that has no room for `d` cannot be extended past it inside any fitting batch. */
  lemma FullStaysFull(before: seq<string>, cur: seq<string>, d: string, after: seq<string>)
    requires Full(cur, d)
    ensures !Fits(before + cur + [d] + after)
  {
    BytesAppend(before + cur + [d], after);
    BytesSnoc(before + cur, d);
    BytesAppend(before, cur);
  }

  lemma {:induction false} BatchFromSplit(cur: seq<string>, rest: seq<string>)
    requires cur == [] || Fits(cur)
    ensures IsSplit(BatchFrom(cur, rest), cur + rest)
    decreases |rest|
  {
    if rest == [] {
      assert cur + rest == cur;
      if cur != [] { assert Flatten([cur]) == cur + Flatten([]); }
    } else {
      var d, tail := rest[0], rest[1..];
      assert rest == [d] + tail;
      if Full(cur, d) {
        BatchFromSplit([d], tail);
        assert cur + ([d] + tail) == cur + rest;
      } else {
        BytesSnoc(cur, d);
        BatchFromSplit(cur + [d], tail);
        assert (cur + [d]) + tail == cur + rest;
      }
    }
  }

  /** Greedy stays ahead: if a rival split of the same list has its current batch begin
      `lag` no later than the greedy one, the greedy one needs no more batches. */
  lemma {:induction false} GreedyAhead(lag: seq<string>, cur: seq<string>, rest: seq<string>,
                                       rival: seq<seq<string>>)
    requires cur == [] || Fits(cur)
    requires IsSplit(rival, lag + cur + rest)
    ensures |BatchFrom(cur, rest)| <= |rival|
    decreases |rest|
  {
    if rest == [] {
      if cur != [] { assert rival != []; }
    } else {
      var d, tail := rest[0], rest[1..];
      assert rest == [d] + tail;
      if Full(cur, d) {
        FirstEndsBefore(lag, cur, d, tail, rival);
        var left := (lag + cur)[|rival[0]|..];
        assert Flatten(rival[1..]) == left + [d] + tail by {
          assert Flatten(rival) == rival[0] + Flatten(rival[1..]);
          assert Flatten(rival)[|rival[0]|..] == Flatten(rival[1..]);
          assert (lag + cur + rest)[|rival[0]|..] == left + [d] + tail;
        }
        GreedyAhead(left, [d], tail, rival[1..]);
      } else {
        BytesSnoc(cur, d);
        assert lag + cur + rest == lag + (cur + [d]) + tail;
        GreedyAhead(lag, cur + [d], tail, rival);
      }
    }
  }

  lemma FirstEndsBefore(lag: seq<string>, cur: seq<string>, d: string, tail: seq<string>,
                        rival: seq<seq<string>>)
    requires Full(cur, d) && IsSplit(rival, lag + cur + ([d] + tail))
    ensures rival != [] && |rival[0]| <= |lag + cur|
  {
    var all := lag + cur + ([d] + tail);
    assert |all| > 0;
    var first := rival[0];
    assert all == first + Flatten(rival[1..]);
    if |first| > |lag + cur| {
      var after := first[|lag + cur| + 1..];
      assert first == all[..|first|];
      assert first == lag + cur + [d] + after;
      FullStaysFull(lag, cur, d, after);
    }
  }

  /** A split within the limits, and none of its rivals uses fewer batches. */
  ghost predicate Optimal(batches: seq<seq<string>>, domains: seq<string>) {
    && IsSplit(batches, domains)
    && forall rival :: IsSplit(rival, domains) ==> |batches| <= |rival|
  }

  /** The whole contract of batching: nothing lost or reordered, every key within its limits,
      and no order-preserving split within the limits uses fewer keys. */
  lemma BatchesOptimal(domains: seq<string>)
    ensures Optimal(Batches(domains), domains)
  {
    assert [] + domains == domains;
    BatchFromSplit([], domains);
    forall rival | IsSplit(rival, domains) ensures |Batches(domains)| <= |rival| {
      assert [] + [] + domains == domains;
      GreedyAhead([], [], domains, rival);
    }
  }

  /** One turn of the loop, seen from the batches already closed. */
  lemma BatchStep(out: seq<seq<string>>, cur: seq<string>, rest: seq<string>)
    requires rest != []
    ensures out + BatchFrom(cur, rest) ==
            if Full(cur, rest[0]) then (out + [cur]) + BatchFrom([rest[0]], rest[1..])
            else out + BatchFrom(cur + [rest[0]], rest[1..])
  {
    if Full(cur, rest[0]) {
      assert out + ([cur] + BatchFrom([rest[0]], rest[1..])) == (out + [cur]) + BatchFrom([rest[0]], rest[1..]);
    }
  }

  method BatchDomains(domains: seq<string>) returns (out: seq<seq<string>>)
    ensures Optimal(out, domains)
    ensures out == Batches(domains)
  {
    out := [];
    var cur: seq<string> := [];
    var bytes := 0;
    for i := 0 to |domains|
      invariant bytes == Bytes(cur)
      invariant out + BatchFrom(cur, domains[i..]) == Batches(domains)
    {
      var d := domains[i];
      BatchStep(out, cur, domains[i..]);
      assert domains[i..][1..] == domains[i + 1..];
      if |cur| > 0 && (|cur| >= MAX_DOMAINS_PER_KEY || bytes + |d| > MAX_DOMAIN_BYTES_PER_KEY) {
        out := out + [cur];
        cur, bytes := [], 0;
      }
      BytesSnoc(cur, d);
      assert [] + [d] == [d];
      cur := cur + [d];
      bytes := bytes + |d|;
    }
    assert domains[|domains|..] == [];
    if |cur| > 0 {
      out := out + [cur];
    } else {
      assert out + [] == out;
    }
    BatchesOptimal(domains);
  }
}
