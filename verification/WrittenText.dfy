/** The text that reaches scutil and what it stores, letter by letter
    (internal/platform/scutil.go:50-117). */
module WrittenText {
  import opened Text
  import opened Specs
  import opened Bits
  import opened Batching
  import opened Scutil
  import opened Keys
  import opened HostScripts
  import opened DynamicStore
  import opened Registrations

  /** A key's name in full. */
  lemma KeyNameText(owner: string, n: nat)
    ensures KeyName(owner, Search, n) == "State:/Network/Service/multibird-" + owner + "-Search-" + Itoa(n) + "/DNS"
    ensures KeyName(owner, Match, n) == "State:/Network/Service/multibird-" + owner + "-Match-" + Itoa(n) + "/DNS"
  {
    var p := "State:/Network/Service/multibird-" + owner;
    assert p + "-" + "Search" + "-" == p + "-Search-" by { assert "-" + "Search" + "-" == "-Search-"; }
    assert p + "-" + "Match" + "-" == p + "-Match-" by { assert "-" + "Match" + "-" == "-Match-"; }
  }

  /** The six lines in which a key is written. */
  lemma KeyLinesText(k: DNSKey, listen: AddrPort)
    ensures KeyLines(k, listen) == [
              "d.init",
              "d.add ServerAddresses * " + Dotted(listen.addr),
              "d.add ServerPort # " + Itoa(listen.port),
              "d.add SupplementalMatchDomains * " + Join(k.domains, ' '),
              "d.add SupplementalMatchDomainsNoSearch # " + (if k.noSearch then "1" else "0"),
              "set " + k.key]
  {
    hide Dotted, Join;
    var ls := KeyLines(k, listen);
    AddressText(listen);
    PortText(listen);
    DomainsText(k.domains);
    NoSearchText(k.noSearch);
    hide AddressLine, PortLine, DomainsLine, NoSearchLine, Itoa;
  }

  lemma AddressText(listen: AddrPort)
    ensures AddressLine(listen) == "d.add ServerAddresses * " + Dotted(listen.addr)
  {
    hide Dotted;
    assert "d.add " + "ServerAddresses" + " * " == "d.add ServerAddresses * ";
  }

  lemma PortText(listen: AddrPort)
    ensures PortLine(listen) == "d.add ServerPort # " + Itoa(listen.port)
  {
    hide Itoa;
    assert "d.add " + "ServerPort" + " # " == "d.add ServerPort # ";
  }

  lemma DomainsText(domains: seq<string>)
    ensures DomainsLine(domains) == "d.add SupplementalMatchDomains * " + Join(domains, ' ')
  {
    hide Join;
    assert "d.add " + "SupplementalMatchDomains" + " * " == "d.add SupplementalMatchDomains * ";
  }

  lemma NoSearchText(noSearch: bool)
    ensures NoSearchLine(noSearch) == "d.add SupplementalMatchDomainsNoSearch # " + (if noSearch then "1" else "0")
  {
    assert Itoa(1) == "1" && Itoa(0) == "0";
    assert "d.add " + "SupplementalMatchDomainsNoSearch" + " # " == "d.add SupplementalMatchDomainsNoSearch # ";
  }

  /** The dotted text of the address a.b.c.d, and no other address has it. */
  lemma DottedText(a: nat, b: nat, c: nat, d: nat)
    requires a < 256 && b < 256 && c < 256 && d < 256
    ensures Dotted(((a * 256 + b) * 256 + c) * 256 + d) == Itoa(a) + "." + Itoa(b) + "." + Itoa(c) + "." + Itoa(d)
  {
    hide Dotted, Itoa, OctetTexts, Groups;
    var ab := a * 256 + b;
    var abc := ab * 256 + c;
    OctetsOf(abc * 256 + d, abc, ab, a, b, c, d);
    DottedOctets(abc * 256 + d, a, b, c, d);
  }

  lemma OctetsOf(addr: nat, abc: nat, ab: nat, a: nat, b: nat, c: nat, d: nat)
    requires a < 256 && b < 256 && c < 256 && d < 256
    requires addr == abc * 256 + d && abc == ab * 256 + c && ab == a * 256 + b
    ensures Groups(addr, 0, 8, 4) == [a, b, c, d]
  {
    hide Top, Low, Groups, Pow2;
    FourOctets(addr);
    Halves(addr, abc, d);
    Halves(abc, ab, c);
    Halves(ab, a, b);
    LowOfByte(a);
    TopTop(addr, 8, 16);
    TopTop(addr, 16, 24);
    NoTop(addr);
  }

  lemma NoTop(x: nat)
    ensures Top(x, 0) == x
  {
  }

  lemma DottedOctets(addr: nat, a: nat, b: nat, c: nat, d: nat)
    requires Groups(addr, 0, 8, 4) == [a, b, c, d]
    ensures Dotted(addr) == Itoa(a) + "." + Itoa(b) + "." + Itoa(c) + "." + Itoa(d)
  {
    hide Groups, Itoa, Join, OctetTexts;
    FourTexts(a, b, c, d);
    FourJoined(Itoa(a), Itoa(b), Itoa(c), Itoa(d));
  }

  lemma FourTexts(a: nat, b: nat, c: nat, d: nat)
    ensures OctetTexts([a, b, c, d]) == [Itoa(a), Itoa(b), Itoa(c), Itoa(d)]
  {
    hide Itoa;
  }

  lemma Halves(x: nat, hi: nat, lo: nat)
    requires x == hi * 256 + lo && lo < 256
    ensures Top(x, 8) == hi && Low(x, 8) == lo
  {
    Pow2Values();
    ByteShift(hi);
    TopExact(x, 8, hi);
    TopAndLow(x, 8);
    hide Top, Low, Shl, Pow2;
  }

  lemma LowOfByte(a: nat)
    requires a < 256
    ensures Low(a, 8) == a
  {
    Halves(a, 0, a);
  }

  lemma FourJoined(a: string, b: string, c: string, d: string)
    ensures Join([a, b, c, d], '.') == a + "." + b + "." + c + "." + d
  {
    hide Join;
    assert [a, b, c, d] == [a] + [b, c, d] && [b, c, d] == [b] + [c, d] && [c, d] == [c] + [d];
    TwoJoined(a, [b, c, d]);
    TwoJoined(b, [c, d]);
    TwoJoined(c, [d]);
    LastJoined(d);
    assert b + "." + (c + "." + d) == b + "." + c + "." + d;
    assert a + "." + (b + "." + c + "." + d) == a + "." + b + "." + c + "." + d;
  }

  lemma TwoJoined(a: string, rest: seq<string>)
    requires rest != []
    ensures Join([a] + rest, '.') == a + "." + Join(rest, '.')
  {
    assert ([a] + rest)[1..] == rest;
  }

  lemma LastJoined(d: string)
    ensures Join([d], '.') == d
  {
  }

  /** The four entries macOS reads, and no more. */
  predicate Entries(d: Dict, domains: seq<string>, noSearch: nat, listen: AddrPort) {
    && d.Keys == {"ServerAddresses", "ServerPort", "SupplementalMatchDomains", "SupplementalMatchDomainsNoSearch"}
    && d["ServerAddresses"] == Strings([Dotted(listen.addr)])
    && d["ServerPort"] == Number(listen.port)
    && d["SupplementalMatchDomains"] == Strings(domains)
    && d["SupplementalMatchDomainsNoSearch"] == Number(noSearch)
  }

  lemma DictEntries(domains: seq<string>, noSearch: bool, listen: AddrPort)
    ensures Entries(DictOf(domains, noSearch, listen), domains, if noSearch then 1 else 0, listen)
  {
    hide Dotted;
    NamesDiffer();
    var d := DictOf(domains, noSearch, listen);
    FourEntries(SERVER_ADDRESSES, Strings([Dotted(listen.addr)]), SERVER_PORT, Number(listen.port),
                MATCH_DOMAINS, Strings(domains), NO_SEARCH, Number(if noSearch then 1 else 0));
    FourKeys(SERVER_ADDRESSES, Strings([Dotted(listen.addr)]), SERVER_PORT, Number(listen.port),
             MATCH_DOMAINS, Strings(domains), NO_SEARCH, Number(if noSearch then 1 else 0));
  }

  lemma FourKeys(a: string, va: Value, b: string, vb: Value, c: string, vc: Value, d: string, vd: Value)
    ensures map[][a := va][b := vb][c := vc][d := vd].Keys == {a, b, c, d}
  {
  }

  /** Once a registration of fit domains has landed, the store has under the n-th search key the
      n-th batch of search domains with the flag 0, under the n-th match key the n-th batch of match
      domains with the flag 1, each with the resolver's address and port, and under no further
      number anything. */
  lemma LandedKeys(store: Store, owner: string, spec: Spec, s: Surroundings, n: nat)
    requires CleanWord(owner) && FitSpec(spec) && Lands(ApplyResult(store, owner, spec, s).1)
    ensures var after := ApplyResult(store, owner, spec, s).0;
            var search := "State:/Network/Service/multibird-" + owner + "-Search-" + Itoa(n) + "/DNS";
            var matches := "State:/Network/Service/multibird-" + owner + "-Match-" + Itoa(n) + "/DNS";
            && (search in after <==> n < |Batches(spec.searchDomains)|)
            && (search in after ==> Entries(after[search], Batches(spec.searchDomains)[n], 0, spec.listen))
            && (matches in after <==> n < |Batches(spec.matchDomains)|)
            && (matches in after ==> Entries(after[matches], Batches(spec.matchDomains)[n], 1, spec.listen))
  {
    hide KeyName, Batches, LayoutMap, Entries, DictOf, ApplyResult, Slice, LeavesMap, FitSpec, CleanWord, OwnerName, Itoa;
    CleanNames(owner);
    KeyNameText(owner, n);
    ApplyLeaves(store, owner, spec, s);
    LeftAsMeantExactly(owner, spec);
    LandedKey(ApplyResult(store, owner, spec, s).0, owner, spec, Search, n);
    LandedKey(ApplyResult(store, owner, spec, s).0, owner, spec, Match, n);
  }

  lemma LandedKey(after: Store, owner: string, spec: Spec, kind: Kind, n: nat)
    requires OwnerName(owner) && Slice(after, owner) == LayoutMap(owner, spec)
    ensures var batches := Batches(if kind == Search then spec.searchDomains else spec.matchDomains);
            var key := KeyName(owner, kind, n);
            && (key in after <==> n < |batches|)
            && (key in after ==> Entries(after[key], batches[n], if kind == Match then 1 else 0, spec.listen))
  {
    hide KeyName, Batches, LayoutMap, Entries, DictOf, OwnerName;
    LayoutExact(owner, spec, kind, n);
    KeyNameParses(owner, kind, n);
    hide OwnerOfKey;
    var batches := Batches(if kind == Search then spec.searchDomains else spec.matchDomains);
    assert KeyName(owner, kind, n) in after <==> KeyName(owner, kind, n) in Slice(after, owner);
    if n < |batches| { DictEntries(batches[n], kind == Match, spec.listen); }
  }

  /** The batches are the domains in order, cut into pieces of at most 50 names that take at most
      1500 bytes, unless a single name is longer. */
  lemma BatchLimits(domains: seq<string>)
    ensures var batches := Batches(domains);
            && Flatten(batches) == domains
            && forall i :: 0 <= i < |batches| ==>
                 && 1 <= |batches[i]| <= 50
                 && (|batches[i]| == 1 || |Join(batches[i], ' ')| <= 1500 + |batches[i]| - 1)
  {
    BatchesOptimal(domains);
    hide Batches, Bytes;
    var batches := Batches(domains);
    forall i | 0 <= i < |batches|
      ensures 1 <= |batches[i]| <= 50 && (|batches[i]| == 1 || |Join(batches[i], ' ')| <= 1500 + |batches[i]| - 1)
    {
      assert Fits(batches[i]);
      BytesJoined(batches[i]);
    }
  }

  lemma {:induction false} BytesJoined(batch: seq<string>)
    requires batch != []
    ensures |Join(batch, ' ')| == Bytes(batch) + |batch| - 1
  {
    if |batch| == 1 {
      assert Bytes(batch[1..]) == 0;
    } else {
      BytesJoined(batch[1..]);
    }
  }

  // ---- reading a listing ----

  /** A line of a listing is read from the first "= " on: the name after it, without the blanks
      around, if it begins as ours do. */
  lemma ListedName(before: string, p: string, name: string, q: string)
    requires Free(before, '=') && Text.Blank(p) && Text.Blank(q) && name != "" && Unpadded(name)
    ensures LineKey(before + "= " + (p + name + q)) ==
            if HasPrefix(name, "State:/Network/Service/multibird-") then Some(name) else None
  {
    hide TrimSpace, Cut;
    CutAt(before, "= ", p + name + q);
    TrimPadded(p, name, q);
  }
}
