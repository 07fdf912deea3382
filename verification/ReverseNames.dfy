/** What a reverse zone covers (internal/hostdns/hostdns.go:87-95, 129-176). */
module ReverseNames {
  import opened Text
  import opened Bits
  import opened Addresses
  import opened Zones

  /** A name is in a zone when it is the zone or ends in a dot and the zone. */
  predicate Under(name: string, zone: string) {
    name == zone || HasSuffix(name, "." + zone)
  }

  predicate EndsIn<T(==)>(whole: seq<T>, tail: seq<T>) {
    |tail| <= |whole| && whole[|whole| - |tail|..] == tail
  }

  lemma UnderToLabels(name: seq<string>, zone: seq<string>)
    requires name != [] && zone != [] && AllFree(name, '.') && AllFree(zone, '.')
    requires Under(Join(name, '.'), Join(zone, '.'))
    ensures EndsIn(name, zone)
  {
    SplitJoin(name, '.');
    SplitJoin(zone, '.');
    hide Split, AllFree;
    var n, z := Join(name, '.'), Join(zone, '.');
    hide Join;
    if n != z {
      var x := n[..|n| - |"." + z|];
      assert n == x + ['.'] + z;
      SplitAppend(x, '.', z);
      assert name == Split(x, '.') + zone;
    }
  }

  lemma LabelsToUnder(name: seq<string>, zone: seq<string>)
    requires zone != [] && EndsIn(name, zone)
    ensures Under(Join(name, '.'), Join(zone, '.'))
  {
    if |zone| < |name| {
      var head := name[..|name| - |zone|];
      assert name == head + zone;
      JoinAppend(head, zone, '.');
      hide *;
      DottedEnd(Join(head, '.'), Join(zone, '.'));
    } else {
      assert name == zone;
    }
  }

  lemma DottedEnd(x: string, z: string)
    ensures Under(x + ['.'] + z, z)
  {
    var n, y := x + ['.'] + z, "." + z;
    assert n == x + y;
    assert n[|n| - |y|..] == y;
  }

  /** On texts made of dot-free labels, being in a zone is a matter of labels. */
  lemma UnderIsByLabels(name: seq<string>, zone: seq<string>)
    requires name != [] && zone != [] && AllFree(name, '.') && AllFree(zone, '.')
    ensures Under(Join(name, '.'), Join(zone, '.')) <==> EndsIn(name, zone)
  {
    hide Join, AllFree;
    if Under(Join(name, '.'), Join(zone, '.')) { UnderToLabels(name, zone); }
    hide Under;
    if EndsIn(name, zone) { LabelsToUnder(name, zone); }
  }

  lemma LabelsClean(fam: Family, gs: seq<nat>)
    requires forall i :: 0 <= i < |gs| ==> gs[i] < Pow2(Unit(fam))
    ensures AllFree(Labels(fam, gs), '.') && AllFree(Reversed(Labels(fam, gs)), '.')
    ensures forall i :: 0 <= i < |gs| ==> Labels(fam, gs)[i] != ""
  {
    forall i | 0 <= i < |gs| { LabelReads(fam, gs[i]); }
  }

  lemma SuffixClean(fam: Family)
    ensures |Suffix(fam)| == 2 && AllFree(Suffix(fam), '.') && Suffix(fam)[0] != "" && Suffix(fam)[1] == "arpa"
  {
  }

  lemma NamesAreClean(p: Prefix, a: Addr)
    requires p.Valid()
    ensures PtrLabels(a) != [] && AllFree(PtrLabels(a), '.')
    ensures ZoneLabels(p) != [] && AllFree(ZoneLabels(p), '.')
    ensures forall i :: 0 <= i < |PtrLabels(a)| ==> PtrLabels(a)[i] != ""
  {
    LabelsClean(a.fam, Groups(a.val, 0, Unit(a.fam), Count(a.fam)));
    LabelsClean(p.addr.fam, ZoneGroups(p));
    SuffixClean(a.fam);
    SuffixClean(p.addr.fam);
    hide Groups, Labels, Suffix, ZoneGroups, Unit, Count;
  }

  lemma LabelsInjective(fam: Family, gs: seq<nat>, hs: seq<nat>)
    requires forall i :: 0 <= i < |gs| ==> gs[i] < Pow2(Unit(fam))
    requires forall i :: 0 <= i < |hs| ==> hs[i] < Pow2(Unit(fam))
    ensures Labels(fam, gs) == Labels(fam, hs) <==> gs == hs
  {
    if Labels(fam, gs) == Labels(fam, hs) {
      forall i | 0 <= i < |gs| ensures gs[i] == hs[i] {
        LabelReads(fam, gs[i]);
        LabelReads(fam, hs[i]);
        assert Labels(fam, gs)[i] == Labels(fam, hs)[i];
      }
    }
  }

  lemma ReversedEnds<T>(s: seq<T>, t: seq<T>)
    ensures EndsIn(Reversed(s), Reversed(t)) <==> |t| <= |s| && s[..|t|] == t
  {
    if |t| <= |s| {
      var r, q := Reversed(s), Reversed(t);
      var d := |s| - |t|;
      if r[d..] == q {
        forall i | 0 <= i < |t| ensures s[i] == t[i] {
          assert r[d..][|t| - 1 - i] == r[|s| - 1 - i];
        }
      }
      if s[..|t|] == t {
        forall i | 0 <= i < |t| ensures r[d..][i] == q[i] {
          assert s[..|t|][|t| - 1 - i] == t[|t| - 1 - i];
        }
      }
    }
  }

  /** Two families' names never meet, and within one family the fixed ending plays no part. */
  lemma EndsInFamilies(f: Family, a: seq<string>, g: Family, b: seq<string>)
    requires AllFree(a, '.')
    ensures EndsIn(a + Suffix(f), b + Suffix(g)) <==> f == g && EndsIn(a, b)
  {
    var x, y := a + Suffix(f), b + Suffix(g);
    SuffixClean(f);
    SuffixClean(g);
    if EndsIn(x, y) {
      assert y[|y| - 2] == x[|x| - 2];
      assert Suffix(g)[0] == Suffix(f)[0];
      var d := |x| - |y|;
      assert x[d..][..|b|] == b && x[d..][..|b|] == a[d..];
    }
    if f == g && EndsIn(a, b) {
      assert x[|x| - |y|..] == a[|a| - |b|..] + Suffix(f);
    }
  }

  // ---- leading labels and leading bits ----

  /** Taking the first labels of an address's name compares its leading bits. */
  lemma LeadingGroups(a: Addr, p: Prefix)
    requires ValidAddr(a) && p.Valid() && a.fam == p.addr.fam
    ensures Groups(a.val, 0, Unit(a.fam), Count(a.fam))[..Used(p)] == ZoneGroups(p) <==> RoundUp(p).Contains(a)
  {
    var u, c, w := Unit(a.fam), Used(p), Width(a.fam);
    var k := RoundUp(p).HostBits();
    hide Groups, Pow2, Top, Clear;
    GroupsPrefix(a.val, 0, u, Count(a.fam), c);
    UnitCount(p);
    assert Span(u, Count(a.fam) - c) == k && k + Span(u, c) == w;
    var net := p.Masked().addr.val;
    TopZero(a.val, w);
    TopZero(net, w);
    GroupsAgree(a.val, net, k, u, c);
  }

  lemma UnitCount(p: Prefix)
    requires p.Valid()
    ensures var u, c := Unit(p.addr.fam), Used(p);
            Span(u, Count(p.addr.fam) - c) == RoundUp(p).HostBits() && RoundUp(p).HostBits() + Span(u, c) == Width(p.addr.fam)
  {
  }

  /** A reverse name is in the zone exactly when the address is in the rounded-up prefix;
      the empty zone of a zero-length prefix holds no name at all. */
  lemma ZoneCoversExactly(p: Prefix, a: Addr)
    requires p.Valid() && ValidAddr(a)
    ensures Under(PtrName(a), ZoneText(p)) <==> p.bits > 0 && RoundUp(p).Contains(a)
  {
    NamesAreClean(p, a);
    UnderIsByLabels(PtrLabels(a), ZoneLabels(p));
    var gs := Groups(a.val, 0, Unit(a.fam), Count(a.fam));
    var ls := Labels(a.fam, gs);
    LabelsClean(a.fam, gs);
    var zs := if Used(p) == 0 then [""] else Reversed(Labels(p.addr.fam, ZoneGroups(p)));
    hide Under, Groups, ZoneGroups, Labels, Reversed, Pow2;
    EndsInFamilies(a.fam, Reversed(ls), p.addr.fam, zs);
    if a.fam == p.addr.fam {
      if Used(p) == 0 {
        EmptyLabelNowhere(ls);
      } else {
        PrefixOfLabels(a, p);
        LeadingGroups(a, p);
      }
    }
  }

  lemma EmptyLabelNowhere(ls: seq<string>)
    requires forall i :: 0 <= i < |ls| ==> ls[i] != ""
    ensures !EndsIn(Reversed(ls), [""])
  {
    var r := Reversed(ls);
    assert |r| > 0 ==> r[|r| - 1..] == [r[|r| - 1]];
  }

  lemma PrefixOfLabels(a: Addr, p: Prefix)
    requires p.Valid() && a.fam == p.addr.fam
    ensures var gs := Groups(a.val, 0, Unit(a.fam), Count(a.fam));
            EndsIn(Reversed(Labels(a.fam, gs)), Reversed(Labels(a.fam, ZoneGroups(p)))) <==> gs[..Used(p)] == ZoneGroups(p)
  {
    hide Groups, ZoneGroups, Pow2, Reversed, EndsIn, Labels, RoundUp;
    var gs := Groups(a.val, 0, Unit(a.fam), Count(a.fam));
    var zs := ZoneGroups(p);
    ReversedEnds(Labels(a.fam, gs), Labels(a.fam, zs));
    LabelsInjective(a.fam, gs[..Used(p)], zs);
    FirstLabels(a.fam, gs, Used(p));
  }

  /** Rounding up only narrows a prefix, and does nothing to an aligned one. */
  lemma RoundUpInside(p: Prefix)
    requires p.Valid()
    ensures Inside(RoundUp(p), p)
    ensures p.bits % Unit(p.addr.fam) == 0 ==> RoundUp(p) == p.Masked()
    ensures p.Contains(RoundUp(p).addr) && RoundUp(p).Contains(p.Masked().addr)
  {
    MaskedSameAddresses(p, p.Masked().addr);
    hide Top, Clear, Shl, Pow2;
    forall a | ValidAddr(a) && RoundUp(p).Contains(a) ensures p.Contains(a) {
      ShorterContains(p, RoundUp(p), a);
    }
    Aligned(p);
  }

  lemma Aligned(p: Prefix)
    requires p.Valid()
    ensures p.bits % Unit(p.addr.fam) == 0 ==> Span(Unit(p.addr.fam), Used(p)) == p.bits
  {
    hide Pow2;
    if p.addr.fam == V4 {
      assert p.bits % 8 == 0 ==> 8 * ((p.bits + 7) / 8) == p.bits;
    } else {
      assert p.bits % 4 == 0 ==> 4 * ((p.bits + 3) / 4) == p.bits;
    }
  }

  // ---- zones of separate networks ----

  /** The first network's address is in the second's rounded-up prefix, and the first is at least
      as long in whole labels. Zones of zero length are a case apart: only they lie under one. */
  predicate Nests(p: Prefix, q: Prefix)
    requires p.Valid() && q.Valid()
  {
    && p.addr.fam == q.addr.fam
    && if q.bits == 0 then p.bits == 0 else Used(q) <= Used(p) && RoundUp(q).Contains(RoundUp(p).addr)
  }

  /** Exactly when one zone equals or lies under another. */
  lemma NestedZones(p: Prefix, q: Prefix)
    requires p.Valid() && q.Valid()
    ensures Under(ZoneText(p), ZoneText(q)) <==> Nests(p, q)
  {
    hide *;
    NamesAreClean(p, p.Masked().addr);
    NamesAreClean(q, q.Masked().addr);
    ZoneTextJoins(p);
    ZoneTextJoins(q);
    UnderIsByLabels(ZoneLabels(p), ZoneLabels(q));
    HeadLabels(p);
    HeadLabels(q);
    EndsInFamilies(p.addr.fam, Head(p), q.addr.fam, Head(q));
    if p.addr.fam == q.addr.fam { HeadsNest(p, q); }
    NestsSameFamily(p, q);
  }

  lemma NestsSameFamily(p: Prefix, q: Prefix)
    requires p.Valid() && q.Valid()
    ensures Nests(p, q) ==> p.addr.fam == q.addr.fam
  {
  }

  /** A zone's labels before the family's fixed ending. */
  function Head(p: Prefix): seq<string>
    requires p.Valid()
  {
    if p.bits == 0 then [""] else Reversed(Labels(p.addr.fam, ZoneGroups(p)))
  }

  lemma HeadLabels(p: Prefix)
    requires p.Valid()
    ensures ZoneLabels(p) == Head(p) + Suffix(p.addr.fam) && AllFree(Head(p), '.')
    ensures Used(p) == 0 <==> p.bits == 0
  {
    LabelsClean(p.addr.fam, ZoneGroups(p));
  }

  lemma HeadsNest(p: Prefix, q: Prefix)
    requires p.Valid() && q.Valid() && p.addr.fam == q.addr.fam
    ensures EndsIn(Head(p), Head(q)) <==> Nests(p, q)
  {
    var fam := p.addr.fam;
    HeadLabels(p);
    HeadLabels(q);
    LabelsClean(fam, ZoneGroups(p));
    LabelsClean(fam, ZoneGroups(q));
    hide Labels, ZoneGroups, Suffix, ZoneLabels, Reversed, RoundUp, AllFree, EndsIn, Used;
    if q.bits == 0 {
      if p.bits == 0 { EndsInSelf([""]); } else { EmptyLabelNowhere(Labels(fam, ZoneGroups(p))); }
    } else if p.bits == 0 {
      NoEmptyEnd(Labels(fam, ZoneGroups(q)));
    } else {
      LeadingLabels(p, q);
    }
  }

  lemma EndsInSelf<T>(s: seq<T>)
    ensures EndsIn(s, s)
  {
  }

  lemma NoEmptyEnd(ls: seq<string>)
    requires ls != [] && forall i :: 0 <= i < |ls| ==> ls[i] != ""
    ensures !EndsIn([""], Reversed(ls))
  {
    assert [""][0..] == [""] && Reversed(ls)[0] == ls[|ls| - 1];
  }

  lemma LeadingLabels(p: Prefix, q: Prefix)
    requires p.Valid() && q.Valid() && p.addr.fam == q.addr.fam
    ensures EndsIn(Reversed(Labels(p.addr.fam, ZoneGroups(p))), Reversed(Labels(q.addr.fam, ZoneGroups(q)))) <==>
            Used(q) <= Used(p) && RoundUp(q).Contains(RoundUp(p).addr)
  {
    hide Groups, ZoneGroups, Pow2, Clear, Top, Reversed, EndsIn, Labels, RoundUp;
    var a := p.Masked().addr;
    RoundUpAt(p);
    LeadingGroups(a, p);
    LeadingGroups(a, q);
    ReversedEnds(Labels(p.addr.fam, ZoneGroups(p)), Labels(q.addr.fam, ZoneGroups(q)));
    if Used(q) <= Used(p) {
      LabelsInjective(p.addr.fam, ZoneGroups(p)[..Used(q)], ZoneGroups(q));
      FirstLabels(p.addr.fam, ZoneGroups(p), Used(q));
      assert ZoneGroups(p)[..Used(q)] == Groups(a.val, 0, Unit(a.fam), Count(a.fam))[..Used(q)];
    }
  }

  lemma RoundUpAt(p: Prefix)
    requires p.Valid()
    ensures RoundUp(p).addr == p.Masked().addr && RoundUp(p).Contains(p.Masked().addr)
  {
  }

  lemma FirstLabels(fam: Family, gs: seq<nat>, c: nat)
    requires c <= |gs| && forall i :: 0 <= i < |gs| ==> gs[i] < Pow2(Unit(fam))
    ensures Labels(fam, gs)[..c] == Labels(fam, gs[..c])
  {
    hide Label, Pow2;
  }

  /** So networks that do not overlap get zones of which neither equals nor contains the other. */
  lemma SeparateZones(p: Prefix, q: Prefix)
    requires p.Valid() && q.Valid()
    ensures Under(ZoneText(p), ZoneText(q)) ==> Overlaps(p, q)
  {
    hide Under, ZoneText, RoundUp, Used;
    NestedZones(p, q);
    if Nests(p, q) && q.bits > 0 { CommonAddress(p, q); }
  }

  lemma CommonAddress(p: Prefix, q: Prefix)
    requires p.Valid() && q.Valid() && RoundUp(q).Contains(RoundUp(p).addr)
    ensures Overlaps(p, q)
  {
    OverlapExact(p, q);
    RoundUpInside(q);
    MaskedSameAddresses(p, p.Masked().addr);
    assert p.Contains(p.Masked().addr) && q.Contains(p.Masked().addr);
  }

  // ---- reading a zone back ----

  function Fold(gs: seq<nat>, u: nat): nat {
    if gs == [] then 0 else Shl(Fold(gs[..|gs| - 1], u), u) + gs[|gs| - 1]
  }

  lemma TopParts(val: nat, k: nat, u: nat)
    ensures Top(val, k) == Shl(Top(val, k + u), u) + Group(val, k, u)
  {
    TopTop(val, k, k + u);
    TopAndLow(Top(val, k), u);
    hide Top, Shl, Low;
  }

  lemma {:induction false} FoldGroups(val: nat, k: nat, u: nat, c: nat)
    requires (u == 8 || u == 4) && Top(val, k + Span(u, c)) == 0
    ensures Fold(Groups(val, k, u, c), u) == Top(val, k)
    decreases c
  {
    if c > 0 {
      assert k + Span(u, c) == (k + u) + Span(u, c - 1);
      FoldGroups(val, k + u, u, c - 1);
      var gs := Groups(val, k, u, c);
      assert gs[..c - 1] == Groups(val, k + u, u, c - 1) && gs[c - 1] == Group(val, k, u);
      hide Groups;
      TopParts(val, k, u);
      hide Top, Group, Pow2, Shl;
    }
  }

  function Values(fam: Family, labels: seq<string>): seq<nat> {
    seq(|labels|, i requires 0 <= i < |labels| => LabelValue(fam, labels[i]))
  }

  /** The prefix a zone's text stands for. */
  function ParseZone(zone: string): Option<Prefix> {
    ParseLabels(Split(zone, '.'))
  }

  function ParseLabels(ls: seq<string>): Option<Prefix> {
    if |ls| < 3 then None
    else
      var ending, head := ls[|ls| - 2..], ls[..|ls| - 2];
      if ending != Suffix(V4) && ending != Suffix(V6) then None
      else
        var fam := if ending == Suffix(V4) then V4 else V6;
        if |head| > Count(fam) then None
        else if head == [""] then Some(Prefix(Addr(fam, 0), 0))
        else
          var bits := Span(Unit(fam), |head|);
          Some(Prefix(Addr(fam, Shl(Fold(Values(fam, Reversed(head)), Unit(fam)), Width(fam) - bits)), bits))
  }

  /** The zone's text determines the rounded-up prefix. */
  lemma ZoneReadsBack(p: Prefix)
    requires p.Valid()
    ensures ParseZone(ZoneText(p)) == Some(RoundUp(p))
  {
    NamesAreClean(p, p.Masked().addr);
    hide Split, Join, AllFree, ZoneLabels, RoundUp, ParseLabels;
    SplitJoin(ZoneLabels(p), '.');
    LabelsReadBack(p);
  }

  lemma LabelsReadBack(p: Prefix)
    requires p.Valid()
    ensures ParseLabels(ZoneLabels(p)) == Some(RoundUp(p))
  {
    hide *;
    var fam := p.addr.fam;
    ZoneIsSuffixed(p);
    if p.bits == 0 {
      ZeroLengthParses(p);
    } else {
      LabelsClean(fam, ZoneGroups(p));
      NotTheEmptyLabel(Labels(fam, ZoneGroups(p)));
      SuffixedParse(fam, Reversed(Labels(fam, ZoneGroups(p))));
      ValuesOfLabels(fam, ZoneGroups(p));
      NetworkIsCleared(p);
    }
  }

  lemma NotTheEmptyLabel(ls: seq<string>)
    requires forall i :: 0 <= i < |ls| ==> ls[i] != ""
    ensures Reversed(ls) != [""]
  {
    assert ls != [] ==> ls[0] == Reversed(ls)[|ls| - 1];
  }

  lemma ZeroLengthParses(p: Prefix)
    requires p.Valid() && p.bits == 0
    ensures ParseLabels([""] + Suffix(p.addr.fam)) == Some(RoundUp(p))
  {
    hide Suffix, Fold, Values, RoundUp;
    var fam := p.addr.fam;
    SuffixesDiffer();
    SuffixClean(fam);
    ZeroRoundsUp(p);
    var ls := [""] + Suffix(fam);
    assert ls[|ls| - 2..] == Suffix(fam) && ls[..|ls| - 2] == [""];
  }

  lemma ZeroRoundsUp(p: Prefix)
    requires p.Valid() && p.bits == 0
    ensures RoundUp(p) == Prefix(Addr(p.addr.fam, 0), 0)
  {
    hide Shl, Top, Pow2;
    TopZero(p.addr.val, Width(p.addr.fam));
    ShlOne(Width(p.addr.fam));
  }

  lemma ZoneIsSuffixed(p: Prefix)
    requires p.Valid()
    ensures p.bits == 0 ==> ZoneLabels(p) == [""] + Suffix(p.addr.fam)
    ensures p.bits > 0 ==> Used(p) > 0 && ZoneLabels(p) == Reversed(Labels(p.addr.fam, ZoneGroups(p))) + Suffix(p.addr.fam)
  {
  }

  /** Labels under a family's ending are read as that family's prefix. */
  lemma SuffixedParse(fam: Family, head: seq<string>)
    requires 0 < |head| <= Count(fam) && head != [""]
    ensures var bits := Span(Unit(fam), |head|);
            ParseLabels(head + Suffix(fam)) ==
            Some(Prefix(Addr(fam, Shl(Fold(Values(fam, Reversed(head)), Unit(fam)), Width(fam) - bits)), bits))
  {
    SuffixesDiffer();
    SuffixClean(fam);
    hide Suffix, Fold, Values, Shl, Span;
    var ls := head + Suffix(fam);
    assert ls[|ls| - 2..] == Suffix(fam) && ls[..|ls| - 2] == head;
  }

  lemma SuffixesDiffer()
    ensures Suffix(V4) != Suffix(V6)
  {
    assert Suffix(V4)[0] != Suffix(V6)[0];
  }

  lemma ValuesOfLabels(fam: Family, gs: seq<nat>)
    requires forall i :: 0 <= i < |gs| ==> gs[i] < Pow2(Unit(fam))
    ensures Values(fam, Reversed(Reversed(Labels(fam, gs)))) == gs
  {
    forall i | 0 <= i < |gs| { LabelReads(fam, gs[i]); }
    hide Label, LabelValue, Pow2;
    assert Reversed(Reversed(Labels(fam, gs))) == Labels(fam, gs);
  }

  lemma NetworkIsCleared(p: Prefix)
    requires p.Valid()
    ensures var fam, bits := p.addr.fam, Span(Unit(p.addr.fam), Used(p));
            && bits <= Width(fam)
            && RoundUp(p) == Prefix(Addr(fam, Shl(Fold(ZoneGroups(p), Unit(fam)), Width(fam) - bits)), bits)
  {
    var net, u, c := p.Masked().addr.val, Unit(p.addr.fam), Used(p);
    var k, j := RoundUp(p).HostBits(), p.HostBits();
    TopZero(net, Width(p.addr.fam));
    UnitCount(p);
    hide Groups, Fold, Top, Shl, Pow2;
    FoldGroups(net, k, u, c);
    ClearedBelow(p.addr.val, k, j);
  }

  lemma ClearedBelow(val: nat, k: nat, j: nat)
    requires k <= j
    ensures Shl(Top(Clear(val, j), k), k) == Clear(val, j)
  {
    var t := Top(val, j);
    ShlShl(t, j - k, k);
    TopShl(Shl(t, j - k), k);
    hide Top, Shl;
  }
}
