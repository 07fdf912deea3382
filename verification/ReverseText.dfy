/** Reverse names letter by letter, as section 3.5 of RFC 1035 and section 2.5 of RFC 3596 write
    them; what the zones are measured against. */
module ReverseText {
  import opened Text
  import opened Bits
  import opened Addresses
  import opened Zones
  import opened WrittenText

  /** The reverse name of the IPv4 address a.b.c.d. */
  lemma Ipv4Name(a: nat, b: nat, c: nat, d: nat)
    requires a < 256 && b < 256 && c < 256 && d < 256
    ensures PtrName(Addr(V4, ((a * 256 + b) * 256 + c) * 256 + d)) ==
            Itoa(d) + "." + Itoa(c) + "." + Itoa(b) + "." + Itoa(a) + ".in-addr.arpa"
  {
    hide *;
    var ab := a * 256 + b;
    var abc := ab * 256 + c;
    OctetsOf(abc * 256 + d, abc, ab, a, b, c, d);
    Ipv4Labels(abc * 256 + d, a, b, c, d);
  }

  lemma FourLabels(a: nat, b: nat, c: nat, d: nat)
    requires a < 256 && b < 256 && c < 256 && d < 256
    ensures Pow2(8) == 256 && Reversed(Labels(V4, [a, b, c, d])) == [Itoa(d), Itoa(c), Itoa(b), Itoa(a)]
  {
    hide Itoa;
    Pow2Values();
    hide Pow2;
  }

  lemma Ipv4Labels(addr: nat, a: nat, b: nat, c: nat, d: nat)
    requires Groups(addr, 0, 8, 4) == [a, b, c, d] && a < 256 && b < 256 && c < 256 && d < 256
    ensures PtrName(Addr(V4, addr)) == Itoa(d) + "." + Itoa(c) + "." + Itoa(b) + "." + Itoa(a) + ".in-addr.arpa"
  {
    hide Groups, Itoa, Join, Reversed, Labels, Suffix, Pow2;
    var ls := [Itoa(d), Itoa(c), Itoa(b), Itoa(a)];
    FourLabels(a, b, c, d);
    assert PtrLabels(Addr(V4, addr)) == ls + Suffix(V4);
    SuffixText(V4);
    JoinAppend(ls, Suffix(V4), '.');
    FourJoined(Itoa(d), Itoa(c), Itoa(b), Itoa(a));
  }

  /** The i-th nibble from the least significant one. */
  function Nibble(val: nat, i: nat): (n: nat)
    ensures n < 16
  {
    if i == 0 then val % 16 else Nibble(val / 16, i - 1)
  }

  lemma FourBits(x: nat)
    ensures Top(x, 4) == x / 16 && Low(x, 4) == x % 16
  {
    var a, b, c := x / 2, x / 4, x / 8;
    assert a / 2 == b && b / 2 == c && c / 2 == x / 16;
    assert Top(x, 4) == Top(a, 3) == Top(b, 2) == Top(c, 1) == Top(x / 16, 0);
    assert Low(c, 1) == 2 * Low(x / 16, 0) + c % 2;
    assert Low(b, 2) == 2 * Low(c, 1) + b % 2;
    assert Low(a, 3) == 2 * Low(b, 2) + a % 2;
    assert Low(x, 4) == 2 * Low(a, 3) + x % 2;
  }

  lemma {:induction false} NibbleIsGroup(val: nat, i: nat)
    ensures Group(val, 4 * i, 4) == Nibble(val, i)
    decreases i
  {
    FourBits(val);
    FourBits(Top(val, 4 * i));
    hide Low, Top;
    if i > 0 {
      NibbleIsGroup(val / 16, i - 1);
      TopTop(val, 4, 4 * i);
      assert 4 * i - 4 == 4 * (i - 1);
    } else {
      NoTop(val);
    }
  }

  lemma HexDigit(n: nat)
    requires n < 16
    ensures HexChar(n) == "0123456789abcdef"[n]
  {
  }

  /** The reverse name of an IPv6 address: its 32 nibbles, the last one first, each as one
      hexadecimal digit, and the ending. */
  lemma Ipv6Name(val: nat, i: nat)
    requires i < 32
    ensures var ls := PtrLabels(Addr(V6, val));
            |ls| == 34 && ls[i] == ["0123456789abcdef"[Nibble(val, i)]] && ls[32..] == ["ip6", "arpa"]
    ensures PtrName(Addr(V6, val)) == Join(PtrLabels(Addr(V6, val)), '.')
  {
    hide Groups, Group, Join;
    GroupAt(val, 0, 4, 32, 31 - i);
    NibbleIsGroup(val, i);
    HexDigit(Nibble(val, i));
    hide HexChar, Nibble;
    assert Pow2(4) == 16;
    hide Pow2;
    var gs := Groups(val, 0, 4, 32);
    assert gs[31 - i] == Group(val, 4 * i, 4);
  }
}
