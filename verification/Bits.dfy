/** Unsigned bit arithmetic on natural numbers, one bit at a time: everything stays linear. */
module Bits {

  function Pow2(n: nat): (r: nat)
    ensures r >= 1
  {
    if n == 0 then 1 else 2 * Pow2(n - 1)
  }

  lemma Pow2Values()
    ensures Pow2(0) == 1 && Pow2(1) == 2 && Pow2(2) == 4 && Pow2(4) == 16 && Pow2(8) == 256
    ensures Pow2(16) == 0x1_0000 && Pow2(24) == 0x100_0000 && Pow2(32) == 0x1_0000_0000
  {
    assert Pow2(12) == 0x1000 && Pow2(20) == 0x10_0000 && Pow2(28) == 0x1000_0000;
  }

  // ---- shifts ----

  /** `t << k`. */
  function Shl(t: nat, k: nat): nat {
    if k == 0 then t else 2 * Shl(t, k - 1)
  }

  /** `val >> k`: a word without its k lowest bits. */
  function Top(val: nat, k: nat): nat {
    if k == 0 then val else Top(val / 2, k - 1)
  }

  /** The u lowest bits. */
  function Low(x: nat, u: nat): nat {
    if u == 0 then 0 else 2 * Low(x / 2, u - 1) + x % 2
  }

  /** A word with its k lowest bits cleared. */
  function Clear(val: nat, k: nat): nat {
    Shl(Top(val, k), k)
  }

  lemma {:induction false} ShlShl(t: nat, a: nat, b: nat)
    ensures Shl(Shl(t, a), b) == Shl(t, a + b)
  {
    if b > 0 { ShlShl(t, a, b - 1); }
  }

  lemma {:induction false} ShlSum(s: nat, t: nat, k: nat)
    ensures Shl(s + t, k) == Shl(s, k) + Shl(t, k)
  {
    if k > 0 { ShlSum(s, t, k - 1); }
  }

  lemma {:induction false} ShlOne(k: nat)
    ensures Shl(1, k) == Pow2(k) && Shl(0, k) == 0
  {
    if k > 0 { ShlOne(k - 1); }
  }

  lemma {:induction false} ShlBound(t: nat, k: nat, n: nat)
    requires t < Pow2(n)
    ensures Shl(t, k) + Pow2(k) <= Pow2(n + k)
  {
    if k > 0 {
      ShlBound(t, k - 1, n);
      assert Pow2(n + k) == 2 * Pow2(n + (k - 1));
    }
  }

  lemma {:induction false} TopShl(t: nat, k: nat)
    ensures Top(Shl(t, k), k) == t
  {
    if k > 0 {
      TopShl(t, k - 1);
      assert Shl(t, k) / 2 == Shl(t, k - 1);
    }
  }

  lemma {:induction false} TopTop(val: nat, k: nat, j: nat)
    requires k <= j
    ensures Top(val, j) == Top(Top(val, k), j - k)
    decreases k
  {
    if k > 0 { TopTop(val / 2, k - 1, j - 1); }
  }

  lemma {:induction false} TopBound(val: nat, k: nat, j: nat)
    requires k <= j && val < Pow2(j)
    ensures Top(val, k) < Pow2(j - k)
    decreases k
  {
    if k > 0 { TopBound(val / 2, k - 1, j - 1); }
  }

  lemma TopZero(val: nat, k: nat)
    requires val < Pow2(k)
    ensures Top(val, k) == 0
  {
    TopBound(val, k, k);
  }

  /** The words with the leading part t are the ones from `t << k` on, 2^k of them. */
  lemma {:induction false} TopExact(val: nat, k: nat, t: nat)
    ensures Top(val, k) == t <==> Shl(t, k) <= val < Shl(t, k) + Pow2(k)
    decreases k
  {
    if k > 0 { TopExact(val / 2, k - 1, t); }
  }

  lemma ClearBound(val: nat, k: nat)
    ensures Clear(val, k) <= val < Clear(val, k) + Pow2(k)
  {
    TopExact(val, k, Top(val, k));
  }

  lemma TopClear(val: nat, k: nat)
    ensures Top(Clear(val, k), k) == Top(val, k)
  {
    TopShl(Top(val, k), k);
  }

  lemma {:induction false} LowBound(x: nat, u: nat)
    ensures Low(x, u) < Pow2(u)
    decreases u
  {
    if u > 0 { LowBound(x / 2, u - 1); }
  }

  /** A word is its leading part, shifted, and its lowest bits. */
  lemma {:induction false} TopAndLow(x: nat, u: nat)
    ensures x == Shl(Top(x, u), u) + Low(x, u)
    decreases u
  {
    if u > 0 { TopAndLow(x / 2, u - 1); }
  }

  /** Half of a group of bits, and the other half. */
  lemma {:induction false} TopOfLow(x: nat, a: nat, b: nat)
    ensures Top(Low(x, a + b), a) == Low(Top(x, a), b)
    ensures Low(Low(x, a + b), a) == Low(x, a)
    decreases a
  {
    if a > 0 {
      TopOfLow(x / 2, a - 1, b);
      assert Low(x, a + b) == 2 * Low(x / 2, (a - 1) + b) + x % 2;
      assert Low(x, a + b) / 2 == Low(x / 2, (a - 1) + b) && Low(x, a + b) % 2 == x % 2;
    }
  }

  lemma ByteShift(t: nat)
    ensures Shl(t, 8) == 256 * t
  {
    assert Shl(t, 1) == 2 * t && Shl(t, 2) == 4 * t && Shl(t, 3) == 8 * t;
    assert Shl(t, 4) == 16 * t && Shl(t, 5) == 32 * t && Shl(t, 6) == 64 * t;
  }

  // ---- or ----

  /** Bitwise or. */
  function Or(a: nat, b: nat): nat {
    if a == 0 then b
    else if b == 0 then a
    else 2 * Or(a / 2, b / 2) + (if a % 2 == 1 || b % 2 == 1 then 1 else 0)
  }

  /** Or-ing bits into a place where there are none is addition. */
  lemma {:induction false} OrDisjoint(n: nat, k: nat, m: nat)
    requires m < Pow2(k)
    ensures Or(Shl(n, k), m) == Shl(n, k) + m
    decreases k
  {
    if k > 0 {
      var h := Shl(n, k - 1);
      assert Shl(n, k) == 2 * h && (2 * h) / 2 == h && (2 * h) % 2 == 0;
      OrDisjoint(n, k - 1, m / 2);
      hide Shl, Pow2;
      assert m > 0 && h > 0 ==> Or(2 * h, m) == 2 * Or(h, m / 2) + m % 2;
    }
  }

  /** All ones shifted right: `^uint32(0) >> bits` for a word of `width` bits. */
  lemma {:induction false} OnesShifted(width: nat, bits: nat)
    requires bits <= width
    ensures Top(Pow2(width) - 1, bits) == Pow2(width - bits) - 1
    decreases bits
  {
    if bits > 0 {
      assert (Pow2(width) - 1) / 2 == Pow2(width - 1) - 1;
      OnesShifted(width - 1, bits - 1);
    }
  }

  // ---- a word cut into groups of u bits, octets (u = 8) or nibbles (u = 4) ----

  function Group(val: nat, k: nat, u: nat): (g: nat)
    ensures g < Pow2(u)
  {
    LowBound(Top(val, k), u);
    Low(Top(val, k), u)
  }

  /** The c groups that end k bits above the least significant one, most significant first. */
  function Groups(val: nat, k: nat, u: nat, c: nat): (gs: seq<nat>)
    ensures |gs| == c && forall i :: 0 <= i < c ==> gs[i] < Pow2(u)
    decreases c
  {
    if c == 0 then [] else Groups(val, k + u, u, c - 1) + [Group(val, k, u)]
  }

  /** The width of c groups. */
  function Span(u: nat, c: nat): nat
    requires u == 8 || u == 4
  {
    if u == 8 then 8 * c else 4 * c
  }

  lemma TopsAgree(a: nat, b: nat, k: nat, u: nat)
    ensures Top(a, k) == Top(b, k) <==> Top(a, k + u) == Top(b, k + u) && Group(a, k, u) == Group(b, k, u)
  {
    TopTop(a, k, k + u);
    TopTop(b, k, k + u);
    TopAndLow(Top(a, k), u);
    TopAndLow(Top(b, k), u);
    hide Top, Low, Shl;
  }

  /** Two words with the same part above c groups have the same c groups exactly when they
      have the same part above the k bits below those groups. */
  lemma {:induction false} GroupsAgree(a: nat, b: nat, k: nat, u: nat, c: nat)
    requires (u == 8 || u == 4) && Top(a, k + Span(u, c)) == Top(b, k + Span(u, c))
    ensures Groups(a, k, u, c) == Groups(b, k, u, c) <==> Top(a, k) == Top(b, k)
    decreases c
  {
    if c > 0 {
      assert k + Span(u, c) == (k + u) + Span(u, c - 1);
      GroupsAgree(a, b, k + u, u, c - 1);
      TopsAgree(a, b, k, u);
      hide Top, Group, Pow2, Span;
      var ga, gb := Groups(a, k, u, c), Groups(b, k, u, c);
      assert ga[..c - 1] == Groups(a, k + u, u, c - 1) && ga[c - 1] == Group(a, k, u);
      assert gb[..c - 1] == Groups(b, k + u, u, c - 1) && gb[c - 1] == Group(b, k, u);
    }
  }

  lemma {:induction false} GroupAt(val: nat, k: nat, u: nat, c: nat, i: nat)
    requires i < c && (u == 8 || u == 4)
    ensures Groups(val, k, u, c)[i] == Group(val, k + Span(u, c - 1 - i), u)
    decreases c
  {
    hide Group, Pow2;
    if i < c - 1 {
      GroupAt(val, k + u, u, c - 1, i);
      assert u + Span(u, c - 2 - i) == Span(u, c - 1 - i);
    }
  }

  /** The groups above k + c*u do not see the bits below: taking fewer groups takes a prefix. */
  lemma {:induction false} GroupsPrefix(val: nat, k: nat, u: nat, c: nat, d: nat)
    requires d <= c && (u == 8 || u == 4)
    ensures Groups(val, k, u, c)[..d] == Groups(val, k + Span(u, c - d), u, d)
    decreases c
  {
    hide Group, Pow2;
    if d < c {
      GroupsPrefix(val, k + u, u, c - 1, d);
      assert u + Span(u, c - 1 - d) == Span(u, c - d);
      assert Groups(val, k, u, c)[..d] == Groups(val, k + u, u, c - 1)[..d];
    }
  }
}
