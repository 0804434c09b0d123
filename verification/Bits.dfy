/** 32-bit words seen as sets of bits. */
module Bits {

  type Word = w: int | 0 <= w < 0x1_0000_0000

  function Pow2(n: nat): (p: nat)
    ensures p > 0
  {
    if n == 0 then 1 else 2 * Pow2(n - 1)
  }

  lemma {:induction false} PowAdd(a: nat, b: nat)
    ensures Pow2(a + b) == Pow2(a) * Pow2(b)
  {
    if a > 0 {
      PowAdd(a - 1, b);
      Product3(2, Pow2(a - 1), Pow2(b));
    }
  }

  lemma Product3(x: nat, y: nat, z: nat)
    ensures x * y * z == x * (y * z)
  {}

  lemma SmallPowers(k: nat)
    requires k <= 4
    ensures Pow2(k) == if k == 0 then 1 else if k == 1 then 2 else if k == 2 then 4 else if k == 3 then 8 else 16
  {}

  lemma PowValues()
    ensures Pow2(4) == 0x10 && Pow2(8) == 0x100 && Pow2(16) == 0x1_0000
    ensures Pow2(31) == 0x8000_0000 && Pow2(32) == 0x1_0000_0000
  {
    SmallPowers(4);
    SmallPowers(1);
    hide Pow2;
    PowAdd(4, 4);
    PowAdd(8, 8);
    PowAdd(16, 16);
    PowAdd(1, 31);
    assert Pow2(32) == 0x1_0000 * 0x1_0000;
  }

  /** w & (1 << i). */
  predicate Bit(w: nat, i: nat) {
    w / Pow2(i) % 2 == 1
  }

  /** A number with bit i set: `above` and `below` are the bits on either side. */
  function Raised(i: nat, above: nat, below: nat): nat {
    Pow2(i) * (2 * above + 1) + below
  }

  /** Bit i is set: the part of the number from 2^i on is odd. */
  ghost predicate HasBit(w: nat, i: nat) {
    exists above: nat, below: nat :: below < Pow2(i) && w == Raised(i, above, below)
  }

  lemma BitExact(w: nat, i: nat)
    ensures Bit(w, i) <==> HasBit(w, i)
  {
    hide Pow2;
    var p := Pow2(i);
    if Bit(w, i) {
      var above, below := w / p / 2, w % p;
      assert w / p == 2 * above + 1;
      assert w == p * (w / p) + below;
      assert w == Raised(i, above, below);
    }
    if HasBit(w, i) {
      var above: nat, below: nat :| below < p && w == Raised(i, above, below);
      DivModUnique(w, p, 2 * above + 1, below);
    }
  }

  /** test_and_clear_bit: the word without its bit 31. */
  function Clear31(w: Word): Word {
    w % 0x8000_0000
  }

  type Byte = b: int | 0 <= b < 0x100

  /** Bitwise or and and, of unsigned values of any width. */
  function Or(a: nat, b: nat): nat {
    if a == 0 then b else 2 * Or(a / 2, b / 2) + (if a % 2 == 1 || b % 2 == 1 then 1 else 0)
  }

  function And(a: nat, b: nat): nat {
    if a == 0 then 0 else 2 * And(a / 2, b / 2) + (if a % 2 == 1 && b % 2 == 1 then 1 else 0)
  }

  lemma OrDouble(x: nat, b: nat)
    ensures Or(2 * x, b) == 2 * Or(x, b / 2) + b % 2
  {}

  lemma PowSplit(q: nat, n: nat)
    requires n > 0
    ensures q * Pow2(n) == 2 * (q * Pow2(n - 1))
  {}

  /** Or is addition where the operands share no bits. */
  lemma {:induction false} OrAdds(q: nat, b: nat, n: nat)
    requires b < Pow2(n)
    ensures Or(q * Pow2(n), b) == q * Pow2(n) + b
    decreases n
  {
    if n == 0 {
      OrZero(q);
    } else {
      OrAdds(q, b / 2, n - 1);
      PowSplit(q, n);
      OrDouble(q * Pow2(n - 1), b);
    }
  }

  lemma ModDouble(x: nat, m: nat)
    requires m > 0
    ensures (2 * x) % (2 * m) == 2 * (x % m)
  {
    var q, r := x / m, x % m;
    assert x == q * m + r;
    assert 2 * x == q * (2 * m) + 2 * r;
    DivModUnique(2 * x, 2 * m, q, 2 * r);
  }

  lemma DivModUnique(a: nat, m: nat, q: nat, r: nat)
    requires m > 0 && a == q * m + r && r < m
    ensures a / m == q && a % m == r
  {
    var p := a / m;
    assert a == p * m + a % m;
    Scale(p + 1, q, m);
    Scale(q + 1, p, m);
    assert (p + 1) * m == p * m + m && (q + 1) * m == q * m + m;
  }

  /** Adding a multiple does not change the remainder. */
  lemma MultipleAdded(u: nat, p: nat, t: nat, b: nat)
    requires p > 0
    ensures (u * (p * t) + b) % p == b % p
  {
    var q, r := b / p, b % p;
    Regrouped(u, p, t, q);
    DivModUnique(u * (p * t) + b, p, u * t + q, r);
  }

  lemma Regrouped(u: nat, p: nat, t: nat, q: nat)
    ensures u * (p * t) + q * p == (u * t + q) * p
  {
    assert u * (p * t) == u * (t * p);
    Product3(u, t, p);
  }

  lemma Scale(x: nat, y: nat, m: nat)
    ensures x <= y ==> x * m <= y * m
  {}

  /** ... and only there: below a value that is no multiple of a power of two, some
      number up to half the power is lost. */
  lemma {:induction false} OrLoses(a: nat, n: nat) returns (b: nat)
    requires a % Pow2(n) != 0
    ensures n > 0 && b <= Pow2(n - 1) && Or(a, b) != a + b
    decreases n
  {
    if a % 2 == 1 {
      b := 1;
      OddLoses(a);
      OneUpTo(n);
      NotAMultiple(a, n);
    } else {
      NotAMultiple(a, n);
      ModDouble(a / 2, Pow2(n - 1));
      hide Or;
      b := OrLoses(a / 2, n - 1);
      OrDouble(a / 2, 2 * b);
      b := 2 * b;
    }
  }

  lemma NotAMultiple(a: nat, n: nat)
    requires a % Pow2(n) != 0
    ensures n > 0 && Pow2(n) == 2 * Pow2(n - 1) && (n > 1 ==> Pow2(n - 1) == 2 * Pow2(n - 2))
  {}

  lemma OddLoses(a: nat)
    requires a % 2 == 1
    ensures Or(a, 1) != a + 1
  {
    OrZero(a / 2);
  }

  lemma OneUpTo(n: nat)
    ensures n > 0 ==> 1 <= Pow2(n - 1)
  {}

  lemma {:induction false} OrZero(a: nat)
    ensures Or(a, 0) == a
  {
    if a > 0 {
      OrZero(a / 2);
    }
  }

  lemma {:induction false} OrBound(a: nat, b: nat, n: nat)
    requires a < Pow2(n) && b < Pow2(n)
    ensures Or(a, b) < Pow2(n)
    decreases n
  {
    if a > 0 {
      OrBound(a / 2, b / 2, n - 1);
    }
  }

  lemma {:induction false} AndSelf(a: nat)
    ensures And(a, a) == a
  {
    if a > 0 {
      AndSelf(a / 2);
    }
  }

  lemma {:induction false} AndZero(a: nat)
    ensures And(a, 0) == 0
  {
    if a > 0 {
      AndZero(a / 2);
    }
  }

  lemma AndHalf(a: nat, b: nat)
    ensures And(a, b) / 2 == And(a / 2, b / 2)
    ensures And(a, b) % 2 == if a % 2 == 1 && b % 2 == 1 then 1 else 0
  {}

  /** Equal halves and equal last bits. */
  lemma SameHalves(x: nat, y: nat)
    ensures x / 2 == y / 2 && x % 2 == y % 2 ==> x == y
  {}

  lemma {:induction false} AndCommutes(a: nat, b: nat)
    ensures And(a, b) == And(b, a)
  {
    if a == 0 {
      AndZero(b);
    } else {
      AndCommutes(a / 2, b / 2);
      AndHalf(a, b);
      AndHalf(b, a);
      hide And;
      SameHalves(And(a, b), And(b, a));
    }
  }

  lemma {:induction false} AndAssociates(a: nat, b: nat, c: nat)
    ensures And(And(a, b), c) == And(a, And(b, c))
  {
    if a > 0 {
      hide And;
      AndAssociates(a / 2, b / 2, c / 2);
      AndHalf(a, b);
      AndHalf(b, c);
      AndHalf(And(a, b), c);
      AndHalf(a, And(b, c));
      SameHalves(And(And(a, b), c), And(a, And(b, c)));
    }
  }

  lemma AndOdd(p: nat, a: nat)
    ensures And(2 * p + 1, a) == 2 * And(p, a / 2) + a % 2
    ensures And(a, 2 * p + 1) == 2 * And(a / 2, p) + a % 2
  {
    assert (2 * p + 1) / 2 == p && (2 * p + 1) % 2 == 1;
  }

  lemma OnesOdd(n: nat)
    requires n > 0
    ensures Pow2(n) - 1 == 2 * (Pow2(n - 1) - 1) + 1
  {}

  lemma {:induction false} AndOnes(a: nat, n: nat)
    requires a < Pow2(n)
    ensures And(a, Pow2(n) - 1) == a == And(Pow2(n) - 1, a)
    decreases n
  {
    if n > 0 {
      OnesOdd(n);
      hide And, Pow2;
      AndOnes(a / 2, n - 1);
      AndOdd(Pow2(n - 1) - 1, a);
    }
  }

  // ---- Bits one by one ----

  lemma Halved(w: nat, p: nat)
    requires p > 0
    ensures w / (2 * p) == w / 2 / p
  {
    var q, r := w / 2 / p, w / 2 % p;
    assert w / 2 == q * p + r;
    assert w == q * (2 * p) + (2 * r + w % 2);
    DivModUnique(w, 2 * p, q, 2 * r + w % 2);
  }

  lemma BitHalf(w: nat, i: nat)
    ensures Bit(w, 0) <==> w % 2 == 1
    ensures i > 0 ==> (Bit(w, i) <==> Bit(w / 2, i - 1))
  {
    if i > 0 {
      Halved(w, Pow2(i - 1));
    }
  }

  lemma OrHalf(a: nat, b: nat)
    ensures Or(a, b) / 2 == Or(a / 2, b / 2)
    ensures Or(a, b) % 2 == if a % 2 == 1 || b % 2 == 1 then 1 else 0
  {}

  /** Or, bit by bit. */
  lemma {:induction false} OrBit(a: nat, b: nat, i: nat)
    ensures Bit(Or(a, b), i) <==> Bit(a, i) || Bit(b, i)
    decreases i
  {
    hide Bit, Or;
    OrHalf(a, b);
    BitHalf(Or(a, b), i);
    BitHalf(a, i);
    BitHalf(b, i);
    if i > 0 {
      OrBit(a / 2, b / 2, i - 1);
    }
  }

  /** The lowest n bits. */
  lemma {:induction false} LowBits(w: nat, n: nat, i: nat)
    ensures w % Pow2(n) < Pow2(n)
    ensures Bit(w % Pow2(n), i) <==> i < n && Bit(w, i)
    decreases n
  {
    if n == 0 {
      NoBit(i);
    } else {
      LowHalf(w, Pow2(n - 1));
      hide Bit;
      BitHalf(w % Pow2(n), i);
      BitHalf(w, i);
      if i > 0 {
        LowBits(w / 2, n - 1, i - 1);
      }
    }
  }

  lemma LowHalf(w: nat, p: nat)
    requires p > 0
    ensures w % (2 * p) / 2 == w / 2 % p && w % (2 * p) % 2 == w % 2
  {
    var q, r := w / 2 / p, w / 2 % p;
    assert w / 2 == q * p + r;
    assert w == q * (2 * p) + (2 * r + w % 2);
    DivModUnique(w, 2 * p, q, 2 * r + w % 2);
  }

  lemma NoBit(i: nat)
    ensures !Bit(0, i)
  {}

  /** A single bit. */
  lemma {:induction false} OneBit(n: nat, i: nat)
    ensures Bit(Pow2(n), i) <==> i == n
    decreases n
  {
    hide Bit;
    BitHalf(Pow2(n), i);
    if n == 0 {
      if i > 0 {
        NoBit(i - 1);
      }
    } else {
      assert Pow2(n) / 2 == Pow2(n - 1);
      if i > 0 {
        OneBit(n - 1, i - 1);
      }
    }
  }

  /** Taking the bits of a number off one by one, from the lowest: what is left before
      and after bit i. */
  lemma TakeBit(low: nat, left: nat, i: nat)
    requires left == Pow2(i) * (low / Pow2(i))
    ensures Bit(left, i) <==> Bit(low, i)
    ensures Pow2(i + 1) * (low / Pow2(i + 1)) == if Bit(left, i) then left - Pow2(i) else left
  {
    hide Pow2;
    var p, h := Pow2(i), low / Pow2(i);
    DivModUnique(left, p, h, 0);
    PowNext(i);
    Halves(low, p);
    TwoPlus(p, h);
  }

  lemma TwoPlus(p: nat, h: nat)
    ensures 2 * p * (h / 2) == if h % 2 == 1 then p * h - p else p * h
  {
    var k := h / 2;
    assert h == 2 * k + h % 2;
    assert p * h == 2 * p * k + p * (h % 2);
  }

  /** ... until none is left. */
  lemma NoneLeft(low: nat, i: nat, k: nat)
    requires Pow2(i) * (low / Pow2(i)) == 0 && i <= k
    ensures !Bit(low, k)
  {
    hide Pow2;
    var p := Pow2(i);
    Scale(1, low / p, p);
    PowGrows(i, k);
    DivModUnique(low, Pow2(k), 0, low);
  }

  lemma PowNext(i: nat)
    ensures Pow2(i + 1) == 2 * Pow2(i)
  {}

  lemma {:induction false} PowGrows(i: nat, k: nat)
    requires i <= k
    ensures Pow2(i) <= Pow2(k)
    decreases k
  {
    if i < k {
      PowGrows(i, k - 1);
    }
  }

  lemma Halves(w: nat, p: nat)
    requires p > 0
    ensures w / (2 * p) == w / p / 2
  {
    var q, r := w / p / 2, w / p % 2;
    assert w == p * (2 * q + r) + w % p;
    assert w == q * (2 * p) + (r * p + w % p);
    Scale(r, 1, p);
    DivModUnique(w, 2 * p, q, r * p + w % p);
  }

  /** Sums modulo 256. */
  lemma ModAdd(s: nat, c: nat)
    ensures (s + c) % 0x100 == (s % 0x100 + c % 0x100) % 0x100
  {
    var a, x, b, y := s / 0x100, s % 0x100, c / 0x100, c % 0x100;
    assert s + c == 0x100 * (a + b) + (x + y);
    Low8(a + b, x + y);
  }

  lemma Low8(q: nat, r: nat)
    ensures (0x100 * q + r) % 0x100 == r % 0x100
  {}
}
