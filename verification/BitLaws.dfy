/** Single bits of words: what the bitwise operators, masks and shifts do to them. */
module BitLaws {
  import opened Bits

  /** Bit j. */
  function Bit(x: nat, j: nat): (b: nat)
    ensures b <= 1
  {
    x / Pow2(j) % 2
  }

  lemma BitZero(x: nat)
    ensures Bit(x, 0) == x % 2
  {
  }

  lemma BitNext(x: nat, j: nat)
    ensures Bit(x, j + 1) == Bit(x / 2, j)
  {
    HalfQuotient(x, Pow2(j));
  }

  lemma HalfQuotient(x: nat, p: nat)
    requires p > 0
    ensures x / (2 * p) == x / 2 / p
  {
    var q, r := Quotient(x / 2, p), x / 2 % p;
    assert q * (2 * p) == 2 * (q * p);
    DivModUnique(q, 2 * r + x % 2, 2 * p);
  }

  /** AND, OR and XOR work bit by bit. */
  lemma {:induction false} BitsOf(a: nat, b: nat, j: nat)
    ensures Bit(And(a, b), j) == 1 <==> Bit(a, j) == 1 && Bit(b, j) == 1
    ensures Bit(Or(a, b), j) == 1 <==> Bit(a, j) == 1 || Bit(b, j) == 1
    ensures Bit(Xor(a, b), j) == 1 <==> Bit(a, j) != Bit(b, j)
    decreases j
  {
    hide Bit, And, Or, Xor;
    HalfAnd(a, b);
    HalfOr(a, b);
    HalfXor(a, b);
    if j == 0 {
      BitZero(a);
      BitZero(b);
      BitZero(And(a, b));
      BitZero(Or(a, b));
      BitZero(Xor(a, b));
    } else {
      BitNext(a, j - 1);
      BitNext(b, j - 1);
      BitNext(And(a, b), j - 1);
      BitNext(Or(a, b), j - 1);
      BitNext(Xor(a, b), j - 1);
      BitsOf(a / 2, b / 2, j - 1);
    }
  }

  lemma TwoParts(q: int, d: int)
    requires 0 <= d < 2
    ensures (2 * q + d) / 2 == q && (2 * q + d) % 2 == d
  {
  }

  lemma HalfAnd(a: nat, b: nat)
    ensures And(a, b) / 2 == And(a / 2, b / 2) && And(a, b) % 2 == (if a % 2 == 1 && b % 2 == 1 then 1 else 0)
  {
    if a == 0 {
      assert And(0, b / 2) == 0;
    } else {
      var d := if a % 2 == 1 && b % 2 == 1 then 1 else 0;
      assert And(a, b) == 2 * And(a / 2, b / 2) + d;
      TwoParts(And(a / 2, b / 2), d);
    }
  }

  lemma HalfOr(a: nat, b: nat)
    ensures Or(a, b) / 2 == Or(a / 2, b / 2) && Or(a, b) % 2 == (if a % 2 == 1 || b % 2 == 1 then 1 else 0)
  {
    if a == 0 {
      assert Or(0, b / 2) == b / 2;
    } else {
      var d := if a % 2 == 1 || b % 2 == 1 then 1 else 0;
      assert Or(a, b) == 2 * Or(a / 2, b / 2) + d;
      TwoParts(Or(a / 2, b / 2), d);
    }
  }

  lemma HalfXor(a: nat, b: nat)
    ensures Xor(a, b) / 2 == Xor(a / 2, b / 2) && Xor(a, b) % 2 == (a % 2 + b % 2) % 2
  {
    if a == 0 {
      assert Xor(0, b / 2) == b / 2;
    } else {
      var d := (a % 2 + b % 2) % 2;
      assert Xor(a, b) == 2 * Xor(a / 2, b / 2) + d;
      TwoParts(Xor(a / 2, b / 2), d);
    }
  }

  /** Low bits below, high bits above. */
  lemma {:induction false} BitSplit(lo: nat, hi: nat, m: nat, j: nat)
    requires lo < Pow2(m)
    ensures Bit(lo + hi * Pow2(m), j) == if j < m then Bit(lo, j) else Bit(hi, j - m)
    decreases m
  {
    hide Bit;
    if m == 0 {
      assert Pow2(0) == 1 && lo == 0;
    } else {
      var p := Pow2(m - 1);
      var x := lo + hi * (2 * p);
      assert hi * (2 * p) == 2 * (hi * p);
      if j == 0 {
        BitZero(x);
        BitZero(lo);
      } else {
        assert x / 2 == lo / 2 + hi * p;
        BitNext(x, j - 1);
        BitNext(lo, j - 1);
        BitSplit(lo / 2, hi, m - 1, j - 1);
      }
    }
  }

  lemma {:induction false} XorMod(a: nat, b: nat, k: nat)
    ensures Xor(a, b) % Pow2(k) == Xor(a % Pow2(k), b % Pow2(k))
    decreases k
  {
    if k == 0 {
      XorZero();
    } else {
      XorMod(a / 2, b / 2, k - 1);
      XorDouble(a, b, Pow2(k - 1));
    }
  }

  lemma XorDouble(a: nat, b: nat, p: nat)
    requires p > 0 && Xor(a / 2, b / 2) % p == Xor(a / 2 % p, b / 2 % p)
    ensures Xor(a, b) % (2 * p) == Xor(a % (2 * p), b % (2 * p))
  {
    hide Xor;
    var x, y, u := a % (2 * p), b % (2 * p), Xor(a, b);
    ModHalf(a, p);
    ModHalf(b, p);
    ModHalf(u, p);
    HalfXor(a, b);
    HalfXor(x, y);
    var v := Xor(x, y);
    assert u % (2 * p) == 2 * (u / 2 % p) + u % 2;
    assert v == 2 * (v / 2) + v % 2;
  }

  lemma ModHalf(x: nat, p: nat)
    requires p > 0
    ensures x % (2 * p) / 2 == x / 2 % p && x % (2 * p) % 2 == x % 2 && x % (2 * p) == 2 * (x / 2 % p) + x % 2
  {
    var q, r := Quotient(x / 2, p), x / 2 % p;
    assert q * (2 * p) == 2 * (q * p);
    DivModUnique(q, 2 * r + x % 2, 2 * p);
  }

  lemma XorZero()
    ensures Xor(0, 0) == 0
  {
  }

  /** Masking with 2^k - 1. */
  lemma {:induction false} AndLow(x: nat, k: nat)
    ensures And(x, Pow2(k) - 1) == x % Pow2(k)
    decreases k
  {
    if k == 0 {
      AndZero(x);
    } else {
      hide Pow2, And;
      var p := Pow2(k - 1);
      PowStep(k);
      AndLow(x / 2, k - 1);
      AndLowTurn(x, p);
    }
  }

  lemma AndLowTurn(x: nat, p: nat)
    requires p > 0 && And(x / 2, p - 1) == x / 2 % p
    ensures And(x, 2 * p - 1) == x % (2 * p)
  {
    hide And;
    ModHalf(x, p);
    AndOdd(x, 2 * p - 1);
    assert (2 * p - 1) / 2 == p - 1;
  }

  lemma PowStep(k: nat)
    requires k > 0
    ensures Pow2(k) == 2 * Pow2(k - 1)
  {
  }

  lemma AndOdd(x: nat, y: nat)
    requires y % 2 == 1
    ensures And(x, y) == 2 * And(x / 2, y / 2) + x % 2
  {
    if x == 0 {
      assert And(0, y / 2) == 0;
    }
  }

  lemma {:induction false} AndZero(x: nat)
    ensures And(x, 0) == 0
    decreases x
  {
    if x != 0 {
      AndZero(x / 2);
    }
  }
}
