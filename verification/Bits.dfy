/** Unsigned machine words as bounded integers, bitwise operators on them, and
    bit-field packing.  A packed word lists its fields from bit 0 upwards. */
module Bits {
  const U32: int := 0x1_0000_0000
  const U64: int := 0x1_0000_0000_0000_0000

  type u4 = x: int | 0 <= x < 0x10
  type u6 = x: int | 0 <= x < 0x40
  type u8 = x: int | 0 <= x < 0x100
  type u13 = x: int | 0 <= x < 0x2000
  type u16 = x: int | 0 <= x < 0x1_0000
  type u18 = x: int | 0 <= x < 0x4_0000
  type u22 = x: int | 0 <= x < 0x40_0000
  type u32 = x: int | 0 <= x < 0x1_0000_0000
  type u64 = x: int | 0 <= x < 0x1_0000_0000_0000_0000

  datatype Option<+T> = None | Some(value: T)

  function B(b: bool): int { if b then 1 else 0 }

  function Pow2(n: nat): (p: int)
    ensures p >= 1
  {
    if n == 0 then 1 else 2 * Pow2(n - 1)
  }

  lemma {:induction false} Pow2Add(a: nat, b: nat)
    ensures Pow2(a + b) == Pow2(a) * Pow2(b)
  {
    if a == 0 {
    } else {
      Pow2Add(a - 1, b);
    }
  }

  lemma Pow2Of8()
    ensures Pow2(4) == 0x10 && Pow2(8) == 0x100
  {
  }

  lemma Pow2Bytes(n: nat)
    requires n > 0
    ensures Pow2(8 * n) == 0x100 * Pow2(8 * (n - 1))
  {
    hide Pow2;
    Pow2Add(8, 8 * (n - 1));
    Pow2Of8();
  }

  lemma Pow2Of64()
    ensures Pow2(32) == U32 && Pow2(64) == U64
  {
    hide Pow2;
    Pow2Of8();
    Pow2Add(8, 8);
    Pow2Add(16, 16);
    Pow2Add(32, 32);
  }

  lemma Assoc<T>(x: seq<T>, y: seq<T>, z: seq<T>)
    ensures (x + y) + z == x + (y + z)
  {
  }

  lemma Neutral<T>(x: seq<T>)
    ensures [] + x == x && x + [] == x
  {
  }

  // ---- bitwise operators

  function And(a: nat, b: nat): (r: nat)
    ensures r <= a
    decreases a
  {
    if a == 0 then 0 else 2 * And(a / 2, b / 2) + (if a % 2 == 1 && b % 2 == 1 then 1 else 0)
  }

  function Or(a: nat, b: nat): nat
    decreases a
  {
    if a == 0 then b else 2 * Or(a / 2, b / 2) + (if a % 2 == 1 || b % 2 == 1 then 1 else 0)
  }

  function Xor(a: nat, b: nat): nat
    decreases a
  {
    if a == 0 then b else 2 * Xor(a / 2, b / 2) + (a % 2 + b % 2) % 2
  }

  /** Or and Xor of n-bit words are n-bit words. */
  lemma {:induction false} OrXorBound(a: nat, b: nat, n: nat)
    requires a < Pow2(n) && b < Pow2(n)
    ensures Or(a, b) < Pow2(n) && Xor(a, b) < Pow2(n)
    decreases n
  {
    if a != 0 && n != 0 {
      OrXorBound(a / 2, b / 2, n - 1);
    }
  }

  /** A field placed above bit n does not meet a field below bit n. */
  lemma {:induction false} OrDisjoint(lo: nat, hi: nat, n: nat)
    requires lo < Pow2(n)
    ensures Or(lo, hi * Pow2(n)) == lo + hi * Pow2(n)
    decreases n
  {
    if n == 0 {
      assert lo == 0;
    } else {
      var q := hi * Pow2(n - 1);
      assert hi * Pow2(n) == 2 * q;
      OrDisjoint(lo / 2, hi, n - 1);
      if lo != 0 {
        assert (2 * q) / 2 == q && (2 * q) % 2 == 0;
      }
    }
  }

  // ---- bit fields

  ghost predicate FieldsFit(vs: seq<int>, ws: seq<nat>) {
    |vs| == |ws| && forall k :: 0 <= k < |vs| ==> 0 <= vs[k] < Pow2(ws[k])
  }

  function Sum(ws: seq<nat>): nat {
    if ws == [] then 0 else ws[0] + Sum(ws[1..])
  }

  /** Fields joined by or-ing shifted values, as an encoder writes them. */
  function OrFields(vs: seq<nat>, ws: seq<nat>): nat
    requires |vs| == |ws|
  {
    if vs == [] then 0 else Or(vs[0], OrFields(vs[1..], ws[1..]) * Pow2(ws[0]))
  }

  lemma Scale(d: int, k: int)
    requires k > 0
    ensures d >= 1 ==> d * k >= k
    ensures d <= -1 ==> d * k <= -k
  {
  }

  function Quotient(w: nat, p: nat): (q: nat)
    requires p > 0
    ensures w % p + q * p == w
  {
    assert w / p > -1 by {
      Scale(w / p, p);
    }
    w / p
  }

  function Split(w: nat, ws: seq<nat>): (vs: seq<nat>)
    ensures |vs| == |ws|
    decreases ws
  {
    if ws == [] then [] else [w % Pow2(ws[0])] + Split(Quotient(w, Pow2(ws[0])), ws[1..])
  }

  lemma DivModUnique(q: int, r: int, k: int)
    requires 0 <= r < k
    ensures (r + q * k) / k == q && (r + q * k) % k == r
  {
    var x := r + q * k;
    var q', r' := x / k, x % k;
    assert x == q' * k + r';
    assert (q' - q) * k == r - r';
    Scale(q' - q, k);
  }

  lemma MulBelow(a: nat, p: nat, q: nat, lo: nat)
    requires lo < p && a < q
    ensures lo + a * p < p * q
  {
    assert a * p + p == (a + 1) * p;
    assert (a + 1) * p <= q * p;
  }

  /** Splitting an or-ed word gives the fields back: fields never overlap. */
  lemma {:induction false} SplitOrFields(vs: seq<nat>, ws: seq<nat>)
    requires FieldsFit(vs, ws)
    ensures Split(OrFields(vs, ws), ws) == vs
    ensures OrFields(vs, ws) < Pow2(Sum(ws))
  {
    if vs != [] {
      var rest := OrFields(vs[1..], ws[1..]);
      var p := Pow2(ws[0]);
      SplitOrFields(vs[1..], ws[1..]);
      OrDisjoint(vs[0], rest, ws[0]);
      assert OrFields(vs, ws) == vs[0] + rest * p;
      DivModUnique(rest, vs[0], p);
      assert Quotient(vs[0] + rest * p, p) == rest;
      Pow2Add(ws[0], Sum(ws[1..]));
      MulBelow(rest, p, Pow2(Sum(ws[1..])), vs[0]);
      assert vs == [vs[0]] + vs[1..];
    }
  }

  lemma DivBelow(w: nat, p: nat, q: nat)
    requires p > 0 && w < p * q
    ensures Quotient(w, p) < q
  {
    var d := Quotient(w, p);
    assert (q - d) * p > 0;
    Scale(q - d, p);
  }

  lemma {:induction false} SplitFits(w: nat, ws: seq<nat>)
    ensures FieldsFit(Split(w, ws), ws)
    decreases ws
  {
    hide Quotient;
    if ws != [] {
      SplitFits(Quotient(w, Pow2(ws[0])), ws[1..]);
    }
  }

  /** Every word of the right width is the or of its fields. */
  lemma {:induction false} OrFieldsSplit(w: nat, ws: seq<nat>)
    requires w < Pow2(Sum(ws))
    ensures OrFields(Split(w, ws), ws) == w
    decreases ws
  {
    if ws != [] {
      hide Quotient, Or;
      var p := Pow2(ws[0]);
      var rest := Pow2(Sum(ws[1..]));
      var q := Quotient(w, p);
      assert Pow2(Sum(ws)) == p * rest by { Pow2Add(ws[0], Sum(ws[1..])); }
      assert q < rest by { DivBelow(w, p, rest); }
      OrFieldsSplit(q, ws[1..]);
      assert Split(w, ws)[1..] == Split(q, ws[1..]);
      OrDisjoint(w % p, q, ws[0]);
    }
  }

  // ---- two's complement

  function Signed(x: int, half: int): int
  {
    if x >= half then x - 2 * half else x
  }
}
