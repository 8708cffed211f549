/** What the instructions compute, said without the formulas by which the machine
    computes it. */
module MachineLaws {
  import opened Bits
  import opened BitLaws
  import opened Isa
  import opened Machine

  /** A register as a signed or an unsigned number. */
  function Number(sgn: bool, x: u64): int { if sgn then S64(x) else x }

  // ---- division

  /** Quotient and remainder of a division that truncates toward zero: together they give
      back the dividend, the remainder is smaller than the divisor and has the dividend's
      sign. */
  predicate Truncates(a: int, b: int, q: int, r: int) {
    && q * b + r == a && (if r < 0 then -r else r) < (if b < 0 then -b else b)
    && (r > 0 ==> a > 0) && (r < 0 ==> a < 0)
  }

  lemma TruncDivides(a: int, b: int)
    requires b != 0
    ensures Truncates(a, b, TruncDiv(a, b), a - TruncDiv(a, b) * b)
  {
    var x, y := if a < 0 then -a else a, if b < 0 then -b else b;
    var q := Quotient(x, y);
    assert TruncDiv(a, b) == if (a < 0) == (b < 0) then q else -q;
    assert x - q * y == x % y;
    assert TruncDiv(a, b) * b == if a < 0 then -(q * y) else q * y by { Signs(q, y); }
  }

  lemma Signs(q: int, y: int)
    ensures q * -y == -(q * y) && -q * y == -(q * y) && -q * -y == q * y
  {
  }

  /** No other pair does. */
  lemma TruncatesOnce(a: int, b: int, q: int, r: int, q': int, r': int)
    requires b != 0 && Truncates(a, b, q, r) && Truncates(a, b, q', r')
    ensures q == q' && r == r'
  {
    var y, d := if b < 0 then -b else b, q - q';
    assert d * b == r' - r;
    if d >= 1 {
      Scale(d, y);
    } else if d <= -1 {
      Scale(d, y);
    }
  }

  function Abs(x: int): nat { if x < 0 then -x else x }

  lemma AbsProduct(q: int, b: int)
    ensures Abs(q * b) == Abs(q) * Abs(b)
  {
    Signs(q, b);
    SameSign(Abs(q), Abs(b));
  }

  lemma SameSign(x: nat, y: nat)
    ensures x * y >= 0
  {
  }

  /** The quotient is no larger than the dividend. */
  lemma QuotientBound(a: int, b: int, q: int, r: int)
    requires b != 0 && Truncates(a, b, q, r)
    ensures Abs(q) <= Abs(a) && (q == -a && a != 0 ==> b == -1)
  {
    var m := q * b;
    AbsProduct(q, b);
    if q != 0 {
      AtLeast(Abs(q), Abs(b));
    }
    Bounded(a, b, q, r, m);
  }

  lemma AtLeast(p: nat, y: nat)
    requires p > 0 && y > 0
    ensures p * y >= p && p * y >= y && (y >= 2 ==> p * y > p)
  {
    Scale(y, p);
    Scale(p, y);
    if y >= 2 {
      assert p * y == p * (y - 1) + p;
      Scale(y - 1, p);
    }
  }

  /** The same with m for the product. */
  lemma Bounded(a: int, b: int, q: int, r: int, m: int)
    requires b != 0 && m + r == a && Abs(r) < Abs(b) && (r > 0 ==> a > 0) && (r < 0 ==> a < 0)
    requires Abs(m) >= Abs(q) && (q == 0 ==> m == 0) && (q != 0 ==> Abs(m) >= Abs(b)) && (b == 1 ==> m == q)
    requires q != 0 && Abs(b) >= 2 ==> Abs(m) > Abs(q)
    ensures Abs(q) <= Abs(a) && (q == -a && a != 0 ==> b == -1)
  {
  }

  lemma NumberOf(sgn: bool, v: int)
    requires if sgn then -HALF64 <= v < HALF64 else 0 <= v < U64
    ensures Number(sgn, Wrap64(v)) == v
  {
  }

  lemma DivideStep(sgn: bool, rd: Reg, x: Reg, y: Reg, s: State, dev: Device)
    ensures Exec(Div(sgn, rd, x, y), s, dev).r[rd] == DivResult(false, sgn, s.r[x], s.r[y], s.fl).0
    ensures Exec(Mod(sgn, rd, x, y), s, dev).r[rd] == DivResult(true, sgn, s.r[x], s.r[y], s.fl).0
  {
    hide DivResult;
    ExecOfData(Div(sgn, rd, x, y), s, dev);
    ExecOfData(Mod(sgn, rd, x, y), s, dev);
  }

  /** DIV and MOD of the same registers. */
  lemma DivideLaw(sgn: bool, rd: Reg, x: Reg, y: Reg, s: State, dev: Device)
    ensures var a, b := Number(sgn, s.r[x]), Number(sgn, s.r[y]);
      var q, r := Exec(Div(sgn, rd, x, y), s, dev).r[rd], Exec(Mod(sgn, rd, x, y), s, dev).r[rd];
      if b == 0 then q == 0xFFFF_FFFF_FFFF_FFFF && r == s.r[x]
      else if sgn && a == -0x8000_0000_0000_0000 && b == -1 then q == s.r[x] && r == 0
      else Truncates(a, b, Number(sgn, q), Number(sgn, r))
  {
    hide TruncDiv, Truncates, Exec;
    var a, b := Number(sgn, s.r[x]), Number(sgn, s.r[y]);
    DivideStep(sgn, rd, x, y, s, dev);
    if b != 0 {
      var q := TruncDiv(a, b);
      TruncDivides(a, b);
      QuotientBound(a, b, q, a - q * b);
      DivideParts(sgn, a, b, q, a - q * b);
    }
  }

  lemma DivideParts(sgn: bool, a: int, b: int, q: int, r: int)
    requires b != 0 && Truncates(a, b, q, r)
    requires if sgn then -HALF64 <= a < HALF64 && -HALF64 <= b < HALF64 else 0 <= a < U64 && 0 <= b < U64
    ensures if sgn && a == -HALF64 && b == -1 then Wrap64(q) == HALF64 && Wrap64(r) == 0
      else Number(sgn, Wrap64(q)) == q && Number(sgn, Wrap64(r)) == r
  {
    hide Number, Wrap64;
    QuotientBound(a, b, q, r);
    if sgn && a == -HALF64 && b == -1 {
      assert q == HALF64 && r == 0;
      Wraps();
    } else {
      if !sgn {
        Nonnegative(a, b, q, r);
      }
      NumberOf(sgn, q);
      NumberOf(sgn, r);
    }
  }

  lemma Wraps()
    ensures Wrap64(HALF64) == HALF64 && Wrap64(0) == 0
  {
  }

  lemma Nonnegative(a: int, b: int, q: int, r: int)
    requires 0 <= a && 0 < b && Truncates(a, b, q, r)
    ensures 0 <= q && 0 <= r
  {
    if q < 0 {
      Scale(q, b);
    }
  }

  lemma ExecOfData(i: Instr, s: State, dev: Device)
    requires IsData(i) && WritesRd(i)
    ensures var d := Data(i, s.r, s.pc, s.fl); var t := Exec(i, s, dev);
      t.r == s.r[i.rd := d.0] && t.fl == d.1
  {
    hide Data;
  }

  // ---- multiplication and sign extension

  /** High and low half of one product. */
  lemma MultiplyLaw(sgn: bool, rd: Reg, x: Reg, y: Reg, s: State, dev: Device)
    ensures var a, b := Number(sgn, s.r[x]), Number(sgn, s.r[y]);
      var lo: int, hi := Exec(Mul(sgn, false, false, rd, x, y), s, dev).r[rd], Exec(Mul(sgn, true, false, rd, x, y), s, dev).r[rd];
      Number(sgn, hi) * 0x1_0000_0000_0000_0000 + lo == a * b
  {
    ExecOfData(Mul(sgn, false, false, rd, x, y), s, dev);
    ExecOfData(Mul(sgn, true, false, rd, x, y), s, dev);
    hide Exec, SextW;
    var a, b := Number(sgn, s.r[x]), Number(sgn, s.r[y]);
    ProductRange(sgn, a, b);
    HalvesOf(sgn, a * b);
  }

  lemma ProductRange(sgn: bool, a: int, b: int)
    requires if sgn then -HALF64 <= a < HALF64 && -HALF64 <= b < HALF64 else 0 <= a < U64 && 0 <= b < U64
    ensures if sgn then -HALF64 * HALF64 <= a * b <= HALF64 * HALF64 else 0 <= a * b < U64 * U64
  {
    AbsProduct(a, b);
    Monotone(Abs(a), Abs(b), if sgn then HALF64 else U64 - 1);
  }

  lemma Monotone(x: nat, y: nat, k: nat)
    requires x <= k && y <= k
    ensures 0 <= x * y <= k * k
  {
    assert (k - x) * k >= 0 && (k - y) * x >= 0;
  }

  lemma HalvesOf(sgn: bool, p: int)
    requires if sgn then -HALF64 * HALF64 <= p <= HALF64 * HALF64 else 0 <= p < U64 * U64
    ensures Number(sgn, Wrap64(p / U64)) * U64 + Wrap64(p) == p
  {
    NumberOf(sgn, p / U64);
  }

  /** A 32-bit result is the low half, sign-extended. */
  lemma WideResult(x: u64)
    ensures var v: int := SextW(x); v % 0x1_0000_0000 == x % 0x1_0000_0000 && -0x8000_0000 <= S64(v) < 0x8000_0000
  {
  }

  /** The register after a load: the bytes as a number, signed or not. */
  lemma LoadedNumber(sgn: bool, size: Size, v: nat)
    ensures var m := match size case 0 => 0x100 case 1 => 0x1_0000 case 2 => 0x1_0000_0000 case _ => 0x1_0000_0000_0000_0000;
      var x := Number(sgn, ExtendLoad(sgn, size, v));
      x % m == v % m && if sgn then -m <= 2 * x < m else x < m
  {
    var m := if size == 0 then 0x100 else if size == 1 then 0x1_0000 else if size == 2 then U32 else U64;
    SignedPart(v, m);
  }

  lemma SignedPart(v: nat, m: nat)
    requires m > 0
    ensures var x := v % m; x % m == x && (x - m) % m == x
  {
    DivModUnique(0, v % m, m);
    DivModUnique(-1, v % m, m);
  }

  // ---- bits

  /** AND, OR and XOR, bit by bit. */
  lemma LogicBits(a: u64, b: u64, j: nat)
    ensures Bit(AluValue(4, a, b, 0), j) == 1 <==> Bit(a, j) == 1 && Bit(b, j) == 1
    ensures Bit(AluValue(5, a, b, 0), j) == 1 <==> Bit(a, j) == 1 || Bit(b, j) == 1
    ensures Bit(AluValue(6, a, b, 0), j) == 1 <==> Bit(a, j) != Bit(b, j)
  {
    hide Bit;
    BitsOf(a, b, j);
  }

  /** A word as its low m bits and the rest. */
  lemma Halved(x: u64, m: nat) returns (lo: nat, hi: nat)
    requires m <= 64
    ensures lo < Pow2(m) && hi < Pow2(64 - m) && x == lo + hi * Pow2(m) && lo == x % Pow2(m) && hi == x / Pow2(m)
  {
    hide Pow2;
    Pow2Of64();
    Pow2Add(m, 64 - m);
    lo, hi := x % Pow2(m), Quotient(x, Pow2(m));
    var p, q := Pow2(m), Pow2(64 - m);
    if hi >= q {
      assert hi * p == q * p + (hi - q) * p;
      SameSign(hi - q, p);
    }
  }

  /** Where every bit of a shifted or rotated word comes from; n is the count. */
  lemma ShiftBits(op: ShiftOp, x: u64, n: u6, j: nat)
    requires j < 64
    ensures Bit(Shift(op, x, n), j)
      == match op
         case 0 => if j < n then 0 else Bit(x, j - n)
         case 1 => if j + n < 64 then Bit(x, j + n) else 0
         case 2 => if j + n < 64 then Bit(x, j + n) else Bit(x, 63)
         case 3 => Bit(x, (j + 64 - n) % 64)
         case _ => Bit(x, (j + n) % 64)
  {
    hide Bit, Pow2;
    if op == 0 {
      LeftBits(x, n, j);
    } else if op == 1 {
      RightBits(x, n, j);
    } else if op == 2 {
      ArithmeticBits(x, n, j);
    } else if op == 3 {
      RotateLeftBits(x, n, j);
    } else {
      RotateRightBits(x, n, j);
    }
  }

  lemma LeftBits(x: u64, n: u6, j: nat)
    requires j < 64
    ensures Bit(Shift(0, x, n), j) == if j < n then 0 else Bit(x, j - n)
  {
    hide Bit, Pow2;
    var lo, hi := Halved(x, 64 - n);
    LeftValue(x, n, lo, hi);
    BitSplit(0, lo, n, j);
    NoBits(j);
    if j >= n {
      BitSplit(lo, hi, 64 - n, j - n);
    }
  }

  lemma NoBits(j: nat)
    ensures Bit(0, j) == 0
  {
  }

  lemma LeftValue(x: u64, n: u6, lo: nat, hi: nat)
    requires lo < Pow2(64 - n) && x == lo + hi * Pow2(64 - n)
    ensures Wrap64(x * Pow2(n)) == lo * Pow2(n) && x * Pow2(n) == lo * Pow2(n) + hi * U64
  {
    hide Pow2;
    Pow2Of64();
    Pow2Add(64 - n, n);
    var p, q := Pow2(n), Pow2(64 - n);
    assert (hi * q) * p == hi * (q * p);
    assert x * p == lo * p + (hi * q) * p;
    MulBelow(lo, p, q, 0);
    DivModUnique(hi, lo * p, U64);
  }

  lemma ShiftedDown(x: u64, n: u6, lo: nat, hi: nat)
    requires x == lo + hi * Pow2(n) && hi == x / Pow2(n)
    ensures Shift(1, x, n) == hi
  {
    hide Pow2;
    Scale(hi, Pow2(n));
    assert hi <= hi * Pow2(n) <= x;
  }

  lemma RightBits(x: u64, n: u6, j: nat)
    requires j < 64
    ensures Bit(Shift(1, x, n), j) == if j + n < 64 then Bit(x, j + n) else 0
  {
    hide Bit, Pow2, Shift;
    var lo, hi := Halved(x, n);
    ShiftedDown(x, n, lo, hi);
    BitSplit(lo, hi, n, j + n);
    if j + n >= 64 {
      BitSplit(hi, 0, 64 - n, j);
      NoBits(j - (64 - n));
    }
  }

  lemma ArithmeticBits(x: u64, n: u6, j: nat)
    requires j < 64
    ensures Bit(Shift(2, x, n), j) == if j + n < 64 then Bit(x, j + n) else Bit(x, 63)
  {
    hide Bit, Pow2;
    var lo, hi := Halved(x, n);
    BitSplit(lo, hi, n, j + n);
    TopBit(x);
    if x < HALF64 {
      RightBits(x, n, j);
    } else {
      SignFill(x, n, lo, hi);
      BitSplit(hi, Pow2(n) - 1, 64 - n, j);
      if j + n >= 64 {
        AllOnes(n, j - (64 - n));
      }
      BitSplit(hi, 0, 64 - n, j);
    }
  }

  lemma TopBit(x: u64)
    ensures Bit(x, 63) == if x >= HALF64 then 1 else 0
  {
    hide Pow2;
    Pow2Of64();
    Pow2Add(63, 1);
    assert Pow2(1) == 2 by { PowOne(); }
  }

  lemma PowOne()
    ensures Pow2(1) == 2
  {
  }

  lemma {:induction false} AllOnes(n: nat, j: nat)
    requires j < n
    ensures Bit(Pow2(n) - 1, j) == 1
    decreases n
  {
    hide Bit;
    var p := Pow2(n - 1);
    assert Pow2(n) - 1 == 2 * (p - 1) + 1;
    TwoParts(p - 1, 1);
    if j == 0 {
      BitZero(Pow2(n) - 1);
    } else {
      BitNext(Pow2(n) - 1, j - 1);
      AllOnes(n - 1, j - 1);
    }
  }

  lemma SignFill(x: u64, n: u6, lo: nat, hi: nat)
    requires x >= HALF64 && lo < Pow2(n) && hi < Pow2(64 - n) && x == lo + hi * Pow2(n)
    ensures Shift(2, x, n) == hi + (Pow2(n) - 1) * Pow2(64 - n)
  {
    hide Pow2;
    Pow2Of64();
    Pow2Add(64 - n, n);
    var p, q := Pow2(n), Pow2(64 - n);
    assert x - U64 == lo + (hi - q) * p;
    DivModUnique(hi - q, lo, p);
    assert (p - 1) * q == U64 - q;
    DivModUnique(-1, hi - q + U64, U64);
  }

  lemma RotateLeftBits(x: u64, n: u6, j: nat)
    requires j < 64
    ensures Bit(Shift(3, x, n), j) == Bit(x, (j + 64 - n) % 64)
  {
    hide Bit, Pow2;
    var lo, hi := Halved(x, 64 - n);
    LeftValue(x, n, lo, hi);
    Rotated(n, lo, hi);
    BitSplit(hi, lo, n, j);
    BitSplit(lo, hi, 64 - n, (j + 64 - n) % 64);
  }

  lemma Rotated(n: u6, lo: nat, hi: nat)
    requires lo < Pow2(64 - n) && hi < Pow2(n)
    ensures Wrap64(lo * Pow2(n) + hi * U64 + hi) == hi + lo * Pow2(n)
  {
    hide Pow2;
    Pow2Of64();
    Pow2Add(n, 64 - n);
    MulBelow(lo, Pow2(n), Pow2(64 - n), hi);
    DivModUnique(hi, hi + lo * Pow2(n), U64);
  }

  lemma RotateRightBits(x: u64, n: u6, j: nat)
    requires j < 64
    ensures Bit(Shift(4, x, n), j) == Bit(x, (j + n) % 64)
  {
    hide Bit, Pow2;
    var lo, hi := Halved(x, n);
    RightValue(x, n, lo, hi);
    BitSplit(hi, lo, 64 - n, j);
    BitSplit(lo, hi, n, (j + n) % 64);
  }

  lemma RightValue(x: u64, n: u6, lo: nat, hi: nat)
    requires lo < Pow2(n) && hi < Pow2(64 - n) && x == lo + hi * Pow2(n) && hi == x / Pow2(n)
    ensures Shift(4, x, n) == hi + lo * Pow2(64 - n)
  {
    hide Pow2;
    Pow2Of64();
    Pow2Add(64 - n, n);
    var p, q := Pow2(n), Pow2(64 - n);
    assert (hi * p) * q == hi * (p * q);
    assert x * q == lo * q + (hi * p) * q;
    assert hi + x * q == (hi + lo * q) + hi * U64;
    MulBelow(lo, q, p, hi);
    DivModUnique(hi, hi + lo * q, U64);
  }

  // ---- forms that mean the same

  /** Everything but the PC. */
  predicate Alike(s: State, t: State) { s.(pc := 0) == t.(pc := 0) }

  lemma SameData(i: Instr, j: Instr, s: State, dev: Device)
    requires IsData(i) && IsData(j) && Data(i, s.r, s.pc, s.fl) == Data(j, s.r, s.pc, s.fl)
    requires WritesRd(i) == WritesRd(j) && (WritesRd(i) ==> i.rd == j.rd)
    ensures Alike(Exec(i, s, dev), Exec(j, s, dev))
  {
    hide Data, Words;
  }

  /** A 32-bit immediate is a register that holds it, extended. */
  lemma ImmediateForms(op: AluOp, w: bool, sgn: bool, high: bool, rd: Reg, x: Reg, y: Reg, imm: u32, s: State, dev: Device)
    requires s.r[y] == if sgn && imm >= 0x8000_0000 then imm + 0xFFFF_FFFF_0000_0000 else imm
    ensures Alike(Exec(AluI(op, w, sgn, rd, x, imm), s, dev), Exec(Alu(op, w, rd, x, y), s, dev))
    ensures sgn ==> Alike(Exec(CmpI(w, x, imm), s, dev), Exec(Cmp(w, x, y), s, dev))
    ensures Alike(Exec(MulV(sgn, rd, x, imm), s, dev), Exec(Mul(sgn, false, false, rd, x, y), s, dev))
    ensures Exec(SetR(sgn, rd, imm), s, dev).r == s.r[rd := s.r[y]]
  {
    hide AluResult, MulResult, CmpFlags, Sext32, Exec, Alike;
    ExtendedWord(sgn, imm);
    SameData(AluI(op, w, sgn, rd, x, imm), Alu(op, w, rd, x, y), s, dev);
    if sgn {
      SameData(CmpI(w, x, imm), Cmp(w, x, y), s, dev);
    }
    SameData(MulV(sgn, rd, x, imm), Mul(sgn, false, false, rd, x, y), s, dev);
    ExecOfData(SetR(sgn, rd, imm), s, dev);
  }

  lemma ExtendedWord(sgn: bool, imm: u32)
    ensures Extend32(sgn, imm) == if sgn && imm >= 0x8000_0000 then imm + 0xFFFF_FFFF_0000_0000 else imm
    ensures Sext32(imm) == Extend32(true, imm)
  {
  }

  /** The one-word forms are the two-word forms with the extended immediate. */
  lemma ShortForms(op: AluOp, w: bool, sgn: bool, rd: Reg, x: Reg, imm8: u8, s: State, dev: Device)
    ensures var imm := if sgn && imm8 >= 0x80 then imm8 + 0xFFFF_FF00 else imm8;
      && Alike(Exec(AluIS(op, sgn, rd, x, imm8), s, dev), Exec(AluI(op, false, sgn, rd, x, imm), s, dev))
      && Alike(Exec(MulVS(sgn, rd, x, imm8), s, dev), Exec(MulV(sgn, rd, x, imm), s, dev))
      && (sgn ==> Alike(Exec(CmpIS(w, x, imm8), s, dev), Exec(CmpI(w, x, imm), s, dev)))
  {
    hide AluResult, MulResult, CmpFlags, Sext32, Sext8, Exec, Alike;
    ExtendedByte(sgn, imm8);
    var imm := if sgn && imm8 >= 0x80 then imm8 + 0xFFFF_FF00 else imm8;
    SameData(AluIS(op, sgn, rd, x, imm8), AluI(op, false, sgn, rd, x, imm), s, dev);
    SameData(MulVS(sgn, rd, x, imm8), MulV(sgn, rd, x, imm), s, dev);
    SameData(CmpIS(w, x, imm8), CmpI(w, x, if sgn then imm else if imm8 >= 0x80 then imm8 + 0xFFFF_FF00 else imm8), s, dev);
  }

  /** INC and DEC add and subtract an immediate one. */
  lemma StepForms(rd: Reg, x: Reg, s: State, dev: Device)
    ensures Alike(Exec(Inc(rd, x), s, dev), Exec(AluI(0, false, false, rd, x, 1), s, dev))
    ensures Alike(Exec(Dec(rd, x), s, dev), Exec(AluI(1, false, false, rd, x, 1), s, dev))
  {
    hide AluResult, Exec, Alike;
    SameData(Inc(rd, x), AluI(0, false, false, rd, x, 1), s, dev);
    SameData(Dec(rd, x), AluI(1, false, false, rd, x, 1), s, dev);
  }

  lemma ExtendedByte(sgn: bool, imm8: u8)
    ensures var imm := if sgn && imm8 >= 0x80 then imm8 + 0xFFFF_FF00 else imm8;
      Extend8(sgn, imm8) == Extend32(sgn, imm)
    ensures Sext8(imm8) == Sext32(if imm8 >= 0x80 then imm8 + 0xFFFF_FF00 else imm8)
  {
  }

  /** An embedded count is a count in a register, but for the flags of a rotate by one; a
      copy is the or of a register with itself. */
  lemma CountForms(op: ShiftOp, n: u6, f: bool, rd: Reg, x: Reg, y: Reg, s: State, dev: Device)
    requires s.r[y] % 64 == n
    ensures var t, u := Exec(ShiftN(op, n, f, rd, x), s, dev), Exec(ShiftR(op, f, rd, x, y), s, dev);
      t.r == u.r && (op < 3 || n != 1 ==> Alike(t, u))
    ensures Exec(Copy(rd, x), s, dev) == Exec(Alu(5, false, rd, x, x), s, dev)
  {
    hide Shift;
    OrSelf(s.r[x]);
  }

  lemma {:induction false} OrSelf(a: nat)
    ensures Or(a, a) == a
    decreases a
  {
    if a != 0 {
      OrSelf(a / 2);
    }
  }

  // ---- transfers

  /** Where a taken jump or call goes, and what a call leaves on the stack. */
  lemma JumpTargets(link: bool, cond: Cond, inv: bool, d: u18, tgt: u32, x: Reg, s: State, dev: Device)
    requires Condition(cond, inv, s.fl) && s.sp >= 8 && s.pc + 8 < U32
    ensures var t := Exec(Br(link, cond, inv, d), s, dev);
      t.pc == (s.pc + 4 * (if d >= 0x2_0000 then d - 0x4_0000 else d)) % 0x1_0000_0000 && Linked(link, s, t, s.pc + 4)
    ensures var t := Exec(BrAbs(link, cond, inv, tgt), s, dev); t.pc == tgt && Linked(link, s, t, s.pc + 8)
    ensures var t := Exec(BrReg(link, cond, inv, x), s, dev); t.pc == s.r[x] % 0x1_0000_0000 && Linked(link, s, t, s.pc + 4)
  {
    hide Exec, Linked, Condition;
    Transfer(Br(link, cond, inv, d), s, dev);
    Transfer(BrAbs(link, cond, inv, tgt), s, dev);
    Transfer(BrReg(link, cond, inv, x), s, dev);
  }

  lemma Transfer(i: Instr, s: State, dev: Device)
    requires (i.Br? || i.BrAbs? || i.BrReg?) && Condition(i.cond, i.inv, s.fl) && s.sp >= 8 && s.pc + 8 < U32
    ensures var t := Exec(i, s, dev); t.pc == BranchTarget(i, s) && Linked(i.link, s, t, s.pc + 4 * Words(i))
  {
    hide Store64, Condition, BranchTarget, Data, ExecMemory, ExecStack;
  }

  predicate Linked(link: bool, s: State, t: State, ra: u32)
    requires s.sp >= 8
  {
    if link then t.sp == s.sp - 8 && t.mem == Store64(s.mem, s.sp - 8, ra) else t.sp == s.sp && t.mem == s.mem
  }

  /** A fused branch compares and jumps by words, without flags. */
  lemma FusedTarget(p: WPred, inv: bool, x: Reg, y: Reg, d: u13, s: State, dev: Device)
    requires s.pc + 4 < U32
    ensures var t := Exec(Fbr(p, inv, x, RegRhs(y), d), s, dev);
      && t.pc == (if Compare(p, s.r[x], s.r[y]) != inv then (s.pc + 4 * (if d >= 0x1000 then d - 0x2000 else d)) % 0x1_0000_0000
                  else s.pc + 4)
      && t.(pc := 0) == s.(pc := 0)
  {
    hide Compare;
  }

  // ---- the stack

  /** A push: SP eight bytes down, the value there, nothing else. */
  predicate Pushed(s: State, t: State, v: u64)
    requires s.sp >= 8
  {
    t == s.(sp := s.sp - 8, mem := t.mem, pc := t.pc) && Load64(t.mem, s.sp - 8) == v
  }

  // one at a time, as the machine has them

  lemma PushStep(x: Reg, v: u32, s: State, dev: Device)
    ensures Exec(Push(x), s, dev) == PushWord(s, s.r[x]).(pc := Next(Push(x), s))
    ensures Exec(PushV(v), s, dev) == PushWord(s, v).(pc := Next(PushV(v), s))
  {
    hide PushWord, Next;
  }

  lemma PopStep(y: Reg, s: State, dev: Device)
    ensures Exec(Pop(y), s, dev) == s.(r := s.r[y := Load64(s.mem, s.sp)], sp := Wrap32(s.sp + 8), pc := Next(Pop(y), s))
    ensures Exec(Ret, s, dev) == s.(pc := Load64(s.mem, s.sp) % U32, sp := Wrap32(s.sp + 8))
  {
    hide Load64, Next;
  }

  lemma FrameStep(n: u22, s: State, dev: Device)
    ensures var t := PushWord(s, s.r[15]);
      Exec(Enter(n), s, dev) == t.(r := t.r[15 := t.sp], sp := Wrap32(t.sp - 8 * n), pc := Next(Enter(n), s))
    ensures var fp := Wrap32(s.r[15]);
      Exec(Isa.Leave, s, dev) == s.(r := s.r[15 := Load64(s.mem, fp)], sp := Wrap32(fp + 8), pc := Next(Isa.Leave, s))
  {
    hide Load64, Next, PushWord;
  }

  lemma PushForms(x: Reg, v: u32, s: State, dev: Device)
    requires s.sp >= 8
    ensures Pushed(s, Exec(Push(x), s, dev), s.r[x]) && Pushed(s, Exec(PushV(v), s, dev), v)
  {
    hide Exec, Load64, Store64, Next;
    PushStep(x, v, s, dev);
    Load64Store64(s.mem, s.sp - 8, s.r[x]);
    Load64Store64(s.mem, s.sp - 8, v);
  }

  /** POP after PUSH copies a register. */
  lemma PopPushed(x: Reg, y: Reg, s: State, dev: Device)
    requires s.sp >= 8
    ensures var t := Exec(Pop(y), Exec(Push(x), s, dev), dev); t.r == s.r[y := s.r[x]] && t.sp == s.sp
  {
    hide Exec, Load64, Store64, Next;
    PushStep(x, 0, s, dev);
    PopStep(y, Exec(Push(x), s, dev), dev);
    Load64Store64(s.mem, s.sp - 8, s.r[x]);
  }

  /** ENTER is a push of r15 with n dwords below it. */
  lemma EnterForms(n: u22, s: State, dev: Device)
    requires 8 + 8 * n <= s.sp
    ensures var t := Exec(Enter(n), s, dev);
      && t.r == s.r[15 := s.sp - 8] && t.sp == s.sp - 8 - 8 * n && t.mem == Exec(Push(15), s, dev).mem
      && Load64(t.mem, s.sp - 8) == s.r[15]
  {
    hide Exec, Load64, Store64, Next;
    FrameStep(n, s, dev);
    PushStep(15, 0, s, dev);
    Load64Store64(s.mem, s.sp - 8, s.r[15]);
  }

  /** LEAVE undoes it. */
  lemma EnterLeaves(n: u22, s: State, dev: Device)
    requires 8 + 8 * n <= s.sp
    ensures var t := Exec(Isa.Leave, Exec(Enter(n), s, dev), dev); t.r == s.r && t.sp == s.sp
  {
    hide Exec, Load64, PushWord, Next;
    EnterForms(n, s, dev);
    FrameStep(n, Exec(Enter(n), s, dev), dev);
    assert s.r[15 := s.sp - 8][15 := s.r[15]] == s.r;
  }

  /** LEAVERET is LEAVE and RET. */
  lemma LeaveReturns(s: State, dev: Device)
    ensures Exec(LeaveRet, s, dev) == Exec(Ret, Exec(Isa.Leave, s, dev), dev)
  {
    hide Exec, Load64, Next;
    LeaveRetStep(s, dev);
    FrameStep(0, s, dev);
    PopStep(0, Exec(Isa.Leave, s, dev), dev);
  }

  lemma LeaveRetStep(s: State, dev: Device)
    ensures var fp := Wrap32(s.r[15]);
      Exec(LeaveRet, s, dev) == s.(r := s.r[15 := Load64(s.mem, fp)], pc := Load64(s.mem, Wrap32(fp + 8)) % U32,
                                   sp := Wrap32(Wrap32(fp + 8) + 8))
  {
    hide Load64;
  }

  /** SP through a register, and additions that add up. */
  lemma StackPointer(x: Reg, u: u32, v: u32, s: State, dev: Device)
    ensures Exec(SetSp(x), Exec(GetSp(x), s, dev), dev).sp == s.sp && Exec(GetSp(x), s, dev).r[x] == s.sp
    ensures Exec(AddSp(v), Exec(AddSp(u), s, dev), dev).sp == (s.sp + u + v) % 0x1_0000_0000
  {
    hide Exec;
    SpStep(x, u, s, dev);
    SpStep(x, 0, Exec(GetSp(x), s, dev), dev);
    SpStep(x, v, Exec(AddSp(u), s, dev), dev);
  }

  lemma SpStep(x: Reg, v: u32, s: State, dev: Device)
    ensures Exec(GetSp(x), s, dev).r == s.r[x := s.sp] && Exec(SetSp(x), s, dev).sp == Wrap32(s.r[x])
    ensures Exec(AddSp(v), s, dev).sp == Wrap32(s.sp + v)
  {
    hide Next;
  }
}
