/** Branch conditions: every relation derived from the stored Z, S, C and V of a
    subtraction, or decided by a fused branch, is the relation of the operands. */
module Conditions {
  import opened Bits
  import opened Isa
  import opened Machine

  datatype Rel = Eq | Ne | Lt | Ge | Le | Gt | Ult | Uge | Ule | Ugt

  /** The reference: signed and unsigned order of integers. */
  predicate Related(rel: Rel, sa: int, sb: int, ua: int, ub: int) {
    match rel
    case Eq => ua == ub
    case Ne => ua != ub
    case Lt => sa < sb
    case Ge => sa >= sb
    case Le => sa <= sb
    case Gt => sa > sb
    case Ult => ua < ub
    case Uge => ua >= ub
    case Ule => ua <= ub
    case Ugt => ua > ub
  }

  /** Of whole registers, and of their low halves. */
  predicate Holds(rel: Rel, a: u64, b: u64) { Related(rel, S64(a), S64(b), a, b) }

  predicate HoldsW(rel: Rel, a: u64, b: u64) { Related(rel, S32(a % U32), S32(b % U32), a % U32, b % U32) }

  /** Condition code and inversion of a jump. */
  function JumpCode(rel: Rel): (Cond, bool) {
    match rel
    case Eq => (1, false)
    case Ne => (1, true)
    case Lt => (5, false)
    case Ge => (5, true)
    case Le => (6, false)
    case Gt => (6, true)
    case Ult => (7, false)
    case Uge => (7, true)
    case Ule => (8, false)
    case Ugt => (8, true)
  }

  /** Predicate and inversion of SETcc and the fused branch. */
  function TestCode(rel: Rel): (Pred, bool) {
    match rel
    case Eq => (0, false)
    case Ne => (0, true)
    case Lt => (1, false)
    case Ge => (1, true)
    case Le => (2, false)
    case Gt => (2, true)
    case Ult => (3, false)
    case Uge => (3, true)
    case Ule => (4, false)
    case Ugt => (4, true)
  }

  /** The three 32-bit fused predicates and their inverses. */
  function WideCode(rel: Rel): Option<(WPred, bool)> {
    match rel
    case Eq => Some((5, false))
    case Ne => Some((5, true))
    case Lt => Some((6, false))
    case Ge => Some((6, true))
    case Ult => Some((7, false))
    case Uge => Some((7, true))
    case _ => None
  }

  /** Z is equality, C the borrow and S^V signed less. */
  lemma FlagsOfDifference(a: u64, b: u64)
    ensures var f := SubFlags(a, b, 0);
      (f.z <==> a == b) && (f.c <==> a < b) && (f.s != f.v <==> S64(a) < S64(b))
  {
  }

  /** After CMP a, b a conditional jump is taken exactly when the relation holds; code 9 is
      the same as code 1. */
  lemma JumpTaken(rel: Rel, a: u64, b: u64)
    ensures var f := CmpFlags(false, a, b); var c := JumpCode(rel);
      (Condition(c.0, c.1, f) <==> Holds(rel, a, b)) && (Condition(9, c.1, f) <==> Condition(1, c.1, f))
  {
    hide SubFlags, S64;
    FlagsOfDifference(a, b);
    SameSigned(a, b);
  }

  /** The ten condition codes by number, after CMP a, b: always, equal, borrow, overflow,
      negative, the four orders, and equal again; inversion negates each. */
  lemma ConditionNumbers(a: u64, b: u64, inv: bool)
    ensures var f, d := CmpFlags(false, a, b), S64(a) - S64(b);
      && (Condition(0, inv, f) <==> !inv)
      && (Condition(1, inv, f) <==> (a == b) != inv)
      && (Condition(2, inv, f) <==> (a < b) != inv)
      && (Condition(3, inv, f) <==> !(-0x8000_0000_0000_0000 <= d < 0x8000_0000_0000_0000) != inv)
      && (Condition(4, inv, f) <==> ((a - b) % 0x1_0000_0000_0000_0000 >= 0x8000_0000_0000_0000) != inv)
      && (Condition(5, inv, f) <==> (S64(a) < S64(b)) != inv)
      && (Condition(6, inv, f) <==> (S64(a) <= S64(b)) != inv)
      && (Condition(7, inv, f) <==> (a < b) != inv)
      && (Condition(8, inv, f) <==> (a <= b) != inv)
      && (Condition(9, inv, f) <==> (a == b) != inv)
  {
    FlagsOfDifference(a, b);
    SameSigned(a, b);
  }

  /** The two's complement reading is the only one in range. */
  lemma SignedReading(x: u64, y: int)
    ensures S64(x) % 0x1_0000_0000_0000_0000 == x && -0x8000_0000_0000_0000 <= S64(x) < 0x8000_0000_0000_0000
    ensures y % 0x1_0000_0000_0000_0000 == x && -0x8000_0000_0000_0000 <= y < 0x8000_0000_0000_0000 ==> y == S64(x)
  {
  }

  lemma SameSigned(a: u64, b: u64)
    ensures S64(a) == S64(b) <==> a == b
  {
  }

  lemma TestTrue(rel: Rel, a: u64, b: u64)
    ensures var c := TestCode(rel); (Compare(c.0, a, b) != c.1) <==> Holds(rel, a, b)
  {
    hide S64;
    SameSigned(a, b);
  }

  /** Shifting left by 32 keeps both orders of the low halves. */
  lemma ShiftedOrder(a: u64, b: u64)
    ensures S64(Shl32(a)) == U32 * S32(a % U32)
    ensures Shl32(a) < Shl32(b) <==> a % U32 < b % U32
    ensures S64(Shl32(a)) < S64(Shl32(b)) <==> S32(a % U32) < S32(b % U32)
    ensures Shl32(a) == Shl32(b) <==> a % U32 == b % U32
  {
  }

  lemma ShiftedHolds(rel: Rel, a: u64, b: u64)
    ensures Holds(rel, Shl32(a), Shl32(b)) <==> HoldsW(rel, a, b)
  {
    hide S64, S32, Shl32;
    ShiftedOrder(a, b);
    ShiftedOrder(b, a);
    SameSigned(Shl32(a), Shl32(b));
  }

  /** A W compare: all ten jumps see the 32-bit relations. */
  lemma WideJumpTaken(rel: Rel, a: u64, b: u64)
    ensures var c := JumpCode(rel); Condition(c.0, c.1, CmpFlags(true, a, b)) <==> HoldsW(rel, a, b)
  {
    hide SubFlags, Condition, Shl32;
    JumpTaken(rel, Shl32(a), Shl32(b));
    ShiftedHolds(rel, a, b);
  }

  /** A W SETcc. */
  lemma WideTestTrue(rel: Rel, a: u64, b: u64)
    ensures var c := TestCode(rel); (SetCondition(c.0, true, a, b) != c.1) <==> HoldsW(rel, a, b)
  {
    hide Compare, Shl32;
    TestTrue(rel, Shl32(a), Shl32(b));
    ShiftedHolds(rel, a, b);
  }

  /** The fused W predicates agree with shifting both operands. */
  lemma FusedWide(rel: Rel, a: u64, b: u64)
    requires WideCode(rel).Some?
    ensures var c := WideCode(rel).value;
      && ((Compare(c.0, a, b) != c.1) <==> HoldsW(rel, a, b))
      && ((Compare(c.0, a, b) != c.1) <==> (Compare(TestCode(rel).0, Shl32(a), Shl32(b)) != TestCode(rel).1))
  {
    hide S64, S32, Shl32;
    ShiftedOrder(a, b);
    ShiftedOrder(b, a);
  }

  // ---- two-word arithmetic

  function Wide(hi: u64, lo: u64): int { hi * U64 + lo }

  function WideSigned(hi: u64, lo: u64): int { S64(hi) * U64 + lo }

  /** SUB on the low words, then SBC on the high words: the 128-bit difference, with C the
      128-bit borrow and S^V the signed 128-bit order. */
  lemma SubtractWide(ah: u64, al: u64, bh: u64, bl: u64)
    ensures var f := SubFlags(al, bl, 0); var g := SubFlags(ah, bh, B(f.c));
      && Wide(AluValue(3, ah, bh, B(f.c)), AluValue(1, al, bl, 0)) == (Wide(ah, al) - Wide(bh, bl)) % (U64 * U64)
      && (g.c <==> Wide(ah, al) < Wide(bh, bl))
      && (g.s != g.v <==> WideSigned(ah, al) < WideSigned(bh, bl))
  {
    hide *;
    WideDifference(ah, al, bh, bl);
    WideOrder(ah, al, bh, bl);
  }

  lemma WideOrder(ah: u64, al: u64, bh: u64, bl: u64)
    ensures var g := SubFlags(ah, bh, B(SubFlags(al, bl, 0).c));
      && (g.c <==> Wide(ah, al) < Wide(bh, bl))
      && (g.s != g.v <==> WideSigned(ah, al) < WideSigned(bh, bl))
  {
  }

  lemma WideDifference(ah: u64, al: u64, bh: u64, bl: u64)
    ensures Wide(AluValue(3, ah, bh, B(SubFlags(al, bl, 0).c)), AluValue(1, al, bl, 0))
      == (Wide(ah, al) - Wide(bh, bl)) % (U64 * U64)
  {
    var lo, c := Wrap64(al - bl), B(al < bl);
    var hi := Wrap64(ah - bh - c);
    var d := B(ah < bh + c);
    assert al - bl == lo - c * U64;
    assert ah - bh - c == hi - d * U64;
    assert Wide(ah, al) - Wide(bh, bl) == Wide(hi, lo) + -d * (U64 * U64);
    DivModUnique(-d, Wide(hi, lo), U64 * U64);
  }

  /** ADD then ADC: the 128-bit sum, with C the carry out. */
  lemma AddWide(ah: u64, al: u64, bh: u64, bl: u64)
    ensures var f := AddFlags(al, bl, 0); var g := AddFlags(ah, bh, B(f.c));
      && Wide(AluValue(2, ah, bh, B(f.c)), AluValue(0, al, bl, 0)) == (Wide(ah, al) + Wide(bh, bl)) % (U64 * U64)
      && (g.c <==> Wide(ah, al) + Wide(bh, bl) >= U64 * U64)
  {
    var x: int, y: int, z: int, w: int := al, bl, ah, bh;
    var lo, c := Wrap64(x + y), B(x + y >= U64);
    var hi, d := Wrap64(z + w + c), B(z + w + c >= U64);
    assert x + y == lo + c * U64;
    assert z + w + c == hi + d * U64;
    assert Wide(ah, al) + Wide(bh, bl) == Wide(hi, lo) + d * (U64 * U64);
    DivModUnique(d, Wide(hi, lo), U64 * U64);
  }

  // ---- on the machine

  /** The relation of two registers, or of their low halves. */
  predicate InOrder(rel: Rel, w: bool, a: u64, b: u64) { if w then HoldsW(rel, a, b) else Holds(rel, a, b) }

  lemma CompareStep(w: bool, x: Reg, y: Reg, s: State, dev: Device)
    ensures var t := Exec(Cmp(w, x, y), s, dev);
      t == s.(fl := CmpFlags(w, s.r[x], s.r[y]), pc := (s.pc + 4) % 0x1_0000_0000)
  {
    hide CmpFlags;
  }

  lemma JumpStep(cond: Cond, inv: bool, d: u18, s: State, dev: Device)
    ensures var t := Exec(Br(false, cond, inv, d), s, dev);
      t == s.(pc := if Condition(cond, inv, s.fl) then BranchTarget(Br(false, cond, inv, d), s) else (s.pc + 4) % 0x1_0000_0000)
  {
    hide Condition, BranchTarget;
  }

  /** CMP and a conditional jump behind it: the jump goes to its target exactly when the
      relation holds between the registers, and to the next instruction otherwise. */
  lemma CompareJumps(rel: Rel, w: bool, x: Reg, y: Reg, d: u18, s: State, dev: Device)
    ensures var c := JumpCode(rel); var t := Exec(Cmp(w, x, y), s, dev); var u := Exec(Br(false, c.0, c.1, d), t, dev);
      && u.(pc := s.pc, fl := s.fl) == s
      && u.pc == if InOrder(rel, w, s.r[x], s.r[y]) then BranchTarget(Br(false, c.0, c.1, d), t) else (s.pc + 8) % 0x1_0000_0000
  {
    hide Condition, CmpFlags, BranchTarget, Holds, HoldsW, JumpCode, Exec;
    var c := JumpCode(rel);
    CompareStep(w, x, y, s, dev);
    JumpStep(c.0, c.1, d, Exec(Cmp(w, x, y), s, dev), dev);
    JumpTaken(rel, s.r[x], s.r[y]);
    WideJumpTaken(rel, s.r[x], s.r[y]);
  }

  /** SETcc leaves 1 in its register when the relation holds, 0 when not. */
  lemma SetsTruth(rel: Rel, w: bool, rd: Reg, x: Reg, y: Reg, s: State, dev: Device)
    ensures var c := TestCode(rel); var t := Exec(SetCc(c.0, c.1, w, rd, x, y), s, dev);
      t == s.(r := s.r[rd := if InOrder(rel, w, s.r[x], s.r[y]) then 1 else 0], pc := (s.pc + 4) % 0x1_0000_0000)
  {
    hide SetCondition, Holds, HoldsW, TestCode;
    TestTrue(rel, s.r[x], s.r[y]);
    WideTestTrue(rel, s.r[x], s.r[y]);
    NarrowSet(TestCode(rel).0, s.r[x], s.r[y]);
  }

  lemma NarrowSet(p: Pred, a: u64, b: u64)
    ensures SetCondition(p, false, a, b) == Compare(p, a, b)
  {
  }

  /** SUB sets the flags of CMP. */
  lemma SubCompares(rd: Reg, x: Reg, y: Reg, s: State, dev: Device)
    ensures Exec(Alu(1, false, rd, x, y), s, dev).fl == Exec(Cmp(false, x, y), s, dev).fl
  {
    hide SubFlags;
  }

  /** The registers of a 128-bit subtraction: SUB on the low words, SBC on the high ones, the
      low result not yet needed. */
  lemma SubtractRegisters(rl: Reg, rh: Reg, al: Reg, ah: Reg, bl: Reg, bh: Reg, s: State, dev: Device)
    requires rl != ah && rl != bh && rl != rh
    ensures var t := Exec(Alu(3, false, rh, ah, bh), Exec(Alu(1, false, rl, al, bl), s, dev), dev);
      && Wide(t.r[rh], t.r[rl]) == (Wide(s.r[ah], s.r[al]) - Wide(s.r[bh], s.r[bl])) % (U64 * U64)
      && (t.fl.c <==> Wide(s.r[ah], s.r[al]) < Wide(s.r[bh], s.r[bl]))
      && (t.fl.s != t.fl.v <==> WideSigned(s.r[ah], s.r[al]) < WideSigned(s.r[bh], s.r[bl]))
  {
    hide Wide, WideSigned, SubFlags, AluValue;
    SubtractWide(s.r[ah], s.r[al], s.r[bh], s.r[bl]);
    AluStep(1, rl, al, bl, s, dev);
    AluStep(3, rh, ah, bh, Exec(Alu(1, false, rl, al, bl), s, dev), dev);
  }

  /** And of a 128-bit addition, ADD and ADC. */
  lemma AddRegisters(rl: Reg, rh: Reg, al: Reg, ah: Reg, bl: Reg, bh: Reg, s: State, dev: Device)
    requires rl != ah && rl != bh && rl != rh
    ensures var t := Exec(Alu(2, false, rh, ah, bh), Exec(Alu(0, false, rl, al, bl), s, dev), dev);
      && Wide(t.r[rh], t.r[rl]) == (Wide(s.r[ah], s.r[al]) + Wide(s.r[bh], s.r[bl])) % (U64 * U64)
      && (t.fl.c <==> Wide(s.r[ah], s.r[al]) + Wide(s.r[bh], s.r[bl]) >= U64 * U64)
  {
    hide Wide, AddFlags, AluValue;
    AddWide(s.r[ah], s.r[al], s.r[bh], s.r[bl]);
    AluStep(0, rl, al, bl, s, dev);
    AluStep(2, rh, ah, bh, Exec(Alu(0, false, rl, al, bl), s, dev), dev);
  }

  lemma AluStep(op: AluOp, rd: Reg, x: Reg, y: Reg, s: State, dev: Device)
    requires op <= 3
    ensures var t := Exec(Alu(op, false, rd, x, y), s, dev); var cin := if op >= 2 then B(s.fl.c) else 0;
      && t.r == s.r[rd := AluValue(op, s.r[x], s.r[y], cin)]
      && t.fl == if op % 2 == 0 then AddFlags(s.r[x], s.r[y], cin) else SubFlags(s.r[x], s.r[y], cin)
  {
    hide AddFlags, SubFlags;
  }
}
