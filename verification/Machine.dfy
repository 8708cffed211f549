/** The KlaussCPU programmer's model: registers, flags, stack, memory and the
    effect of one instruction. */
module Machine {
  import opened Bits
  import opened Isa

  const MMIO: int := 0xF000_0000
  const INT_MASK: int := 0xF00F_0000
  const HALF64: int := 0x8000_0000_0000_0000
  const HALF32: int := 0x8000_0000

  datatype Flags = Flags(z: bool, s: bool, c: bool, v: bool)

  type Regs = s: seq<u64> | |s| == 16 witness seq(16, _ => 0)
  type Mem = map<int, u8>

  /** HALT and TRAP park the core; kind 2 is an illegal instruction and kind 5 a
      misaligned access. */
  datatype Status = Running | Halted | Waiting | Parked(kind: nat)

  datatype Io = IoLoad(addr: int, size: Size) | IoStore(addr: int, size: Size, value: nat)

  datatype State = State(
    r: Regs, sp: u32, pc: u32, fl: Flags, mem: Mem, disabled: bool, mask: u4, io: seq<Io>, st: Status)

  /** What a device answers to a read, given everything sent before it. */
  type Device = (seq<Io>, int) -> u64

  // ---- memory

  function Peek(m: Mem, a: int): u8 {
    if a in m then m[a] else 0
  }

  /** Little-endian value of n bytes. */
  function LoadLe(m: Mem, a: int, n: nat): nat
    decreases n
  {
    if n == 0 then 0 else Peek(m, a) + 0x100 * LoadLe(m, a + 1, n - 1)
  }

  function StoreLe(m: Mem, a: int, n: nat, v: nat): Mem
    decreases n
  {
    if n == 0 then m else StoreLe(m[a := v % 0x100], a + 1, n - 1, v / 0x100)
  }

  lemma {:induction false} PeekStore(m: Mem, a: int, n: nat, v: nat, b: int)
    requires b < a || b >= a + n
    ensures Peek(StoreLe(m, a, n, v), b) == Peek(m, b)
    decreases n
  {
    if n != 0 {
      PeekStore(m[a := v % 0x100], a + 1, n - 1, v / 0x100, b);
    }
  }

  lemma {:induction false} LoadSame(m: Mem, m': Mem, a: int, n: nat)
    requires forall b :: a <= b < a + n ==> Peek(m', b) == Peek(m, b)
    ensures LoadLe(m', a, n) == LoadLe(m, a, n)
    decreases n
  {
    if n != 0 {
      LoadSame(m, m', a + 1, n - 1);
    }
  }

  lemma {:induction false} LoadStore(m: Mem, a: int, n: nat, v: nat)
    ensures LoadLe(StoreLe(m, a, n, v), a, n) == v % Pow2(8 * n)
    decreases n
  {
    if n == 0 {
    } else {
      var m1 := m[a := v % 0x100];
      var p := Pow2(8 * (n - 1));
      LoadStore(m1, a + 1, n - 1, v / 0x100);
      PeekStore(m1, a + 1, n - 1, v / 0x100, a);
      assert Pow2(8 * n) == 0x100 * p by { Pow2Add(8, 8 * (n - 1)); assert Pow2(8) == 0x100; }
      SplitMod(v, p);
    }
  }

  lemma SplitMod(v: nat, p: nat)
    requires p > 0
    ensures v % (0x100 * p) == v % 0x100 + 0x100 * (v / 0x100 % p)
  {
    var q, r := v / 0x100, v % 0x100;
    var d, e := q / p, q % p;
    assert q == d * p + e;
    assert v == (r + 0x100 * e) + d * (0x100 * p) by {
      assert v == 0x100 * q + r;
      assert 0x100 * (d * p) == d * (0x100 * p);
    }
    DivModUnique(d, r + 0x100 * e, 0x100 * p);
  }

  lemma {:induction false} LoadBound(m: Mem, a: int, n: nat)
    ensures LoadLe(m, a, n) < Pow2(8 * n)
    decreases n
  {
    if n != 0 {
      LoadBound(m, a + 1, n - 1);
      Pow2Add(8, 8 * (n - 1));
      assert Pow2(8) == 0x100;
    }
  }

  function Align8(a: int): int { a - a % 8 }

  function Load64(m: Mem, a: int): u64 {
    LoadBound(m, Align8(a), 8);
    Pow2Of64();
    LoadLe(m, Align8(a), 8)
  }

  function Store64(m: Mem, a: int, v: u64): Mem {
    StoreLe(m, Align8(a), 8, v)
  }

  lemma Load64Store64(m: Mem, a: int, v: u64)
    ensures Load64(Store64(m, a, v), a) == v
  {
    hide LoadLe, StoreLe, Pow2;
    LoadStore(m, Align8(a), 8, v);
    Pow2Of64();
  }

  lemma Load64Other(m: Mem, a: int, v: u64, b: int)
    requires Align8(a) != Align8(b)
    ensures Load64(Store64(m, a, v), b) == Load64(m, b)
  {
    forall c | Align8(b) <= c < Align8(b) + 8
      ensures Peek(Store64(m, a, v), c) == Peek(m, c)
    {
      PeekStore(m, Align8(a), 8, v, c);
    }
    LoadSame(m, Store64(m, a, v), Align8(b), 8);
  }

  // ---- arithmetic

  function Wrap64(x: int): u64 { x % U64 }
  function Wrap32(x: int): u32 { x % U32 }
  function S64(x: u64): int { if x >= HALF64 then x - U64 else x }
  function S32(x: u32): int { if x >= HALF32 then x - U32 else x }

  /** The low 32 bits, sign-extended to 64. */
  function SextW(x: u64): u64 { Wrap64(S32(x % U32)) }

  function Sext8(x: u8): u64 { if x >= 0x80 then x + (U64 - 0x100) else x }
  function Sext32(x: u32): u64 { Wrap64(S32(x)) }
  function Extend32(sgn: bool, x: u32): u64 { if sgn then Sext32(x) else x }
  function Extend8(sgn: bool, x: u8): u64 { if sgn then Sext8(x) else x }

  function Bitwise(op: AluOp, a: u64, b: u64): u64 {
    Pow2Of64();
    OrXorBound(a, b, 64);
    if op == 4 then And(a, b) else if op == 5 then Or(a, b) else Xor(a, b)
  }

  /** C is the carry out. */
  function AddFlags(a: u64, b: u64, cin: int): Flags
    requires 0 <= cin <= 1
  {
    var r := Wrap64(a + b + cin);
    var t := S64(a) + S64(b) + cin;
    Flags(r == 0, r >= HALF64, a + b + cin >= U64, !(-HALF64 <= t < HALF64))
  }

  /** C is the borrow. */
  function SubFlags(a: u64, b: u64, cin: int): Flags
    requires 0 <= cin <= 1
  {
    var r := Wrap64(a - b - cin);
    var t := S64(a) - S64(b) - cin;
    Flags(r == 0, r >= HALF64, a < b + cin, !(-HALF64 <= t < HALF64))
  }

  function AluValue(op: AluOp, a: u64, b: u64, c: int): u64 {
    if op == 0 then Wrap64(a + b)
    else if op == 1 then Wrap64(a - b)
    else if op == 2 then Wrap64(a + b + c)
    else if op == 3 then Wrap64(a - b - c)
    else Bitwise(op, a, b)
  }

  function AluFlags(op: AluOp, w: bool, a: u64, b: u64, fl: Flags): Flags {
    var f := if op == 0 then AddFlags(a, b, 0)
             else if op == 1 then SubFlags(a, b, 0)
             else if op == 2 then AddFlags(a, b, B(fl.c))
             else if op == 3 then SubFlags(a, b, B(fl.c))
             else fl;
    if w then f.(z := SextW(AluValue(op, a, b, B(fl.c))) == 0) else f
  }

  function AluResult(op: AluOp, w: bool, a: u64, b: u64, fl: Flags): (u64, Flags) {
    var v := AluValue(op, a, b, B(fl.c));
    (if w then SextW(v) else v, AluFlags(op, w, a, b, fl))
  }

  /** A W compare shifts both operands left by 32 and compares 64 bits. */
  function Shl32(x: u64): u64 { x % U32 * U32 }

  function CmpFlags(w: bool, a: u64, b: u64): Flags {
    if w then SubFlags(Shl32(a), Shl32(b), 0) else SubFlags(a, b, 0)
  }

  /** Condition codes 0-9, derived from Z, S, C and V. */
  predicate Condition(cond: Cond, inv: bool, f: Flags) {
    var t := if cond == 0 then true
             else if cond == 1 || cond == 9 then f.z
             else if cond == 2 || cond == 7 then f.c
             else if cond == 3 then f.v
             else if cond == 4 then f.s
             else if cond == 5 then f.s != f.v
             else if cond == 6 then f.z || f.s != f.v
             else f.c || f.z;
    t != inv
  }

  /** Predicates 0-4 compare 64 bits; 5-7 are eqw, ltw and ultw. */
  predicate Compare(p: WPred, a: u64, b: u64) {
    if p == 0 then a == b
    else if p == 1 then S64(a) < S64(b)
    else if p == 2 then S64(a) <= S64(b)
    else if p == 3 then a < b
    else if p == 4 then a <= b
    else if p == 5 then a % U32 == b % U32
    else if p == 6 then S32(a % U32) < S32(b % U32)
    else a % U32 < b % U32
  }

  predicate SetCondition(p: Pred, w: bool, a: u64, b: u64) {
    if w then Compare(p, Shl32(a), Shl32(b)) else Compare(p, a, b)
  }

  function Shift(op: ShiftOp, x: u64, n: u6): u64 {
    if op == 0 then Wrap64(x * Pow2(n))
    else if op == 1 then Wrap64(x / Pow2(n))
    else if op == 2 then Wrap64(S64(x) / Pow2(n))
    else if op == 3 then Wrap64(x * Pow2(n) + x / Pow2(64 - n))
    else Wrap64(x / Pow2(n) + x * Pow2(64 - n))
  }

  /** Z only with F; an embedded rotate by one also moves the bit into C. */
  function ShiftFlags(op: ShiftOp, x: u64, n: u6, f: bool, embedded: bool, fl: Flags): Flags {
    var r := Shift(op, x, n);
    if !f then fl
    else if embedded && n == 1 && op >= 3 then
      fl.(z := r == 0, c := if op == 3 then x >= HALF64 else x % 2 == 1)
    else fl.(z := r == 0)
  }

  function MulResult(sgn: bool, high: bool, w: bool, a: u64, b: u64, fl: Flags): (u64, Flags) {
    var p := if sgn then S64(a) * S64(b) else a * b;
    var lo, hi := Wrap64(p), Wrap64(p / U64);
    var v := if high then hi else lo;
    var r := if w then SextW(v) else v;
    (r, fl.(z := r == 0, s := v >= HALF64, v := !high && hi != (if lo >= HALF64 then U64 - 1 else 0)))
  }

  /** Division truncates toward zero and the remainder takes the dividend's sign. */
  function TruncDiv(a: int, b: int): int
    requires b != 0
  {
    var q := (if a < 0 then -a else a) / (if b < 0 then -b else b);
    if (a < 0) == (b < 0) then q else -q
  }

  function DivResult(mod: bool, sgn: bool, a: u64, b: u64, fl: Flags): (u64, Flags) {
    if b == 0 then (if mod then a else U64 - 1, fl.(v := true))
    else
      var x, y := if sgn then S64(a) else a, if sgn then S64(b) else b;
      var q := TruncDiv(x, y);
      var r := Wrap64(if mod then x - q * y else q);
      (r, fl.(z := r == 0, v := false))
  }

  // ---- data instructions: a register value and flags, nothing else

  predicate IsData(i: Instr) {
    i.Alu? || i.AluI? || i.AluIS? || i.SetR? || i.SetR64? || i.LeaPc? || i.LeaPcS? || i.Cmp? || i.CmpI? || i.CmpIS?
    || i.SetCc? || i.ShiftN? || i.ShiftR? || i.Copy? || i.Inc? || i.Dec? || i.Mul? || i.MulV? || i.MulVS?
    || i.Div? || i.Mod? || i.Nop?
  }

  predicate WritesRd(i: Instr) {
    IsData(i) && !i.Cmp? && !i.CmpI? && !i.CmpIS? && !i.Nop?
  }

  function Data(i: Instr, r: Regs, pc: u32, fl: Flags): (u64, Flags)
    requires IsData(i)
  {
    match i
    case Alu(op, w, _, rs1, rs2) => AluResult(op, w, r[rs1], r[rs2], fl)
    case AluI(op, w, sgn, _, rs1, imm) => AluResult(op, w, r[rs1], Extend32(sgn, imm), fl)
    case AluIS(op, sgn, _, rs1, imm8) => AluResult(op, false, r[rs1], Extend8(sgn, imm8), fl)
    case SetR(sgn, _, imm) => (Extend32(sgn, imm), fl)
    case SetR64(_, imm64) => (imm64, fl)
    case LeaPc(_, imm) => (Wrap32(pc + imm), fl)
    case LeaPcS(_, d) => (Wrap32(pc + Signed(d, 0x8000)), fl)
    case Cmp(w, rs1, rs2) => (0, CmpFlags(w, r[rs1], r[rs2]))
    case CmpI(w, rs1, imm) => (0, CmpFlags(w, r[rs1], Sext32(imm)))
    case CmpIS(w, rs1, imm8) => (0, CmpFlags(w, r[rs1], Sext8(imm8)))
    case SetCc(pred, inv, w, _, rs1, rs2) => (B(SetCondition(pred, w, r[rs1], r[rs2]) != inv), fl)
    case ShiftN(sop, n, f, _, rs1) => (Shift(sop, r[rs1], n), ShiftFlags(sop, r[rs1], n, f, true, fl))
    case ShiftR(sop, f, _, rs1, rs2) =>
      (Shift(sop, r[rs1], r[rs2] % 64), ShiftFlags(sop, r[rs1], r[rs2] % 64, f, false, fl))
    case Copy(_, rs1) => (r[rs1], fl)
    case Inc(_, rs1) => AluResult(0, false, r[rs1], 1, fl)
    case Dec(_, rs1) => AluResult(1, false, r[rs1], 1, fl)
    case Mul(sgn, high, w, _, rs1, rs2) => MulResult(sgn, high, w, r[rs1], r[rs2], fl)
    case MulV(sgn, _, rs1, imm) => MulResult(sgn, false, false, r[rs1], Extend32(sgn, imm), fl)
    case MulVS(sgn, _, rs1, imm8) => MulResult(sgn, false, false, r[rs1], Extend8(sgn, imm8), fl)
    case Div(sgn, _, rs1, rs2) => DivResult(false, sgn, r[rs1], r[rs2], fl)
    case Mod(sgn, _, rs1, rs2) => DivResult(true, sgn, r[rs1], r[rs2], fl)
    case _ => (0, fl)
  }

  // ---- one instruction

  function Bytes(size: Size): (n: nat)
    ensures n == 1 || n == 2 || n == 4 || n == 8
  {
    if size == 0 then 1 else if size == 1 then 2 else if size == 2 then 4 else 8
  }

  function EaAddress(ea: Ea, size: Size, r: Regs): u32 {
    match ea
    case Base(rs1) => Wrap32(r[rs1])
    case Offset(rs1, off) => Wrap32(r[rs1] + off)
    case Scaled(rs1, off8) => Wrap32(r[rs1] + Signed(off8, 0x80) * Bytes(size))
    case Absolute(addr) => addr
    case Indexed(rs1, rs2) => var x: int, y: int := r[rs1], r[rs2]; Wrap32(x + y)
  }

  /** 16- and 32-bit accesses trap when misaligned, except the unsigned 32-bit
      load in mode 00. */
  predicate Misaligned(i: Instr, a: int)
    requires i.Load? || i.Store?
  {
    ((i.size == 1 && a % 2 != 0) || (i.size == 2 && a % 4 != 0))
    && !(i.Load? && i.size == 2 && !i.sgn && i.ea.Base?)
  }

  function EffAddr(i: Instr, r: Regs): int
    requires i.Load? || i.Store?
  {
    var a := EaAddress(i.ea, i.size, r);
    if i.size == 3 then Align8(a) else a
  }

  function ExtendLoad(sgn: bool, size: Size, v: nat): u64 {
    var m := if size == 0 then 0x100 else if size == 1 then 0x1_0000 else if size == 2 then U32 else U64;
    var x := v % m;
    if sgn && 2 * x >= m then x + (U64 - m) else x
  }

  function Next(i: Instr, s: State): u32 { Wrap32(s.pc + 4 * Words(i)) }

  function PushWord(s: State, v: u64): State {
    var sp := Wrap32(s.sp - 8);
    s.(sp := sp, mem := Store64(s.mem, sp, v))
  }

  function BranchTarget(i: Instr, s: State): u32
    requires i.Br? || i.BrAbs? || i.BrReg? || i.Fbr?
  {
    match i
    case Br(_, _, _, disp) => Wrap32(s.pc + 4 * Signed(disp, 0x2_0000))
    case BrAbs(_, _, _, tgt) => tgt
    case BrReg(_, _, _, rs2) => Wrap32(s.r[rs2])
    case Fbr(_, _, _, _, disp13) => Wrap32(s.pc + 4 * Signed(disp13, 0x1000))
  }

  function RhsValue(rhs: Rhs, r: Regs): u64 {
    match rhs
    case RegRhs(rs2) => r[rs2]
    case Imm4(imm4) => if imm4 >= 8 then imm4 + (U64 - 16) else imm4
    case Imm32(imm) => Sext32(imm)
  }

  predicate Taken(i: Instr, s: State)
    requires i.Br? || i.BrAbs? || i.BrReg? || i.Fbr?
  {
    match i
    case Br(_, cond, inv, _) => Condition(cond, inv, s.fl)
    case BrAbs(_, cond, inv, _) => Condition(cond, inv, s.fl)
    case BrReg(_, cond, inv, _) => Condition(cond, inv, s.fl)
    case Fbr(p, inv, rs1, rhs, _) => Compare(p, s.r[rs1], RhsValue(rhs, s.r)) != inv
  }

  function ExecMemory(i: Instr, s: State, dev: Device): State
    requires i.Load? || i.Store?
  {
    var a := EffAddr(i, s.r);
    if Misaligned(i, a) then s.(st := Parked(5))
    else if i.Load? then
      var raw := if a >= MMIO then dev(s.io, a) else LoadLe(s.mem, a, Bytes(i.size));
      var io := if a >= MMIO then s.io + [IoLoad(a, i.size)] else s.io;
      s.(r := s.r[i.rd := ExtendLoad(i.sgn, i.size, raw)], io := io, pc := Next(i, s))
    else if a >= MMIO then
      s.(io := s.io + [IoStore(a, i.size, s.r[i.rd])],
         mask := if a == INT_MASK then s.r[i.rd] % 16 else s.mask,
         pc := Next(i, s))
    else s.(mem := StoreLe(s.mem, a, Bytes(i.size), s.r[i.rd]), pc := Next(i, s))
  }

  function ExecBranch(i: Instr, s: State): State
    requires i.Br? || i.BrAbs? || i.BrReg? || i.Fbr?
  {
    if !Taken(i, s) then s.(pc := Next(i, s))
    else if !i.Fbr? && i.link then PushWord(s, Next(i, s)).(pc := BranchTarget(i, s))
    else s.(pc := BranchTarget(i, s))
  }

  /** Frame word pushed on interrupt entry: PC, flags, mask and disable bit. */
  function Frame(pc: u32, f: Flags, mask: u4, disabled: bool): u64 {
    pc + U32 * (B(f.c) + 2 * B(f.s != f.v) + 4 * B(f.s) + 8 * B(f.v) + 16 * B(f.c) + 32 * B(f.z) + 64 * B(f.z)
                + 128 * mask + 2048 * B(disabled))
  }

  function ReturnFromInterrupt(s: State): State {
    var w := Load64(s.mem, s.sp);
    var hi := w / U32;
    s.(pc := w % U32, sp := Wrap32(s.sp + 8),
       fl := Flags(hi / 64 % 2 == 1, hi / 4 % 2 == 1, hi / 16 % 2 == 1, hi / 8 % 2 == 1),
       mask := hi / 128 % 16, disabled := hi / 2048 % 2 == 1)
  }

  function ExecStack(i: Instr, s: State): State {
    var n := Next(i, s);
    match i
    case Push(rs1) => PushWord(s, s.r[rs1]).(pc := n)
    case PushV(imm) => PushWord(s, imm).(pc := n)
    case Pop(rd) => s.(r := s.r[rd := Load64(s.mem, s.sp)], sp := Wrap32(s.sp + 8), pc := n)
    case GetSp(rd) => s.(r := s.r[rd := s.sp], pc := n)
    case SetSp(rs1) => s.(sp := Wrap32(s.r[rs1]), pc := n)
    case AddSp(imm) => s.(sp := Wrap32(s.sp + imm), pc := n)
    case Ret => s.(pc := Load64(s.mem, s.sp) % U32, sp := Wrap32(s.sp + 8))
    case IRet => ReturnFromInterrupt(s)
    case Enter(locals) =>
      var t := PushWord(s, s.r[15]);
      t.(r := t.r[15 := t.sp], sp := Wrap32(t.sp - 8 * locals), pc := n)
    case Leave =>
      var fp := Wrap32(s.r[15]);
      s.(r := s.r[15 := Load64(s.mem, fp)], sp := Wrap32(fp + 8), pc := n)
    case LeaveRet =>
      var fp := Wrap32(s.r[15]);
      s.(r := s.r[15 := Load64(s.mem, fp)], pc := Load64(s.mem, Wrap32(fp + 8)) % U32, sp := Wrap32(fp + 16))
    case Di(rd) => s.(r := s.r[rd := B(!s.disabled)], disabled := true, pc := n)
    case Ei(rs1) => s.(disabled := s.r[rs1] % 2 == 0, pc := n)
    case Halt => s.(st := Halted)
    case Wait => s.(st := Waiting)
    case _ => s.(st := Parked(1))
  }

  function Exec(i: Instr, s: State, dev: Device): State {
    if IsData(i) then
      var d := Data(i, s.r, s.pc, s.fl);
      s.(r := if WritesRd(i) then s.r[i.rd := d.0] else s.r, fl := d.1, pc := Next(i, s))
    else if i.Load? || i.Store? then ExecMemory(i, s, dev)
    else if i.Br? || i.BrAbs? || i.BrReg? || i.Fbr? then ExecBranch(i, s)
    else ExecStack(i, s)
  }

  // ---- programs

  type Code = map<int, Instr>

  function Step(code: Code, dev: Device, s: State): State {
    if s.st != Running then s
    else if s.pc in code then Exec(code[s.pc], s, dev)
    else s.(st := Parked(2))
  }
}
