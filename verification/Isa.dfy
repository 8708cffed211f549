/** The instruction set that kasm emits and that the probe programs use, with the strict word
    decoder of ISA_ENCODING_V2_MAP.md: LEN, CLASS and OP select a form, every
    reserved bit must be zero, and anything else is illegal. */
module Isa {
  import opened Bits

  type Reg = u4

  /** Effective address forms, in MODE order, with the short scaled offset. */
  datatype Ea =
    | Base(rs1: Reg)
    | Offset(rs1: Reg, off: u32)
    | Scaled(rs1: Reg, off8: u8)
    | Absolute(addr: u32)
    | Indexed(rs1: Reg, rs2: Reg)

  datatype Rhs = RegRhs(rs2: Reg) | Imm4(imm4: u4) | Imm32(imm: u32)

  type AluOp = x: int | 0 <= x <= 6     // add sub adc sbc and or xor
  type ShiftOp = x: int | 0 <= x <= 4   // shl shr sar rol ror
  type Size = x: int | 0 <= x <= 3      // log2 of the access size in bytes
  type Cond = x: int | 0 <= x <= 9      // always z c v s lt le ult ule e
  type Pred = x: int | 0 <= x <= 4      // eq lt le ult ule
  type WPred = x: int | 0 <= x <= 7     // the five above, then eqw ltw ultw

  datatype Instr =
    | Alu(op: AluOp, w: bool, rd: Reg, rs1: Reg, rs2: Reg)
    | AluI(op: AluOp, w: bool, sgn: bool, rd: Reg, rs1: Reg, imm: u32)
    | AluIS(op: AluOp, sgn: bool, rd: Reg, rs1: Reg, imm8: u8)
    | SetR(sgn: bool, rd: Reg, imm: u32)
    | SetR64(rd: Reg, imm64: u64)
    | LeaPc(rd: Reg, imm: u32)
    | LeaPcS(rd: Reg, simm16: u16)
    | Cmp(w: bool, rs1: Reg, rs2: Reg)
    | CmpI(w: bool, rs1: Reg, imm: u32)
    | CmpIS(w: bool, rs1: Reg, imm8: u8)
    | SetCc(pred: Pred, inv: bool, w: bool, rd: Reg, rs1: Reg, rs2: Reg)
    | ShiftN(sop: ShiftOp, n: u6, f: bool, rd: Reg, rs1: Reg)
    | ShiftR(sop: ShiftOp, f: bool, rd: Reg, rs1: Reg, rs2: Reg)
    | Copy(rd: Reg, rs1: Reg)
    | Inc(rd: Reg, rs1: Reg)
    | Dec(rd: Reg, rs1: Reg)
    | Mul(sgn: bool, high: bool, w: bool, rd: Reg, rs1: Reg, rs2: Reg)
    | MulV(sgn: bool, rd: Reg, rs1: Reg, imm: u32)
    | MulVS(sgn: bool, rd: Reg, rs1: Reg, imm8: u8)
    | Div(sgn: bool, rd: Reg, rs1: Reg, rs2: Reg)
    | Mod(sgn: bool, rd: Reg, rs1: Reg, rs2: Reg)
    | Nop
    | Load(size: Size, sgn: bool, aligned: bool, rd: Reg, ea: Ea)
    | Store(size: Size, aligned: bool, rd: Reg, ea: Ea)
    | Br(link: bool, cond: Cond, inv: bool, disp: u18)
    | BrAbs(link: bool, cond: Cond, inv: bool, tgt: u32)
    | BrReg(link: bool, cond: Cond, inv: bool, rs2: Reg)
    | Fbr(wpred: WPred, inv: bool, rs1: Reg, rhs: Rhs, disp13: u13)
    | Push(rs1: Reg)
    | PushV(imm: u32)
    | Pop(rd: Reg)
    | GetSp(rd: Reg)
    | SetSp(rs1: Reg)
    | AddSp(imm: u32)
    | Ret
    | IRet
    | Enter(locals: u22)
    | Leave
    | LeaveRet
    | Di(rd: Reg)
    | Ei(rs1: Reg)
    | Halt
    | Wait
    | Trap

  /** Length in words: the LEN field. */
  function Words(i: Instr): (n: int)
    ensures 1 <= n <= 3
  {
    match i
    case SetR64(_, _) => 3
    case AluI(_, _, _, _, _, _) => 2
    case SetR(_, _, _) => 2
    case LeaPc(_, _) => 2
    case CmpI(_, _, _) => 2
    case MulV(_, _, _, _) => 2
    case Load(_, _, _, _, ea) => if ea.Offset? || ea.Absolute? then 2 else 1
    case Store(_, _, _, ea) => if ea.Offset? || ea.Absolute? then 2 else 1
    case BrAbs(_, _, _, _) => 2
    case Fbr(_, _, _, rhs, _) => if rhs.Imm32? then 2 else 1
    case PushV(_) => 2
    case AddSp(_) => 2
    case _ => 1
  }

  /** Attribute combinations that the encoding map allows. */
  predicate Legal(i: Instr) {
    match i
    case Alu(op, w, _, _, _) => w ==> op <= 1
    case AluI(op, w, _, _, _, _) => w ==> op == 0
    case Mul(_, high, w, _, _, _) => !(high && w)
    case Load(size, _, aligned, _, ea) => aligned ==> size == 3
    case Store(size, aligned, _, ea) => aligned ==> size == 3
    case Br(_, cond, inv, _) => inv ==> cond != 0
    case BrAbs(_, cond, inv, _) => inv ==> cond != 0
    case BrReg(_, cond, inv, _) => inv ==> cond != 0
    case _ => true
  }

  // ---- field layouts of bits [25:0], bit 0 first; an unused field has width 0

  datatype Row = Row(a: nat, b: nat, c: nat, d: nat, e: nat, f: nat, g: nat, h: nat)
  {
    function Items(): seq<nat> { [a, b, c, d, e, f, g, h] }
  }

  ghost predicate Fit(v: Row, w: Row) {
    && v.a < Pow2(w.a) && v.b < Pow2(w.b) && v.c < Pow2(w.c) && v.d < Pow2(w.d)
    && v.e < Pow2(w.e) && v.f < Pow2(w.f) && v.g < Pow2(w.g) && v.h < Pow2(w.h)
  }

  const HEADER := Row(26, 4, 2, 0, 0, 0, 0, 0)
  const ALU := Row(4, 4, 4, 8, 1, 1, 4, 0)
  const COMPARE := Row(4, 4, 4, 8, 1, 1, 1, 3)
  const SHIFT := Row(4, 4, 4, 2, 1, 6, 1, 4)
  const UNARY := Row(4, 4, 4, 7, 1, 2, 4, 0)
  const MEMORY := Row(4, 4, 4, 8, 1, 2, 1, 2)
  const BRANCH := Row(18, 1, 4, 1, 1, 1, 0, 0)
  const STACK := Row(22, 4, 0, 0, 0, 0, 0, 0)
  const MULDIV := Row(4, 4, 4, 8, 2, 1, 1, 2)
  const SYSTEM := Row(4, 4, 4, 4, 6, 4, 0, 0)
  const FUSED := Row(4, 4, 13, 1, 1, 3, 0, 0)

  lemma Widths()
    ensures Pow2(0) == 1 && Pow2(1) == 2 && Pow2(2) == 4 && Pow2(3) == 8 && Pow2(4) == 16 && Pow2(6) == 0x40
    ensures Pow2(7) == 0x80 && Pow2(8) == 0x100 && Pow2(10) == 0x400 && Pow2(13) == 0x2000 && Pow2(18) == 0x4_0000
    ensures Pow2(22) == 0x40_0000 && Pow2(26) == 0x400_0000 && Pow2(32) == 0x1_0000_0000
  {
  }

  function Join(v: Row, w: Row): (r: nat)
    requires Fit(v, w)
    ensures r < Pow2(w.a + w.b + w.c + w.d + w.e + w.f + w.g + w.h)
    ensures Fields(r, w) == v
  {
    hide Pow2, Split, OrFields, Sum;
    SumOfRow(w);
    RowFits(v, w);
    SplitOrFields(v.Items(), w.Items());
    OrFields(v.Items(), w.Items())
  }

  function AsRow(s: seq<nat>): Row
    requires |s| == 8
  {
    Row(s[0], s[1], s[2], s[3], s[4], s[5], s[6], s[7])
  }

  lemma AsRowItems(s: seq<nat>)
    requires |s| == 8
    ensures AsRow(s).Items() == s
  {
  }

  lemma SplitRow(p: nat, w: Row)
    ensures |Split(p, w.Items())| == 8 && Fit(AsRow(Split(p, w.Items())), w)
    ensures p < Pow2(w.a + w.b + w.c + w.d + w.e + w.f + w.g + w.h) ==> OrFields(AsRow(Split(p, w.Items())).Items(), w.Items()) == p
  {
    hide Pow2, Split, OrFields, Sum, Fit, FieldsFit, AsRow;
    var s := Split(p, w.Items());
    SplitFits(p, w.Items());
    FitOfSplit(s, w);
    AsRowItems(s);
    if p < Pow2(w.a + w.b + w.c + w.d + w.e + w.f + w.g + w.h) {
      SumOfRow(w);
      OrFieldsSplit(p, w.Items());
    }
  }

  function Fields(p: nat, w: Row): (v: Row)
    ensures Fit(v, w)
    ensures p < Pow2(w.a + w.b + w.c + w.d + w.e + w.f + w.g + w.h) ==> OrFields(v.Items(), w.Items()) == p
  {
    hide Pow2, Split, OrFields, Fit, AsRow;
    SplitRow(p, w);
    AsRow(Split(p, w.Items()))
  }

  lemma JoinFields(p: nat, w: Row)
    requires p < Pow2(w.a + w.b + w.c + w.d + w.e + w.f + w.g + w.h)
    ensures Join(Fields(p, w), w) == p
  {
    hide Pow2, Fields, OrFields, Sum;
  }

  lemma SumOfRow(w: Row)
    ensures Sum(w.Items()) == w.a + w.b + w.c + w.d + w.e + w.f + w.g + w.h
  {
    var s7 := [w.h];
    var s6, s5 := [w.g, w.h], [w.f, w.g, w.h];
    var s4, s3 := [w.e, w.f, w.g, w.h], [w.d, w.e, w.f, w.g, w.h];
    var s2, s1 := [w.c, w.d, w.e, w.f, w.g, w.h], [w.b, w.c, w.d, w.e, w.f, w.g, w.h];
    assert Sum(s7) == w.h by { assert s7[1..] == []; }
    assert Sum(s6) == w.g + Sum(s7) by { assert s6[1..] == s7; }
    assert Sum(s5) == w.f + Sum(s6) by { assert s5[1..] == s6; }
    assert Sum(s4) == w.e + Sum(s5) by { assert s4[1..] == s5; }
    assert Sum(s3) == w.d + Sum(s4) by { assert s3[1..] == s4; }
    assert Sum(s2) == w.c + Sum(s3) by { assert s2[1..] == s3; }
    assert Sum(s1) == w.b + Sum(s2) by { assert s1[1..] == s2; }
    assert w.Items()[1..] == s1;
  }

  lemma RowFits(v: Row, w: Row)
    requires Fit(v, w)
    ensures FieldsFit(v.Items(), w.Items())
  {
    hide Pow2;
  }

  lemma FitOfSplit(s: seq<nat>, w: Row)
    requires FieldsFit(s, w.Items())
    ensures |s| == 8 && Fit(AsRow(s), w)
  {
    hide Pow2;
    var t := w.Items();
    assert t[0] == w.a && t[1] == w.b && t[2] == w.c && t[3] == w.d;
    assert t[4] == w.e && t[5] == w.f && t[6] == w.g && t[7] == w.h;
  }

  // ---- decoder

  function Flag8(x: nat): Option<bool> {
    if x == 0 then Some(false) else if x == 0x80 then Some(true) else None
  }

  function DecodeAlu(f: Row): Option<Instr>
    requires Fit(f, ALU)
  {
    hide Pow2;
    Widths();
    var w := Flag8(f.d);
    if f.g <= 6 && f.e == 0 && f.f == B(f.g <= 3) && w.Some? && (w.value ==> f.g <= 1) then
      Some(Alu(f.g, w.value, f.c, f.b, f.a))
    else None
  }

  function DecodeImm(len: nat, f: Row, i32: u32, i64: u64): Option<Instr>
    requires Fit(f, ALU)
  {
    hide Pow2;
    Widths();
    var w := Flag8(f.d);
    if len == 1 then
      if f.g <= 6 && f.a == 0 && f.f == B(f.g <= 3) then Some(AluIS(f.g, f.e == 1, f.c, f.b, f.d))
      else if f.g == 14 && f.e == 0 && f.f == 1 then Some(LeaPcS(f.c, f.d * 0x100 + f.b * 0x10 + f.a))
      else None
    else if len == 2 then
      if f.g <= 6 && f.a == 0 && f.f == B(f.g <= 3) && w.Some? && (w.value ==> f.g == 0) then
        Some(AluI(f.g, w.value, f.e == 1, f.c, f.b, i32))
      else if f.a != 0 || f.b != 0 || f.d != 0 || f.f != 0 then None
      else if f.g == 15 then Some(SetR(f.e == 1, f.c, i32))
      else if f.g == 14 && f.e == 0 then Some(LeaPc(f.c, i32))
      else None
    else if f.a == 0 && f.b == 0 && f.d == 0 && f.e == 0 && f.f == 0 && f.g == 15 then Some(SetR64(f.c, i64))
    else None
  }

  function DecodeCmp(len: nat, f: Row, i32: u32): Option<Instr>
    requires Fit(f, COMPARE)
  {
    hide Pow2;
    Widths();
    var w := Flag8(f.d);
    if len == 1 then
      if f.f == 1 && f.e == 0 && w.Some? && f.h <= 4 then
        Some(SetCc(f.h, f.g == 1, w.value, f.c, f.b, f.a))
      else if f.f == 1 || f.c != 0 || f.h != 0 then None
      else if f.e == 1 then
        if f.a == 0 then Some(CmpIS(f.g == 1, f.b, f.d)) else None
      else if w.Some? && f.g == 0 then Some(Cmp(w.value, f.b, f.a))
      else None
    else if len == 2 && f.a == 0 && f.c == 0 && f.e == 1 && f.f == 0 && f.g == 0 && f.h == 0 && w.Some? then
      Some(CmpI(w.value, f.b, i32))
    else None
  }

  function DecodeShift(f: Row): Option<Instr>
    requires Fit(f, SHIFT)
  {
    hide Pow2;
    Widths();
    if f.h > 4 || f.d != 0 then None
    else if f.g == 1 then
      if f.a == 0 then Some(ShiftN(f.h, f.f, f.e == 1, f.c, f.b)) else None
    else if f.f == 0 then Some(ShiftR(f.h, f.e == 1, f.c, f.b, f.a))
    else None
  }

  function DecodeUnary(f: Row): Option<Instr>
    requires Fit(f, UNARY)
  {
    hide Pow2;
    Widths();
    if f.a != 0 || f.d != 0 || f.f != 0 then None
    else if f.g == 0 && f.e == 0 then Some(Copy(f.c, f.b))
    else if f.g == 14 && f.e == 1 then Some(Inc(f.c, f.b))
    else if f.g == 15 && f.e == 1 then Some(Dec(f.c, f.b))
    else None
  }

  function DecodeEa(len: nat, f: Row, i32: u32): Option<Ea>
    requires Fit(f, MEMORY)
  {
    hide Pow2;
    Widths();
    if len == 1 then
      if f.f == 0 && f.a == 0 && f.d == 0 then Some(Base(f.b))
      else if f.f == 1 && f.a == 0 then Some(Scaled(f.b, f.d))
      else if f.f == 3 && f.d == 0 then Some(Indexed(f.b, f.a))
      else None
    else if len == 2 && f.a == 0 && f.d == 0 then
      if f.f == 1 then Some(Offset(f.b, i32))
      else if f.f == 2 && f.b == 0 then Some(Absolute(i32))
      else None
    else None
  }

  function DecodeMem(store: bool, len: nat, f: Row, i32: u32): Option<Instr>
    requires Fit(f, MEMORY)
  {
    hide Pow2;
    Widths();
    var ea := DecodeEa(len, f, i32);
    if ea.None? || (f.e == 1 && f.h != 3) then None
    else if !store then Some(Load(f.h, f.g == 1, f.e == 1, f.c, ea.value))
    else if f.g == 0 then Some(Store(f.h, f.e == 1, f.c, ea.value))
    else None
  }

  function DecodeBranch(len: nat, f: Row, i32: u32): Option<Instr>
    requires Fit(f, BRANCH)
  {
    hide Pow2;
    Widths();
    if f.c > 9 || (f.c == 0 && f.b == 1) then None
    else if len == 1 && f.d == 0 && f.e == 1 then Some(Br(f.f == 1, f.c, f.b == 1, f.a))
    else if len == 1 && f.d == 1 && f.e == 0 && f.a < 16 then Some(BrReg(f.f == 1, f.c, f.b == 1, f.a))
    else if len == 2 && f.d == 0 && f.e == 0 && f.a == 0 then Some(BrAbs(f.f == 1, f.c, f.b == 1, i32))
    else None
  }

  function DecodeStack(len: nat, f: Row, i32: u32): Option<Instr>
    requires Fit(f, STACK)
  {
    hide Pow2;
    Widths();
    var src := f.a % 16 == 0 && f.a < 0x100;
    var dst := f.a % 0x100 == 0 && f.a < 0x1000;
    if len == 2 then
      if f.a != 0 then None
      else if f.b == 1 then Some(PushV(i32))
      else if f.b == 5 then Some(AddSp(i32))
      else None
    else if len != 1 then None
    else if f.b == 0 && src then Some(Push(f.a / 16))
    else if f.b == 2 && dst then Some(Pop(f.a / 0x100))
    else if f.b == 3 && dst then Some(GetSp(f.a / 0x100))
    else if f.b == 4 && src then Some(SetSp(f.a / 16))
    else if f.b == 8 then Some(Enter(f.a))
    else if f.a != 0 then None
    else if f.b == 6 then Some(Ret)
    else if f.b == 7 then Some(IRet)
    else if f.b == 9 then Some(Leave)
    else if f.b == 10 then Some(LeaveRet)
    else None
  }

  function DecodeMul(len: nat, f: Row, i32: u32): Option<Instr>
    requires Fit(f, MULDIV)
  {
    hide Pow2;
    Widths();
    var w := Flag8(f.d);
    if f.e != 0 then None
    else if len == 1 && f.h == 0 && w.Some? && !(f.f == 1 && w.value) then
      Some(Mul(f.g == 1, f.f == 1, w.value, f.c, f.b, f.a))
    else if f.f != 0 then None
    else if len == 1 && f.h == 1 && f.d == 0 then Some(Div(f.g == 1, f.c, f.b, f.a))
    else if len == 1 && f.h == 2 && f.d == 0 then Some(Mod(f.g == 1, f.c, f.b, f.a))
    else if f.a != 0 then None
    else if len == 1 && f.h == 3 then Some(MulVS(f.g == 1, f.c, f.b, f.d))
    else if len == 2 && f.h == 0 && f.d == 0 then Some(MulV(f.g == 1, f.c, f.b, i32))
    else None
  }

  function DecodeSys(f: Row): Option<Instr>
    requires Fit(f, SYSTEM)
  {
    hide Pow2;
    Widths();
    if f.a != 0 || f.d != 0 || f.f != 0 then None
    else if f.e == 6 && f.b == 0 then Some(Di(f.c))
    else if f.e == 7 && f.c == 0 then Some(Ei(f.b))
    else if f.b != 0 || f.c != 0 then None
    else if f.e == 0 then Some(Nop)
    else if f.e == 1 then Some(Halt)
    else if f.e == 2 then Some(Wait)
    else if f.e == 4 then Some(Trap)
    else None
  }

  function DecodeFbr(len: nat, f: Row, i32: u32): Option<Instr>
    requires Fit(f, FUSED)
  {
    hide Pow2;
    Widths();
    if len == 1 then
      Some(Fbr(f.f, f.e == 1, f.b, if f.d == 1 then Imm4(f.a) else RegRhs(f.a), f.c))
    else if len == 2 && f.d == 1 && f.a == 0 then
      Some(Fbr(f.f, f.e == 1, f.b, Imm32(i32), f.c))
    else None
  }

  function Layout(cls: nat): Row {
    match cls
    case 1 => ALU
    case 2 => ALU
    case 3 => COMPARE
    case 4 => SHIFT
    case 5 => UNARY
    case 6 => MEMORY
    case 7 => MEMORY
    case 8 => BRANCH
    case 9 => STACK
    case 0xA => MULDIV
    case 0xB => SYSTEM
    case _ => FUSED
  }

  function DecodeClass(cls: nat, len: nat, f: Row, w1: u32, w2: u32): Option<Instr>
    requires Fit(f, Layout(cls))
  {
    hide Pow2;
    if len == 0 then None
    else if cls == 1 && len == 1 then DecodeAlu(f)
    else if cls == 2 then DecodeImm(len, f, w1, w1 + w2 * U32)
    else if cls == 3 then DecodeCmp(len, f, w1)
    else if cls == 4 && len == 1 then DecodeShift(f)
    else if cls == 5 && len == 1 then DecodeUnary(f)
    else if cls == 6 then DecodeMem(false, len, f, w1)
    else if cls == 7 then DecodeMem(true, len, f, w1)
    else if cls == 8 then DecodeBranch(len, f, w1)
    else if cls == 9 then DecodeStack(len, f, w1)
    else if cls == 0xA then DecodeMul(len, f, w1)
    else if cls == 0xB && len == 1 then DecodeSys(f)
    else if cls == 0xD then DecodeFbr(len, f, w1)
    else None
  }

  /** The instruction in word w0, with w1 and w2 the words at PC+4 and PC+8. */
  function Decode(w0: u32, w1: u32, w2: u32): Option<Instr> {
    var h := Fields(w0, HEADER);
    DecodeClass(h.b, h.c, Fields(h.a, Layout(h.b)), w1, w2)
  }
}
