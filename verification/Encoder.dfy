/** The instruction encoders of kasm: word 0 is the or of shifted fields. */
module Encoder {
  import opened Bits
  import opened Isa

  lemma HeaderFits(p: nat, cls: nat, len: nat)
    requires p < Pow2(26) && cls < 16 && len < 4
    ensures Fit(Row(p, cls, len, 0, 0, 0, 0, 0), HEADER)
    ensures Pow2(HEADER.a + HEADER.b + HEADER.c + HEADER.d + HEADER.e + HEADER.f + HEADER.g + HEADER.h) == U32
  {
    hide Pow2;
    Widths();
  }

  function Word(len: nat, cls: nat, v: Row, w: Row): (x: u32)
    requires 1 <= len <= 3 && cls < 16 && Fit(v, w)
    requires w.a + w.b + w.c + w.d + w.e + w.f + w.g + w.h == 26
  {
    hide Pow2, Join, Fit;
    HeaderFits(Join(v, w), cls, len);
    Join(Row(Join(v, w), cls, len, 0, 0, 0, 0, 0), HEADER)
  }

  lemma WordFields(len: nat, cls: nat, v: Row, w: Row)
    requires 1 <= len <= 3 && cls < 16 && Fit(v, w)
    requires w.a + w.b + w.c + w.d + w.e + w.f + w.g + w.h == 26
    ensures var h := Fields(Word(len, cls, v, w), HEADER);
      h.b == cls && h.c == len && Fields(h.a, w) == v
  {
    hide Pow2, Fields, Join, Fit;
    HeaderFits(Join(v, w), cls, len);
  }

  function W8(w: bool): nat { if w then 0x80 else 0 }

  function EncodeEa(size: nat, sgn: nat, aligned: nat, rd: nat, ea: Ea): (f: Row)
    requires size < 4 && sgn < 2 && aligned < 2 && rd < 16
    ensures Fit(f, MEMORY)
  {
    hide Pow2;
    Widths();
    match ea
    case Base(rs1) => Row(0, rs1, rd, 0, aligned, 0, sgn, size)
    case Offset(rs1, _) => Row(0, rs1, rd, 0, aligned, 1, sgn, size)
    case Scaled(rs1, off8) => Row(0, rs1, rd, off8, aligned, 1, sgn, size)
    case Absolute(_) => Row(0, 0, rd, 0, aligned, 2, sgn, size)
    case Indexed(rs1, rs2) => Row(rs2, rs1, rd, 0, aligned, 3, sgn, size)
  }

  function Class(i: Instr): (c: nat)
    ensures c < 16
  {
    match i
    case Alu(_, _, _, _, _) => 1
    case AluI(_, _, _, _, _, _) => 2
    case AluIS(_, _, _, _, _) => 2
    case SetR(_, _, _) => 2
    case SetR64(_, _) => 2
    case LeaPc(_, _) => 2
    case LeaPcS(_, _) => 2
    case Cmp(_, _, _) => 3
    case CmpI(_, _, _) => 3
    case CmpIS(_, _, _) => 3
    case SetCc(_, _, _, _, _, _) => 3
    case ShiftN(_, _, _, _, _) => 4
    case ShiftR(_, _, _, _, _) => 4
    case Copy(_, _) => 5
    case Inc(_, _) => 5
    case Dec(_, _) => 5
    case Load(_, _, _, _, _) => 6
    case Store(_, _, _, _) => 7
    case Br(_, _, _, _) => 8
    case BrAbs(_, _, _, _) => 8
    case BrReg(_, _, _, _) => 8
    case Fbr(_, _, _, _, _) => 0xd
    case Push(_) => 9
    case PushV(_) => 9
    case Pop(_) => 9
    case GetSp(_) => 9
    case SetSp(_) => 9
    case AddSp(_) => 9
    case Ret => 9
    case IRet => 9
    case Enter(_) => 9
    case Leave => 9
    case LeaveRet => 9
    case Mul(_, _, _, _, _, _) => 0xa
    case MulV(_, _, _, _) => 0xa
    case MulVS(_, _, _, _) => 0xa
    case Div(_, _, _, _) => 0xa
    case Mod(_, _, _, _) => 0xa
    case Nop => 0xb
    case Halt => 0xb
    case Wait => 0xb
    case Trap => 0xb
    case Di(_) => 0xb
    case Ei(_) => 0xb
  }

  function AluRow(i: Instr): (r: Row)
    requires Class(i) == 1
    ensures Fit(r, ALU)
  {
    hide Pow2;
    Widths();
    match i
    case Alu(op, w, rd, rs1, rs2) => Row(rs2, rs1, rd, W8(w), 0, B(op <= 3), op, 0)
  }

  function ImmediateRow(i: Instr): (r: Row)
    requires Class(i) == 2
    ensures Fit(r, ALU)
  {
    hide Pow2;
    Widths();
    match i
    case AluI(op, w, sgn, rd, rs1, _) => Row(0, rs1, rd, W8(w), B(sgn), B(op <= 3), op, 0)
    case AluIS(op, sgn, rd, rs1, imm8) => Row(0, rs1, rd, imm8, B(sgn), B(op <= 3), op, 0)
    case SetR(sgn, rd, _) => Row(0, 0, rd, 0, B(sgn), 0, 15, 0)
    case SetR64(rd, _) => Row(0, 0, rd, 0, 0, 0, 15, 0)
    case LeaPc(rd, _) => Row(0, 0, rd, 0, 0, 0, 14, 0)
    case LeaPcS(rd, d) => Row(d % 16, d / 16 % 16, rd, d / 0x100, 0, 1, 14, 0)
  }

  function CompareRow(i: Instr): (r: Row)
    requires Class(i) == 3
    ensures Fit(r, COMPARE)
  {
    hide Pow2;
    Widths();
    match i
    case Cmp(w, rs1, rs2) => Row(rs2, rs1, 0, W8(w), 0, 0, 0, 0)
    case CmpI(w, rs1, _) => Row(0, rs1, 0, W8(w), 1, 0, 0, 0)
    case CmpIS(w, rs1, imm8) => Row(0, rs1, 0, imm8, 1, 0, B(w), 0)
    case SetCc(pred, inv, w, rd, rs1, rs2) => Row(rs2, rs1, rd, W8(w), 0, 1, B(inv), pred)
  }

  function ShiftRow(i: Instr): (r: Row)
    requires Class(i) == 4
    ensures Fit(r, SHIFT)
  {
    hide Pow2;
    Widths();
    match i
    case ShiftN(sop, c, f, rd, rs1) => Row(0, rs1, rd, 0, B(f), c, 1, sop)
    case ShiftR(sop, f, rd, rs1, rs2) => Row(rs2, rs1, rd, 0, B(f), 0, 0, sop)
  }

  function UnaryRow(i: Instr): (r: Row)
    requires Class(i) == 5
    ensures Fit(r, UNARY)
  {
    hide Pow2;
    Widths();
    match i
    case Copy(rd, rs1) => Row(0, rs1, rd, 0, 0, 0, 0, 0)
    case Inc(rd, rs1) => Row(0, rs1, rd, 0, 1, 0, 14, 0)
    case Dec(rd, rs1) => Row(0, rs1, rd, 0, 1, 0, 15, 0)
  }

  function MemoryRow(i: Instr): (r: Row)
    requires Class(i) == 6 || Class(i) == 7
    ensures Fit(r, MEMORY)
  {
    hide Pow2;
    Widths();
    match i
    case Load(size, sgn, aligned, rd, ea) => EncodeEa(size, B(sgn), B(aligned), rd, ea)
    case Store(size, aligned, rd, ea) => EncodeEa(size, 0, B(aligned), rd, ea)
  }

  function BranchRow(i: Instr): (r: Row)
    requires Class(i) == 8
    ensures Fit(r, BRANCH)
  {
    hide Pow2;
    Widths();
    match i
    case Br(link, cond, inv, disp) => Row(disp, B(inv), cond, 0, 1, B(link), 0, 0)
    case BrAbs(link, cond, inv, _) => Row(0, B(inv), cond, 0, 0, B(link), 0, 0)
    case BrReg(link, cond, inv, rs2) => Row(rs2, B(inv), cond, 1, 0, B(link), 0, 0)
  }

  function FusedRow(i: Instr): (r: Row)
    requires Class(i) == 0xD
    ensures Fit(r, FUSED)
  {
    hide Pow2;
    Widths();
    match i
    case Fbr(pred, inv, rs1, RegRhs(rs2), disp) => Row(rs2, rs1, disp, 0, B(inv), pred, 0, 0)
    case Fbr(pred, inv, rs1, Imm4(imm4), disp) => Row(imm4, rs1, disp, 1, B(inv), pred, 0, 0)
    case Fbr(pred, inv, rs1, Imm32(_), disp) => Row(0, rs1, disp, 1, B(inv), pred, 0, 0)
  }

  function StackRow(i: Instr): (r: Row)
    requires Class(i) == 9
    ensures Fit(r, STACK)
  {
    hide Pow2;
    Widths();
    match i
    case Push(rs1) => Row(rs1 * 16, 0, 0, 0, 0, 0, 0, 0)
    case PushV(_) => Row(0, 1, 0, 0, 0, 0, 0, 0)
    case Pop(rd) => Row(rd * 0x100, 2, 0, 0, 0, 0, 0, 0)
    case GetSp(rd) => Row(rd * 0x100, 3, 0, 0, 0, 0, 0, 0)
    case SetSp(rs1) => Row(rs1 * 16, 4, 0, 0, 0, 0, 0, 0)
    case AddSp(_) => Row(0, 5, 0, 0, 0, 0, 0, 0)
    case Ret => Row(0, 6, 0, 0, 0, 0, 0, 0)
    case IRet => Row(0, 7, 0, 0, 0, 0, 0, 0)
    case Enter(locals) => Row(locals, 8, 0, 0, 0, 0, 0, 0)
    case Leave => Row(0, 9, 0, 0, 0, 0, 0, 0)
    case LeaveRet => Row(0, 10, 0, 0, 0, 0, 0, 0)
  }

  function MulDivRow(i: Instr): (r: Row)
    requires Class(i) == 0xA
    ensures Fit(r, MULDIV)
  {
    hide Pow2;
    Widths();
    match i
    case Mul(sgn, high, w, rd, rs1, rs2) => Row(rs2, rs1, rd, W8(w), 0, B(high), B(sgn), 0)
    case MulV(sgn, rd, rs1, _) => Row(0, rs1, rd, 0, 0, 0, B(sgn), 0)
    case MulVS(sgn, rd, rs1, imm8) => Row(0, rs1, rd, imm8, 0, 0, B(sgn), 3)
    case Div(sgn, rd, rs1, rs2) => Row(rs2, rs1, rd, 0, 0, 0, B(sgn), 1)
    case Mod(sgn, rd, rs1, rs2) => Row(rs2, rs1, rd, 0, 0, 0, B(sgn), 2)
  }

  function SystemRow(i: Instr): (r: Row)
    requires Class(i) == 0xB
    ensures Fit(r, SYSTEM)
  {
    hide Pow2;
    Widths();
    match i
    case Nop => Row(0, 0, 0, 0, 0, 0, 0, 0)
    case Halt => Row(0, 0, 0, 0, 1, 0, 0, 0)
    case Wait => Row(0, 0, 0, 0, 2, 0, 0, 0)
    case Trap => Row(0, 0, 0, 0, 4, 0, 0, 0)
    case Di(rd) => Row(0, 0, rd, 0, 6, 0, 0, 0)
    case Ei(rs1) => Row(0, rs1, 0, 0, 7, 0, 0, 0)
  }

  function Attributes(i: Instr): (r: Row)
    ensures Fit(r, Layout(Class(i)))
  {
    hide Pow2;
    var c := Class(i);
    if c == 1 then AluRow(i)
    else if c == 2 then ImmediateRow(i)
    else if c == 3 then CompareRow(i)
    else if c == 4 then ShiftRow(i)
    else if c == 5 then UnaryRow(i)
    else if c == 6 || c == 7 then MemoryRow(i)
    else if c == 8 then BranchRow(i)
    else if c == 9 then StackRow(i)
    else if c == 0xA then MulDivRow(i)
    else if c == 0xB then SystemRow(i)
    else FusedRow(i)
  }

  function FirstWord(i: Instr): u32 {
    hide Pow2, Attributes, Words;
    Word(Words(i), Class(i), Attributes(i), Layout(Class(i)))
  }

  /** The word at PC+4 of a long form. */
  function SecondWord(i: Instr): u32 {
    match i
    case AluI(_, _, _, _, _, imm) => imm
    case SetR(_, _, imm) => imm
    case SetR64(_, imm64) => imm64 % U32
    case LeaPc(_, imm) => imm
    case CmpI(_, _, imm) => imm
    case MulV(_, _, _, imm) => imm
    case Load(_, _, _, _, Offset(_, off)) => off
    case Load(_, _, _, _, Absolute(addr)) => addr
    case Store(_, _, _, Offset(_, off)) => off
    case Store(_, _, _, Absolute(addr)) => addr
    case BrAbs(_, _, _, tgt) => tgt
    case Fbr(_, _, _, Imm32(imm), _) => imm
    case PushV(imm) => imm
    case AddSp(imm) => imm
    case _ => 0
  }

  function ThirdWord(i: Instr): u32 {
    if i.SetR64? then i.imm64 / U32 else 0
  }

  function Encode(i: Instr): (ws: seq<u32>)
    ensures |ws| == Words(i)
  {
    hide *;
    [FirstWord(i), SecondWord(i), ThirdWord(i)][..Words(i)]
  }

  // ---- decoding what was encoded

  ghost predicate Follows(i: Instr, w1: u32, w2: u32) {
    (Words(i) >= 2 ==> w1 == SecondWord(i)) && (Words(i) >= 3 ==> w2 == ThirdWord(i))
  }

  lemma DecodeAlu(i: Instr, w1: u32, w2: u32)
    requires Legal(i) && Follows(i, w1, w2)
    requires Class(i) == 1
    ensures DecodeClass(Class(i), Words(i), Attributes(i), w1, w2) == Some(i)
  {
    hide Pow2, Fields;
    Widths();
  }

  lemma NibblesOf(d: u16)
    ensures d / 0x100 * 0x100 + d / 16 % 16 * 0x10 + d % 16 == d && d / 0x100 < 0x100
  {
  }

  lemma DecodeShortImm(i: Instr, w1: u32, w2: u32)
    requires Legal(i) && Follows(i, w1, w2)
    requires Class(i) == 2 && Words(i) == 1
    ensures DecodeClass(Class(i), Words(i), Attributes(i), w1, w2) == Some(i)
  {
    hide Pow2, Fields;
    Widths();
    if i.LeaPcS? {
      NibblesOf(i.simm16);
    }
  }

  lemma DecodeLongImm(i: Instr, w1: u32, w2: u32)
    requires Legal(i) && Follows(i, w1, w2)
    requires Class(i) == 2 && Words(i) > 1
    ensures DecodeClass(Class(i), Words(i), Attributes(i), w1, w2) == Some(i)
  {
    hide Pow2, Fields;
    Widths();
  }

  lemma DecodeCompare(i: Instr, w1: u32, w2: u32)
    requires Legal(i) && Follows(i, w1, w2)
    requires Class(i) == 3
    ensures DecodeClass(Class(i), Words(i), Attributes(i), w1, w2) == Some(i)
  {
    hide Pow2;
    Widths();
  }

  lemma DecodeShift(i: Instr, w1: u32, w2: u32)
    requires Legal(i) && Follows(i, w1, w2)
    requires Class(i) == 4
    ensures DecodeClass(Class(i), Words(i), Attributes(i), w1, w2) == Some(i)
  {
    hide Pow2;
    Widths();
  }

  lemma DecodeUnary(i: Instr, w1: u32, w2: u32)
    requires Legal(i) && Follows(i, w1, w2)
    requires Class(i) == 5
    ensures DecodeClass(Class(i), Words(i), Attributes(i), w1, w2) == Some(i)
  {
    hide Pow2;
    Widths();
  }

  lemma DecodeMemory(i: Instr, w1: u32, w2: u32)
    requires Legal(i) && Follows(i, w1, w2)
    requires Class(i) == 6 || Class(i) == 7
    ensures DecodeClass(Class(i), Words(i), Attributes(i), w1, w2) == Some(i)
  {
    hide Pow2;
    Widths();
  }

  lemma DecodeBranch(i: Instr, w1: u32, w2: u32)
    requires Legal(i) && Follows(i, w1, w2)
    requires Class(i) == 8
    ensures DecodeClass(Class(i), Words(i), Attributes(i), w1, w2) == Some(i)
  {
    hide Pow2;
    Widths();
  }

  lemma DecodeStack(i: Instr, w1: u32, w2: u32)
    requires Legal(i) && Follows(i, w1, w2)
    requires Class(i) == 9
    ensures DecodeClass(Class(i), Words(i), Attributes(i), w1, w2) == Some(i)
  {
    hide Pow2;
    Widths();
  }

  lemma DecodeMulDiv(i: Instr, w1: u32, w2: u32)
    requires Legal(i) && Follows(i, w1, w2)
    requires Class(i) == 0xA
    ensures DecodeClass(Class(i), Words(i), Attributes(i), w1, w2) == Some(i)
  {
    hide Pow2;
    Widths();
  }

  lemma DecodeSystem(i: Instr, w1: u32, w2: u32)
    requires Legal(i) && Follows(i, w1, w2)
    requires Class(i) == 0xB
    ensures DecodeClass(Class(i), Words(i), Attributes(i), w1, w2) == Some(i)
  {
    hide Pow2;
    Widths();
  }

  lemma DecodeFused(i: Instr, w1: u32, w2: u32)
    requires Legal(i) && Follows(i, w1, w2)
    requires Class(i) == 0xD
    ensures DecodeClass(Class(i), Words(i), Attributes(i), w1, w2) == Some(i)
  {
    hide Pow2;
    Widths();
  }

  /** Decoding an encoded instruction gives it back, whatever follows it. */
  lemma DecodeEncode(i: Instr, w1: u32, w2: u32)
    requires Legal(i) && Follows(i, w1, w2)
    ensures Decode(FirstWord(i), w1, w2) == Some(i)
  {
    hide Pow2, DecodeClass, Attributes, Words, SecondWord, ThirdWord, Fields, Word;
    var c := Class(i);
    LayoutWidth(c);
    WordFields(Words(i), c, Attributes(i), Layout(c));
    if c == 1 {
      DecodeAlu(i, w1, w2);
    } else if c == 2 {
      if Words(i) == 1 {
        DecodeShortImm(i, w1, w2);
      } else {
        DecodeLongImm(i, w1, w2);
      }
    } else if c == 3 {
      DecodeCompare(i, w1, w2);
    } else if c == 4 {
      DecodeShift(i, w1, w2);
    } else if c == 5 {
      DecodeUnary(i, w1, w2);
    } else if c == 6 || c == 7 {
      DecodeMemory(i, w1, w2);
    } else if c == 8 {
      DecodeBranch(i, w1, w2);
    } else if c == 9 {
      DecodeStack(i, w1, w2);
    } else if c == 0xA {
      DecodeMulDiv(i, w1, w2);
    } else if c == 0xB {
      DecodeSystem(i, w1, w2);
    } else {
      DecodeFused(i, w1, w2);
    }
  }

  // ---- encoding what was decoded

  lemma Nibbles(a: u4, b: u4, c: u8)
    ensures var d := c * 0x100 + b * 0x10 + a;
      d % 16 == a && d / 16 % 16 == b && d / 0x100 == c
  {
  }

  lemma StrictShortImm(cls: nat, len: nat, f: Row, w1: u32, w2: u32, i: Instr)
    requires Fit(f, Layout(cls)) && len <= 3 && cls == 2 && len <= 1
    requires DecodeClass(cls, len, f, w1, w2) == Some(i)
    ensures Legal(i) && Follows(i, w1, w2)
    ensures Class(i) == cls && Words(i) == len && Attributes(i) == f
  {
    hide Pow2, Fields;
    Widths();
    Nibbles(f.a, f.b, f.d);
  }

  lemma StrictLongImm(cls: nat, len: nat, f: Row, w1: u32, w2: u32, i: Instr)
    requires Fit(f, Layout(cls)) && len <= 3 && cls == 2 && len >= 2
    requires DecodeClass(cls, len, f, w1, w2) == Some(i)
    ensures Legal(i) && Follows(i, w1, w2)
    ensures Class(i) == cls && Words(i) == len && Attributes(i) == f
  {
    hide Pow2;
    Widths();
  }

  lemma StrictCompare(cls: nat, len: nat, f: Row, w1: u32, w2: u32, i: Instr)
    requires Fit(f, Layout(cls)) && len <= 3 && (cls == 3)
    requires DecodeClass(cls, len, f, w1, w2) == Some(i)
    ensures Legal(i) && Follows(i, w1, w2)
    ensures Class(i) == cls && Words(i) == len && Attributes(i) == f
  {
    hide Pow2;
    Widths();
  }

  lemma StrictShift(cls: nat, len: nat, f: Row, w1: u32, w2: u32, i: Instr)
    requires Fit(f, Layout(cls)) && len <= 3 && (cls == 4 || cls == 5)
    requires DecodeClass(cls, len, f, w1, w2) == Some(i)
    ensures Legal(i) && Follows(i, w1, w2)
    ensures Class(i) == cls && Words(i) == len && Attributes(i) == f
  {
    hide Pow2;
    Widths();
  }

  lemma StrictMemory(cls: nat, len: nat, f: Row, w1: u32, w2: u32, i: Instr)
    requires Fit(f, Layout(cls)) && len <= 3 && (cls == 6 || cls == 7)
    requires DecodeClass(cls, len, f, w1, w2) == Some(i)
    ensures Legal(i) && Follows(i, w1, w2)
    ensures Class(i) == cls && Words(i) == len && Attributes(i) == f
  {
    hide Pow2;
    Widths();
  }

  lemma StrictBranch(cls: nat, len: nat, f: Row, w1: u32, w2: u32, i: Instr)
    requires Fit(f, Layout(cls)) && len <= 3 && (cls == 8)
    requires DecodeClass(cls, len, f, w1, w2) == Some(i)
    ensures Legal(i) && Follows(i, w1, w2)
    ensures Class(i) == cls && Words(i) == len && Attributes(i) == f
  {
    hide Pow2;
    Widths();
  }

  lemma StrictStack(cls: nat, len: nat, f: Row, w1: u32, w2: u32, i: Instr)
    requires Fit(f, Layout(cls)) && len <= 3 && (cls == 9)
    requires DecodeClass(cls, len, f, w1, w2) == Some(i)
    ensures Legal(i) && Follows(i, w1, w2)
    ensures Class(i) == cls && Words(i) == len && Attributes(i) == f
  {
    hide Pow2;
    Widths();
  }

  lemma StrictMulDiv(cls: nat, len: nat, f: Row, w1: u32, w2: u32, i: Instr)
    requires Fit(f, Layout(cls)) && len <= 3 && (cls == 0xA)
    requires DecodeClass(cls, len, f, w1, w2) == Some(i)
    ensures Legal(i) && Follows(i, w1, w2)
    ensures Class(i) == cls && Words(i) == len && Attributes(i) == f
  {
    hide Pow2;
    Widths();
  }

  lemma StrictSystem(cls: nat, len: nat, f: Row, w1: u32, w2: u32, i: Instr)
    requires Fit(f, Layout(cls)) && len <= 3 && cls == 0xB
    requires DecodeClass(cls, len, f, w1, w2) == Some(i)
    ensures Legal(i) && Follows(i, w1, w2)
    ensures Class(i) == cls && Words(i) == len && Attributes(i) == f
  {
    hide Pow2;
    Widths();
  }

  lemma StrictRest(cls: nat, len: nat, f: Row, w1: u32, w2: u32, i: Instr)
    requires Fit(f, Layout(cls)) && len <= 3 && (cls <= 1 || cls > 0xB)
    requires DecodeClass(cls, len, f, w1, w2) == Some(i)
    ensures Legal(i) && Follows(i, w1, w2)
    ensures Class(i) == cls && Words(i) == len && Attributes(i) == f
  {
    hide Pow2;
    Widths();
  }

  lemma Strict(cls: nat, len: nat, f: Row, w1: u32, w2: u32, i: Instr)
    requires Fit(f, Layout(cls)) && len <= 3
    requires DecodeClass(cls, len, f, w1, w2) == Some(i)
    ensures Legal(i) && Follows(i, w1, w2)
    ensures Class(i) == cls && Words(i) == len && Attributes(i) == f
  {
    hide *;
    if cls == 2 {
      if len <= 1 {
        StrictShortImm(cls, len, f, w1, w2, i);
      } else {
        StrictLongImm(cls, len, f, w1, w2, i);
      }
    } else if cls == 3 {
      StrictCompare(cls, len, f, w1, w2, i);
    } else if cls == 4 || cls == 5 {
      StrictShift(cls, len, f, w1, w2, i);
    } else if cls == 6 || cls == 7 {
      StrictMemory(cls, len, f, w1, w2, i);
    } else if cls == 8 {
      StrictBranch(cls, len, f, w1, w2, i);
    } else if cls == 9 {
      StrictStack(cls, len, f, w1, w2, i);
    } else if cls == 0xA {
      StrictMulDiv(cls, len, f, w1, w2, i);
    } else if cls == 0xB {
      StrictSystem(cls, len, f, w1, w2, i);
    } else {
      StrictRest(cls, len, f, w1, w2, i);
    }
  }

  lemma LayoutWidth(cls: nat)
    ensures var w := Layout(cls); w.a + w.b + w.c + w.d + w.e + w.f + w.g + w.h == 26
  {
  }

  /** The decoder is strict: it accepts exactly the words that encode a legal
      instruction, so no two words mean the same instruction. */
  lemma EncodeDecode(w0: u32, w1: u32, w2: u32, i: Instr)
    requires Decode(w0, w1, w2) == Some(i)
    ensures Legal(i) && Follows(i, w1, w2) && FirstWord(i) == w0
  {
    hide Pow2, DecodeClass, Attributes, Words, Fields, Layout, Class, Join, Legal, Follows;
    Widths();
    var h := Fields(w0, HEADER);
    var f := Fields(h.a, Layout(h.b));
    Strict(h.b, h.c, f, w1, w2, i);
    LayoutWidth(h.b);
    JoinFields(h.a, Layout(h.b));
    JoinFields(w0, HEADER);
    assert h == Row(h.a, h.b, h.c, 0, 0, 0, 0, 0);
  }
}
