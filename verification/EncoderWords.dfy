/** kasm's words as numbers: class, operation and field weights of every form written
    out, without the field layouts that the encoder and the decoder share. */
module EncoderWords {
  import opened Bits
  import opened Isa
  import opened Encoder

  /** A field of n bits below the others. */
  function Place(x: nat, n: nat, rest: nat): nat { x + rest * Pow2(n) }

  /** Or-ing shifted fields adds them. */
  lemma FieldsAdd(vs: seq<nat>, ws: seq<nat>)
    requires FieldsFit(vs, ws) && vs != []
    ensures OrFields(vs, ws) == Place(vs[0], ws[0], OrFields(vs[1..], ws[1..]))
  {
    OrDisjoint(vs[0], OrFields(vs[1..], ws[1..]), ws[0]);
  }

  function Sum8(v: Row, w: Row): nat {
    Place(v.a, w.a, Place(v.b, w.b, Place(v.c, w.c, Place(v.d, w.d,
      Place(v.e, w.e, Place(v.f, w.f, Place(v.g, w.g, Place(v.h, w.h, 0))))))))
  }

  lemma JoinAdds(v: Row, w: Row)
    requires Fit(v, w)
    ensures Join(v, w) == Sum8(v, w)
  {
    hide Pow2, OrFields, Fields, Place, Join, Fit;
    RowFits(v, w);
    JoinIsOr(v, w);
    var vs, ws := v.Items(), w.Items();
    forall k | 0 <= k < 8
      ensures OrFields(vs[k..], ws[k..]) == Place(vs[k], ws[k], OrFields(vs[k + 1..], ws[k + 1..]))
    {
      FieldsFrom(vs, ws, k);
    }
    NoFields();
    assert vs[8..] == [] && ws[8..] == [] && vs[0..] == vs && ws[0..] == ws;
    Nested(vs, ws);
  }

  lemma Nested(vs: seq<nat>, ws: seq<nat>)
    requires |vs| == |ws| == 8 && OrFields(vs[8..], ws[8..]) == 0
    requires forall k :: 0 <= k < 8 ==> OrFields(vs[k..], ws[k..]) == Place(vs[k], ws[k], OrFields(vs[k + 1..], ws[k + 1..]))
    ensures OrFields(vs[0..], ws[0..]) == Place(vs[0], ws[0], Place(vs[1], ws[1], Place(vs[2], ws[2], Place(vs[3], ws[3],
      Place(vs[4], ws[4], Place(vs[5], ws[5], Place(vs[6], ws[6], Place(vs[7], ws[7], 0))))))))
  {
    hide OrFields, Place;
    assert OrFields(vs[7..], ws[7..]) == Place(vs[7], ws[7], OrFields(vs[7 + 1..], ws[7 + 1..]));
    assert OrFields(vs[6..], ws[6..]) == Place(vs[6], ws[6], OrFields(vs[6 + 1..], ws[6 + 1..]));
    assert OrFields(vs[5..], ws[5..]) == Place(vs[5], ws[5], OrFields(vs[5 + 1..], ws[5 + 1..]));
    assert OrFields(vs[4..], ws[4..]) == Place(vs[4], ws[4], OrFields(vs[4 + 1..], ws[4 + 1..]));
    assert OrFields(vs[3..], ws[3..]) == Place(vs[3], ws[3], OrFields(vs[3 + 1..], ws[3 + 1..]));
    assert OrFields(vs[2..], ws[2..]) == Place(vs[2], ws[2], OrFields(vs[2 + 1..], ws[2 + 1..]));
    assert OrFields(vs[1..], ws[1..]) == Place(vs[1], ws[1], OrFields(vs[1 + 1..], ws[1 + 1..]));
    assert OrFields(vs[0..], ws[0..]) == Place(vs[0], ws[0], OrFields(vs[0 + 1..], ws[0 + 1..]));
  }

  lemma FieldsFrom(vs: seq<nat>, ws: seq<nat>, k: nat)
    requires FieldsFit(vs, ws) && k < |vs|
    ensures OrFields(vs[k..], ws[k..]) == Place(vs[k], ws[k], OrFields(vs[k + 1..], ws[k + 1..]))
  {
    hide Pow2, OrFields, Place;
    FieldsAdd(vs[k..], ws[k..]);
    assert vs[k..][1..] == vs[k + 1..] && ws[k..][1..] == ws[k + 1..];
  }

  lemma JoinIsOr(v: Row, w: Row)
    requires Fit(v, w)
    ensures Join(v, w) == OrFields(v.Items(), w.Items())
  {
    hide Pow2, OrFields, Fields;
  }

  lemma NoFields()
    ensures OrFields([], []) == 0
  {
  }

  lemma Placed(x: nat, n: nat, rest: nat, p: nat)
    requires Pow2(n) == p
    ensures Place(x, n, rest) == x + p * rest
  {
    hide Pow2;
  }

  /** With p, q, .. the weights of the fields' widths. */
  lemma Weighed(v: Row, w: Row, pa: nat, pb: nat, pc: nat, pd: nat, pe: nat, pf: nat, pg: nat)
    requires Pow2(w.a) == pa && Pow2(w.b) == pb && Pow2(w.c) == pc && Pow2(w.d) == pd
    requires Pow2(w.e) == pe && Pow2(w.f) == pf && Pow2(w.g) == pg
    ensures Sum8(v, w) == v.a + pa * (v.b + pb * (v.c + pc * (v.d + pd * (v.e + pe * (v.f + pf * (v.g + pg * v.h))))))
  {
    hide Pow2, Place;
    var h := Place(v.h, w.h, 0);
    assert h == v.h by { Placed(v.h, w.h, 0, Pow2(w.h)); }
    var g := Place(v.g, w.g, h);
    Placed(v.g, w.g, h, pg);
    var f := Place(v.f, w.f, g);
    Placed(v.f, w.f, g, pf);
    var e := Place(v.e, w.e, f);
    Placed(v.e, w.e, f, pe);
    var d := Place(v.d, w.d, e);
    Placed(v.d, w.d, e, pd);
    var c := Place(v.c, w.c, d);
    Placed(v.c, w.c, d, pc);
    var b := Place(v.b, w.b, c);
    Placed(v.b, w.b, c, pb);
    Placed(v.a, w.a, b, pa);
  }

  lemma HeaderAdds(x: nat, cls: nat, len: nat)
    ensures Sum8(Row(x, cls, len, 0, 0, 0, 0, 0), HEADER) == 0x4000_0000 * len + 0x400_0000 * cls + x
  {
    hide Pow2, Sum8;
    Widths();
    Weighed(Row(x, cls, len, 0, 0, 0, 0, 0), HEADER, 0x400_0000, 16, 4, 1, 1, 1, 1);
  }

  /** LEN, CLASS and 26 attribute bits. */
  lemma WordAdds(len: nat, cls: nat, v: Row, w: Row)
    requires 1 <= len <= 3 && cls < 16 && Fit(v, w)
    requires w.a + w.b + w.c + w.d + w.e + w.f + w.g + w.h == 26
    ensures Word(len, cls, v, w) == 0x4000_0000 * len + 0x400_0000 * cls + Sum8(v, w)
  {
    hide Pow2, Join, Fit, Sum8, Fields, OrFields;
    HeaderFits(Join(v, w), cls, len);
    JoinAdds(Row(Join(v, w), cls, len, 0, 0, 0, 0, 0), HEADER);
    JoinAdds(v, w);
    HeaderAdds(Join(v, w), cls, len);
  }

  lemma FirstAdds(i: Instr)
    ensures FirstWord(i) == 0x4000_0000 * Words(i) + 0x400_0000 * Class(i) + Sum8(Attributes(i), Layout(Class(i)))
  {
    hide Pow2, Join, Fit, Sum8, Attributes, Words, Word, Class;
    LayoutWidth(Class(i));
    WordAdds(Words(i), Class(i), Attributes(i), Layout(Class(i)));
  }

  // ---- the weights of each layout

  lemma RowOf(i: Instr)
    ensures Class(i) == 6 || Class(i) == 7 ==> Attributes(i) == MemoryRow(i)
    ensures Class(i) == 9 ==> Attributes(i) == StackRow(i)
    ensures Class(i) == 0xA ==> Attributes(i) == MulDivRow(i)
    ensures Class(i) == 0xB ==> Attributes(i) == SystemRow(i)
  {
    hide Pow2, Class, MemoryRow, StackRow, MulDivRow, SystemRow;
  }

  /** Fields of width 0 are 0. */
  lemma Unused(i: Instr)
    ensures var v, w := Attributes(i), Layout(Class(i));
      && (w.c == 0 ==> v.c == 0) && (w.d == 0 ==> v.d == 0) && (w.e == 0 ==> v.e == 0)
      && (w.f == 0 ==> v.f == 0) && (w.g == 0 ==> v.g == 0) && (w.h == 0 ==> v.h == 0)
  {
    hide Attributes, Class, Pow2;
    Widths();
  }

  function Head(i: Instr): int { 0x4000_0000 * Words(i) + 0x400_0000 * Class(i) }

  lemma AluWeights(i: Instr)
    requires Class(i) == 1 || Class(i) == 2
    ensures var v := Attributes(i);
      FirstWord(i) == Head(i) + v.a + 0x10 * v.b + 0x100 * v.c + 0x1000 * v.d + 0x10_0000 * v.e + 0x20_0000 * v.f + 0x40_0000 * v.g
  {
    hide Pow2, Sum8, Attributes, FirstWord, Words, Class;
    FirstAdds(i);
    Widths();
    Weighed(Attributes(i), ALU, 16, 16, 16, 0x100, 2, 2, 16);
    Unused(i);
  }

  lemma CompareWeights(i: Instr)
    requires Class(i) == 3
    ensures var v := Attributes(i);
      FirstWord(i) == Head(i) + v.a + 0x10 * v.b + 0x100 * v.c + 0x1000 * v.d + 0x10_0000 * v.e + 0x20_0000 * v.f + 0x40_0000 * v.g + 0x80_0000 * v.h
  {
    hide Pow2, Sum8, Attributes, FirstWord, Words, Class;
    FirstAdds(i);
    Widths();
    Weighed(Attributes(i), COMPARE, 16, 16, 16, 0x100, 2, 2, 2);
    Unused(i);
  }

  lemma ShiftWeights(i: Instr)
    requires Class(i) == 4
    ensures var v := Attributes(i);
      FirstWord(i) == Head(i) + v.a + 0x10 * v.b + 0x100 * v.c + 0x1000 * v.d + 0x4000 * v.e + 0x8000 * v.f + 0x20_0000 * v.g + 0x40_0000 * v.h
  {
    hide Pow2, Sum8, Attributes, FirstWord, Words, Class;
    FirstAdds(i);
    Widths();
    Weighed(Attributes(i), SHIFT, 16, 16, 16, 4, 2, 0x40, 2);
    Unused(i);
  }

  lemma UnaryWeights(i: Instr)
    requires Class(i) == 5
    ensures var v := Attributes(i);
      FirstWord(i) == Head(i) + v.a + 0x10 * v.b + 0x100 * v.c + 0x1000 * v.d + 0x8_0000 * v.e + 0x10_0000 * v.f + 0x40_0000 * v.g
  {
    hide Pow2, Sum8, Attributes, FirstWord, Words, Class;
    FirstAdds(i);
    Widths();
    Weighed(Attributes(i), UNARY, 16, 16, 16, 0x80, 2, 4, 16);
    Unused(i);
  }

  lemma MemoryWeights(i: Instr)
    requires Class(i) == 6 || Class(i) == 7
    ensures var v := Attributes(i);
      FirstWord(i) == Head(i) + v.a + 0x10 * v.b + 0x100 * v.c + 0x1000 * v.d + 0x10_0000 * v.e + 0x20_0000 * v.f + 0x80_0000 * v.g + 0x100_0000 * v.h
  {
    hide Pow2, Sum8, Attributes, FirstWord, Words, Class;
    FirstAdds(i);
    Widths();
    Weighed(Attributes(i), MEMORY, 16, 16, 16, 0x100, 2, 4, 2);
    Unused(i);
  }

  lemma BranchWeights(i: Instr)
    requires Class(i) == 8
    ensures var v := Attributes(i);
      FirstWord(i) == Head(i) + v.a + 0x4_0000 * v.b + 0x8_0000 * v.c + 0x80_0000 * v.d + 0x100_0000 * v.e + 0x200_0000 * v.f
  {
    hide Pow2, Sum8, Attributes, FirstWord, Words, Class;
    FirstAdds(i);
    Widths();
    Weighed(Attributes(i), BRANCH, 0x4_0000, 2, 16, 2, 2, 2, 1);
    Unused(i);
  }

  lemma StackWeights(i: Instr)
    requires Class(i) == 9
    ensures var v := Attributes(i);
      FirstWord(i) == Head(i) + v.a + 0x40_0000 * v.b
  {
    hide Pow2, Sum8, Attributes, FirstWord, Words, Class;
    FirstAdds(i);
    Widths();
    Weighed(Attributes(i), STACK, 0x40_0000, 16, 1, 1, 1, 1, 1);
    Unused(i);
  }

  lemma MuldivWeights(i: Instr)
    requires Class(i) == 0xA
    ensures var v := Attributes(i);
      FirstWord(i) == Head(i) + v.a + 0x10 * v.b + 0x100 * v.c + 0x1000 * v.d + 0x10_0000 * v.e + 0x40_0000 * v.f + 0x80_0000 * v.g + 0x100_0000 * v.h
  {
    hide Pow2, Sum8, Attributes, FirstWord, Words, Class;
    FirstAdds(i);
    Widths();
    Weighed(Attributes(i), MULDIV, 16, 16, 16, 0x100, 4, 2, 2);
    Unused(i);
  }

  lemma SystemWeights(i: Instr)
    requires Class(i) == 0xB
    ensures var v := Attributes(i);
      FirstWord(i) == Head(i) + v.a + 0x10 * v.b + 0x100 * v.c + 0x1000 * v.d + 0x1_0000 * v.e + 0x40_0000 * v.f
  {
    hide Pow2, Sum8, Attributes, FirstWord, Words, Class;
    FirstAdds(i);
    Widths();
    Weighed(Attributes(i), SYSTEM, 16, 16, 16, 16, 0x40, 16, 1);
    Unused(i);
  }

  lemma FusedWeights(i: Instr)
    requires Class(i) == 0xD
    ensures var v := Attributes(i);
      FirstWord(i) == Head(i) + v.a + 0x10 * v.b + 0x100 * v.c + 0x20_0000 * v.d + 0x40_0000 * v.e + 0x80_0000 * v.f
  {
    hide Pow2, Sum8, Attributes, FirstWord, Words, Class;
    FirstAdds(i);
    Widths();
    Weighed(Attributes(i), FUSED, 16, 16, 0x2000, 2, 2, 8, 1);
    Unused(i);
  }

  lemma OneWord(i: Instr)
    requires Words(i) == 1
    ensures Encode(i) == [FirstWord(i)]
  {
    hide FirstWord, SecondWord, ThirdWord, Words;
  }

  lemma TwoWords(i: Instr)
    requires Words(i) == 2
    ensures Encode(i) == [FirstWord(i), SecondWord(i)]
  {
    hide FirstWord, SecondWord, ThirdWord, Words;
  }

  lemma ThreeWords(i: Instr)
    requires Words(i) == 3
    ensures Encode(i) == [FirstWord(i), SecondWord(i), ThirdWord(i)]
  {
    hide FirstWord, SecondWord, ThirdWord, Words;
  }

  lemma ByLength(i: Instr)
    ensures Words(i) == 1 ==> Encode(i) == [FirstWord(i)]
    ensures Words(i) == 2 ==> Encode(i) == [FirstWord(i), SecondWord(i)]
    ensures Words(i) == 3 ==> Encode(i) == [FirstWord(i), SecondWord(i), ThirdWord(i)]
  {
    hide *;
    if Words(i) == 1 {
      OneWord(i);
    } else if Words(i) == 2 {
      TwoWords(i);
    } else if Words(i) == 3 {
      ThreeWords(i);
    }
  }

  // ---- the words of every form, as kasm writes them

  lemma AluWords(i: Instr)
    requires i.Alu?
    ensures match i
      case Alu(op, w, rd, rs1, rs2) =>
        Encode(i) == [0x4400_0000 + 0x40_0000 * op + 0x20_0000 * B(op <= 3) + 0x8_0000 * B(w) + 0x100 * rd + 0x10 * rs1 + rs2]
      case _ => false
  {
    hide Pow2, FirstWord, Encode;
    Widths();
    AluWeights(i);
    ByLength(i);
  }

  lemma ImmediateWords(i: Instr)
    requires i.AluI? || i.AluIS? || i.SetR? || i.SetR64? || i.LeaPc? || i.LeaPcS?
    ensures match i
      case AluI(op, w, sgn, rd, rs1, imm) =>
        Encode(i) == [0x8800_0000 + 0x40_0000 * op + 0x20_0000 * B(op <= 3) + 0x10_0000 * B(sgn) + 0x8_0000 * B(w) + 0x100 * rd + 0x10 * rs1, imm]
      case AluIS(op, sgn, rd, rs1, imm8) =>
        Encode(i) == [0x4800_0000 + 0x40_0000 * op + 0x20_0000 * B(op <= 3) + 0x10_0000 * B(sgn) + 0x1000 * imm8 + 0x100 * rd + 0x10 * rs1]
      case SetR(sgn, rd, imm) =>
        Encode(i) == [0x8BC0_0000 + 0x10_0000 * B(sgn) + 0x100 * rd, imm]
      case SetR64(rd, imm64) =>
        Encode(i) == [0xCBC0_0000 + 0x100 * rd, imm64 % 0x1_0000_0000, imm64 / 0x1_0000_0000]
      case LeaPc(rd, imm) =>
        Encode(i) == [0x8B80_0000 + 0x100 * rd, imm]
      case LeaPcS(rd, d) =>
        Encode(i) == [0x4BA0_0000 + 0x1000 * (d / 0x100) + 0x100 * rd + d % 0x100]
      case _ => false
  {
    hide Pow2, FirstWord, Encode;
    Widths();
    AluWeights(i);
    ByLength(i);
    if i.LeaPcS? {
      NibblesOf(i.simm16);
    }
  }

  lemma CompareWords(i: Instr)
    requires i.Cmp? || i.CmpI? || i.CmpIS? || i.SetCc?
    ensures match i
      case Cmp(w, rs1, rs2) =>
        Encode(i) == [0x4C00_0000 + 0x8_0000 * B(w) + 0x10 * rs1 + rs2]
      case CmpI(w, rs1, imm) =>
        Encode(i) == [0x8C10_0000 + 0x8_0000 * B(w) + 0x10 * rs1, imm]
      case CmpIS(w, rs1, imm8) =>
        Encode(i) == [0x4C10_0000 + 0x40_0000 * B(w) + 0x1000 * imm8 + 0x10 * rs1]
      case SetCc(pred, inv, w, rd, rs1, rs2) =>
        Encode(i) == [0x4C20_0000 + 0x80_0000 * pred + 0x40_0000 * B(inv) + 0x8_0000 * B(w) + 0x100 * rd + 0x10 * rs1 + rs2]
      case _ => false
  {
    hide Pow2, FirstWord, Encode;
    Widths();
    CompareWeights(i);
    ByLength(i);
  }

  lemma ShiftWords(i: Instr)
    requires i.ShiftN? || i.ShiftR?
    ensures match i
      case ShiftN(sop, n, f, rd, rs1) =>
        Encode(i) == [0x5020_0000 + 0x40_0000 * sop + 0x8000 * n + 0x4000 * B(f) + 0x100 * rd + 0x10 * rs1]
      case ShiftR(sop, f, rd, rs1, rs2) =>
        Encode(i) == [0x5000_0000 + 0x40_0000 * sop + 0x4000 * B(f) + 0x100 * rd + 0x10 * rs1 + rs2]
      case _ => false
  {
    hide Pow2, FirstWord, Encode;
    Widths();
    ShiftWeights(i);
    ByLength(i);
  }

  lemma UnaryWords(i: Instr)
    requires i.Copy? || i.Inc? || i.Dec?
    ensures match i
      case Copy(rd, rs1) =>
        Encode(i) == [0x5400_0000 + 0x100 * rd + 0x10 * rs1]
      case Inc(rd, rs1) =>
        Encode(i) == [0x5788_0000 + 0x100 * rd + 0x10 * rs1]
      case Dec(rd, rs1) =>
        Encode(i) == [0x57C8_0000 + 0x100 * rd + 0x10 * rs1]
      case _ => false
  {
    hide Pow2, FirstWord, Encode;
    Widths();
    UnaryWeights(i);
    ByLength(i);
  }

  lemma LoadWords(i: Instr)
    requires i.Load?
    ensures match i
      case Load(size, sgn, aligned, rd, Base(rs1)) =>
        Encode(i) == [0x5800_0000 + 0x100_0000 * size + 0x80_0000 * B(sgn) + 0x10_0000 * B(aligned) + 0x100 * rd + 0x10 * rs1]
      case Load(size, sgn, aligned, rd, Scaled(rs1, off8)) =>
        Encode(i) == [0x5800_0000 + 0x20_0000 + 0x100_0000 * size + 0x80_0000 * B(sgn) + 0x10_0000 * B(aligned) + 0x100 * rd + 0x1000 * off8 + 0x10 * rs1]
      case Load(size, sgn, aligned, rd, Indexed(rs1, rs2)) =>
        Encode(i) == [0x5800_0000 + 0x60_0000 + 0x100_0000 * size + 0x80_0000 * B(sgn) + 0x10_0000 * B(aligned) + 0x100 * rd + 0x10 * rs1 + rs2]
      case Load(size, sgn, aligned, rd, Offset(rs1, off)) =>
        Encode(i) == [0x9800_0000 + 0x20_0000 + 0x100_0000 * size + 0x80_0000 * B(sgn) + 0x10_0000 * B(aligned) + 0x100 * rd + 0x10 * rs1, off]
      case Load(size, sgn, aligned, rd, Absolute(addr)) =>
        Encode(i) == [0x9800_0000 + 0x40_0000 + 0x100_0000 * size + 0x80_0000 * B(sgn) + 0x10_0000 * B(aligned) + 0x100 * rd, addr]
      case _ => false
  {
    hide Pow2, FirstWord, Encode, Attributes;
    Widths();
    RowOf(i);
    MemoryWeights(i);
    ByLength(i);
  }

  lemma StoreWords(i: Instr)
    requires i.Store?
    ensures match i
      case Store(size, aligned, rd, Base(rs1)) =>
        Encode(i) == [0x5C00_0000 + 0x100_0000 * size + 0x10_0000 * B(aligned) + 0x100 * rd + 0x10 * rs1]
      case Store(size, aligned, rd, Scaled(rs1, off8)) =>
        Encode(i) == [0x5C00_0000 + 0x20_0000 + 0x100_0000 * size + 0x10_0000 * B(aligned) + 0x100 * rd + 0x1000 * off8 + 0x10 * rs1]
      case Store(size, aligned, rd, Indexed(rs1, rs2)) =>
        Encode(i) == [0x5C00_0000 + 0x60_0000 + 0x100_0000 * size + 0x10_0000 * B(aligned) + 0x100 * rd + 0x10 * rs1 + rs2]
      case Store(size, aligned, rd, Offset(rs1, off)) =>
        Encode(i) == [0x9C00_0000 + 0x20_0000 + 0x100_0000 * size + 0x10_0000 * B(aligned) + 0x100 * rd + 0x10 * rs1, off]
      case Store(size, aligned, rd, Absolute(addr)) =>
        Encode(i) == [0x9C00_0000 + 0x40_0000 + 0x100_0000 * size + 0x10_0000 * B(aligned) + 0x100 * rd, addr]
      case _ => false
  {
    hide Pow2, FirstWord, Encode, Attributes;
    Widths();
    RowOf(i);
    MemoryWeights(i);
    ByLength(i);
  }

  lemma BranchWords(i: Instr)
    requires i.Br? || i.BrAbs? || i.BrReg?
    ensures match i
      case Br(link, cond, inv, disp) =>
        Encode(i) == [0x6100_0000 + 0x200_0000 * B(link) + 0x8_0000 * cond + 0x4_0000 * B(inv) + disp]
      case BrAbs(link, cond, inv, tgt) =>
        Encode(i) == [0xA000_0000 + 0x200_0000 * B(link) + 0x8_0000 * cond + 0x4_0000 * B(inv), tgt]
      case BrReg(link, cond, inv, rs2) =>
        Encode(i) == [0x6080_0000 + 0x200_0000 * B(link) + 0x8_0000 * cond + 0x4_0000 * B(inv) + rs2]
      case _ => false
  {
    hide Pow2, FirstWord, Encode;
    Widths();
    BranchWeights(i);
    ByLength(i);
  }

  lemma FusedWords(i: Instr)
    requires i.Fbr?
    ensures match i
      case Fbr(p, inv, rs1, RegRhs(rs2), d) =>
        Encode(i) == [0x7400_0000 + 0x80_0000 * p + 0x40_0000 * B(inv) + 0x100 * d + 0x10 * rs1 + rs2]
      case Fbr(p, inv, rs1, Imm4(imm4), d) =>
        Encode(i) == [0x7420_0000 + 0x80_0000 * p + 0x40_0000 * B(inv) + 0x100 * d + 0x10 * rs1 + imm4]
      case Fbr(p, inv, rs1, Imm32(imm), d) =>
        Encode(i) == [0xB420_0000 + 0x80_0000 * p + 0x40_0000 * B(inv) + 0x100 * d + 0x10 * rs1, imm]
      case _ => false
  {
    hide Pow2, FirstWord, Encode;
    Widths();
    FusedWeights(i);
    ByLength(i);
  }

  lemma StackWords(i: Instr)
    requires i.Push? || i.PushV? || i.Pop? || i.GetSp? || i.SetSp? || i.AddSp? || i.Ret? || i.IRet? || i.Enter? || i.Leave? || i.LeaveRet?
    ensures match i
      case Push(rs1) =>
        Encode(i) == [0x6400_0000 + 0x10 * rs1]
      case PushV(imm) =>
        Encode(i) == [0xA440_0000, imm]
      case Pop(rd) =>
        Encode(i) == [0x6480_0000 + 0x100 * rd]
      case GetSp(rd) =>
        Encode(i) == [0x64C0_0000 + 0x100 * rd]
      case SetSp(rs1) =>
        Encode(i) == [0x6500_0000 + 0x10 * rs1]
      case AddSp(imm) =>
        Encode(i) == [0xA540_0000, imm]
      case Ret =>
        Encode(i) == [0x6580_0000]
      case IRet =>
        Encode(i) == [0x65C0_0000]
      case Enter(locals) =>
        Encode(i) == [0x6600_0000 + locals]
      case Leave =>
        Encode(i) == [0x6640_0000]
      case LeaveRet =>
        Encode(i) == [0x6680_0000]
      case _ => false
  {
    hide Pow2, FirstWord, Encode, Attributes;
    Widths();
    RowOf(i);
    StackWeights(i);
    ByLength(i);
  }

  lemma MulDivWords(i: Instr)
    requires i.Mul? || i.MulV? || i.MulVS? || i.Div? || i.Mod?
    ensures match i
      case Mul(sgn, high, w, rd, rs1, rs2) =>
        Encode(i) == [0x6800_0000 + 0x80_0000 * B(sgn) + 0x40_0000 * B(high) + 0x8_0000 * B(w) + 0x100 * rd + 0x10 * rs1 + rs2]
      case MulV(sgn, rd, rs1, imm) =>
        Encode(i) == [0xA800_0000 + 0x80_0000 * B(sgn) + 0x100 * rd + 0x10 * rs1, imm]
      case MulVS(sgn, rd, rs1, imm8) =>
        Encode(i) == [0x6B00_0000 + 0x80_0000 * B(sgn) + 0x1000 * imm8 + 0x100 * rd + 0x10 * rs1]
      case Div(sgn, rd, rs1, rs2) =>
        Encode(i) == [0x6900_0000 + 0x80_0000 * B(sgn) + 0x100 * rd + 0x10 * rs1 + rs2]
      case Mod(sgn, rd, rs1, rs2) =>
        Encode(i) == [0x6A00_0000 + 0x80_0000 * B(sgn) + 0x100 * rd + 0x10 * rs1 + rs2]
      case _ => false
  {
    hide Pow2, FirstWord, Encode, Attributes;
    Widths();
    RowOf(i);
    MuldivWeights(i);
    ByLength(i);
  }

  lemma SystemWords(i: Instr)
    requires i.Nop? || i.Halt? || i.Wait? || i.Trap? || i.Di? || i.Ei?
    ensures match i
      case Nop =>
        Encode(i) == [0x6C00_0000]
      case Halt =>
        Encode(i) == [0x6C01_0000]
      case Wait =>
        Encode(i) == [0x6C02_0000]
      case Trap =>
        Encode(i) == [0x6C04_0000]
      case Di(rd) =>
        Encode(i) == [0x6C06_0000 + 0x100 * rd]
      case Ei(rs1) =>
        Encode(i) == [0x6C07_0000 + 0x10 * rs1]
      case _ => false
  {
    hide Pow2, FirstWord, Encode, Attributes;
    Widths();
    RowOf(i);
    SystemWeights(i);
    ByLength(i);
  }
}
