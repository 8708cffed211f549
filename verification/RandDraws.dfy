/** What tools/vsim/randprog.py makes of its random stream, draw by draw: one number of the
    stream for every call of random(), choice(), randrange() or getrandbits(). */
module RandDraws {
  import opened Bits
  import opened Isa
  import opened Machine
  import opened Listing
  import opened RandShape

  type Stream = nat -> nat

  /** What was made of the draws, and the next one. */
  datatype Made<+T> = Made(got: T, next: nat)

  /** `random()`: a 53-bit fraction. */
  function Fraction(v: nat): real { (v % 0x20_0000_0000_0000) as real / 9007199254740992.0 }

  /** `random() < c`. */
  predicate Under(s: Stream, p: nat, c: real) { Fraction(s(p)) < c }

  /** `choice` or `randrange` among n. */
  function Pick(s: Stream, p: nat, n: nat): (r: nat)
    requires n > 0
    ensures r < n
  {
    s(p) % n
  }

  /** One of r1 to r10. */
  function DataRegAt(s: Stream, p: nat): Reg { 1 + s(p) % 10 }

  // ---- the choices of `straight`

  /** add sub and or xor adc sbc */
  const ALU_OPS: seq<AluOp> := [0, 1, 4, 5, 6, 2, 3]

  /** add sub and or xor */
  const IMMEDIATE_OPS: seq<AluOp> := [0, 1, 4, 5, 6]

  /** The 32-bit form is drawn for add and sub only. */
  function AluTurn(s: Stream, p: nat, rd: Reg, r1: Reg, r2: Reg): Made<seq<Item>> {
    var op := ALU_OPS[Pick(s, p, 7)];
    if op <= 1 then Made([Plain(Alu(op, Under(s, p + 1, 0.15), rd, r1, r2))], p + 2)
    else Made([Plain(Alu(op, false, rd, r1, r2))], p + 1)
  }

  /** An 8-bit immediate from -128 up, or any 32 bits. */
  function ImmediateTurn(s: Stream, p: nat, rd: Reg, r1: Reg, short: bool): Made<seq<Item>> {
    var op := IMMEDIATE_OPS[Pick(s, p, 5)];
    Made([Plain(if short then AluIS(op, true, rd, r1, (Pick(s, p + 1, 0x100) + 0x80) % 0x100)
                else AluI(op, false, true, rd, r1, Pick(s, p + 1, U32)))], p + 2)
  }

  /** A multiple of the access size below span. */
  function OffsetAt(s: Stream, p: nat, size: Size, span: nat): nat
    requires span >= 8
  {
    if size == 0 then Pick(s, p, span)
    else if size == 1 then 2 * Pick(s, p, span / 2)
    else if size == 2 then 4 * Pick(s, p, span / 4)
    else 8 * Pick(s, p, span / 8)
  }

  /** Half of the loads take the short form where it fits, a quarter the long one, the rest
      go through r13; only loads below 64 bits are signed. */
  function LoadTurn(s: Stream, p: nat, rd: Reg, span: nat): Made<seq<Item>>
    requires 8 <= span <= WIDEST
  {
    var size := Pick(s, p, 4);
    var o := OffsetAt(s, p + 1, size, span);
    var sgn := Under(s, p + 3, 0.5) && size < 3;
    Made(if Under(s, p + 2, 0.5) then [Direct(Load(size, sgn, false, rd, OffsetForm(size, 12, o, false)))]
         else if Under(s, p + 2, 0.75) then [Direct(Load(size, sgn, false, rd, OffsetForm(size, 12, o, true)))]
         else [ViaR13(o, Load(size, sgn, false, rd, Indexed(12, 13)))], p + 4)
  }

  function StoreTurn(s: Stream, p: nat, rd: Reg, span: nat): Made<seq<Item>>
    requires 8 <= span <= WIDEST
  {
    var size := Pick(s, p, 4);
    var o := OffsetAt(s, p + 1, size, span);
    Made(if Under(s, p + 2, 0.7) then [Direct(Store(size, false, rd, OffsetForm(size, 12, o, false)))]
         else [ViaR13(o, Store(size, false, rd, Indexed(12, 13)))], p + 3)
  }

  /** shl shr sar rol ror */
  function ShiftTurn(s: Stream, p: nat, rd: Reg, r1: Reg): Made<seq<Item>> {
    Made([Plain(ShiftN(Pick(s, p, 5), Pick(s, p + 1, 64), Under(s, p + 2, 0.3), rd, r1))], p + 3)
  }

  /** The 32-bit form is drawn for the low half only. */
  function MulTurn(s: Stream, p: nat, rd: Reg, r1: Reg, r2: Reg): Made<seq<Item>> {
    if Under(s, p, 0.3) then Made([Plain(Mul(Under(s, p + 1, 0.5), true, false, rd, r1, r2))], p + 2)
    else Made([Plain(Mul(Under(s, p + 1, 0.5), false, Under(s, p + 2, 0.25), rd, r1, r2))], p + 3)
  }

  function DivModTurn(s: Stream, p: nat, rd: Reg, r1: Reg, r2: Reg): Made<seq<Item>> {
    var sgn := Under(s, p + 1, 0.5);
    Made([Plain(if Under(s, p, 0.5) then Div(sgn, rd, r1, r2) else Mod(sgn, rd, r1, r2))], p + 2)
  }

  /** eq ne lt ge le gt ult uge ule ugt */
  function PredicateAt(s: Stream, p: nat): (Pred, bool) { (Pick(s, p, 10) / 2, Pick(s, p, 10) % 2 == 1) }

  function CompareTurn(s: Stream, p: nat, rd: Reg, r1: Reg, r2: Reg): Made<seq<Item>> {
    var c := PredicateAt(s, p + 1);
    Made([Plain(Cmp(Under(s, p, 0.2), r1, r2)), Plain(SetCc(c.0, c.1, false, rd, r1, r2))], p + 2)
  }

  /** `straight_simple(1)`: add or xor. */
  function SimpleAt(s: Stream, p: nat): Made<Instr> {
    Made(Alu(if Pick(s, p, 2) == 0 then 0 else 6, false, DataRegAt(s, p + 1), DataRegAt(s, p + 2), DataRegAt(s, p + 3)), p + 4)
  }

  function BracketTurn(s: Stream, p: nat, rd: Reg, r1: Reg): Made<seq<Item>> {
    Made([Bracket(r1, SimpleAt(s, p).got, rd)], SimpleAt(s, p).next)
  }

  /** One turn of `straight`. */
  function Turn(s: Stream, p: nat, span: nat): Made<seq<Item>>
    requires 8 <= span <= WIDEST
  {
    var k, rd, r1, r2 := Fraction(s(p)), DataRegAt(s, p + 1), DataRegAt(s, p + 2), DataRegAt(s, p + 3);
    if k < 0.22 then AluTurn(s, p + 4, rd, r1, r2)
    else if k < 0.30 then ImmediateTurn(s, p + 4, rd, r1, true)
    else if k < 0.34 then ImmediateTurn(s, p + 4, rd, r1, false)
    else if k < 0.48 then LoadTurn(s, p + 4, rd, span)
    else if k < 0.60 then StoreTurn(s, p + 4, rd, span)
    else if k < 0.63 then Made([Unaligned(Pick(s, p + 4, 0x7F8), rd)], p + 5)
    else if k < 0.68 then ShiftTurn(s, p + 4, rd, r1)
    else if k < 0.73 then MulTurn(s, p + 4, rd, r1, r2)
    else if k < 0.745 then DivModTurn(s, p + 4, rd, r1, r2)
    else if k < 0.78 then CompareTurn(s, p + 4, rd, r1, r2)
    else if k < 0.82 then BracketTurn(s, p + 4, rd, r1)
    else if k < 0.86 then Made([Plain(if Under(s, p + 4, 0.5) then Inc(rd, rd) else Dec(rd, rd))], p + 5)
    else if k < 0.90 then Made([CallLeaf(Pick(s, p + 4, 3))], p + 5)
    else if k < 0.93 then Made([Plain(Alu(5, false, rd, r1, r1))], p + 4)
    else Made([Plain(Nop)], p + 4)
  }

  /** `straight(n)`. */
  function Turns(s: Stream, p: nat, span: nat, n: nat): Made<seq<Item>>
    requires 8 <= span <= WIDEST
    decreases n
  {
    if n == 0 then Made([], p)
    else
      var a := Turns(s, p, span, n - 1);
      var b := Turn(s, a.next, span);
      Made(a.got + b.got, b.next)
  }

  // ---- blocks

  /** al z nz eq ne c nc v s lt ge le gt ult uge ule ugt */
  const CONDITIONS: seq<Cond> := [0, 1, 1, 1, 1, 2, 2, 3, 4, 5, 5, 6, 6, 7, 7, 8, 8]
  const INVERSIONS: seq<bool> :=
    [false, false, true, false, true, false, true, false, false, false, true, false, true, false, true, false, true]

  /** The test of a conditional skip. */
  function TestAt(s: Stream, p: nat): Made<Test> {
    var r1, r2, c := DataRegAt(s, p), DataRegAt(s, p + 1), PredicateAt(s, p + 3);
    if Under(s, p + 2, 0.5) then Made(Fused(c.0, c.1, r1, r2), p + 4)
    else Made(Flagged(Under(s, p + 3, 0.2), r1, r2, CONDITIONS[Pick(s, p + 4, 17)], INVERSIONS[Pick(s, p + 4, 17)]), p + 5)
  }

  /** Straight code of 1 to 7 turns, a skip over 1 to 4, or a loop of 1 to 5 rounds over 1 to 5. */
  function BlockAt(s: Stream, p: nat, span: nat): Made<Block>
    requires 8 <= span <= WIDEST
  {
    if Under(s, p, 0.5) then
      var a := Turns(s, p + 2, span, 1 + Pick(s, p + 1, 7));
      Made(Straight(a.got), a.next)
    else if Under(s, p, 0.7) then
      var t := TestAt(s, p + 1);
      var a := Turns(s, t.next + 1, span, 1 + Pick(s, t.next, 4));
      Made(Skip(t.got, a.got), a.next)
    else
      var a := Turns(s, p + 3, span, 1 + Pick(s, p + 2, 5));
      Made(Loop(1 + Pick(s, p + 1, 5), a.got, Under(s, a.next, 0.5)), a.next + 1)
  }

  function BlocksAt(s: Stream, p: nat, span: nat, n: nat): Made<seq<Block>>
    requires 8 <= span <= WIDEST
    decreases n
  {
    if n == 0 then Made([], p)
    else
      var a := BlocksAt(s, p, span, n - 1);
      var b := BlockAt(s, a.next, span);
      Made(a.got + [b.got], b.next)
  }

  // ---- the rest of a program

  /** `straight_simple(n)`. */
  function SimplesAt(s: Stream, p: nat, n: nat): Made<seq<Instr>>
    decreases n
  {
    if n == 0 then Made([], p)
    else
      var a := SimplesAt(s, p, n - 1);
      Made(a.got + [SimpleAt(s, a.next).got], SimpleAt(s, a.next).next)
  }

  /** A leaf function of 1 to 4 simple instructions, half of them with a frame. */
  function LeafFrom(s: Stream, p: nat): Made<Leaf> {
    if Under(s, p, 0.5) then
      var a := SimplesAt(s, p + 3, 1 + Pick(s, p + 2, 4));
      Made(Leaf(Some(Pick(s, p + 1, 3)), a.got, !Under(s, a.next, 0.6)), a.next + 1)
    else
      var a := SimplesAt(s, p + 2, 1 + Pick(s, p + 1, 4));
      Made(Leaf(None, a.got, false), a.next)
  }

  /** The random value of register r. */
  function InitAt(s: Stream, p: nat, r: Reg): Made<Instr> {
    if Under(s, p, 0.3) then Made(SetR64(r, Pick(s, p + 1, U64)), p + 2)
    else Made(SetR(Under(s, p + 2, 0.5), r, Pick(s, p + 1, U32)), p + 3)
  }

  /** Registers r1 to rn. */
  function InitsAt(s: Stream, p: nat, n: nat): Made<seq<Instr>>
    requires n <= 10
    decreases n
  {
    if n == 0 then Made([], p)
    else
      var a := InitsAt(s, p, n - 1);
      Made(a.got + [InitAt(s, a.next, n).got], InitAt(s, a.next, n).next)
  }

  /** The window that covers the accesses at random offsets below `span` and the unaligned
      loads. */
  function Window(span: nat): nat { if span < DUMPED then DUMPED else span }

  /** `gen`. */
  function ProgramAt(s: Stream, p: nat, nBlocks: nat, irq: bool, span: nat): Made<Program>
    requires 8 <= span <= WIDEST
  {
    var i := InitsAt(s, p, 10);
    var f := LeafFrom(s, i.next);
    var g := LeafFrom(s, f.next);
    var h := LeafFrom(s, g.next);
    var b := BlocksAt(s, h.next, span, nBlocks);
    Made(Program(i.got, irq, [f.got, g.got, h.got], b.got, Window(span)), b.next)
  }

  // ---- what the draws say of the program

  predicate Accesses(it: Item, load: bool) {
    (it.Direct? || it.ViaR13?) && (if load then it.i.Load? else it.i.Store?)
  }

  /** The class of what a turn emits is where its first draw falls: each bound of the chain,
      both ways. */
  lemma TurnClass(s: Stream, p: nat, span: nat)
    requires 8 <= span <= WIDEST
    ensures var k, its := Fraction(s(p)), Turn(s, p, span).got;
      && 1 <= |its| <= 2 && Turn(s, p, span).next >= p + 4
      && (k < 0.22 || 0.90 <= k < 0.93 <==> its[0].Plain? && its[0].i.Alu?)
      && (0.22 <= k < 0.30 <==> its[0].Plain? && its[0].i.AluIS?)
      && (0.30 <= k < 0.34 <==> its[0].Plain? && its[0].i.AluI?)
      && (0.34 <= k < 0.48 <==> Accesses(its[0], true))
      && (0.48 <= k < 0.60 <==> Accesses(its[0], false))
      && (0.60 <= k < 0.63 <==> its[0].Unaligned?)
      && (0.63 <= k < 0.68 <==> its[0].Plain? && its[0].i.ShiftN?)
      && (0.68 <= k < 0.73 <==> its[0].Plain? && its[0].i.Mul?)
      && (0.73 <= k < 0.745 <==> its[0].Plain? && (its[0].i.Div? || its[0].i.Mod?))
      && (0.745 <= k < 0.78 <==> |its| == 2 && its[0].Plain? && its[0].i.Cmp? && its[1].Plain? && its[1].i.SetCc?)
      && (0.78 <= k < 0.82 <==> its[0].Bracket?)
      && (0.82 <= k < 0.86 <==> its[0].Plain? && (its[0].i.Inc? || its[0].i.Dec?))
      && (0.86 <= k < 0.90 <==> its[0].CallLeaf?)
      && (0.93 <= k <==> its[0].Plain? && its[0].i.Nop?)
  {
    hide Fraction, Under, DataRegAt, OffsetAt, OffsetForm;
  }

  /** The instruction that a turn is about. */
  function Main(its: seq<Item>): Instr
    requires its != []
  {
    var it := its[|its| - 1];
    match it
    case Plain(i) => i
    case Direct(i) => i
    case ViaR13(_, i) => i
    case Unaligned(_, rd) => Load(2, false, false, rd, Base(13))
    case Bracket(_, _, dst) => Pop(dst)
    case CallLeaf(_) => Nop
  }

  /** Its registers are the second, third and fourth draw: the destination of everything
      that has one, and the sources of everything that takes two. */
  lemma TurnRegisters(s: Stream, p: nat, span: nat)
    requires 8 <= span <= WIDEST
    ensures Turn(s, p, span).got != []
    ensures var i, rd, r1, r2 := Main(Turn(s, p, span).got), 1 + s(p + 1) % 10, 1 + s(p + 2) % 10, 1 + s(p + 3) % 10;
      && (!i.Nop? ==> i.rd == rd) && (i.AluIS? || i.AluI? || i.ShiftN? ==> i.rs1 == r1)
      && (i.Mul? || i.Div? || i.Mod? || i.SetCc? ==> i.rs1 == r1 && i.rs2 == r2)
      && (i.Alu? && Fraction(s(p)) < 0.22 ==> i.rs1 == r1 && i.rs2 == r2)
      && (i.Alu? && Fraction(s(p)) >= 0.22 ==> i.op == 5 && i.rs1 == i.rs2 == r1)
  {
    hide Fraction, Under, OffsetAt, OffsetForm;
  }

  /** Its operation is the fifth draw, in the order of the choices. */
  lemma TurnOperation(s: Stream, p: nat, span: nat)
    requires 8 <= span <= WIDEST
    ensures Turn(s, p, span).got != []
    ensures var i, v := Main(Turn(s, p, span).got), s(p + 4);
      && (i.Alu? && Fraction(s(p)) < 0.22 ==>
            i.op == (match v % 7 case 0 => 0 case 1 => 1 case 2 => 4 case 3 => 5 case 4 => 6 case 5 => 2 case _ => 3))
      && (i.AluIS? || i.AluI? ==> i.op == (match v % 5 case 0 => 0 case 1 => 1 case 2 => 4 case 3 => 5 case _ => 6))
      && (i.ShiftN? ==> i.sop == v % 5)
      && (i.Mul? ==> (i.high <==> Fraction(v) < 0.3)) && (i.Div? ==> Fraction(v) < 0.5) && (i.Mod? ==> Fraction(v) >= 0.5)
      && (i.Inc? ==> Fraction(v) < 0.5) && (i.Dec? ==> Fraction(v) >= 0.5)
  {
    hide Fraction, OffsetAt, OffsetForm, DataRegAt;
  }

  /** Immediates, shift counts and predicates are the draw after that. */
  lemma TurnValues(s: Stream, p: nat, span: nat)
    requires 8 <= span <= WIDEST
    ensures Turn(s, p, span).got != []
    ensures var i, v := Main(Turn(s, p, span).got), s(p + 5);
      && (i.AluIS? ==> Signed(i.imm8, 0x80) == v % 256 - 128) && (i.AluI? ==> i.imm == v % 0x1_0000_0000)
      && (i.ShiftN? ==> i.n == v % 64) && (i.SetCc? ==> 2 * i.pred + B(i.inv) == v % 10)
  {
    hide Fraction, Under, OffsetAt, OffsetForm, DataRegAt;
  }

  /** The offset of an access is the drawn multiple of its size, in whatever form. */
  lemma TurnOffset(s: Stream, p: nat, span: nat)
    requires 8 <= span <= WIDEST && 0.34 <= Fraction(s(p)) < 0.60
    ensures var it := Turn(s, p, span).got[0]; var n := Bytes(s(p + 4) % 4); var o := s(p + 5) % (span / n) * n;
      && (it.Direct? || it.ViaR13?) && (it.i.Load? || it.i.Store?) && it.i.size == s(p + 4) % 4
      && (it.Direct? ==> DirectOffset(it.i) == o) && (it.ViaR13? ==> it.o == o)
      && (it.i.Load? ==> (it.ViaR13? <==> Fraction(s(p + 6)) >= 0.75)) && (it.i.Store? ==> (it.ViaR13? <==> Fraction(s(p + 6)) >= 0.7))
  {
    hide Fraction, OffsetForm, OffsetAt;
    var size := Pick(s, p + 4, 4);
    var o := OffsetAt(s, p + 5, size, span);
    OffsetIs(s, p + 5, size, span);
    OffsetRead(size, o, false);
    OffsetRead(size, o, true);
  }

  lemma OffsetIs(s: Stream, p: nat, size: Size, span: nat)
    requires 8 <= span <= WIDEST
    ensures span / Bytes(size) > 0
    ensures OffsetAt(s, p, size, span) == s(p) % (span / Bytes(size)) * Bytes(size) < span
  {
    Multiple(span, s(p), Bytes(size));
  }

  lemma Multiple(span: nat, x: nat, n: nat)
    requires 1 <= n <= span
    ensures span / n > 0 && x % (span / n) * n < span
  {
    var q := Quotient(span, n);
    if q > 0 {
      var r := x % q;
      assert r * n + (q - r) * n == q * n;
      Scale(q - r, n);
    }
  }

  lemma OffsetRead(size: Size, o: nat, long: bool)
    requires o < WIDEST
    ensures var ea := OffsetForm(size, 12, o, long); ea.Scaled? || ea.Offset?
    ensures var ea := OffsetForm(size, 12, o, long);
      (if ea.Scaled? then Signed(ea.off8, 0x80) * Bytes(size) else ea.off) == o
  {
    hide Signed, Bytes;
    ScaleBack(o, Bytes(size));
  }

  /** The items of more than one instruction, and the calls. */
  lemma TurnOthers(s: Stream, p: nat, span: nat)
    requires 8 <= span <= WIDEST
    ensures var k, rd, r1, its := Fraction(s(p)), 1 + s(p + 1) % 10, 1 + s(p + 2) % 10, Turn(s, p, span).got;
      && (0.60 <= k < 0.63 ==> its == [Unaligned(s(p + 4) % 2040, rd)])
      && (0.78 <= k < 0.82 ==> its == [Bracket(r1, SimpleAt(s, p + 4).got, rd)])
      && (0.86 <= k < 0.90 ==> its == [CallLeaf(s(p + 4) % 3)])
  {
    hide Fraction, SimpleAt;
  }

  /** W, SGN and F of what has them. */
  lemma TurnModes(s: Stream, p: nat, span: nat)
    requires 8 <= span <= WIDEST
    ensures Turn(s, p, span).got != []
    ensures var its := Turn(s, p, span).got; var i := Main(its); var u, v := Fraction(s(p + 5)), Fraction(s(p + 6));
      && (i.Alu? ==> (i.w <==> Fraction(s(p)) < 0.22 && i.op <= 1 && u < 0.15))
      && (i.Mul? ==> (i.sgn <==> u < 0.5) && (i.w <==> !i.high && v < 0.25)) && (i.Div? || i.Mod? ==> (i.sgn <==> u < 0.5))
      && (i.ShiftN? ==> (i.f <==> v < 0.3)) && (i.AluIS? || i.AluI? ==> i.sgn) && (i.AluI? ==> !i.w)
      && (i.SetCc? ==> !i.w && its[0] == Plain(Cmp(Fraction(s(p + 4)) < 0.2, i.rs1, i.rs2)))
      && (i.Load? && 0.34 <= Fraction(s(p)) < 0.48 ==> (i.sgn <==> i.size < 3 && Fraction(s(p + 7)) < 0.5))
  {
    hide Fraction, OffsetAt, OffsetForm, DataRegAt;
  }

  /** The long form is for the quarter of the loads that asks for it, and where the short one
      has no room: not a multiple of the size, or 128 and more of them. */
  lemma TurnForms(s: Stream, p: nat, span: nat)
    requires 8 <= span <= WIDEST && 0.34 <= Fraction(s(p)) < 0.60
    ensures Turn(s, p, span).got != []
    ensures var it := Turn(s, p, span).got[0];
      && (it.ViaR13? ==> it.i.ea == Indexed(12, 13))
      && (it.Direct? ==> var o := DirectOffset(it.i);
            it.i.ea.Offset? <==> (it.i.Load? && Fraction(s(p + 6)) >= 0.5) || o % Bytes(it.i.size) != 0 || o / Bytes(it.i.size) >= 128)
  {
    hide Fraction, OffsetForm, OffsetAt;
    var size := Pick(s, p + 4, 4);
    var o := OffsetAt(s, p + 5, size, span);
    OffsetIs(s, p + 5, size, span);
    OffsetRead(size, o, false);
    OffsetRead(size, o, true);
    FormOf(size, o, false);
    FormOf(size, o, true);
  }

  lemma FormOf(size: Size, o: nat, long: bool)
    requires o < WIDEST
    ensures OffsetForm(size, 12, o, long).Offset? <==> long || o % Bytes(size) != 0 || o / Bytes(size) >= 128
  {
    hide Bytes;
  }

  /** n turns, each with at least one item, and more turns go on where they end. */
  lemma {:induction false} TurnsAdd(s: Stream, p: nat, span: nat, n: nat, m: nat)
    requires 8 <= span <= WIDEST
    ensures var a := Turns(s, p, span, n); var b := Turns(s, a.next, span, m);
      && Turns(s, p, span, n + m) == Made(a.got + b.got, b.next)
      && m <= |b.got| <= 2 * m && b.next >= a.next + 4 * m
    decreases m
  {
    hide Turn;
    var a := Turns(s, p, span, n);
    if m == 0 {
      Neutral(a.got);
    } else {
      TurnsAdd(s, p, span, n, m - 1);
      var b := Turns(s, a.next, span, m - 1);
      TurnClass(s, b.next, span);
      Assoc(a.got, b.got, Turn(s, b.next, span).got);
    }
  }

  /** The kind of a block is where its first draw falls; its turns are counted by the draw
      for their number. */
  lemma BlockClass(s: Stream, p: nat, span: nat)
    requires 8 <= span <= WIDEST
    ensures var k, b := Fraction(s(p)), BlockAt(s, p, span).got;
      && (k < 0.5 <==> b.Straight?) && (0.5 <= k < 0.7 <==> b.Skip?) && (0.7 <= k <==> b.Loop?)
      && (b.Straight? ==> b.its == Turns(s, p + 2, span, 1 + s(p + 1) % 7).got)
      && (b.Loop? ==> b.count == 1 + s(p + 1) % 5 && b.its == Turns(s, p + 3, span, 1 + s(p + 2) % 5).got)
      && (b.Skip? ==> var q := TestAt(s, p + 1).next;
            b.test == TestAt(s, p + 1).got && b.its == Turns(s, q + 1, span, 1 + s(q) % 4).got)
      && (b.Loop? ==> (b.fused <==> Fraction(s(BlockAt(s, p, span).next - 1)) < 0.5))
      && b.its != []
  {
    hide Turns, Fraction, DataRegAt;
    var q := TestAt(s, p + 1).next;
    SomeTurns(s, p + 2, span, Pick(s, p + 1, 7));
    SomeTurns(s, p + 3, span, Pick(s, p + 2, 5));
    SomeTurns(s, q + 1, span, Pick(s, q, 4));
  }

  lemma SomeTurns(s: Stream, p: nat, span: nat, n: nat)
    requires 8 <= span <= WIDEST
    ensures Turns(s, p, span, 1 + n).got != []
  {
    hide Turn;
    TurnsAdd(s, p, span, 0, 1 + n);
  }

  /** The test of a skip: two registers, then a fused branch half of the time, with one of
      ten predicates, or a compare, 32 bits wide for a fifth, and a jump on one of the
      seventeen named conditions: al z nz eq ne c nc v s lt ge le gt ult uge ule ugt. */
  lemma TestDraws(s: Stream, p: nat)
    ensures var t, v := TestAt(s, p).got, s(p + 4) % 17;
      && t.rs1 == 1 + s(p) % 10 && t.rs2 == 1 + s(p + 1) % 10 && (t.Fused? <==> Fraction(s(p + 2)) < 0.5)
      && (t.Fused? ==> 2 * t.p + B(t.inv) == s(p + 3) % 10)
      && (t.Flagged? ==> (t.w <==> Fraction(s(p + 3)) < 0.2))
      && (t.Flagged? && v <= 8 ==> t.cond == match v case 0 => 0 case 5 => 2 case 6 => 2 case 7 => 3 case 8 => 4 case _ => 1)
      && (t.Flagged? && v <= 8 ==> (t.inv <==> v == 2 || v == 4 || v == 6))
      && (t.Flagged? && v > 8 ==> t.cond == 5 + (v - 9) / 2 && (t.inv <==> v % 2 == 0))
      && TestAt(s, p).next == p + if t.Fused? then 4 else 5
  {
    hide Fraction;
  }

  /** A simple instruction takes four draws: add or xor, and three registers. */
  function SimpleOf(o: nat, d: nat, x: nat, y: nat): Instr {
    Alu(if o % 2 == 0 then 0 else 6, false, 1 + d % 10, 1 + x % 10, 1 + y % 10)
  }

  lemma SimpleDraws(s: Stream, p: nat)
    ensures SimpleAt(s, p) == Made(SimpleOf(s(p), s(p + 1), s(p + 2), s(p + 3)), p + 4)
  {
  }

  lemma {:induction false} SimplesDraws(s: Stream, p: nat, n: nat)
    ensures var a := SimplesAt(s, p, n); |a.got| == n && a.next == p + 4 * n
    ensures forall k :: 0 <= k < n ==>
      SimplesAt(s, p, n).got[k] == SimpleOf(s(p + 4 * k), s(p + 4 * k + 1), s(p + 4 * k + 2), s(p + 4 * k + 3))
    decreases n
  {
    hide SimpleAt, SimpleOf;
    if n != 0 {
      SimplesDraws(s, p, n - 1);
      SimpleDraws(s, p + 4 * (n - 1));
    }
  }

  /** A leaf function: half of them with a frame of 0 to 2 slots, which 3 of 5 leave with
      LEAVERET; 1 to 4 simple instructions. */
  lemma LeafDraws(s: Stream, p: nat)
    ensures var f, framed := LeafFrom(s, p).got, Fraction(s(p)) < 0.5;
      var q := if framed then p + 3 else p + 2;
      var n := 1 + s(q - 1) % 4;
      && f.body == SimplesAt(s, q, n).got && f.frame == (if framed then Some(s(p + 1) % 3) else None)
      && (f.split <==> framed && Fraction(s(q + 4 * n)) >= 0.6) && LeafFrom(s, p).next == q + 4 * n + B(framed)
  {
    hide SimplesAt, Fraction;
    SimplesDraws(s, p + 3, 1 + Pick(s, p + 2, 4));
    SimplesDraws(s, p + 2, 1 + Pick(s, p + 1, 4));
  }

  /** A register's first value: 64 bits for 3 of 10, else 32 bits, half of them signed. */
  lemma InitDraws(s: Stream, p: nat, r: Reg)
    ensures InitAt(s, p, r) == if Fraction(s(p)) < 0.3 then Made(SetR64(r, s(p + 1) % 0x1_0000_0000_0000_0000), p + 2)
                               else Made(SetR(Fraction(s(p + 2)) < 0.5, r, s(p + 1) % 0x1_0000_0000), p + 3)
  {
    hide Fraction;
  }

  lemma {:induction false} InitsClass(s: Stream, p: nat, n: nat)
    requires n <= 10
    ensures var ins := InitsAt(s, p, n).got;
      |ins| == n && forall k :: 0 <= k < n ==> (ins[k].SetR? || ins[k].SetR64?) && ins[k].rd == k + 1
    decreases n
  {
    hide Under, Pick;
    if n != 0 {
      InitsClass(s, p, n - 1);
    }
  }

  lemma {:induction false} BlocksClass(s: Stream, p: nat, span: nat, n: nat)
    requires 8 <= span <= WIDEST
    ensures var bs := BlocksAt(s, p, span, n).got; |bs| == n && forall k :: 0 <= k < n ==> bs[k].its != []
    decreases n
  {
    hide BlockAt;
    if n != 0 {
      BlocksClass(s, p, span, n - 1);
      BlockClass(s, BlocksAt(s, p, span, n - 1).next, span);
    }
  }

  /** Every program loads r1 to r10, in this order, and has as many blocks as asked for, none
      of them empty. */
  lemma ProgramClass(s: Stream, p: nat, nBlocks: nat, irq: bool, span: nat)
    requires 8 <= span <= WIDEST
    ensures var g := ProgramAt(s, p, nBlocks, irq, span).got;
      && |g.inits| == 10 && (forall k :: 0 <= k < 10 ==> (g.inits[k].SetR? || g.inits[k].SetR64?) && g.inits[k].rd == k + 1)
      && |g.leaves| == 3 && |g.blocks| == nBlocks && forall k :: 0 <= k < nBlocks ==> g.blocks[k].its != []
  {
    hide InitsAt, LeafFrom, BlocksAt, Window;
    InitsClass(s, p, 10);
    var i := InitsAt(s, p, 10);
    BlocksClass(s, LeafFrom(s, LeafFrom(s, LeafFrom(s, i.next).next).next).next, span, nBlocks);
  }
}
