/** The shape of a random test program: what tools/vsim/randprog.py may emit,
    with every label already turned into a displacement. */
module RandShape {
  import opened Bits
  import opened Isa
  import opened Machine
  import opened Monitor

  const DATA: int := 0x1_0000
  /** The window that the bench dumps; the 32-bit unaligned loads always range over it. */
  const DUMPED: nat := 0x800

  /** The whole address space above the data base and below the devices. */
  const WIDEST: nat := 0xEFFF_0000

  /** Random data lives in r1..r10; r13 is scratch. */
  predicate Scratch(r: Reg) { 1 <= r <= 10 || r == 13 }

  predicate PlainOk(i: Instr) {
    Legal(i) && IsData(i) && !i.LeaPc? && !i.LeaPcS? && (WritesRd(i) ==> Scratch(i.rd))
  }

  /** `add` or `xor` on the data registers. */
  predicate SimpleOk(i: Instr) {
    i.Alu? && (i.op == 0 || i.op == 6) && !i.w && 1 <= i.rd <= 10
  }

  /** An access at a fixed offset into a data window of w bytes. */
  predicate AccessOk(w: nat, size: Size, o: int) {
    && 0 <= o && o + Bytes(size) <= w <= WIDEST
    && (size == 1 ==> o % 2 == 0) && (size == 2 ==> o % 4 == 0) && (size == 3 ==> o % 8 == 0)
  }

  /** The offset of a load or store addressed from r12. */
  function DirectOffset(i: Instr): int {
    if (i.Load? || i.Store?) && i.ea.Scaled? then Signed(i.ea.off8, 0x80) * Bytes(i.size)
    else if (i.Load? || i.Store?) && i.ea.Offset? then i.ea.off
    else -1
  }

  predicate DirectOk(w: nat, i: Instr) {
    && Legal(i) && (i.Load? || i.Store?) && (i.ea.Scaled? || i.ea.Offset?) && i.ea.rs1 == 12
    && AccessOk(w, i.size, DirectOffset(i)) && (i.Load? ==> Scratch(i.rd))
  }

  datatype Item =
    | Plain(i: Instr)                                // one data instruction
    | Direct(i: Instr)                               // load/store [r12 + o]
    | ViaR13(o: u32, i: Instr)                       // r13 := o; load/store [r12 + r13]
    | Unaligned(o: u32, rd: Reg)                     // r13 := DATA + o; 32-bit load [r13]
    | Bracket(src: Reg, mid: Instr, dst: Reg)        // push; simple op; pop
    | CallLeaf(f: nat)

  predicate ItemOk(w: nat, it: Item) {
    match it
    case Plain(i) => PlainOk(i)
    case Direct(i) => DirectOk(w, i)
    case ViaR13(o, i) =>
      && Legal(i) && (i.Load? || i.Store?) && i.ea == Indexed(12, 13)
      && AccessOk(w, i.size, o) && (i.Load? ==> Scratch(i.rd))
    case Unaligned(o, rd) => o < 0x7F8 && Scratch(rd)
    case Bracket(src, mid, dst) => 1 <= src <= 10 && SimpleOk(mid) && 1 <= dst <= 10
    case CallLeaf(f) => f < 3
  }

  /** Displacement in words from one address to another, 18 or 13 bits wide. */
  function Disp18(a: int, t: int): u18 { (t - a) / 4 % 0x4_0000 }
  function Disp13(a: int, t: int): u13 { (t - a) / 4 % 0x2000 }

  /** An item at address a; fa gives the addresses of the leaf functions. */
  function FlatItem(it: Item, a: int, fa: seq<int>): (is': seq<Instr>)
  {
    match it
    case Plain(i) => [i]
    case Direct(i) => [i]
    case ViaR13(o, i) => [SetR(false, 13, o), i]
    case Unaligned(o, rd) => [SetR(false, 13, (DATA + o) % U32), Load(2, false, false, rd, Base(13))]
    case Bracket(src, mid, dst) => [Push(src), mid, Pop(dst)]
    case CallLeaf(f) => [Br(true, 0, false, if f < |fa| then Disp18(a, fa[f]) else 0)]
  }

  function ItemWords(it: Item): nat {
    match it
    case Plain(i) => Words(i)
    case Direct(i) => Words(i)
    case ViaR13(_, i) => 2 + Words(i)
    case Unaligned(_, _) => 3
    case Bracket(_, mid, _) => 2 + Words(mid)
    case CallLeaf(_) => 1
  }

  function ItemsWords(its: seq<Item>): nat {
    if its == [] then 0 else ItemWords(its[0]) + ItemsWords(its[1..])
  }

  function FlatItems(its: seq<Item>, a: int, fa: seq<int>): seq<Instr>
    decreases |its|
  {
    if its == [] then []
    else FlatItem(its[0], a, fa) + FlatItems(its[1..], a + 4 * ItemWords(its[0]), fa)
  }

  /** A leaf function: optional frame, simple body, and one of three returns. */
  datatype Leaf = Leaf(frame: Option<u22>, body: seq<Instr>, split: bool)

  predicate LeafOk(f: Leaf) {
    (f.frame.Some? ==> f.frame.value <= 2) && 1 <= |f.body| <= 4 && forall k :: 0 <= k < |f.body| ==> SimpleOk(f.body[k])
  }

  function FlatLeaf(f: Leaf): seq<Instr> {
    match f.frame
    case None => f.body + [Ret]
    case Some(n) => [Enter(n)] + f.body + (if f.split then [Isa.Leave, Ret] else [LeaveRet])
  }

  datatype Test = Fused(p: Pred, inv: bool, rs1: Reg, rs2: Reg) | Flagged(w: bool, rs1: Reg, rs2: Reg, cond: Cond, inv: bool)

  datatype Block =
    | Straight(its: seq<Item>)
    | Skip(test: Test, its: seq<Item>)                   // forward conditional skip
    | Loop(count: nat, its: seq<Item>, fused: bool)      // bounded loop on r11

  ghost predicate ItemsOk(w: nat, its: seq<Item>) {
    forall k :: 0 <= k < |its| ==> ItemOk(w, its[k])
  }

  ghost predicate BlockOk(w: nat, b: Block) {
    && ItemsOk(w, b.its) && BlockWords(b) <= 21
    && (b.Loop? ==> 1 <= b.count <= 5)
    && (b.Skip? && b.test.Flagged? ==> b.test.inv ==> b.test.cond != 0)
  }

  function TestSize(test: Test): nat { if test.Fused? then 1 else 2 }

  function HeadWords(b: Block): nat {
    match b
    case Straight(_) => 0
    case Skip(test, _) => TestSize(test)
    case Loop(_, _, _) => 2
  }

  function TailWords(b: Block): nat {
    match b
    case Loop(_, _, fused) => if fused then 2 else 3
    case _ => 0
  }

  function BlockWords(b: Block): nat { HeadWords(b) + ItemsWords(b.its) + TailWords(b) }

  function FlatTest(test: Test, a: int, t: int): seq<Instr> {
    match test
    case Fused(p, inv, rs1, rs2) => [Fbr(p, inv, rs1, RegRhs(rs2), Disp13(a, t))]
    case Flagged(w, rs1, rs2, cond, inv) => [Cmp(w, rs1, rs2), Br(false, cond, inv, Disp18(a + 4, t))]
  }

  function FlatHead(b: Block, a: int): seq<Instr> {
    match b
    case Straight(_) => []
    case Skip(test, _) => FlatTest(test, a, a + 4 * (HeadWords(b) + ItemsWords(b.its)))
    case Loop(count, _, _) => [SetR(false, 11, count % U32)]
  }

  /** Decrement r11 and go back to the top while it is not zero. */
  function LoopEnd(top: int, its: seq<Item>, fused: bool): seq<Instr> {
    var e := top + 4 * ItemsWords(its);
    [AluIS(0, true, 11, 11, 0xFF)]
    + (if fused then [Fbr(0, true, 11, Imm4(0), Disp13(e + 4, top))]
       else [CmpIS(false, 11, 0), Br(false, 1, true, Disp18(e + 8, top))])
  }

  function FlatTail(b: Block, a: int): seq<Instr> {
    match b
    case Loop(_, _, fused) => LoopEnd(a + 8, b.its, fused)
    case _ => []
  }

  function FlatBlock(b: Block, a: int, fa: seq<int>): seq<Instr> {
    FlatHead(b, a) + FlatItems(b.its, a + 4 * HeadWords(b), fa) + FlatTail(b, a)
  }

  function FlatBlocks(bs: seq<Block>, a: int, fa: seq<int>): seq<Instr>
    decreases |bs|
  {
    if bs == [] then []
    else FlatBlock(bs[0], a, fa) + FlatBlocks(bs[1..], a + 4 * BlockWords(bs[0]), fa)
  }

  function BlocksWords(bs: seq<Block>): nat {
    if bs == [] then 0 else BlockWords(bs[0]) + BlocksWords(bs[1..])
  }

  function LeafWords(f: Leaf): nat { WordCount(FlatLeaf(f)) }

  /** Unmasks interrupt source 0. */
  function MaskSetup(irq: bool): seq<Instr> {
    if irq then [SetR(false, 14, INT_MASK), SetR(false, 13, 1), Store(3, false, 13, Base(14))] else []
  }

  /** Register loads, the mask, a jump over three leaf functions, the blocks, HALT; the
      blocks' accesses stay in a window of so many bytes. */
  datatype Program = Program(inits: seq<Instr>, irq: bool, leaves: seq<Leaf>, blocks: seq<Block>, window: nat)

  predicate InitOk(i: Instr) {
    (i.SetR? || i.SetR64?) && 1 <= i.rd <= 10
  }

  ghost predicate ProgramOk(p: Program) {
    && (forall k :: 0 <= k < |p.inits| ==> InitOk(p.inits[k])) && WordCount(p.inits) <= 30
    && |p.leaves| == 3 && (forall k :: 0 <= k < 3 ==> LeafOk(p.leaves[k]))
    && (forall k :: 0 <= k < |p.blocks| ==> BlockOk(p.window, p.blocks[k])) && DUMPED <= p.window <= WIDEST
  }

  function Start(inits: seq<Instr>, irq: bool): seq<Instr> {
    inits + ([SetR(false, 12, DATA), SetR(false, 15, 0)] + MaskSetup(irq))
  }

  function Prologue(p: Program): seq<Instr> { Start(p.inits, p.irq) }

  function JumpAt(p: Program, base: int): int { base + 4 * WordCount(Prologue(p)) }

  function LeafAt(p: Program, base: int, k: nat): int
    requires |p.leaves| == 3 && k <= 3
  {
    JumpAt(p, base) + 4
    + (if k >= 1 then 4 * LeafWords(p.leaves[0]) else 0)
    + (if k >= 2 then 4 * LeafWords(p.leaves[1]) else 0)
    + (if k == 3 then 4 * LeafWords(p.leaves[2]) else 0)
  }

  function LeafTable(p: Program, base: int): seq<int>
    requires |p.leaves| == 3
  {
    [LeafAt(p, base, 0), LeafAt(p, base, 1), LeafAt(p, base, 2)]
  }

  function OverLeaves(p: Program, base: int): Instr
    requires |p.leaves| == 3
  {
    Br(false, 0, false, Disp18(JumpAt(p, base), LeafAt(p, base, 3)))
  }

  function FlatProgram(p: Program, base: int): seq<Instr>
    requires |p.leaves| == 3
  {
    Prologue(p)
    + ([OverLeaves(p, base)]
       + (FlatLeaf(p.leaves[0])
          + (FlatLeaf(p.leaves[1])
             + (FlatLeaf(p.leaves[2])
                + (FlatBlocks(p.blocks, LeafAt(p, base, 3), LeafTable(p, base)) + [Halt])))))
  }
}
