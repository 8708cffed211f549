/** A random program as kasm sees it, with labels, and what its labels resolve to. */
module RandSym {
  import opened Bits
  import opened Isa
  import opened Monitor
  import opened Kasm
  import opened Listing
  import opened RandShape
  import opened RandRuns

  function LeafName(k: nat): Name { Name('F', k) }
  function LocalName(n: nat): Name { Name('L', n) }

  function FixedAll(ins: seq<Instr>): (r: seq<Sym>)
    ensures |r| == |ins| && forall k :: 0 <= k < |ins| ==> r[k] == Fixed(ins[k])
  {
    seq(|ins|, k requires 0 <= k < |ins| => Fixed(ins[k]))
  }

  function SymItem(it: Item): seq<Sym> {
    if it.CallLeaf? then [Jump(true, 0, false, Label(LeafName(it.f)))] else FixedAll(FlatItem(it, 0, []))
  }

  function SymItems(its: seq<Item>): seq<Sym> {
    if its == [] then [] else SymItem(its[0]) + SymItems(its[1..])
  }

  function SymLeaf(f: Leaf): seq<Sym> { FixedAll(FlatLeaf(f)) }

  function SymTest(test: Test, t: Target): seq<Sym> {
    match test
    case Fused(p, inv, rs1, rs2) => [Branch(p, inv, rs1, RegRhs(rs2), t)]
    case Flagged(w, rs1, rs2, cond, inv) => [Fixed(Cmp(w, rs1, rs2)), Jump(false, cond, inv, t)]
  }

  function SymHead(b: Block, n: Name): seq<Sym> {
    match b
    case Straight(_) => []
    case Skip(test, _) => SymTest(test, Label(n))
    case Loop(count, _, _) => [Fixed(SetR(false, 11, count % U32))]
  }

  function SymTail(b: Block, n: Name): seq<Sym> {
    match b
    case Loop(_, _, fused) =>
      [Fixed(AluIS(0, true, 11, 11, 0xFF))]
      + (if fused then [Branch(0, true, 11, Imm4(0), Label(n))]
         else [Fixed(CmpIS(false, 11, 0)), Jump(false, 1, true, Label(n))])
    case _ => []
  }

  function SymBlock(b: Block, n: Name): seq<Sym> {
    SymHead(b, n) + (SymItems(b.its) + SymTail(b, n))
  }

  function SymBlocks(bs: seq<Block>, ns: seq<Name>): seq<Sym>
    requires |bs| == |ns|
  {
    if bs == [] then [] else SymBlock(bs[0], ns[0]) + SymBlocks(bs[1..], ns[1..])
  }

  function SymProgram(p: Program, over: Name, ns: seq<Name>): seq<Sym>
    requires |p.leaves| == 3 && |ns| == |p.blocks|
  {
    FixedAll(Prologue(p))
    + ([Jump(false, 0, false, Label(over))]
       + (SymLeaf(p.leaves[0])
          + (SymLeaf(p.leaves[1])
             + (SymLeaf(p.leaves[2])
                + (SymBlocks(p.blocks, ns) + [Fixed(Halt)])))))
  }

  // ---- the text

  /** Every item in assembly. */
  lemma ItemText(i: Instr, o: u32, rd: Reg, src: Reg, dst: Reg, f: nat)
    requires o < 0x7F8
    ensures SymItem(Plain(i)) == [Fixed(i)] == SymItem(Direct(i))
    ensures SymItem(ViaR13(o, i)) == [Fixed(SetR(false, 13, o)), Fixed(i)]
    ensures SymItem(Unaligned(o, rd)) == [Fixed(SetR(false, 13, 0x1_0000 + o)), Fixed(Load(2, false, false, rd, Base(13)))]
    ensures SymItem(Bracket(src, i, dst)) == [Fixed(Push(src)), Fixed(i), Fixed(Pop(dst))]
    ensures SymItem(CallLeaf(f)) == [Jump(true, 0, false, Label(Name('F', f)))]
  {
    assert FixedAll([i]) == [Fixed(i)];
    assert FixedAll([SetR(false, 13, o), i]) == [Fixed(SetR(false, 13, o)), Fixed(i)];
    var a, b := SetR(false, 13, (DATA + o) % U32), Load(2, false, false, rd, Base(13));
    assert FixedAll([a, b]) == [Fixed(a), Fixed(b)];
    assert FixedAll([Push(src), i, Pop(dst)]) == [Fixed(Push(src)), Fixed(i), Fixed(Pop(dst))];
  }

  /** Every block: a fused branch or a compare and a jump over the body; r11 loaded, the body,
      r11 down by one and back to the label behind the load while it is not 0. */
  lemma BlockText(its: seq<Item>, n: Name, p: Pred, inv: bool, w: bool, x: Reg, y: Reg, c: Cond, k: nat)
    requires k < 0x1_0000_0000
    ensures SymBlock(Straight(its), n) == SymItems(its)
    ensures SymBlock(Skip(Fused(p, inv, x, y), its), n) == [Branch(p, inv, x, RegRhs(y), Label(n))] + SymItems(its)
    ensures SymBlock(Skip(Flagged(w, x, y, c, inv), its), n)
      == [Fixed(Cmp(w, x, y)), Jump(false, c, inv, Label(n))] + SymItems(its)
    ensures SymBlock(Loop(k, its, true), n) == [Fixed(SetR(false, 11, k))] + (SymItems(its)
      + [Fixed(AluIS(0, true, 11, 11, 0xFF)), Branch(0, true, 11, Imm4(0), Label(n))])
    ensures SymBlock(Loop(k, its, false), n) == [Fixed(SetR(false, 11, k))] + (SymItems(its)
      + [Fixed(AluIS(0, true, 11, 11, 0xFF)), Fixed(CmpIS(false, 11, 0)), Jump(false, 1, true, Label(n))])
  {
    hide SymItems;
    Neutral(SymItems(its));
  }

  /** The start: the registers, the data base, the frame pointer and, for interrupts, the
      store that unmasks the timer; and a leaf with its three ways to return. */
  lemma StartText(p: Program, body: seq<Instr>, n: u22)
    ensures FixedAll(Prologue(p)) == FixedAll(p.inits) + ([Fixed(SetR(false, 12, 0x1_0000)), Fixed(SetR(false, 15, 0))]
      + if p.irq then [Fixed(SetR(false, 14, 0xF00F_0000)), Fixed(SetR(false, 13, 1)), Fixed(Store(3, false, 13, Base(14)))] else [])
    ensures SymLeaf(Leaf(None, body, false)) == FixedAll(body) + [Fixed(Ret)]
    ensures SymLeaf(Leaf(Some(n), body, false)) == [Fixed(Enter(n))] + FixedAll(body) + [Fixed(LeaveRet)]
    ensures SymLeaf(Leaf(Some(n), body, true)) == [Fixed(Enter(n))] + FixedAll(body) + [Fixed(Isa.Leave), Fixed(Ret)]
  {
  }

  // ---- where the labels are

  /** The block at address a has its label where its jump expects it. */
  predicate LabelAt(b: Block, n: Name, a: int, labels: Labels) {
    (b.Skip? ==> n in labels && labels[n] == a + 4 * (HeadWords(b) + ItemsWords(b.its)))
    && (b.Loop? ==> n in labels && labels[n] == a + 8)
  }

  predicate LabelsAt(bs: seq<Block>, ns: seq<Name>, a: int, labels: Labels)
    requires |bs| == |ns|
    decreases |bs|
  {
    bs == [] || (LabelAt(bs[0], ns[0], a, labels) && LabelsAt(bs[1..], ns[1..], a + 4 * BlockWords(bs[0]), labels))
  }

  predicate LeavesAt(fa: seq<int>, labels: Labels) {
    |fa| == 3 && forall k :: 0 <= k < 3 ==> LeafName(k) in labels && labels[LeafName(k)] == fa[k]
  }

  // ---- resolving

  lemma {:induction false} ResolveFixed(ins: seq<Instr>, a: int, labels: Labels)
    ensures ResolveAll(FixedAll(ins), a, labels) == Some(ins) && SymSize(FixedAll(ins)) == WordCount(ins)
    decreases |ins|
  {
    hide Words;
    if ins != [] {
      assert FixedAll(ins)[1..] == FixedAll(ins[1..]);
      ResolveFixed(ins[1..], a + 4 * Words(ins[0]), labels);
      assert [ins[0]] + ins[1..] == ins;
    }
  }

  /** In-range displacements are the ones the encoder's `simm` produces. */
  lemma SimmIsDisp(a: int, t: int)
    requires 0 <= a < DATA && 0 <= t < DATA
    ensures Simm((t - a) / 4, 0x2_0000) == Some(Disp18(a, t))
    ensures -0x4000 <= t - a < 0x4000 ==> Simm((t - a) / 4, 0x1000) == Some(Disp13(a, t))
  {
  }

  lemma ResolveItem(it: Item, a: int, fa: seq<int>, labels: Labels)
    requires LeavesAt(fa, labels) && 0 <= a < DATA && (it.CallLeaf? ==> it.f < 3 && 0 <= fa[it.f] < DATA)
    ensures ResolveAll(SymItem(it), a, labels) == Some(FlatItem(it, a, fa)) && SymSize(SymItem(it)) == ItemWords(it)
  {
    hide Simm, Disp18, Words, WordCount;
    if it.CallLeaf? {
      SimmIsDisp(a, fa[it.f]);
      ResolveOne(SymItem(it)[0], a, labels);
    } else {
      assert FlatItem(it, 0, []) == FlatItem(it, a, fa);
      FlatItemWords(it, a, fa);
      ResolveFixed(FlatItem(it, a, fa), a, labels);
    }
  }

  lemma {:induction false} ResolveItems(w: nat, its: seq<Item>, a: int, fa: seq<int>, labels: Labels)
    requires LeavesAt(fa, labels) && 0 <= a && a + 4 * ItemsWords(its) < DATA && ItemsOk(w, its)
    requires forall k :: 0 <= k < |fa| ==> 0 <= fa[k] < DATA
    ensures ResolveAll(SymItems(its), a, labels) == Some(FlatItems(its, a, fa)) && SymSize(SymItems(its)) == ItemsWords(its)
    decreases |its|
  {
    hide SymItem, FlatItem, ItemWords, LeavesAt, ItemOk, ResolveAll, Words, SymSize, AllSlots;
    if its == [] {
      ResolveNone(a, labels);
    } else {
      var it, rest := its[0], its[1..];
      var b := a + 4 * ItemWords(it);
      CallInRange(w, it, fa, labels);
      ResolveItem(it, a, fa, labels);
      ResolveItems(w, rest, b, fa, labels);
      ResolveAppend(SymItem(it), SymItems(rest), a, labels);
      AppendSlots(SymItem(it), SymItems(rest));
    }
  }

  lemma CallInRange(w: nat, it: Item, fa: seq<int>, labels: Labels)
    requires LeavesAt(fa, labels) && ItemOk(w, it)
    ensures |fa| == 3 && (it.CallLeaf? ==> it.f < 3)
  {
  }

  lemma ResolveTest(test: Test, n: Name, a: int, t: int, labels: Labels)
    requires n in labels && labels[n] == t && 0 <= a && a + 4 < DATA && 0 <= t < DATA && 0 <= t - a < 0x1000
    ensures ResolveAll(SymTest(test, Label(n)), a, labels) == Some(FlatTest(test, a, t))
    ensures SymSize(SymTest(test, Label(n))) == TestSize(test)
  {
    hide Simm, Disp18, Disp13, ResolveAll, SymSize;
    SimmIsDisp(a, t);
    SimmIsDisp(a + 4, t);
    match test
    case Fused(p, inv, rs1, rs2) => ResolveOne(Branch(p, inv, rs1, RegRhs(rs2), Label(n)), a, labels);
    case Flagged(w, rs1, rs2, cond, inv) =>
      ResolveTwo(Fixed(Cmp(w, rs1, rs2)), Jump(false, cond, inv, Label(n)), a, labels);
  }

  lemma ResolveHead(w: nat, b: Block, n: Name, a: int, labels: Labels)
    requires LabelAt(b, n, a, labels) && 0 <= a && a + 4 * BlockWords(b) < DATA && BlockOk(w, b)
    ensures ResolveAll(SymHead(b, n), a, labels) == Some(FlatHead(b, a)) && SymSize(SymHead(b, n)) == HeadWords(b)
  {
    hide ItemsWords, ResolveAll, SymSize, FlatTest, SymTest, ItemOk;
    match b
    case Straight(_) => ResolveNone(a, labels);
    case Skip(test, _) => ResolveTest(test, n, a, a + 4 * (HeadWords(b) + ItemsWords(b.its)), labels);
    case Loop(count, _, _) => ResolveOne(Fixed(SetR(false, 11, count % U32)), a, labels);
  }

  lemma ResolveLoopEnd(b: Block, n: Name, top: int, labels: Labels)
    requires b.Loop? && n in labels && labels[n] == top && 0 <= top && ItemsWords(b.its) <= 21
    requires top + 4 * ItemsWords(b.its) + 8 < DATA
    ensures var e := top + 4 * ItemsWords(b.its);
      ResolveAll(SymTail(b, n), e, labels) == Some(LoopEnd(top, b.its, b.fused)) && SymSize(SymTail(b, n)) == TailWords(b)
  {
    hide ItemsWords, ResolveAll, SymSize, Simm, Disp13, Disp18, AllSlots;
    var e := top + 4 * ItemsWords(b.its);
    SimmIsDisp(e + 4, top);
    SimmIsDisp(e + 8, top);
    var dec, cmp := Fixed(AluIS(0, true, 11, 11, 0xFF)), Fixed(CmpIS(false, 11, 0));
    if b.fused {
      var f := Branch(0, true, 11, Imm4(0), Label(n));
      var x, y := AluIS(0, true, 11, 11, 0xFF), Fbr(0, true, 11, Imm4(0), Disp13(e + 4, top));
      assert [dec] + [f] == [dec, f] && [x] + [y] == [x, y];
      ResolveTwo(dec, f, e, labels);
    } else {
      var j := Jump(false, 1, true, Label(n));
      ResolveOne(dec, e, labels);
      ResolveTwo(cmp, j, e + 4, labels);
      ResolveAppend([dec], [cmp, j], e, labels);
      AppendSlots([dec], [cmp, j]);
    }
  }

  lemma ResolveBlock(w: nat, b: Block, n: Name, a: int, fa: seq<int>, labels: Labels)
    requires LabelAt(b, n, a, labels) && 0 <= a && a + 4 * BlockWords(b) < DATA && BlockOk(w, b)
    requires LeavesAt(fa, labels) && forall k :: 0 <= k < |fa| ==> 0 <= fa[k] < DATA
    ensures ResolveAll(SymBlock(b, n), a, labels) == Some(FlatBlock(b, a, fa)) && SymSize(SymBlock(b, n)) == BlockWords(b)
  {
    hide ItemsWords, ResolveAll, SymSize, SymHead, SymItems, SymTail, FlatHead, FlatItems, LoopEnd, ItemOk, AllSlots;
    var i := a + 4 * HeadWords(b);
    var e := i + 4 * ItemsWords(b.its);
    ResolveHead(w, b, n, a, labels);
    ResolveItems(w, b.its, i, fa, labels);
    if b.Loop? {
      ResolveLoopEnd(b, n, i, labels);
    } else {
      ResolveNone(e, labels);
      NoTail(b, n);
    }
    ResolveAppend(SymItems(b.its), SymTail(b, n), i, labels);
    AppendSlots(SymItems(b.its), SymTail(b, n));
    ResolveAppend(SymHead(b, n), SymItems(b.its) + SymTail(b, n), a, labels);
    AppendSlots(SymHead(b, n), SymItems(b.its) + SymTail(b, n));
    Assoc(FlatHead(b, a), FlatItems(b.its, i, fa), FlatTail(b, a));
  }

  lemma NoTail(b: Block, n: Name)
    requires !b.Loop?
    ensures SymTail(b, n) == []
  {
  }

  lemma {:induction false} ResolveBlocks(w: nat, bs: seq<Block>, ns: seq<Name>, a: int, fa: seq<int>, labels: Labels)
    requires |bs| == |ns| && LabelsAt(bs, ns, a, labels) && 0 <= a && a + 4 * BlocksWords(bs) < DATA
    requires forall k :: 0 <= k < |bs| ==> BlockOk(w, bs[k])
    requires LeavesAt(fa, labels) && forall k :: 0 <= k < |fa| ==> 0 <= fa[k] < DATA
    ensures ResolveAll(SymBlocks(bs, ns), a, labels) == Some(FlatBlocks(bs, a, fa))
    ensures SymSize(SymBlocks(bs, ns)) == BlocksWords(bs)
    decreases |bs|
  {
    hide BlockWords, ResolveAll, SymSize, SymBlock, FlatBlock, BlockOk, LabelAt, LeavesAt, AllSlots;
    if bs == [] {
      ResolveNone(a, labels);
    } else {
      ResolveBlock(w, bs[0], ns[0], a, fa, labels);
      ResolveBlocks(w, bs[1..], ns[1..], a + 4 * BlockWords(bs[0]), fa, labels);
      ResolveAppend(SymBlock(bs[0], ns[0]), SymBlocks(bs[1..], ns[1..]), a, labels);
      AppendSlots(SymBlock(bs[0], ns[0]), SymBlocks(bs[1..], ns[1..]));
    }
  }

  /** The labels of a whole program are where the shape says. */
  ghost predicate ProgramLabels(p: Program, over: Name, ns: seq<Name>, labels: Labels)
    requires |p.leaves| == 3 && |ns| == |p.blocks|
  {
    && over in labels && labels[over] == LeafAt(p, BASE, 3)
    && LeavesAt(LeafTable(p, BASE), labels)
    && LabelsAt(p.blocks, ns, LeafAt(p, BASE, 3), labels)
  }

  /** The assembled program is the program's shape. */
  lemma ResolveProgram(p: Program, over: Name, ns: seq<Name>, labels: Labels)
    requires ProgramOk(p) && |ns| == |p.blocks| && Fitting(p) && ProgramLabels(p, over, ns, labels)
    ensures ResolveAll(SymProgram(p, over, ns), BASE, labels) == Some(FlatProgram(p, BASE))
  {
    hide BlocksWords, ResolveAll, SymSize, SymBlocks, FlatBlocks, BlockOk, LeavesAt, AllSlots, LabelsAt, FixedAll, Prologue,
      FlatLeaf, LeafOk, InitOk, WordCount, LeafWords, Simm, Disp18;
    var fa, a3 := LeafTable(p, BASE), LeafAt(p, BASE, 3);
    ProgramSize(p);
    ProgramWords(p);
    ResolveFixed(Prologue(p), BASE, labels);
    var j := Jump(false, 0, false, Label(over));
    SimmIsDisp(JumpAt(p, BASE), a3);
    ResolveOne(j, JumpAt(p, BASE), labels);
    ResolveBlocks(p.window, p.blocks, ns, a3, fa, labels);
    ResolveOne(Fixed(Halt), a3 + 4 * BlocksWords(p.blocks), labels);
    var x4 := SymBlocks(p.blocks, ns) + [Fixed(Halt)];
    ResolveAppend(SymBlocks(p.blocks, ns), [Fixed(Halt)], a3, labels);
    ResolveLeaf(p.leaves[2], x4, LeafAt(p, BASE, 2), labels);
    var x3 := SymLeaf(p.leaves[2]) + x4;
    ResolveLeaf(p.leaves[1], x3, LeafAt(p, BASE, 1), labels);
    var x2 := SymLeaf(p.leaves[1]) + x3;
    ResolveLeaf(p.leaves[0], x2, LeafAt(p, BASE, 0), labels);
    var x1 := SymLeaf(p.leaves[0]) + x2;
    ResolveAppend([j], x1, JumpAt(p, BASE), labels);
    ResolveAppend(FixedAll(Prologue(p)), [j] + x1, BASE, labels);
  }

  lemma ResolveLeaf(f: Leaf, rest: seq<Sym>, a: int, labels: Labels)
    requires ResolveAll(rest, a + 4 * LeafWords(f), labels).Some?
    ensures ResolveAll(SymLeaf(f) + rest, a, labels)
      == Some(FlatLeaf(f) + ResolveAll(rest, a + 4 * LeafWords(f), labels).value)
  {
    hide FlatLeaf, ResolveAll, FixedAll, SymSize, WordCount;
    ResolveFixed(FlatLeaf(f), a, labels);
    ResolveAppend(SymLeaf(f), rest, a, labels);
  }
}
