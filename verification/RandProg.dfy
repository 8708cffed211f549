/** The generator's promise, end to end: assemble, load, run. */
module RandProg {
  import opened Bits
  import opened Isa
  import opened Machine
  import opened Encoder
  import opened Monitor
  import opened Fetch
  import opened Kasm
  import opened Listing
  import opened MemImage
  import opened RandShape
  import opened RandRuns
  import opened RandSym
  import opened RandGen
  import opened RandDraws

  // ---- instructions laid out from an address

  function CodeOf(ins: seq<Instr>, a: int): Code
    decreases |ins|
  {
    if ins == [] then map[] else CodeOf(ins[1..], a + 4 * Words(ins[0]))[a := ins[0]]
  }

  lemma {:induction false} CodeOfAbove(ins: seq<Instr>, a: int)
    ensures forall x :: x in CodeOf(ins, a) ==> a <= x < a + 4 * WordCount(ins)
    decreases |ins|
  {
    if ins != [] {
      CodeOfAbove(ins[1..], a + 4 * Words(ins[0]));
    }
  }

  lemma {:induction false} AtSubmap(small: Code, big: Code, a: int, ins: seq<Instr>)
    requires At(small, a, ins) && forall x :: x in small ==> x in big && big[x] == small[x]
    ensures At(big, a, ins)
    decreases |ins|
  {
    hide Words;
    if ins != [] {
      AtSubmap(small, big, a + 4 * Words(ins[0]), ins[1..]);
    }
  }

  lemma {:induction false} CodeOfAt(ins: seq<Instr>, a: int)
    ensures At(CodeOf(ins, a), a, ins)
    decreases |ins|
  {
    hide Words;
    if ins != [] {
      var b := a + 4 * Words(ins[0]);
      CodeOfAt(ins[1..], b);
      CodeOfAbove(ins[1..], b);
      assert b > a by { WordsPositive(ins[0]); }
      AtSubmap(CodeOf(ins[1..], b), CodeOf(ins, a), b, ins[1..]);
    }
  }

  lemma WordsPositive(i: Instr)
    ensures Words(i) > 0
  {
  }

  /** The words are in memory from address a. */
  ghost predicate WordsIn(m: Mem, a: int, ws: seq<u32>) {
    forall k :: 0 <= k < |ws| ==> WordAt(m, a + 4 * k) == ws[k]
  }

  lemma {:induction false} HoldsEncoded(m: Mem, a: int, ins: seq<Instr>)
    requires WordsIn(m, a, EncodeAll(ins)) && forall k :: 0 <= k < |ins| ==> Legal(ins[k])
    ensures Holds(m, CodeOf(ins, a), a, a + 4 * WordCount(ins))
    decreases |ins|
  {
    hide Words, Legal, WordAt, Encode;
    if ins != [] {
      var n := Words(ins[0]);
      var b := a + 4 * n;
      var ws := EncodeAll(ins);
      assert ws == Encode(ins[0]) + EncodeAll(ins[1..]);
      forall k | 0 <= k < |EncodeAll(ins[1..])|
        ensures WordAt(m, b + 4 * k) == EncodeAll(ins[1..])[k]
      {
        assert ws[n + k] == EncodeAll(ins[1..])[k];
        assert WordAt(m, a + 4 * (n + k)) == ws[n + k];
      }
      HoldsEncoded(m, b, ins[1..]);
      forall k | 0 <= k < n
        ensures WordAt(m, a + 4 * k) == Encode(ins[0])[k]
      {
        assert ws[k] == Encode(ins[0])[k];
      }
      assert Stored(m, a, ins[0]);
    }
  }

  // ---- legality

  ghost predicate LegalAll(ls: seq<Sym>) {
    forall k :: 0 <= k < |ls| ==> LegalSym(ls[k])
  }

  lemma LegalAppend(xs: seq<Sym>, ys: seq<Sym>)
    requires LegalAll(xs) && LegalAll(ys)
    ensures LegalAll(xs + ys)
  {
    hide LegalSym;
  }

  lemma LegalFixed(ins: seq<Instr>)
    requires forall k :: 0 <= k < |ins| ==> Legal(ins[k])
    ensures LegalAll(FixedAll(ins))
  {
    hide Legal;
  }

  lemma {:induction false} LegalItems(w: nat, its: seq<Item>)
    requires ItemsOk(w, its)
    ensures LegalAll(SymItems(its))
  {
    hide LegalAll, SymItem, ItemOk;
    if its == [] {
      LegalNone();
    } else {
      LegalItem(w, its[0]);
      LegalItems(w, its[1..]);
      LegalAppend(SymItem(its[0]), SymItems(its[1..]));
    }
  }

  lemma LegalNone()
    ensures LegalAll([])
  {
  }

  lemma LegalItem(w: nat, it: Item)
    requires ItemOk(w, it)
    ensures LegalAll(SymItem(it))
  {
    hide AccessOk, DirectOffset;
    if !it.CallLeaf? {
      LegalFixed(FlatItem(it, 0, []));
    }
  }

  lemma LegalBlock(w: nat, b: Block, n: Name)
    requires BlockOk(w, b)
    ensures LegalAll(SymBlock(b, n))
  {
    hide SymItems, ItemsWords, ItemOk;
    LegalItems(w, b.its);
    assert LegalAll(SymHead(b, n)) && LegalAll(SymTail(b, n));
    LegalAppend(SymItems(b.its), SymTail(b, n));
    LegalAppend(SymHead(b, n), SymItems(b.its) + SymTail(b, n));
  }

  lemma {:induction false} LegalBlocks(w: nat, bs: seq<Block>, ns: seq<Name>)
    requires |bs| == |ns| && forall k :: 0 <= k < |bs| ==> BlockOk(w, bs[k])
    ensures LegalAll(SymBlocks(bs, ns))
    decreases |bs|
  {
    hide SymBlock, BlockOk, LegalAll;
    if bs == [] {
      LegalNone();
    } else {
      LegalBlock(w, bs[0], ns[0]);
      LegalBlocks(w, bs[1..], ns[1..]);
      LegalAppend(SymBlock(bs[0], ns[0]), SymBlocks(bs[1..], ns[1..]));
    }
  }

  lemma LegalLeaf(f: Leaf)
    requires LeafOk(f)
    ensures LegalAll(SymLeaf(f))
  {
    var ins := FlatLeaf(f);
    forall k | 0 <= k < |ins|
      ensures Legal(ins[k])
    {
    }
    LegalFixed(ins);
  }

  lemma LegalPrologue(p: Program)
    requires ProgramOk(p)
    ensures LegalAll(FixedAll(Prologue(p)))
  {
    hide LeafOk, BlockOk, WordCount;
    LegalFixed(Prologue(p));
  }

  lemma LegalProgram(p: Program, over: Name, ns: seq<Name>)
    requires ProgramOk(p) && |ns| == |p.blocks|
    ensures LegalAll(SymProgram(p, over, ns))
  {
    hide LegalAll, SymLeaf, SymBlocks, FixedAll, Prologue, LeafOk, BlockOk, InitOk, WordCount;
    var j, h := [Jump(false, 0, false, Label(over))], [Fixed(Halt)];
    LegalEnds(over);
    LegalPrologue(p);
    LegalLeaf(p.leaves[0]);
    LegalLeaf(p.leaves[1]);
    LegalLeaf(p.leaves[2]);
    LegalBlocks(p.window, p.blocks, ns);
    var x4 := SymBlocks(p.blocks, ns) + h;
    LegalAppend(SymBlocks(p.blocks, ns), h);
    LegalAppend(SymLeaf(p.leaves[2]), x4);
    var x3 := SymLeaf(p.leaves[2]) + x4;
    LegalAppend(SymLeaf(p.leaves[1]), x3);
    var x2 := SymLeaf(p.leaves[1]) + x3;
    LegalAppend(SymLeaf(p.leaves[0]), x2);
    var x1 := SymLeaf(p.leaves[0]) + x2;
    LegalAppend(j, x1);
    LegalAppend(FixedAll(Prologue(p)), j + x1);
  }

  lemma LegalEnds(over: Name)
    ensures LegalAll([Jump(false, 0, false, Label(over))]) && LegalAll([Fixed(Halt)])
  {
  }

  // ---- the theorem

  /** What `gen` leaves in the assembler. */
  ghost predicate Generated(p: Program, ns: seq<Name>, listing: seq<Sym>, labels: Labels) {
    && ProgramOk(p) && |ns| == |p.blocks| && Fitting(p)
    && listing == SymProgram(p, LocalName(1), ns) && ProgramLabels(p, LocalName(1), ns, labels)
  }

  /** Assembling a generated program cannot fail, and gives legal words that disassemble to
      the program's shape. */
  lemma GeneratedAssembles(p: Program, ns: seq<Name>, listing: seq<Sym>, labels: Labels)
    requires Generated(p, ns, listing, labels)
    ensures Assembled(listing, BASE, labels) == Some(EncodeAll(FlatProgram(p, BASE)))
    ensures Disassemble(EncodeAll(FlatProgram(p, BASE))) == Some(FlatProgram(p, BASE))
    ensures forall k :: 0 <= k < |FlatProgram(p, BASE)| ==> Legal(FlatProgram(p, BASE)[k])
  {
    hide Assembled, ProgramLabels, SymProgram, Disassemble, EncodeAll, FlatProgram, Legal, LegalSym, ResolveAll, BlockOk,
      LeafOk, InitOk, WordCount, LeafWords, BlocksWords, Prologue, FlatLeaf;
    ResolveProgram(p, LocalName(1), ns, labels);
    LegalProgram(p, LocalName(1), ns);
    NotRaw(listing);
    AssembledIsEncoded(listing, BASE, labels);
    ResolvedLegal(listing, BASE, labels);
    DisassembleEncoded(FlatProgram(p, BASE));
    ProgramSize(p);
    var code := CodeOf(FlatProgram(p, BASE), BASE);
    CodeOfAt(FlatProgram(p, BASE), BASE);
    ProgramParts(code, p);
  }

  lemma NotRaw(ls: seq<Sym>)
    requires LegalAll(ls)
    ensures forall k :: 0 <= k < |ls| ==> !ls[k].Raw?
  {
    forall k | 0 <= k < |ls|
      ensures !ls[k].Raw?
    {
      assert LegalSym(ls[k]);
    }
  }

  /** Halted with SP back, and nothing changed but the window of w bytes and 16 bytes of
      stack. */
  ghost predicate CleanEnd(w: nat, s: State, d: State) {
    && d.st == Halted && d.sp == s.sp
    && forall a :: a < DATA || DATA + w <= a < s.sp - 16 || s.sp <= a < MMIO ==> Peek(d.mem, a) == Peek(s.mem, a)
  }

  /** The end-to-end promise.  Load the assembled words at 0x20 of any memory and start
      from any registers: fetching and decoding from memory, the machine reaches HALT
      with SP where it began, and no byte outside the data window and the 16 bytes below
      the stack top has changed (in particular no code byte). */
  lemma GeneratedProgramsHalt(p: Program, ns: seq<Name>, listing: seq<Sym>, labels: Labels, dev: Device, s: State)
      returns (n: nat)
    requires Generated(p, ns, listing, labels) && StartsAt(p.window, s, s.sp)
    requires Assembled(listing, BASE, labels).Some? && WordsIn(s.mem, BASE, Assembled(listing, BASE, labels).value)
    ensures CleanEnd(p.window, s, MemRun(dev, s, n))
    ensures var code := CodeOf(FlatProgram(p, BASE), BASE);
      Run(Rig(code, dev, s.sp, p.irq, p.window), Cfg(s, [], {}, true), n).ok
  {
    hide Assembled, ProgramLabels, SymProgram, Disassemble, EncodeAll, FlatProgram, Legal, BlockOk, LeafOk, InitOk, Peek,
      WordCount, CodeOf, At, Run, MemRun, WordsIn, Holds, NextCfg;
    var ins := FlatProgram(p, BASE);
    var code := CodeOf(ins, BASE);
    GeneratedAssembles(p, ns, listing, labels);
    CodeOfAt(ins, BASE);
    n := EveryProgramHalts(p, code, dev, s);
    HoldsEncoded(s.mem, BASE, ins);
    HoldsWithin(s.mem, code, BASE, BASE + 4 * WordCount(ins), DATA);
    var m := Rig(code, dev, s.sp, p.irq, p.window);
    RunFromMemory(m, Cfg(s, [], {}, true), n, BASE, DATA);
    forall a | a < DATA || DATA + p.window <= a < s.sp - 16 || s.sp <= a < MMIO
      ensures Peek(MemRun(dev, s, n).mem, a) == Peek(s.mem, a)
    {
      RunKeeps(m, Cfg(s, [], {}, true), n, a);
    }
  }

  lemma HoldsWithin(m: Mem, code: Code, lo: int, hi: int, more: int)
    requires Holds(m, code, lo, hi) && hi <= more
    ensures Holds(m, code, lo, more)
  {
    hide Stored, Words;
  }

  /** Some number of steps leads to a clean end. */
  ghost predicate Ends(w: nat, dev: Device, s: State) {
    exists n: nat :: CleanEnd(w, s, MemRun(dev, s, n))
  }

  /** What `write_mem` writes for the assembled listing. */
  ghost predicate ImageOf(image: Image, listing: seq<Sym>, labels: Labels) {
    var o := Assembled(listing, BASE, labels);
    o.Some? && image.Keys == CodeDwords(BASE, |o.value|)
    && forall i :: 0 <= i < |o.value| ==> Half(image, BASE + 4 * i) == o.value[i]
  }

  /** From the memory image to the run. */
  lemma ImageHalts(p: Program, ns: seq<Name>, listing: seq<Sym>, labels: Labels, image: Image, dev: Device, s: State)
    requires Generated(p, ns, listing, labels) && StartsAt(p.window, s, s.sp)
    requires InMemory(s.mem, image) && ImageOf(image, listing, labels)
    ensures Ends(p.window, dev, s)
  {
    hide Assembled, Generated, StartsAt, InMemory, CodeDwords, Half, Dw, CleanEnd, MemRun, WordAt;
    var ws := Assembled(listing, BASE, labels).value;
    BaseValue();
    forall i | 0 <= i < |ws|
      ensures WordAt(s.mem, BASE + 4 * i) == ws[i]
    {
      InCode(BASE, |ws|, i);
      HalfInMemory(s.mem, image, BASE + 4 * i);
    }
    var n := GeneratedProgramsHalt(p, ns, listing, labels, dev, s);
  }

  /** Every machine that starts with the image in memory comes to a clean end. */
  ghost predicate Boots(image: Image, w: nat) {
    forall dev: Device, s: State :: StartsAt(w, s, s.sp) && InMemory(s.mem, image) ==> Ends(w, dev, s)
  }

  lemma ImageBoots(p: Program, ns: seq<Name>, listing: seq<Sym>, labels: Labels, image: Image)
    requires Generated(p, ns, listing, labels) && ImageOf(image, listing, labels)
    ensures Boots(image, p.window)
  {
    hide Generated, ImageOf, StartsAt, InMemory, Ends;
    forall dev: Device, s: State | StartsAt(p.window, s, s.sp) && InMemory(s.mem, image)
      ensures Ends(p.window, dev, s)
    {
      ImageHalts(p, ns, listing, labels, image, dev, s);
    }
  }

  lemma NotEmpty(p: Program, ns: seq<Name>, listing: seq<Sym>, labels: Labels)
    requires Generated(p, ns, listing, labels)
    ensures Assembled(listing, BASE, labels).Some? && Assembled(listing, BASE, labels).value != []
  {
    hide Assembled, Generated, EncodeAll, FlatLeaf, FlatBlocks, Prologue, Legal;
    GeneratedAssembles(p, ns, listing, labels);
    assert Disassemble([]) == Some([]);
  }

  /** Generate a program and write its memory image: whatever the stream, writing cannot
      fail, and the image boots. */
  method GenerateImage(rng: Rng, nBlocks: nat, irq: bool, span: nat) returns (image: Option<Image>, ghost p: Program)
    requires 8 <= span <= WIDEST
    modifies rng
    ensures ProgramOk(p) && |p.blocks| == nBlocks && p.irq == irq && p.window == Window(span)
    ensures p == ProgramAt(rng.stream, old(rng.used), nBlocks, irq, span).got
    ensures nBlocks <= MAX_BLOCKS ==> Fitting(p)
    ensures Fitting(p) ==> image.Some? && Boots(image.value, Window(span))
  {
    hide ProgramOk, SymProgram, ProgramLabels, Assembled, Fitting, Boots, CodeDwords, Half, Dw, AllSlots, Starts, Slots,
      ProgramAt;
    ghost var ns;
    var a: Asm;
    a, p, ns := Gen(rng, nBlocks, irq, span);
    image := a.WriteMem();
    BaseValue();
    if nBlocks <= MAX_BLOCKS {
      SmallFits(p);
    }
    if Fitting(p) {
      NotEmpty(p, ns, a.listing, a.labels);
      ImageBoots(p, ns, a.listing, a.labels, image.value);
    }
  }
}
