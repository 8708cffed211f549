/** Random test programs under timer interrupts: the final state of the main program
    does not depend on when, or how often, the interrupts come. */
module RandIrq {
  import opened Isa
  import opened Machine
  import opened Monitor
  import opened Interrupts
  import opened Interleave
  import opened IrqRuns
  import opened RandShape
  import opened RandRuns
  import opened RandProg
  import opened RandSym
  import opened Kasm
  import opened Listing
  import opened Fetch

  /** The woven run has halted in the state d of the uninterrupted one: registers,
      flags, PC, SP, device traffic and all memory but the counter and the stack. */
  ghost predicate EndsLike(h: Irq, b: Limits, d: State, w: State) {
    w.st == Halted && w == d.(mem := w.mem) && forall a :: !Volatile(h, b, a) ==> Peek(w.mem, a) == Peek(d.mem, a)
  }

  /** Every generated program whose code fits halts under every schedule with enough turns of
      its own, in the state of its undisturbed run, and the handler has counted every request
      that found it with interrupts on. */
  lemma AnyInterrupts(p: Program, code: Code, dev: Device, h: Irq, s: State) returns (n: nat)
    requires ProgramOk(p) && Fitting(p) && At(code, BASE, FlatProgram(p, BASE))
    requires StartsAt(p.window, s, s.sp) && Benign(h) && Fits(h, Rig(code, dev, s.sp, p.irq, p.window).b)
    ensures var d := Alone(code, dev, s, n); d.st == Halted && d.sp == s.sp
    ensures Accepted(Rig(code, dev, s.sp, p.irq, p.window), Cfg(s, [], {}, true), n)
    ensures forall turns :: Goes(turns) >= n ==>
      && EndsLike(h, Rig(code, dev, s.sp, p.irq, p.window).b, Alone(code, dev, s, n), Weave(code, dev, h, s, turns))
      && Counted(h, s.mem, Weave(code, dev, h, s, turns).mem, Due(code, dev, s, turns))
  {
    hide ProgramOk, At, FlatProgram, NextCfg, Run, Alone, Weave, Benign, Fits, Peek, Counted, Due;
    n := EveryProgramHalts(p, code, dev, s);
    var m, c := Rig(code, dev, s.sp, p.irq, p.window), Cfg(s, [], {}, true);
    AloneIsRun(m, c, n);
    forall turns | Goes(turns) >= n
      ensures EndsLike(h, m.b, Alone(code, dev, s, n), Weave(code, dev, h, s, turns))
      ensures Counted(h, s.mem, Weave(code, dev, h, s, turns).mem, Due(code, dev, s, turns))
    {
      var d := Run(m, c, n);
      Stopped(m, d, h, iset{}, Goes(turns) - n);
      RunAdd(m, c, n, Goes(turns) - n);
      AcceptedUnderInterrupts(m, c, h, turns);
      EveryTickCounted(m, c, h, turns);
    }
  }

  /** The same for the assembled words in memory, fetched and decoded at every step. */
  lemma AnyInterruptsFromMemory(p: Program, ns: seq<Name>, listing: seq<Sym>, labels: Labels, dev: Device, h: Irq, s: State)
      returns (n: nat)
    requires Generated(p, ns, listing, labels) && StartsAt(p.window, s, s.sp)
    requires Assembled(listing, BASE, labels).Some? && WordsIn(s.mem, BASE, Assembled(listing, BASE, labels).value)
    requires Benign(h) && (h.area.ticks + 8 <= BASE || DATA <= h.area.ticks)
    requires Fits(h, Rig(CodeOf(FlatProgram(p, BASE), BASE), dev, s.sp, p.irq, p.window).b)
    ensures var d := MemRun(dev, s, n); d.st == Halted && d.sp == s.sp
    ensures forall turns :: Goes(turns) >= n ==>
      && EndsLike(h, Rig(CodeOf(FlatProgram(p, BASE), BASE), dev, s.sp, p.irq, p.window).b, MemRun(dev, s, n), MemWeave(dev, h, s, turns))
      && Counted(h, s.mem, MemWeave(dev, h, s, turns).mem, Due(CodeOf(FlatProgram(p, BASE), BASE), dev, s, turns))
  {
    assert |p.leaves| == 3;
    hide *;
    var code := CodeOf(FlatProgram(p, BASE), BASE);
    var m, c := Rig(code, dev, s.sp, p.irq, p.window), Cfg(s, [], {}, true);
    Loaded(p, ns, listing, labels, dev, h, s);
    n := AnyInterrupts(p, code, dev, h, s);
    AloneIsRun(m, c, n);
    AcceptedOk(m, c, n);
    RunFromMemory(m, c, n, BASE, DATA);
    forall turns | Goes(turns) >= n
      ensures EndsLike(h, m.b, MemRun(dev, s, n), MemWeave(dev, h, s, turns))
      ensures Counted(h, s.mem, MemWeave(dev, h, s, turns).mem, Due(code, dev, s, turns))
    {
      AcceptedLater(m, c, n, Goes(turns));
      AcceptedFromMemory(m, c, h, turns, BASE, DATA);
    }
  }

  lemma AcceptedOk(m: Setup, c: Cfg, n: nat)
    requires Accepted(m, c, n)
    ensures Run(m, c, n).ok
  {
    hide Run;
  }

  lemma AcceptedLater(m: Setup, c: Cfg, n: nat, k: nat)
    requires Accepted(m, c, n) && k >= n
    ensures Accepted(m, c, k)
  {
    hide Run;
    RunAdd(m, c, n, k - n);
    Stopped(m, Run(m, c, n), Irq(Area(0, 0), s => s), iset{}, k - n);
  }

  /** The program's words in memory, out of the way of its accesses and the handler's. */
  lemma Loaded(p: Program, ns: seq<Name>, listing: seq<Sym>, labels: Labels, dev: Device, h: Irq, s: State)
    requires Generated(p, ns, listing, labels) && StartsAt(p.window, s, s.sp)
    requires Assembled(listing, BASE, labels).Some? && WordsIn(s.mem, BASE, Assembled(listing, BASE, labels).value)
    requires h.area.ticks + 8 <= BASE || DATA <= h.area.ticks
    requires Fits(h, Rig(CodeOf(FlatProgram(p, BASE), BASE), dev, s.sp, p.irq, p.window).b)
    ensures var code := CodeOf(FlatProgram(p, BASE), BASE); var m := Rig(code, dev, s.sp, p.irq, p.window);
      && ProgramOk(p) && Fitting(p) && At(code, BASE, FlatProgram(p, BASE)) && m.code == code && m.dev == dev && m.b.top == s.sp
      && Holds(s.mem, code, BASE, DATA) && Safe(m.b, BASE, DATA) && Clear(h, m.b, BASE, DATA)
  {
    hide Assembled, ProgramLabels, SymProgram, EncodeAll, FlatProgram, Legal, BlockOk, LeafOk, InitOk, WordCount, CodeOf, At,
      WordsIn, Holds;
    var ins := FlatProgram(p, BASE);
    GeneratedAssembles(p, ns, listing, labels);
    CodeOfAt(ins, BASE);
    HoldsEncoded(s.mem, BASE, ins);
    HoldsWithin(s.mem, CodeOf(ins, BASE), BASE, BASE + 4 * WordCount(ins), DATA);
  }
}
