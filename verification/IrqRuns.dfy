/** A run that the monitor accepts is immune to interrupts: it reads back from the
    stack only what it pushed, so it never reads a byte that a handler changed. */
module IrqRuns {
  import opened Isa
  import opened Machine
  import opened Monitor
  import opened Interrupts
  import opened Interleave
  import opened Fetch

  /** The handler's stack and its counter are away from the data window and from the
      deepest stack of the run. */
  predicate Fits(h: Irq, b: Limits) {
    && b.hi <= b.top - b.depth - h.area.room && 0 <= b.top - b.depth - h.area.room && b.touch <= b.depth
    && (h.area.ticks + 8 <= b.lo || b.hi <= h.area.ticks) && (h.area.ticks + 8 <= b.top - b.depth - h.area.room || b.top <= h.area.ticks)
    && b.lo <= b.hi && (b.register < 0 || b.register >= MMIO) && b.top < MMIO
  }

  /** The window and the dwords on the stack are clean. */
  ghost predicate Kept(m: Setup, c: Cfg, dirty: iset<int>) {
    && (forall a :: m.b.lo <= a < m.b.hi ==> a !in dirty)
    && (forall w, a :: w in c.live && InWord(w, 8, a) ==> a !in dirty)
    && (forall w :: w in c.live ==> c.s.sp <= w && w + 8 <= m.b.top)
  }

  lemma FineIsClean(m: Setup, c: Cfg, h: Irq, dirty: iset<int>)
    requires Fine(m, c) && Kept(m, c, dirty) && Fits(h, m.b)
    ensures Roomy(h.area, c.s) && Clean(m.code[c.s.pc], c.s, dirty)
  {
    hide Step, EffAddr, Taken, Misaligned;
    var i := m.code[c.s.pc];
    if i.Load? {
      Nonnegative(i, c.s.r);
    }
  }

  lemma Nonnegative(i: Instr, r: Regs)
    requires i.Load? || i.Store?
    ensures EffAddr(i, r) >= 0
  {
    hide EaAddress;
  }

  /** Stack pointer after a push. */
  lemma SpPushed(m: Setup, c: Cfg, h: Irq)
    requires Fine(m, c) && Fits(h, m.b) && Pushes(m.code[c.s.pc], c.s)
    ensures var sp := NextCfg(m, c).s.sp;
      Align8(Wrap32(c.s.sp - 8)) == c.s.sp - 8 && (sp <= c.s.sp - 8 || sp > m.b.top)
  {
    hide Data, Store64, Load64, ExecMemory, Taken, BranchTarget, NextCalls, NextLive, EffAddr, Misaligned, ReturnFromInterrupt,
      AccessFine;
    PushRoom(m, c, h);
  }

  lemma PushRoom(m: Setup, c: Cfg, h: Irq)
    requires Fine(m, c) && Fits(h, m.b) && Pushes(m.code[c.s.pc], c.s)
    ensures 8 <= c.s.sp && Align8(Wrap32(c.s.sp - 8)) == Wrap32(c.s.sp - 8) == c.s.sp - 8
  {
    hide Step, EffAddr, Misaligned, Pushes, Fits, Align8, Wrap32, Held, InData, Returns;
    PushIsStack(m.code[c.s.pc], c.s);
    assert InStack(m.b, Align8(Wrap32(c.s.sp - 8)));
    RoomOnStack(h, m.b, c.s.sp);
  }

  lemma PushIsStack(i: Instr, s: State)
    requires Pushes(i, s)
    ensures !i.Load? && !i.Store?
  {
    hide Taken;
  }

  lemma RoomOnStack(h: Irq, b: Limits, sp: nat)
    requires Fits(h, b) && sp % 8 == 0 && InStack(b, Align8(Wrap32(sp - 8))) && sp <= b.top
    ensures 8 <= sp && Align8(Wrap32(sp - 8)) == Wrap32(sp - 8) == sp - 8
  {
  }

  /** Other instructions that do not drop anything leave the stack pointer alone. */
  lemma SpSame(m: Setup, c: Cfg)
    requires Fine(m, c) && !Pushes(m.code[c.s.pc], c.s) && !Drops(m.code[c.s.pc])
    ensures NextCfg(m, c).s.sp == c.s.sp
  {
    hide Data, Load64, Store64, LoadLe, StoreLe, EffAddr, Taken, BranchTarget, AccessFine, NextCalls, NextLive;
  }

  lemma LiveNext(m: Setup, c: Cfg, h: Irq)
    requires Fine(m, c) && Fits(h, m.b) && forall w :: w in c.live ==> c.s.sp <= w && w + 8 <= m.b.top
    requires NextCfg(m, c).s.sp <= m.b.top
    ensures var i, d := m.code[c.s.pc], NextCfg(m, c);
      forall w :: w in d.live ==> d.s.sp <= w && w + 8 <= m.b.top && (w in c.live || (Pushes(i, c.s) && w == Align8(Wrap32(c.s.sp - 8))))
  {
    hide Step, Calls, AccessFine;
    if Pushes(m.code[c.s.pc], c.s) {
      SpPushed(m, c, h);
    } else if !Drops(m.code[c.s.pc]) {
      SpSame(m, c);
    }
  }

  predicate Deep(b: Limits, sp: int) { b.top - b.depth <= sp <= b.top }

  lemma KeptNext(m: Setup, c: Cfg, h: Irq, dirty: iset<int>)
    requires Fine(m, c) && Kept(m, c, dirty) && Fits(h, m.b) && Deep(m.b, NextCfg(m, c).s.sp)
    ensures Kept(m, NextCfg(m, c), NextDirty(m.code, m.dev, h, c.s, dirty))
  {
    hide Misaligned, Step, EffAddr, Calls, AccessFine;
    var i, d, next := m.code[c.s.pc], NextCfg(m, c), NextDirty(m.code, m.dev, h, c.s, dirty);
    LiveNext(m, c, h);
    forall w, a | w in d.live && InWord(w, 8, a)
      ensures a !in next
    {
      PushedClean(m, c, h, w, a);
    }
  }

  /** The bytes of a dword just pushed are written, and a word on the stack is not
      under the new stack pointer. */
  lemma PushedClean(m: Setup, c: Cfg, h: Irq, w: int, a: int)
    requires Fine(m, c) && Fits(h, m.b) && w in NextCfg(m, c).live && InWord(w, 8, a)
    requires m.b.top - m.b.depth <= NextCfg(m, c).s.sp <= w && w + 8 <= m.b.top
    requires w in c.live || (Pushes(m.code[c.s.pc], c.s) && w == Align8(Wrap32(c.s.sp - 8)))
    ensures !Shadow(h.area, NextCfg(m, c).s.sp, a)
    ensures Pushes(m.code[c.s.pc], c.s) && w == Align8(Wrap32(c.s.sp - 8)) ==> Writes(m.code[c.s.pc], c.s, a)
  {
    hide Step, EffAddr, Taken;
  }

  lemma {:induction false} Stopped(m: Setup, c: Cfg, h: Irq, dirty: iset<int>, n: nat)
    requires c.s.st != Running
    ensures Run(m, c, n) == c && CleanRun(m.code, m.dev, h, c.s, dirty, n)
    ensures DirtyAfter(m.code, m.dev, h, c.s, dirty, n) == dirty
    decreases n
  {
    hide Roomy, Clean;
    if n != 0 {
      Stopped(m, c, h, dirty, n - 1);
    }
  }

  /** Bytes that may differ after an interrupted run: the counter and the stack. */
  predicate Volatile(h: Irq, b: Limits, a: int) {
    h.area.ticks <= a < h.area.ticks + 8 || b.top - b.depth - h.area.room <= a < b.top
  }

  ghost predicate Confined(h: Irq, b: Limits, dirty: iset<int>) {
    forall a :: a in dirty ==> Volatile(h, b, a)
  }

  /** The run has stopped with a good verdict after n steps. */
  ghost predicate Accepted(m: Setup, c: Cfg, n: nat) {
    var d := Run(m, c, n);
    d.ok && d.s.st != Running && Deep(m.b, d.s.sp)
  }

  lemma AcceptedStep(m: Setup, c: Cfg, n: nat)
    requires Accepted(m, c, n) && c.s.st == Running
    ensures n > 0 && Fine(m, c) && Accepted(m, NextCfg(m, c), n - 1) && Deep(m.b, NextCfg(m, c).s.sp)
  {
    hide Fine, Step;
    var d := NextCfg(m, c);
    OkStays(m, d, n - 1);
    assert Fine(m, c);
    if d.s.st == Running {
      OkStays(m, NextCfg(m, d), n - 2);
      FineDeep(m, d);
    } else {
      var h := Irq(Area(0, 0), s => s);
      Stopped(m, d, h, iset{}, n - 1);
    }
  }

  lemma FineDeep(m: Setup, c: Cfg)
    requires Fine(m, c)
    ensures Deep(m.b, c.s.sp)
  {
    hide Step, AccessFine;
  }

  lemma {:induction false} AcceptedIsClean(m: Setup, c: Cfg, h: Irq, dirty: iset<int>, n: nat)
    requires Accepted(m, c, n) && Fits(h, m.b) && Kept(m, c, dirty) && Confined(h, m.b, dirty)
    ensures CleanRun(m.code, m.dev, h, c.s, dirty, n)
    ensures Confined(h, m.b, DirtyAfter(m.code, m.dev, h, c.s, dirty, n))
    decreases n
  {
    hide Fine, Step, Roomy, Clean, Kept, Fits, Confined, NextDirty, Accepted, Deep;
    if c.s.st != Running {
      Stopped(m, c, h, dirty, n);
    } else {
      AcceptedStep(m, c, n);
      FineIsClean(m, c, h, dirty);
      KeptNext(m, c, h, dirty);
      ConfinedNext(m, c, h, dirty);
      assert NextCfg(m, c).s == Step(m.code, m.dev, c.s);
      AcceptedIsClean(m, NextCfg(m, c), h, NextDirty(m.code, m.dev, h, c.s, dirty), n - 1);
    }
  }

  lemma ConfinedNext(m: Setup, c: Cfg, h: Irq, dirty: iset<int>)
    requires Confined(h, m.b, dirty) && Deep(m.b, NextCfg(m, c).s.sp) && c.s.st == Running
    ensures Confined(h, m.b, NextDirty(m.code, m.dev, h, c.s, dirty))
  {
    hide Step, Fine, Writes;
  }

  lemma StepStopped(code: Code, dev: Device, s: State)
    ensures s.st != Running ==> Step(code, dev, s) == s
  {
    hide Exec;
  }

  lemma {:induction false} AloneIsRun(m: Setup, c: Cfg, n: nat)
    ensures Alone(m.code, m.dev, c.s, n) == Run(m, c, n).s
    decreases n
  {
    hide Step, Fine;
    if n != 0 {
      StepStopped(m.code, m.dev, c.s);
      AloneIsRun(m, NextCfg(m, c), n - 1);
    }
  }

  /** Under any schedule of interrupts an accepted run from an empty stack ends in the
      same registers, flags, PC, SP, device traffic and memory, apart from the
      handler's counter and the stack area. */
  lemma AcceptedUnderInterrupts(m: Setup, c: Cfg, h: Irq, turns: seq<bool>)
    requires Accepted(m, c, Goes(turns)) && Fits(h, m.b) && Benign(h) && c.live == {} && c.s.sp == m.b.top
    ensures var d, w := Run(m, c, Goes(turns)).s, Weave(m.code, m.dev, h, c.s, turns);
      && w == d.(mem := w.mem) && forall a :: !Volatile(h, m.b, a) ==> Peek(w.mem, a) == Peek(d.mem, a)
  {
    hide Step, Benign, Peek, Run, Weave, CleanRun, Accepted, DirtyAfter, Alone;
    var dirty, n := Under(h, c.s.sp), Goes(turns);
    AcceptedIsClean(m, c, h, dirty, n);
    AnySchedule(m.code, m.dev, h, c.s, c.s, dirty, turns);
    AloneIsRun(m, c, n);
    var w, d := Weave(m.code, m.dev, h, c.s, turns), Run(m, c, n).s;
    forall a | !Volatile(h, m.b, a)
      ensures Peek(w.mem, a) == Peek(d.mem, a)
    {
      assert a !in DirtyAfter(m.code, m.dev, h, c.s, dirty, n);
    }
  }

  // ---- the same with instructions fetched from memory

  /** The woven run of the machine proper. */
  function MemWeave(dev: Device, h: Irq, s: State, turns: seq<bool>): State
    decreases |turns|
  {
    if turns == [] then s
    else if turns[0] then MemWeave(dev, h, if Enabled(s) then h.run(s) else s, turns[1..])
    else MemWeave(dev, h, MemStep(dev, s), turns[1..])
  }

  /** Neither the handler nor the program's stack reaches into [lo, hi). */
  ghost predicate Clear(h: Irq, b: Limits, lo: int, hi: int) {
    forall a :: lo <= a < hi ==> !Volatile(h, b, a)
  }

  lemma {:induction false} StoppedWoven(code: Code, dev: Device, h: Irq, s: State, turns: seq<bool>)
    requires s.st != Running
    ensures Weave(code, dev, h, s, turns) == s == MemWeave(dev, h, s, turns)
    decreases |turns|
  {
    if turns != [] {
      StoppedWoven(code, dev, h, s, turns[1..]);
    }
  }

  /** Code in memory stays there when only dirty bytes change. */
  lemma CodeClean(s: State, t: State, dirty: iset<int>, h: Irq, b: Limits, code: Code, lo: int, hi: int)
    requires Related(s, t, dirty) && Confined(h, b, dirty) && Clear(h, b, lo, hi) && Holds(s.mem, code, lo, hi)
    ensures Holds(t.mem, code, lo, hi)
  {
    hide Peek, Holds, Volatile;
    forall a | lo <= a < hi
      ensures Peek(t.mem, a) == Peek(s.mem, a)
    {
    }
    HoldsSame(s.mem, t.mem, code, lo, hi);
  }

  lemma MemIsStep(code: Code, dev: Device, s: State, lo: int, hi: int)
    requires Holds(s.mem, code, lo, hi) && s.pc in code
    ensures MemStep(dev, s) == Step(code, dev, s)
  {
    hide Exec, Stored, FetchAt;
    FetchStored(s.mem, s.pc, code[s.pc]);
  }

  /** An accepted run whose code no access can write and no interrupt touches is, woven
      with any schedule, the same run fetched and decoded from memory. */
  lemma {:induction false} WovenFromMemory(m: Setup, c: Cfg, h: Irq, t: State, dirty: iset<int>, turns: seq<bool>, lo: int, hi: int)
    requires Accepted(m, c, Goes(turns)) && Fits(h, m.b) && Benign(h) && Kept(m, c, dirty) && Confined(h, m.b, dirty)
    requires Related(c.s, t, dirty) && Under(h, c.s.sp) <= dirty
    requires Holds(c.s.mem, m.code, lo, hi) && Safe(m.b, lo, hi) && Clear(h, m.b, lo, hi)
    ensures MemWeave(m.dev, h, t, turns) == Weave(m.code, m.dev, h, t, turns)
    decreases |turns|
  {
    hide Benign, Step, Related, Clean, Under, NextDirty, Roomy, Accepted, Fine, Fits, Kept, Confined, Holds, Safe, Clear, Enabled, MemStep, Deep;
    if c.s.st != Running {
      SameStatus(c.s, t, dirty);
      StoppedWoven(m.code, m.dev, h, t, turns);
    } else if turns != [] {
      AcceptedStep(m, c, Goes(turns));
      FineIsClean(m, c, h, dirty);
      SameStatus(c.s, t, dirty);
      if turns[0] {
        if Enabled(t) {
          InterruptRelated(h, c.s, t, dirty);
          WovenFromMemory(m, c, h, h.run(t), dirty, turns[1..], lo, hi);
        } else {
          WovenFromMemory(m, c, h, t, dirty, turns[1..], lo, hi);
        }
      } else {
        CodeClean(c.s, t, dirty, h, m.b, m.code, lo, hi);
        FineHere(m, c);
        MemIsStep(m.code, m.dev, t, lo, hi);
        StepRelated(m.code, m.dev, h, c.s, t, dirty);
        KeptNext(m, c, h, dirty);
        ConfinedNext(m, c, h, dirty);
        FineKeepsIn(m, c, lo, hi);
        HoldsSame(c.s.mem, NextCfg(m, c).s.mem, m.code, lo, hi);
        WovenFromMemory(m, NextCfg(m, c), h, Step(m.code, m.dev, t), NextDirty(m.code, m.dev, h, c.s, dirty), turns[1..], lo, hi);
      }
    }
  }

  lemma SameStatus(s: State, t: State, dirty: iset<int>)
    requires Related(s, t, dirty)
    ensures t.st == s.st && t.pc == s.pc
  {
  }

  lemma FineHere(m: Setup, c: Cfg)
    requires Fine(m, c)
    ensures c.s.pc in m.code && NextCfg(m, c).s == Step(m.code, m.dev, c.s)
  {
    hide Step, AccessFine;
  }

  /** From an empty stack. */
  lemma AcceptedFromMemory(m: Setup, c: Cfg, h: Irq, turns: seq<bool>, lo: int, hi: int)
    requires Accepted(m, c, Goes(turns)) && Fits(h, m.b) && Benign(h) && c.live == {} && c.s.sp == m.b.top
    requires Holds(c.s.mem, m.code, lo, hi) && Safe(m.b, lo, hi) && Clear(h, m.b, lo, hi)
    ensures MemWeave(m.dev, h, c.s, turns) == Weave(m.code, m.dev, h, c.s, turns)
  {
    hide Benign, Step, Accepted, Holds, Safe, Clear, Peek;
    WovenFromMemory(m, c, h, c.s, Under(h, c.s.sp), turns, lo, hi);
  }

  // ---- no tick is lost

  /** Requests that find the undisturbed program running, with interrupts on and the timer
      unmasked. */
  function Due(code: Code, dev: Device, s: State, turns: seq<bool>): nat
    decreases |turns|
  {
    if turns == [] then 0
    else if turns[0] then
      (if s.st == Running && !s.disabled && s.mask % 2 == 1 then 1 else 0) + Due(code, dev, s, turns[1..])
    else Due(code, dev, Step(code, dev, s), turns[1..])
  }

  /** The counter has gone up by k. */
  predicate Counted(h: Irq, m: Mem, m': Mem, k: nat) {
    Load64(m', h.area.ticks) == Wrap64(Load64(m, h.area.ticks) + k)
  }

  lemma {:induction false} NothingDue(code: Code, dev: Device, s: State, turns: seq<bool>)
    requires s.st != Running
    ensures Due(code, dev, s, turns) == 0
    decreases |turns|
  {
    if turns != [] {
      NothingDue(code, dev, s, turns[1..]);
    }
  }

  /** The program's own accesses stay off the counter. */
  lemma CounterUntouched(b: Limits, h: Irq, a: int)
    requires Fits(h, b) && h.area.ticks <= a < h.area.ticks + 8
    ensures Untouchable(b, a)
  {
  }

  lemma AccessAlike(b: Limits, i: Instr, s: State, t: State, live: set<int>)
    requires t == s.(mem := t.mem)
    ensures AccessFine(b, i, t, live) == AccessFine(b, i, s, live)
  {
    hide EffAddr, Misaligned, InData, InStack, Held;
  }

  /** The woven program's step is as fine as the undisturbed one's, back to wherever it
      returns. */
  lemma FineAlike(m: Setup, c: Cfg, t: State, dirty: iset<int>)
    requires Fine(m, c) && Related(c.s, t, dirty)
    ensures Fine(m, Cfg(t, [Step(m.code, m.dev, t).pc], c.live, true))
  {
    hide AccessFine, Step, Agree;
    AccessAlike(m.b, m.code[c.s.pc], c.s, t, c.live);
  }

  /** So a step of the woven program leaves the count alone. */
  lemma StepCounts(m: Setup, c: Cfg, h: Irq, t: State, dirty: iset<int>)
    requires Fine(m, c) && Fits(h, m.b) && Related(c.s, t, dirty) && h.area.ticks % 8 == 0
    ensures Load64(Step(m.code, m.dev, t).mem, h.area.ticks) == Load64(t.mem, h.area.ticks)
  {
    hide Step, Peek, LoadLe, Fine, Related, Untouchable, Fits;
    var u := Step(m.code, m.dev, t);
    FineAlike(m, c, t, dirty);
    forall a | h.area.ticks <= a < h.area.ticks + 8
      ensures Peek(u.mem, a) == Peek(t.mem, a)
    {
      CounterUntouched(m.b, h, a);
      FineKeeps(m, Cfg(t, [u.pc], c.live, true), a);
    }
    LoadSame(t.mem, u.mem, h.area.ticks, 8);
  }

  /** One more tick and n more are n + 1. */
  lemma OneMore(x: nat, y: nat, n: nat)
    requires y == Wrap64(x + 1)
    ensures Wrap64(y + n) == Wrap64(x + (1 + n))
  {
  }

  lemma RequestCounts(h: Irq, s: State, t: State, dirty: iset<int>)
    requires Benign(h) && Roomy(h.area, s) && Related(s, t, dirty) && Enabled(t)
    ensures Load64(h.run(t).mem, h.area.ticks) == Wrap64(Load64(t.mem, h.area.ticks) + 1)
  {
    hide Benign, Load64, Agree;
    BenignTicked(h, t);
  }

  lemma EnabledAlike(s: State, t: State, dirty: iset<int>)
    requires Related(s, t, dirty)
    ensures Enabled(t) <==> s.st == Running && !s.disabled && s.mask % 2 == 1
  {
  }

  lemma EightApart(h: Irq)
    requires Benign(h)
    ensures h.area.ticks % 8 == 0
  {
    hide Ticked, Roomy;
  }

  lemma {:induction false} TicksCounted(m: Setup, c: Cfg, h: Irq, t: State, dirty: iset<int>, turns: seq<bool>)
    requires Accepted(m, c, Goes(turns)) && Fits(h, m.b) && Benign(h) && Kept(m, c, dirty) && Confined(h, m.b, dirty)
    requires Related(c.s, t, dirty) && Under(h, c.s.sp) <= dirty
    ensures Load64(Weave(m.code, m.dev, h, t, turns).mem, h.area.ticks)
      == Wrap64(Load64(t.mem, h.area.ticks) + Due(m.code, m.dev, c.s, turns))
    decreases |turns|
  {
    hide Benign, Step, Related, Clean, Under, NextDirty, Roomy, Accepted, Fine, Fits, Kept, Confined, Enabled, Deep, Load64;
    if c.s.st != Running {
      SameStatus(c.s, t, dirty);
      StoppedWoven(m.code, m.dev, h, t, turns);
      NothingDue(m.code, m.dev, c.s, turns);
    } else if turns != [] {
      AcceptedStep(m, c, Goes(turns));
      FineIsClean(m, c, h, dirty);
      EightApart(h);
      if turns[0] {
        EnabledAlike(c.s, t, dirty);
        if Enabled(t) {
          InterruptRelated(h, c.s, t, dirty);
          RequestCounts(h, c.s, t, dirty);
          TicksCounted(m, c, h, h.run(t), dirty, turns[1..]);
          OneMore(Load64(t.mem, h.area.ticks), Load64(h.run(t).mem, h.area.ticks), Due(m.code, m.dev, c.s, turns[1..]));
        } else {
          TicksCounted(m, c, h, t, dirty, turns[1..]);
        }
      } else {
        FineHere(m, c);
        StepRelated(m.code, m.dev, h, c.s, t, dirty);
        KeptNext(m, c, h, dirty);
        ConfinedNext(m, c, h, dirty);
        StepCounts(m, c, h, t, dirty);
        TicksCounted(m, NextCfg(m, c), h, Step(m.code, m.dev, t), NextDirty(m.code, m.dev, h, c.s, dirty), turns[1..]);
      }
    }
  }

  /** Under any schedule the handler's counter goes up by one for each request that finds
      the undisturbed program with interrupts on: no tick is lost, none counts twice. */
  lemma EveryTickCounted(m: Setup, c: Cfg, h: Irq, turns: seq<bool>)
    requires Accepted(m, c, Goes(turns)) && Fits(h, m.b) && Benign(h) && c.live == {} && c.s.sp == m.b.top
    ensures Counted(h, c.s.mem, Weave(m.code, m.dev, h, c.s, turns).mem, Due(m.code, m.dev, c.s, turns))
  {
    hide Benign, Step, Accepted, Peek, Load64, Weave, Due;
    TicksCounted(m, c, h, c.s, Under(h, c.s.sp), turns);
  }
}
