/** Critical sections: DI r; ...; EI r puts the enable bit back, whatever runs in between,
    however the sections nest and wherever interrupts come. */
module Sections {
  import opened Bits
  import opened Isa
  import opened Machine
  import opened Monitor
  import opened Interrupts
  import opened Interleave

  // ---- schedules

  /** t is s but for memory, and not even that while disabled. */
  ghost predicate Idle(s: State, t: State) {
    t == s.(mem := t.mem) && (s.disabled ==> t.mem == s.mem)
  }

  lemma {:induction false} NoGoes(code: Code, dev: Device, h: Irq, s: State, turns: seq<bool>)
    requires Benign(h) && Roomy(h.area, s) && Goes(turns) == 0
    ensures Idle(s, Weave(code, dev, h, s, turns))
    decreases |turns|
  {
    hide Benign, Step, Ticked;
    if turns != [] {
      if Enabled(s) {
        TickIdle(h, s);
        NoGoes(code, dev, h, h.run(s), turns[1..]);
      } else {
        NoGoes(code, dev, h, s, turns[1..]);
      }
    }
  }

  lemma TickIdle(h: Irq, s: State)
    requires Benign(h) && Roomy(h.area, s) && Enabled(s)
    ensures Idle(s, h.run(s)) && Roomy(h.area, h.run(s))
  {
    hide Benign, Load64, Wrap64;
    BenignTicked(h, s);
  }

  lemma {:induction false} SplitTurns(turns: seq<bool>, n: nat) returns (k: nat)
    requires n <= Goes(turns)
    ensures k <= |turns| && Goes(turns[..k]) == n && Goes(turns[k..]) == Goes(turns) - n
    decreases |turns|
  {
    if n == 0 {
      k := 0;
      assert turns[0..] == turns;
    } else {
      var j := SplitTurns(turns[1..], if turns[0] then n else n - 1);
      k := j + 1;
      assert turns[..k][1..] == turns[1..][..j] && turns[k..] == turns[1..][j..];
    }
  }

  lemma {:induction false} WeaveSplit(code: Code, dev: Device, h: Irq, s: State, turns: seq<bool>, k: nat)
    requires k <= |turns|
    ensures Weave(code, dev, h, s, turns) == Weave(code, dev, h, Weave(code, dev, h, s, turns[..k]), turns[k..])
    decreases |turns|
  {
    hide Step, Enabled;
    if k == 0 {
      assert turns[0..] == turns;
    } else {
      assert turns[..k][1..] == turns[1..][..k - 1] && turns[k..] == turns[1..][k - 1..];
      var t := if turns[0] then (if Enabled(s) then h.run(s) else s) else Step(code, dev, s);
      WeaveSplit(code, dev, h, t, turns[1..], k - 1);
    }
  }

  lemma {:induction false} AloneAdd(code: Code, dev: Device, s: State, a: nat, b: nat)
    ensures Alone(code, dev, s, a + b) == Alone(code, dev, Alone(code, dev, s, a), b)
    decreases a
  {
    hide Step;
    if a != 0 {
      AloneAdd(code, dev, Step(code, dev, s), a - 1, b);
    }
  }

  lemma AloneOne(code: Code, dev: Device, s: State)
    ensures Alone(code, dev, s, 1) == Step(code, dev, s)
  {
    hide Step;
    assert Alone(code, dev, Step(code, dev, s), 0) == Step(code, dev, s);
  }

  // ---- any code between DI r and EI r

  /** The instruction, executed in s, turns interrupts on. */
  predicate Enables(i: Instr, s: State) {
    (i.Ei? && s.r[i.rs1] % 2 == 1) || (i.IRet? && !ReturnFromInterrupt(s).disabled)
  }

  lemma KeepsDisabled(i: Instr, s: State, dev: Device)
    requires s.disabled && !Enables(i, s)
    ensures Exec(i, s, dev).disabled
  {
    hide Exec, ExecStack, ExecMemory, ExecBranch;
    if IsData(i) {
      ExecData(i, s, dev);
    } else if i.Load? || i.Store? {
      MemoryKeeps(i, s, dev);
    } else if i.Br? || i.BrAbs? || i.BrReg? || i.Fbr? {
      ExecIsBranch(i, s, dev);
      BranchKeeps(i, s);
    } else {
      ExecIsStack(i, s, dev);
      StackKeeps(i, s);
    }
  }

  lemma MemoryKeeps(i: Instr, s: State, dev: Device)
    requires i.Load? || i.Store?
    ensures Exec(i, s, dev).disabled == s.disabled
  {
    hide LoadLe, StoreLe, EffAddr, Misaligned, ExtendLoad, Data, ExecBranch, ExecStack;
  }

  lemma BranchKeeps(i: Instr, s: State)
    requires i.Br? || i.BrAbs? || i.BrReg? || i.Fbr?
    ensures ExecBranch(i, s).disabled == s.disabled
  {
    hide Store64, Taken, BranchTarget;
  }

  lemma ExecIsStack(i: Instr, s: State, dev: Device)
    requires !IsData(i) && !i.Load? && !i.Store? && !i.Br? && !i.BrAbs? && !i.BrReg? && !i.Fbr?
    ensures Exec(i, s, dev) == ExecStack(i, s)
  {
    hide ExecStack, ExecMemory, ExecBranch, Data;
  }

  lemma StackKeeps(i: Instr, s: State)
    requires s.disabled && !Enables(i, s)
    ensures ExecStack(i, s).disabled
  {
    hide Store64, Load64, ReturnFromInterrupt, Next;
  }

  /** From u, the state DI r has left, the program takes n instructions, none of which
      enables interrupts, to EI r, and r still holds what DI put there. */
  ghost predicate Bracketed(code: Code, dev: Device, u: State, r: Reg, n: nat) {
    && (forall k :: 0 <= k < n ==> Carries(code, Alone(code, dev, u, k)))
    && var e := Alone(code, dev, u, n);
       e.st == Running && e.pc in code && code[e.pc] == Ei(r) && e.r[r] == u.r[r]
  }

  predicate Carries(code: Code, s: State) {
    s.st == Running && s.pc in code && !Enables(code[s.pc], s)
  }

  lemma {:induction false} StillDisabled(code: Code, dev: Device, u: State, n: nat, k: nat)
    requires u.disabled && k <= n && forall j :: 0 <= j < n ==> Carries(code, Alone(code, dev, u, j))
    ensures Alone(code, dev, u, k).disabled
    decreases k
  {
    hide Exec, Enables;
    if k != 0 {
      StillDisabled(code, dev, u, n, k - 1);
      var s := Alone(code, dev, u, k - 1);
      assert Carries(code, s);
      KeepsDisabled(code[s.pc], s, dev);
      AloneAdd(code, dev, u, k - 1, 1);
      AloneOne(code, dev, s);
    }
  }

  /** What the whole section does when nothing disturbs it. */
  function AfterSection(code: Code, dev: Device, s: State, r: Reg, n: nat): State {
    Exec(Ei(r), Alone(code, dev, Exec(Di(r), s, dev), n), dev)
  }

  /** From the moment DI r executes, under any schedule: the section runs undisturbed, and
      after EI r the enable bit is what it was.  What lies between is arbitrary code:
      memory accesses, stack, calls, branches, further sections, IRET. */
  lemma AnySection(code: Code, dev: Device, h: Irq, s: State, r: Reg, n: nat, turns: seq<bool>)
    requires Benign(h) && s.st == Running && s.pc in code && code[s.pc] == Di(r)
    requires Bracketed(code, dev, Exec(Di(r), s, dev), r, n)
    requires Roomy(h.area, AfterSection(code, dev, s, r, n))
    requires turns != [] && !turns[0] && Goes(turns) == n + 2
    ensures var t, e := Weave(code, dev, h, s, turns), AfterSection(code, dev, s, r, n);
      Idle(e, t) && t.st == Running && t.disabled == s.disabled
  {
    hide Exec, Benign, Enables, Roomy, Weave, Alone, Goes, Bracketed, ReturnFromInterrupt, Step, Data;
    var u := Exec(Di(r), s, dev);
    DiEffect(r, s, dev);
    FirstGo(code, dev, h, s, turns);
    InSection(code, dev, h, u, r, n, turns[1..]);
    EiEffect(r, Alone(code, dev, u, n), dev);
    AtEnd(code, dev, u, r, n);
  }

  lemma AtEnd(code: Code, dev: Device, u: State, r: Reg, n: nat)
    requires Bracketed(code, dev, u, r, n)
    ensures var e := Alone(code, dev, u, n);
      e.st == Running && e.pc in code && code[e.pc] == Ei(r) && e.r[r] == u.r[r]
  {
    hide Alone, Carries;
  }

  /** The part after DI. */
  lemma InSection(code: Code, dev: Device, h: Irq, u: State, r: Reg, n: nat, turns: seq<bool>)
    requires Benign(h) && u.disabled && Bracketed(code, dev, u, r, n) && Goes(turns) == n + 1
    requires Roomy(h.area, Exec(Ei(r), Alone(code, dev, u, n), dev))
    ensures Idle(Exec(Ei(r), Alone(code, dev, u, n), dev), Weave(code, dev, h, u, turns))
  {
    hide Exec, Benign, Carries, Roomy, Weave, Alone, Goes;
    var j := SplitTurns(turns, n);
    var x, y := turns[..j], turns[j..];
    WeaveSplit(code, dev, h, u, turns, j);
    forall k | 0 <= k <= n
      ensures Alone(code, dev, u, k).disabled
    {
      StillDisabled(code, dev, u, n, k);
    }
    Undisturbed(code, dev, h, u, x);
    AtEnd(code, dev, u, r, n);
    LastGo(code, dev, h, Alone(code, dev, u, n), Ei(r), y);
  }

  lemma FirstGo(code: Code, dev: Device, h: Irq, s: State, turns: seq<bool>)
    requires turns != [] && !turns[0] && s.st == Running && s.pc in code
    ensures Weave(code, dev, h, s, turns) == Weave(code, dev, h, Exec(code[s.pc], s, dev), turns[1..])
    ensures Goes(turns[1..]) == Goes(turns) - 1
  {
    hide Exec;
  }

  lemma DiEffect(r: Reg, s: State, dev: Device)
    ensures var u := Exec(Di(r), s, dev); u == s.(r := s.r[r := B(!s.disabled)], disabled := true, pc := u.pc)
  {
  }

  lemma EiEffect(r: Reg, s: State, dev: Device)
    ensures var u := Exec(Ei(r), s, dev); u == s.(disabled := s.r[r] % 2 == 0, pc := u.pc)
  {
  }

  /** One instruction from a disabled state, then whatever interrupts it lets in. */
  lemma {:induction false} LastGo(code: Code, dev: Device, h: Irq, s: State, i: Instr, turns: seq<bool>)
    requires Benign(h) && s.disabled && s.st == Running && s.pc in code && code[s.pc] == i && Goes(turns) == 1
    requires Roomy(h.area, Exec(i, s, dev))
    ensures Idle(Exec(i, s, dev), Weave(code, dev, h, s, turns))
    decreases |turns|
  {
    hide Exec, Benign, Roomy;
    if turns[0] {
      LastGo(code, dev, h, s, i, turns[1..]);
    } else {
      NoGoes(code, dev, h, Exec(i, s, dev), turns[1..]);
    }
  }

  // ---- a section across an IRET frame

  /** DI r; PUSH x; IRET, with EI r at the address in x's frame word. */
  ghost predicate FramePlaced(code: Code, a: int, r: Reg, x: Reg, back: int) {
    && a in code && code[a] == Di(r) && a + 4 in code && code[a + 4] == Push(x) && a + 8 in code && code[a + 8] == IRet
    && back in code && code[back] == Ei(r)
  }

  /** A section that leaves through a hand-built frame with bit 43 set restores the enable
      bit too. */
  lemma AcrossFrame(code: Code, dev: Device, h: Irq, s: State, r: Reg, x: Reg, back: u32, mask: u4, turns: seq<bool>)
    requires Benign(h) && Roomy(h.area, s) && s.st == Running && FramePlaced(code, s.pc, r, x, back) && s.pc + 8 < U32
    requires x != r && s.r[x] == back + 0x80_0000_0000 * mask + 0x800_0000_0000 && 8 <= s.sp
    requires turns != [] && !turns[0] && Goes(turns) == 4
    ensures var t := Weave(code, dev, h, s, turns);
      t.st == Running && t.disabled == s.disabled && t.sp == s.sp && t.pc == Wrap32(back + 4) && t.mask == mask
  {
    hide Weave, Goes, Benign, Roomy, Exec, Alone, Bracketed;
    var w := ThroughFrame(code, dev, s, r, x, back, mask);
    EiEffect(r, w, dev);
    EiNext(r, w, dev);
    RoomAgain(h, s, Exec(Ei(r), w, dev));
    AnySection(code, dev, h, s, r, 2, turns);
  }

  /** DI, PUSH and IRET end at EI, disabled, with SP back. */
  lemma ThroughFrame(code: Code, dev: Device, s: State, r: Reg, x: Reg, back: u32, mask: u4) returns (w: State)
    requires s.st == Running && FramePlaced(code, s.pc, r, x, back) && s.pc + 8 < U32
    requires x != r && s.r[x] == back + 0x80_0000_0000 * mask + 0x800_0000_0000 && 8 <= s.sp
    ensures var u := Exec(Di(r), s, dev);
      Bracketed(code, dev, u, r, 2) && w == Alone(code, dev, u, 2)
    ensures w.st == Running && w.disabled && w.sp == s.sp && w.pc == back && w.mask == mask && w.r[r] == B(!s.disabled)
  {
    hide Store64, Load64, ReturnFromInterrupt, Exec, Alone, Enables;
    var u := Exec(Di(r), s, dev);
    DiSmall(r, s, dev);
    var v := Exec(Push(x), u, dev);
    PushSmall(x, u, dev);
    assert Load64(v.mem, v.sp) == u.r[x] by { Load64Store64(u.mem, u.sp - 8, u.r[x]); }
    w := Exec(IRet, v, dev);
    FrameSmall(v, back, mask, dev);
    assert Alone(code, dev, u, 0) == u && Alone(code, dev, u, 1) == v && Alone(code, dev, u, 2) == w by {
      TwoSteps(code, dev, u);
    }
    assert Carries(code, u) && Carries(code, v) by { NotEnabling(u, x); }
    assert Bracketed(code, dev, u, r, 2);
  }

  lemma NotEnabling(u: State, x: Reg)
    ensures !Enables(Push(x), u)
  {
  }

  lemma TwoSteps(code: Code, dev: Device, u: State)
    requires u.st == Running && u.pc in code
    ensures Alone(code, dev, u, 0) == u && Alone(code, dev, u, 1) == Exec(code[u.pc], u, dev)
    ensures var v := Exec(code[u.pc], u, dev);
      v.st == Running && v.pc in code ==> Alone(code, dev, u, 2) == Exec(code[v.pc], v, dev)
  {
    hide Exec;
    AloneOne(code, dev, u);
    AloneAdd(code, dev, u, 1, 1);
    AloneOne(code, dev, Step(code, dev, u));
  }

  lemma DiSmall(r: Reg, s: State, dev: Device)
    requires s.pc + 4 < U32
    ensures Exec(Di(r), s, dev) == s.(r := s.r[r := B(!s.disabled)], disabled := true, pc := s.pc + 4)
  {
  }

  lemma EiNext(r: Reg, s: State, dev: Device)
    ensures Exec(Ei(r), s, dev).pc == Wrap32(s.pc + 4)
  {
  }

  lemma PushSmall(x: Reg, s: State, dev: Device)
    requires s.pc + 4 < U32 && s.sp >= 8
    ensures Exec(Push(x), s, dev) == s.(sp := s.sp - 8, mem := Store64(s.mem, s.sp - 8, s.r[x]), pc := s.pc + 4)
  {
    hide Store64;
  }

  lemma FrameSmall(s: State, pc: u32, mask: u4, dev: Device)
    requires Load64(s.mem, s.sp) == pc + 0x80_0000_0000 * mask + 0x800_0000_0000
    ensures !Enables(IRet, s)
    ensures Exec(IRet, s, dev)
      == s.(pc := pc, sp := Wrap32(s.sp + 8), fl := Flags(false, false, false, false), mask := mask, disabled := true)
  {
    hide Load64, ReturnFromInterrupt;
    SoftwareFrame(s, pc, mask, true);
    ExecReturn(s);
  }

  // ---- nested sections as program text

  /** Straight-line code with bracketed parts. */
  datatype Piece = Work(i: Instr) | Section(r: Reg, body: seq<Piece>)

  function Flat(p: Piece): seq<Instr>
    decreases p
  {
    match p
    case Work(i) => [i]
    case Section(r, body) => [Di(r)] + FlatAll(body) + [Ei(r)]
  }

  function FlatAll(ps: seq<Piece>): seq<Instr>
    decreases ps
  {
    if ps == [] then [] else Flat(ps[0]) + FlatAll(ps[1..])
  }

  /** Arithmetic, and loads and stores that trap at no address. */
  predicate Sturdy(i: Instr) {
    IsData(i) || ((i.Load? || i.Store?) && (i.size == 0 || i.size == 3 || (i.Load? && i.size == 2 && !i.sgn && i.ea.Base?)))
  }

  predicate Sets(i: Instr, r: Reg) { (WritesRd(i) || i.Load?) && i.rd == r }

  /** Work never touches a register that holds a saved enable bit. */
  predicate Fair(p: Piece, saved: set<Reg>)
    decreases p
  {
    match p
    case Work(i) => Sturdy(i) && forall r: Reg :: r in saved ==> !Sets(i, r)
    case Section(r, body) => r !in saved && FairAll(body, saved + {r})
  }

  predicate FairAll(ps: seq<Piece>, saved: set<Reg>)
    decreases ps
  {
    ps == [] || (Fair(ps[0], saved) && FairAll(ps[1..], saved))
  }

  /** The enable bit and the saved registers are as before, the next instruction is `words`
      on. */
  ghost predicate Restored(s: State, t: State, saved: set<Reg>, words: int) {
    && t.st == Running && t.sp == s.sp && t.pc == s.pc + 4 * words && t.disabled == s.disabled
    && forall r: Reg :: r in saved ==> t.r[r] == s.r[r]
  }

  lemma WorkEffect(i: Instr, s: State, saved: set<Reg>, dev: Device)
    requires Fair(Work(i), saved) && s.st == Running && s.pc + 4 * Words(i) < U32
    ensures Restored(s, Exec(i, s, dev), saved, Words(i))
  {
    if IsData(i) {
      hide Data, Words, Exec;
      ExecData(i, s, dev);
    } else {
      hide LoadLe, StoreLe, EffAddr, ExtendLoad, Data, Words, ExecBranch, ExecStack;
    }
  }

  /** Ready to run a piece of code under any schedule. */
  ghost predicate Poised(code: Code, h: Irq, s: State, ins: seq<Instr>, turns: seq<bool>) {
    && Benign(h) && Roomy(h.area, s) && s.st == Running && At(code, s.pc, ins)
    && s.pc + 4 * WordCount(ins) < U32 && Goes(turns) == |ins|
  }

  /** What every piece promises: Restored, and from a disabled state the undisturbed run. */
  ghost predicate Kept(code: Code, dev: Device, s: State, t: State, saved: set<Reg>, ins: seq<Instr>) {
    Restored(s, t, saved, WordCount(ins)) && (s.disabled ==> t == Alone(code, dev, s, |ins|))
  }

  lemma {:induction false} WorkRestores(code: Code, dev: Device, h: Irq, s: State, i: Instr, saved: set<Reg>, turns: seq<bool>)
    requires Poised(code, h, s, [i], turns) && Fair(Work(i), saved)
    ensures Kept(code, dev, s, Weave(code, dev, h, s, turns), saved, [i])
    decreases |turns|
  {
    hide Exec, Benign, Fair, Roomy, Enabled;
    WordCountShort(i, i);
    if turns[0] {
      if Enabled(s) {
        TickIdle(h, s);
        assert !s.disabled by { EnabledNot(s); }
        WorkRestores(code, dev, h, h.run(s), i, saved, turns[1..]);
      } else {
        WorkRestores(code, dev, h, s, i, saved, turns[1..]);
      }
    } else {
      WorkEffect(i, s, saved, dev);
      var t := Exec(i, s, dev);
      assert Roomy(h.area, t) by { RoomAgain(h, s, t); }
      NoGoes(code, dev, h, t, turns[1..]);
      AloneOne(code, dev, s);
    }
  }

  lemma EnabledNot(s: State)
    requires Enabled(s)
    ensures !s.disabled && s.st == Running
  {
  }

  lemma {:induction false} AllRestore(code: Code, dev: Device, h: Irq, s: State, ps: seq<Piece>, saved: set<Reg>, turns: seq<bool>)
    requires Poised(code, h, s, FlatAll(ps), turns) && FairAll(ps, saved)
    ensures Kept(code, dev, s, Weave(code, dev, h, s, turns), saved, FlatAll(ps))
    decreases ps, 0
  {
    hide Weave, Benign, WordCount, At, Goes, Flat, Fair, Roomy, Alone;
    if ps == [] {
      assert Goes(turns) == 0;
      NoGoes(code, dev, h, s, turns);
      assert WordCount([]) == 0 && Alone(code, dev, s, 0) == s by { NoWords(code, dev, s); }
    } else {
      var x, y := Flat(ps[0]), FlatAll(ps[1..]);
      AtAppend(code, s.pc, x, y);
      var k := SplitTurns(turns, |x|);
      WeaveSplit(code, dev, h, s, turns, k);
      PieceRestores(code, dev, h, s, ps[0], saved, turns[..k]);
      var t := Weave(code, dev, h, s, turns[..k]);
      RoomAgain(h, s, t);
      AllRestore(code, dev, h, t, ps[1..], saved, turns[k..]);
      AloneAdd(code, dev, s, |x|, |y|);
    }
  }

  lemma NoWords(code: Code, dev: Device, s: State)
    ensures WordCount([]) == 0 && Alone(code, dev, s, 0) == s
  {
  }

  lemma RoomAgain(h: Irq, s: State, t: State)
    requires Roomy(h.area, s) && t.sp == s.sp
    ensures Roomy(h.area, t)
  {
  }

  /** A section, with everything inside it, leaves the enable bit as it found it. */
  lemma {:induction false} PieceRestores(code: Code, dev: Device, h: Irq, s: State, p: Piece, saved: set<Reg>, turns: seq<bool>)
    requires Poised(code, h, s, Flat(p), turns) && Fair(p, saved)
    ensures Kept(code, dev, s, Weave(code, dev, h, s, turns), saved, Flat(p))
    decreases p, 0
  {
    hide Weave, Benign, WordCount, At, Goes, FlatAll, Roomy, IsData, Alone;
    match p {
      case Work(i) =>
        WorkRestores(code, dev, h, s, i, saved, turns);
      case Section(r, body) =>
        SectionRestores(code, dev, h, s, r, body, saved, turns);
    }
  }

  /** An instruction that touches neither memory nor SP. */
  predicate Quiet(i: Instr) { i.Di? || i.Ei? }

  lemma QuietStep(i: Instr, s: State, m: Mem, dev: Device)
    requires Quiet(i)
    ensures Exec(i, s.(mem := m), dev) == Exec(i, s, dev).(mem := m) && Exec(i, s, dev).mem == s.mem
    ensures Exec(i, s, dev).sp == s.sp
  {
    hide Data, ExecMemory, ExecBranch;
  }

  /** DI or EI amid any number of interrupts. */
  lemma {:induction false} OneGo(code: Code, dev: Device, h: Irq, s: State, i: Instr, turns: seq<bool>)
    requires Benign(h) && Roomy(h.area, s) && Goes(turns) == 1
    requires s.st == Running && s.pc in code && code[s.pc] == i && Quiet(i)
    ensures var t := Weave(code, dev, h, s, turns);
      t == Exec(i, s, dev).(mem := t.mem) && (s.disabled && t.disabled ==> t.mem == s.mem)
    decreases |turns|
  {
    hide Benign, Exec, Ticked, Quiet;
    if turns[0] {
      if Enabled(s) {
        TickIdle(h, s);
        QuietStep(i, s, h.run(s).mem, dev);
        OneGo(code, dev, h, h.run(s), i, turns[1..]);
      } else {
        OneGo(code, dev, h, s, i, turns[1..]);
      }
    } else {
      QuietStep(i, s, s.mem, dev);
      NoGoes(code, dev, h, Exec(i, s, dev), turns[1..]);
    }
  }

  lemma {:induction false} SectionRestores(code: Code, dev: Device, h: Irq, s: State, r: Reg, body: seq<Piece>, saved: set<Reg>,
                                           turns: seq<bool>)
    requires Poised(code, h, s, Flat(Section(r, body)), turns) && r !in saved && FairAll(body, saved + {r})
    ensures Kept(code, dev, s, Weave(code, dev, h, s, turns), saved, Flat(Section(r, body)))
    decreases body, 1
  {
    hide Weave, Benign, WordCount, At, Goes, FlatAll, Roomy, Exec, Alone;
    var x, z := FlatAll(body), [Ei(r)];
    AtAppend(code, s.pc, [Di(r)] + x, z);
    AtAppend(code, s.pc, [Di(r)], x);
    SystemWords(r);
    var j := SplitTurns(turns, 1);
    WeaveSplit(code, dev, h, s, turns, j);
    var a := Weave(code, dev, h, s, turns[..j]);
    OneAt(code, s.pc, Di(r));
    OneGo(code, dev, h, s, Di(r), turns[..j]);
    SystemStep(r, s, dev);
    RoomAgain(h, s, a);
    var k := SplitTurns(turns[j..], |x|);
    WeaveSplit(code, dev, h, a, turns[j..], k);
    AllRestore(code, dev, h, a, body, saved + {r}, turns[j..][..k]);
    var b := Weave(code, dev, h, a, turns[j..][..k]);
    RoomAgain(h, a, b);
    OneAt(code, b.pc, Ei(r));
    OneGo(code, dev, h, b, Ei(r), turns[j..][k..]);
    SystemStep(r, b, dev);
    var t := Weave(code, dev, h, s, turns);
    if s.disabled {
      ThreeParts(code, dev, s, a, b, t, |x|, r);
    }
  }

  lemma ThreeParts(code: Code, dev: Device, s: State, a: State, b: State, t: State, n: nat, r: Reg)
    requires s.st == Running && s.pc in code && code[s.pc] == Di(r) && a == Exec(Di(r), s, dev)
    requires b == Alone(code, dev, a, n) && b.st == Running && b.pc in code && code[b.pc] == Ei(r) && t == Exec(Ei(r), b, dev)
    ensures t == Alone(code, dev, s, 1 + n + 1)
  {
    hide Exec;
    AloneOne(code, dev, s);
    AloneOne(code, dev, b);
    AloneAdd(code, dev, s, 1, n);
    AloneAdd(code, dev, s, 1 + n, 1);
  }

  lemma SystemWords(r: Reg)
    ensures WordCount([Di(r)]) == 1 && WordCount([Ei(r)]) == 1
  {
    WordCountShort(Di(r), Ei(r));
    WordCountShort(Ei(r), Di(r));
  }

  lemma OneAt(code: Code, a: int, i: Instr)
    requires At(code, a, [i])
    ensures a in code && code[a] == i
  {
  }

  lemma SystemStep(r: Reg, s: State, dev: Device)
    requires s.pc + 4 < U32
    ensures Exec(Di(r), s, dev) == s.(r := s.r[r := B(!s.disabled)], disabled := true, pc := s.pc + 4)
    ensures Exec(Ei(r), s, dev) == s.(disabled := s.r[r] % 2 == 0, pc := s.pc + 4)
  {
    hide Data, ExecMemory, ExecBranch;
  }
}
