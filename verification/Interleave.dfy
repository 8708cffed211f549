/** A program interrupted at any set of instruction boundaries ends like the
    uninterrupted program, as long as it never reads a byte an interrupt may have
    changed since the program last wrote it. */
module Interleave {
  import opened Bits
  import opened Isa
  import opened Machine
  import opened Monitor
  import opened Interrupts

  /** The uninterrupted run. */
  function Alone(code: Code, dev: Device, s: State, n: nat): State
    decreases n
  {
    if n == 0 then s else Alone(code, dev, Step(code, dev, s), n - 1)
  }

  /** A schedule: true is a timer request at this boundary, false one instruction.  A
      request is taken when the source is unmasked and interrupts are enabled. */
  function Weave(code: Code, dev: Device, h: Irq, s: State, turns: seq<bool>): State
    decreases |turns|
  {
    if turns == [] then s
    else if turns[0] then Weave(code, dev, h, if Enabled(s) then h.run(s) else s, turns[1..])
    else Weave(code, dev, h, Step(code, dev, s), turns[1..])
  }

  /** Instructions in a schedule. */
  function Goes(turns: seq<bool>): nat {
    if turns == [] then 0 else (if turns[0] then 0 else 1) + Goes(turns[1..])
  }

  // ---- bytes an instruction reads and writes

  predicate InWord(base: int, len: nat, a: int) { base <= a < base + len }

  predicate Reads(i: Instr, s: State, a: int) {
    var fp := Wrap32(s.r[15]);
    if i.Load? then EffAddr(i, s.r) < MMIO && InWord(EffAddr(i, s.r), Bytes(i.size), a)
    else if i.Pop? || i.Ret? || i.IRet? then InWord(Align8(s.sp), 8, a)
    else if i.Leave? then InWord(Align8(fp), 8, a)
    else if i.LeaveRet? then InWord(Align8(fp), 8, a) || InWord(Align8(Wrap32(fp + 8)), 8, a)
    else false
  }

  predicate Writes(i: Instr, s: State, a: int) {
    if i.Store? then
      EffAddr(i, s.r) < MMIO && !Misaligned(i, EffAddr(i, s.r)) && InWord(EffAddr(i, s.r), Bytes(i.size), a)
    else Pushes(i, s) && InWord(Align8(Wrap32(s.sp - 8)), 8, a)
  }

  ghost predicate Clean(i: Instr, s: State, dirty: iset<int>) {
    forall a :: Reads(i, s, a) ==> a !in dirty
  }

  /** t is s except for dirty bytes. */
  ghost predicate Related(s: State, t: State, dirty: iset<int>) {
    t == s.(mem := t.mem) && Agree(s.mem, t.mem, dirty)
  }

  ghost predicate Agree(m: Mem, m': Mem, dirty: iset<int>) {
    forall a :: a !in dirty ==> Peek(m', a) == Peek(m, a)
  }

  lemma {:induction false} StoredBytes(m: Mem, m': Mem, a: int, n: nat, v: nat, b: int)
    requires a <= b < a + n
    ensures Peek(StoreLe(m', a, n, v), b) == Peek(StoreLe(m, a, n, v), b)
    decreases n
  {
    var m1, m1' := m[a := v % 0x100], m'[a := v % 0x100];
    if b == a {
      PeekStore(m1, a + 1, n - 1, v / 0x100, b);
      PeekStore(m1', a + 1, n - 1, v / 0x100, b);
    } else {
      StoredBytes(m1, m1', a + 1, n - 1, v / 0x100, b);
    }
  }

  ghost function After(i: Instr, s: State, dirty: iset<int>): iset<int> {
    iset a | a in dirty && !Writes(i, s, a)
  }

  lemma StoreAgrees(m: Mem, m': Mem, a: int, n: nat, v: nat, dirty: iset<int>, rest: iset<int>)
    requires Agree(m, m', dirty) && forall x :: x in rest <==> x in dirty && !InWord(a, n, x)
    ensures Agree(StoreLe(m, a, n, v), StoreLe(m', a, n, v), rest)
  {
    hide StoreLe, Peek;
    forall x | x !in rest
      ensures Peek(StoreLe(m', a, n, v), x) == Peek(StoreLe(m, a, n, v), x)
    {
      if InWord(a, n, x) {
        StoredBytes(m, m', a, n, v, x);
      } else {
        PeekStore(m, a, n, v, x);
        PeekStore(m', a, n, v, x);
      }
    }
  }

  lemma LoadAgrees(m: Mem, m': Mem, a: int, n: nat, dirty: iset<int>)
    requires Agree(m, m', dirty) && forall x :: InWord(a, n, x) ==> x !in dirty
    ensures LoadLe(m', a, n) == LoadLe(m, a, n)
  {
    hide LoadLe, Peek;
    forall x | a <= x < a + n
      ensures Peek(m', x) == Peek(m, x)
    {
      assert InWord(a, n, x);
    }
    LoadSame(m, m', a, n);
  }

  lemma SimLoad(i: Instr, s: State, t: State, dirty: iset<int>, dev: Device)
    requires Related(s, t, dirty) && Clean(i, s, dirty) && i.Load?
    ensures Related(ExecMemory(i, s, dev), ExecMemory(i, t, dev), After(i, s, dirty))
  {
    hide LoadLe, EffAddr, Peek, ExtendLoad, Misaligned, Pushes;
    var a := EffAddr(i, s.r);
    NoPush(i, s);
    if a < MMIO {
      LoadAgrees(s.mem, t.mem, a, Bytes(i.size), dirty);
    }
  }

  lemma SimStore(i: Instr, s: State, t: State, dirty: iset<int>, dev: Device)
    requires Related(s, t, dirty) && i.Store?
    ensures Related(ExecMemory(i, s, dev), ExecMemory(i, t, dev), After(i, s, dirty))
  {
    hide StoreLe, EffAddr, Peek, Misaligned, Pushes;
    var a := EffAddr(i, s.r);
    if a < MMIO && !Misaligned(i, a) {
      StoreAgrees(s.mem, t.mem, a, Bytes(i.size), s.r[i.rd], dirty, After(i, s, dirty));
    }
  }

  lemma NoPush(i: Instr, s: State)
    requires i.Load? || i.Store?
    ensures !Pushes(i, s) && !IsData(i)
  {
  }

  lemma SimMemory(i: Instr, s: State, t: State, dirty: iset<int>, dev: Device)
    requires Related(s, t, dirty) && Clean(i, s, dirty) && (i.Load? || i.Store?)
    ensures Related(Exec(i, s, dev), Exec(i, t, dev), After(i, s, dirty))
  {
    hide ExecMemory, IsData, Related, Clean, After;
    NoPush(i, s);
    if i.Load? {
      SimLoad(i, s, t, dirty, dev);
    } else {
      SimStore(i, s, t, dirty, dev);
    }
  }

  lemma SimPush(i: Instr, s: State, t: State, v: u64, dirty: iset<int>)
    requires Related(s, t, dirty) && Pushes(i, s) && !i.Store?
    ensures Related(PushWord(s, v), PushWord(t, v), After(i, s, dirty))
  {
    hide StoreLe, Peek, Calls;
    StoreAgrees(s.mem, t.mem, Align8(Wrap32(s.sp - 8)), 8, v, dirty, After(i, s, dirty));
  }

  lemma SimBranch(i: Instr, s: State, t: State, dirty: iset<int>)
    requires Related(s, t, dirty) && (i.Br? || i.BrAbs? || i.BrReg? || i.Fbr?)
    ensures Related(ExecBranch(i, s), ExecBranch(i, t), After(i, s, dirty))
  {
    hide PushWord, Peek, Taken, BranchTarget, Writes, Words, Wrap32;
    assert Taken(i, t) == Taken(i, s) && BranchTarget(i, t) == BranchTarget(i, s) by { SameBranch(i, s, t); }
    if Calls(i, s) {
      SimPush(i, s, t, Next(i, s), dirty);
    } else {
      WritesNothing(i, s);
    }
  }

  lemma WritesNothing(i: Instr, s: State)
    requires !i.Store? && !Pushes(i, s)
    ensures forall a :: !Writes(i, s, a)
  {
    hide Pushes;
  }

  lemma ExecIsBranch(i: Instr, s: State, dev: Device)
    requires i.Br? || i.BrAbs? || i.BrReg? || i.Fbr?
    ensures Exec(i, s, dev) == ExecBranch(i, s)
  {
    hide ExecBranch, ExecStack, Data, ExecMemory;
  }

  lemma SameBranch(i: Instr, s: State, t: State)
    requires t == s.(mem := t.mem) && (i.Br? || i.BrAbs? || i.BrReg? || i.Fbr?)
    ensures Taken(i, t) == Taken(i, s) && BranchTarget(i, t) == BranchTarget(i, s)
  {
  }

  lemma SimStack(i: Instr, s: State, t: State, dirty: iset<int>, dev: Device)
    requires Related(s, t, dirty) && Clean(i, s, dirty)
    requires !IsData(i) && !i.Load? && !i.Store? && !i.Br? && !i.BrAbs? && !i.BrReg? && !i.Fbr?
    ensures Related(Exec(i, s, dev), Exec(i, t, dev), After(i, s, dirty))
  {
    hide PushWord, Peek, LoadLe;
    if i.Push? {
      SimPush(i, s, t, s.r[i.rs1], dirty);
    } else if i.PushV? {
      SimPush(i, s, t, i.imm, dirty);
    } else if i.Enter? {
      SimPush(i, s, t, s.r[15], dirty);
    } else if i.Pop? || i.Ret? || i.IRet? {
      LoadAgrees(s.mem, t.mem, Align8(s.sp), 8, dirty);
    } else if i.Leave? {
      LoadAgrees(s.mem, t.mem, Align8(Wrap32(s.r[15])), 8, dirty);
    } else if i.LeaveRet? {
      LoadAgrees(s.mem, t.mem, Align8(Wrap32(s.r[15])), 8, dirty);
      LoadAgrees(s.mem, t.mem, Align8(Wrap32(Wrap32(s.r[15]) + 8)), 8, dirty);
    }
  }

  lemma SimData(i: Instr, s: State, t: State, dirty: iset<int>, dev: Device)
    requires Related(s, t, dirty) && IsData(i)
    ensures Related(Exec(i, s, dev), Exec(i, t, dev), After(i, s, dirty))
  {
    hide Data, Peek, Writes, Exec, IsData, WritesRd, Pushes, Next;
    ExecData(i, s, dev);
    ExecData(i, t, dev);
    WritesNothing(i, s);
  }

  lemma ExecData(i: Instr, s: State, dev: Device)
    requires IsData(i)
    ensures !i.Store? && !Pushes(i, s)
    ensures var d := Data(i, s.r, s.pc, s.fl);
      Exec(i, s, dev) == s.(r := if WritesRd(i) then s.r[i.rd := d.0] else s.r, fl := d.1, pc := Wrap32(s.pc + 4 * Words(i)))
  {
    hide Data, Words;
  }

  /** One instruction that reads no dirty byte does the same to both states. */
  lemma SimStep(i: Instr, s: State, t: State, dirty: iset<int>, dev: Device)
    requires Related(s, t, dirty) && Clean(i, s, dirty)
    ensures Related(Exec(i, s, dev), Exec(i, t, dev), After(i, s, dirty))
  {
    hide Exec, Related, Clean, After;
    if IsData(i) {
      SimData(i, s, t, dirty, dev);
    } else if i.Load? || i.Store? {
      SimMemory(i, s, t, dirty, dev);
    } else if i.Br? || i.BrAbs? || i.BrReg? || i.Fbr? {
      SimBranch(i, s, t, dirty);
      ExecIsBranch(i, s, dev);
      ExecIsBranch(i, t, dev);
    } else {
      SimStack(i, s, t, dirty, dev);
    }
  }

  // ---- whole runs

  /** Bytes that may differ once an interrupt can happen at this SP. */
  ghost function Under(h: Irq, sp: int): iset<int> {
    iset a | Shadow(h.area, sp, a)
  }

  /** The dirty bytes after one step: those not just written, and the new shadow. */
  ghost function NextDirty(code: Code, dev: Device, h: Irq, s: State, dirty: iset<int>): iset<int> {
    if s.st == Running && s.pc in code then After(code[s.pc], s, dirty) + Under(h, Step(code, dev, s).sp)
    else dirty
  }

  ghost function DirtyAfter(code: Code, dev: Device, h: Irq, s: State, dirty: iset<int>, n: nat): iset<int>
    decreases n
  {
    if n == 0 then dirty else DirtyAfter(code, dev, h, Step(code, dev, s), NextDirty(code, dev, h, s, dirty), n - 1)
  }

  /** The uninterrupted run leaves room for the handler at every boundary and never
      reads a dirty byte. */
  ghost predicate CleanRun(code: Code, dev: Device, h: Irq, s: State, dirty: iset<int>, n: nat)
    decreases n
  {
    && (s.st == Running ==> Roomy(h.area, s) && (s.pc in code && n > 0 ==> Clean(code[s.pc], s, dirty)))
    && (n > 0 ==> CleanRun(code, dev, h, Step(code, dev, s), NextDirty(code, dev, h, s, dirty), n - 1))
  }

  lemma BenignTicked(h: Irq, s: State)
    requires Benign(h) && Roomy(h.area, s) && s.st == Running
    ensures Ticked(h.area, s, h.run(s))
  {
    hide Ticked;
  }

  lemma InterruptRelated(h: Irq, s: State, t: State, dirty: iset<int>)
    requires Benign(h) && Roomy(h.area, s) && Related(s, t, dirty) && Under(h, s.sp) <= dirty && Enabled(t)
    ensures Related(s, h.run(t), dirty)
  {
    hide Peek, Load64, Benign;
    assert Ticked(h.area, t, h.run(t)) by { BenignTicked(h, t); }
    var u := h.run(t);
    forall a | a !in dirty
      ensures Peek(u.mem, a) == Peek(s.mem, a)
    {
      assert a !in Under(h, s.sp);
    }
  }

  lemma StepRelated(code: Code, dev: Device, h: Irq, s: State, t: State, dirty: iset<int>)
    requires Related(s, t, dirty) && Under(h, s.sp) <= dirty
    requires s.st == Running && s.pc in code ==> Clean(code[s.pc], s, dirty)
    ensures Related(Step(code, dev, s), Step(code, dev, t), NextDirty(code, dev, h, s, dirty))
    ensures Under(h, Step(code, dev, s).sp) <= NextDirty(code, dev, h, s, dirty)
  {
    hide Exec, Peek, Clean, After, Under, Agree;
    if s.st == Running && s.pc in code {
      SimStep(code[s.pc], s, t, dirty, dev);
      MoreDirty(Step(code, dev, s), Step(code, dev, t), After(code[s.pc], s, dirty), NextDirty(code, dev, h, s, dirty));
    }
  }

  lemma MoreDirty(s: State, t: State, dirty: iset<int>, more: iset<int>)
    requires Related(s, t, dirty) && dirty <= more
    ensures Related(s, t, more)
  {
    hide Peek;
  }

  lemma RunningToo(s: State, t: State, dirty: iset<int>)
    requires Related(s, t, dirty) && Enabled(t)
    ensures s.st == Running
  {
  }

  /** Any schedule of interrupts: the same registers, flags, PC, SP, mask, device
      traffic and status as the uninterrupted run, and the same clean memory. */
  lemma {:induction false} AnySchedule(
      code: Code, dev: Device, h: Irq, s: State, t: State, dirty: iset<int>, turns: seq<bool>)
    requires Benign(h) && Related(s, t, dirty) && Under(h, s.sp) <= dirty
    requires CleanRun(code, dev, h, s, dirty, Goes(turns))
    ensures var n := Goes(turns);
      Related(Alone(code, dev, s, n), Weave(code, dev, h, t, turns), DirtyAfter(code, dev, h, s, dirty, n))
    decreases |turns|
  {
    hide Benign, Step, Related, Clean, Under, NextDirty, Roomy;
    if turns != [] {
      if turns[0] {
        if Enabled(t) {
          RunningToo(s, t, dirty);
          InterruptRelated(h, s, t, dirty);
          AnySchedule(code, dev, h, s, h.run(t), dirty, turns[1..]);
        } else {
          AnySchedule(code, dev, h, s, t, dirty, turns[1..]);
        }
      } else {
        StepRelated(code, dev, h, s, t, dirty);
        AnySchedule(code, dev, h, Step(code, dev, s), Step(code, dev, t), NextDirty(code, dev, h, s, dirty), turns[1..]);
      }
    }
  }

  /** While interrupts are disabled a schedule makes no difference at all. */
  lemma {:induction false} Undisturbed(code: Code, dev: Device, h: Irq, s: State, turns: seq<bool>)
    requires forall k :: 0 <= k <= Goes(turns) ==> Alone(code, dev, s, k).disabled
    ensures Weave(code, dev, h, s, turns) == Alone(code, dev, s, Goes(turns))
    decreases |turns|
  {
    hide Step;
    assert Alone(code, dev, s, 0) == s;
    if turns != [] {
      if turns[0] {
        Undisturbed(code, dev, h, s, turns[1..]);
      } else {
        forall k | 0 <= k <= Goes(turns[1..])
          ensures Alone(code, dev, Step(code, dev, s), k).disabled
        {
          assert Alone(code, dev, s, k + 1) == Alone(code, dev, Step(code, dev, s), k);
        }
        Undisturbed(code, dev, h, Step(code, dev, s), turns[1..]);
      }
    }
  }
}
