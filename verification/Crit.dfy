/** The DI/EI window test: 300 critical sections under a timer.  Whatever the
    interrupts do, no handler runs inside a section and the program ends with r9 = 0. */
module Crit {
  import opened Bits
  import opened Isa
  import opened Machine
  import opened Interrupts
  import opened Interleave
  import opened Fetch
  import opened IrqRuns

  const DATA: int := 0x1_0000
  const BACK_ONE: u13 := 0x1FFF
  const BACK_40: u13 := 0x1FD8

  /** The whole program, loaded at a. */
  ghost predicate Placed(code: Code, a: int) {
    0 <= a && a + 224 < DATA && Opening(code, a) && Section(code, a) && Exit(code, a) && Gap(code, a)
  }

  ghost predicate Opening(code: Code, a: int) {
    && a in code && code[a] == SetR(false, 14, INT_MASK)
    && a + 8 in code && code[a + 8] == SetR(false, 13, 1)
    && a + 16 in code && code[a + 16] == Store(3, false, 13, Base(14))
    && a + 20 in code && code[a + 20] == SetR(false, 10, CNT)
    && a + 28 in code && code[a + 28] == SetR(false, 9, 0)
    && a + 36 in code && code[a + 36] == SetR(false, 11, 300)
    && a + 44 in code && code[a + 44] == SetR(false, 12, DATA)
  }

  /** DI, the first read of the counter, twelve stores, a spin of eight. */
  ghost predicate Section(code: Code, a: int) {
    && a + 52 in code && code[a + 52] == Di(1)
    && a + 56 in code && code[a + 56] == Load(3, false, false, 2, Base(10))
    && (forall i: u8 :: 0 <= i < 12 ==>
          && a + 60 + 8 * i in code && code[a + 60 + 8 * i] == Store(3, false, 2, Scaled(12, i))
          && a + 64 + 8 * i in code && code[a + 64 + 8 * i] == Inc(2, 2))
    && a + 156 in code && code[a + 156] == SetR(false, 6, 8)
    && a + 164 in code && code[a + 164] == AluIS(0, true, 6, 6, 0xFF)
    && a + 168 in code && code[a + 168] == Fbr(0, true, 6, Imm4(0), BACK_ONE)
  }

  /** Two more reads, EI, the comparison. */
  ghost predicate Exit(code: Code, a: int) {
    && a + 172 in code && code[a + 172] == Load(3, false, false, 3, Base(10))
    && a + 176 in code && code[a + 176] == Load(3, false, false, 4, Base(10))
    && a + 180 in code && code[a + 180] == Ei(1)
    && a + 184 in code && code[a + 184] == Alu(1, false, 4, 4, 3)
    && a + 188 in code && code[a + 188] == Alu(5, false, 9, 9, 4)
  }

  /** Interrupts allowed for a while, the outer loop, the total, HALT. */
  ghost predicate Gap(code: Code, a: int) {
    && a + 192 in code && code[a + 192] == SetR(false, 7, 3)
    && a + 200 in code && code[a + 200] == AluIS(0, true, 7, 7, 0xFF)
    && a + 204 in code && code[a + 204] == Fbr(0, true, 7, Imm4(0), BACK_ONE)
    && a + 208 in code && code[a + 208] == AluIS(0, true, 11, 11, 0xFF)
    && a + 212 in code && code[a + 212] == Fbr(0, true, 11, Imm4(0), BACK_40)
    && a + 216 in code && code[a + 216] == Load(3, false, false, 8, Base(10))
    && a + 220 in code && code[a + 220] == Halt
  }

  function Count(s: State): u64 { Load64(s.mem, CNT) }

  // ---- what holds before the instruction at offset o

  predicate Early(s: State, o: int) {
    && o in {0, 8, 16, 20, 28, 36, 44}
    && (8 <= o ==> s.r[14] == INT_MASK) && (16 <= o ==> s.r[13] == 1)
    && (28 <= o ==> s.r[10] == CNT) && (36 <= o ==> s.r[9] == 0) && (44 <= o ==> s.r[11] == 300)
  }

  /** r10 points at the counter, r12 at the data, no difference was ever seen. */
  predicate Steady(s: State) {
    s.r[10] == CNT && s.r[12] == DATA && s.r[9] == 0
  }

  predicate Looping(s: State) { Steady(s) && 1 <= s.r[11] <= 300 }

  /** Inside the section: the counter has not moved since the first read. */
  predicate Storing(s: State, o: int) {
    && Looping(s) && s.disabled && 60 <= o <= 156 && o % 4 == 0
    && s.r[2] == Wrap64(Count(s) + (o - 60) / 8)
  }

  predicate Spinning(s: State, o: int) {
    && Looping(s) && s.disabled && s.r[2] == Wrap64(Count(s) + 12)
    && ((o == 164 && 1 <= s.r[6] <= 8) || (o == 168 && s.r[6] <= 7))
  }

  predicate Leaving(s: State, o: int) {
    && Looping(s) && o in {172, 176, 180, 184, 188} && (o <= 180 ==> s.disabled)
    && (o <= 180 ==> s.r[2] == Wrap64(Count(s) + 12))
    && (o == 176 || o == 180 ==> s.r[3] == Count(s))
    && (o == 180 ==> s.r[4] == Count(s))
    && (o == 184 ==> Same(s))
    && (o == 188 ==> s.r[4] == 0)
  }

  /** The three reads of the counter agree: r2 has been incremented twelve times. */
  predicate Same(s: State) {
    var x: int := s.r[3]; s.r[4] == x && s.r[2] == Wrap64(x + 12)
  }

  predicate Gapping(s: State, o: int) {
    && Steady(s)
    && ((Looping(s) && (o == 192 || o == 208)) || (Looping(s) && o == 200 && 1 <= s.r[7] <= 3)
        || (Looping(s) && o == 204 && s.r[7] <= 2) || (o == 212 && s.r[11] <= 299)
        || ((o == 216 || o == 220) && s.r[11] == 0))
  }

  predicate At(a: int, top: int, s: State) {
    s.st == Running && s.sp == top
  }

  predicate Inv(a: int, top: int, s: State) {
    && At(a, top, s)
    && var o := s.pc - a;
    || Early(s, o) || (o == 52 && Looping(s)) || (o == 56 && Looping(s) && s.disabled)
    || Storing(s, o) || Spinning(s, o) || Leaving(s, o) || Gapping(s, o)
  }

  /** Instructions left to HALT. */
  function Left(a: int, s: State): int {
    var o, r6: int, r7: int, r11: int := s.pc - a, s.r[6], s.r[7], s.r[11];
    var later := 57 * (r11 - 1) + 2;
    if o <= 16 then 17109 - o / 8
    else if o <= 44 then 17106 - (o - 20) / 8
    else if o <= 156 then later + (if o <= 56 then 57 - (o - 52) / 4 else 55 - (o - 60) / 4)
    else if o <= 168 then later + 2 * r6 + (if o == 164 then 14 else 15)
    else if o <= 192 then later + 14 - (o - 172) / 4
    else if o <= 204 then later + 2 * r7 + (if o == 200 then 2 else 3)
    else if o == 208 then later + 2
    else if o == 212 then 57 * r11 + 3
    else if o == 216 then 2
    else 1
  }

  /** The invariant again, one instruction nearer to HALT. */
  predicate Onward(a: int, top: int, s: State, t: State) {
    Inv(a, top, t) && Left(a, t) == Left(a, s) - 1
  }

  // ---- one instruction

  /** The state after an arithmetic instruction. */
  function Computed(i: Instr, s: State): State
    requires IsData(i)
  {
    hide Data, Words;
    var d := Data(i, s.r, s.pc, s.fl);
    s.(r := if WritesRd(i) then s.r[i.rd := d.0] else s.r, fl := d.1, pc := Wrap32(s.pc + 4 * Words(i)))
  }

  lemma Counts(code: Code, dev: Device, s: State, i: Instr)
    requires s.st == Running && s.pc in code && code[s.pc] == i && IsData(i)
    ensures Step(code, dev, s) == Computed(i, s)
  {
    hide Data, Words, WritesRd, IsData;
    ExecData(i, s, dev);
  }

  lemma SetStep(code: Code, dev: Device, s: State, rd: Reg, v: u32)
    requires s.st == Running && s.pc in code && code[s.pc] == SetR(false, rd, v) && 0 <= s.pc < DATA
    ensures Step(code, dev, s) == s.(r := s.r[rd := v], pc := s.pc + 8)
  {
    hide Step;
    Counts(code, dev, s, SetR(false, rd, v));
  }

  /** Subtract one by adding the sign-extended 0xFF. */
  lemma DownStep(code: Code, dev: Device, s: State, x: Reg)
    requires s.st == Running && s.pc in code && code[s.pc] == AluIS(0, true, x, x, 0xFF) && 0 <= s.pc < DATA
    requires s.r[x] >= 1
    ensures var t := Step(code, dev, s); t == s.(r := s.r[x := s.r[x] - 1], fl := t.fl, pc := s.pc + 4)
  {
    hide Step, AluFlags;
    Counts(code, dev, s, AluIS(0, true, x, x, 0xFF));
  }

  lemma UpStep(code: Code, dev: Device, s: State, v: int)
    requires s.st == Running && s.pc in code && code[s.pc] == Inc(2, 2) && 0 <= s.pc < DATA && s.r[2] == v
    ensures var t := Step(code, dev, s); t == s.(r := s.r[2 := Wrap64(v + 1)], fl := t.fl, pc := s.pc + 4)
  {
    hide Step, AluFlags;
    Counts(code, dev, s, Inc(2, 2));
  }

  lemma StepEarly(code: Code, dev: Device, a: int, top: int, s: State)
    requires Placed(code, a) && At(a, top, s) && Early(s, s.pc - a)
    ensures Onward(a, top, s, Step(code, dev, s))
  {
    hide Section, Exit, Gap, Load64, Storing, Spinning, Leaving, Gapping, Step, Onward;
    if s.pc - a <= 16 {
      StepUnmask(code, dev, a, top, s);
    } else {
      StepSet(code, dev, a, top, s);
    }
  }

  lemma StepUnmask(code: Code, dev: Device, a: int, top: int, s: State)
    requires Placed(code, a) && At(a, top, s) && Early(s, s.pc - a) && s.pc - a <= 16
    ensures Onward(a, top, s, Step(code, dev, s))
  {
    hide Section, Exit, Gap, Load64, Storing, Spinning, Leaving, Gapping, Step;
    var o := s.pc - a;
    if o == 16 {
      StoreMask(code, dev, s);
    } else if o == 0 {
      SetStep(code, dev, s, 14, INT_MASK);
    } else {
      SetStep(code, dev, s, 13, 1);
    }
  }

  lemma StepSet(code: Code, dev: Device, a: int, top: int, s: State)
    requires Placed(code, a) && At(a, top, s) && Early(s, s.pc - a) && s.pc - a > 16
    ensures Onward(a, top, s, Step(code, dev, s))
  {
    hide Section, Exit, Gap, Load64, Storing, Spinning, Leaving, Gapping, Step;
    var o := s.pc - a;
    if o == 20 {
      SetStep(code, dev, s, 10, CNT);
    } else if o == 28 {
      SetStep(code, dev, s, 9, 0);
    } else if o == 36 {
      SetStep(code, dev, s, 11, 300);
    } else {
      SetStep(code, dev, s, 12, DATA);
    }
  }

  /** The store that unmasks the timer goes to the device, not to memory. */
  lemma StoreMask(code: Code, dev: Device, s: State)
    requires s.st == Running && s.pc in code && code[s.pc] == Store(3, false, 13, Base(14)) && s.r[14] == INT_MASK
    requires 0 <= s.pc < DATA
    ensures var t := Step(code, dev, s);
      t == s.(io := t.io, mask := t.mask, pc := s.pc + 4)
  {
    assert Align8(INT_MASK) == INT_MASK;
    assert EffAddr(code[s.pc], s.r) == INT_MASK;
  }

  lemma LoadCounter(code: Code, dev: Device, s: State, rd: Reg)
    requires s.st == Running && s.pc in code && code[s.pc] == Load(3, false, false, rd, Base(10)) && s.r[10] == CNT
    requires 0 <= s.pc < DATA
    ensures Step(code, dev, s) == s.(r := s.r[rd := Count(s)], pc := s.pc + 4)
  {
    hide LoadLe;
    assert EffAddr(code[s.pc], s.r) == CNT;
  }

  /** A store of the section's data leaves the counter alone. */
  lemma StoreData(code: Code, dev: Device, s: State, i: u8)
    requires s.st == Running && s.pc in code && code[s.pc] == Store(3, false, 2, Scaled(12, i)) && s.r[12] == DATA
    requires 0 <= s.pc < DATA && i < 12
    ensures var t := Step(code, dev, s);
      t == s.(mem := t.mem, pc := s.pc + 4) && Count(t) == Count(s)
  {
    hide LoadLe, StoreLe;
    assert EffAddr(code[s.pc], s.r) == DATA + 8 * i;
    Load64Other(s.mem, DATA + 8 * i, s.r[2], CNT);
  }

  /** A fused branch back while a register is not zero. */
  lemma BackStep(code: Code, dev: Device, s: State, x: Reg, disp: u13, back: int)
    requires s.st == Running && s.pc in code && code[s.pc] == Fbr(0, true, x, Imm4(0), disp)
    requires (disp == BACK_ONE && back == 4) || (disp == BACK_40 && back == 160)
    requires back <= s.pc < DATA
    ensures Step(code, dev, s) == s.(pc := if s.r[x] != 0 then s.pc - back else s.pc + 4)
  {
  }

  lemma StepTop(code: Code, dev: Device, a: int, top: int, s: State)
    requires Placed(code, a) && At(a, top, s) && Looping(s)
    requires s.pc == a + 52 || (s.pc == a + 56 && s.disabled)
    ensures Onward(a, top, s, Step(code, dev, s))
  {
    hide Opening, Exit, Gap, Load64, Early, Spinning, Leaving, Gapping, Step;
    if s.pc == a + 52 {
      DiStep(code, dev, s);
    } else {
      LoadCounter(code, dev, s, 2);
    }
  }

  lemma DiStep(code: Code, dev: Device, s: State)
    requires s.st == Running && s.pc in code && code[s.pc] == Di(1) && 0 <= s.pc < DATA
    ensures var t := Step(code, dev, s); t == s.(r := s.r[1 := t.r[1]], disabled := true, pc := s.pc + 4)
  {
  }

  lemma EiStep(code: Code, dev: Device, s: State)
    requires s.st == Running && s.pc in code && code[s.pc] == Ei(1) && 0 <= s.pc < DATA
    ensures var t := Step(code, dev, s); t == s.(disabled := t.disabled, pc := s.pc + 4)
  {
  }

  lemma NextCount(x: int, k: int)
    ensures Wrap64(Wrap64(x + k) + 1) == Wrap64(x + (k + 1))
  {
  }

  lemma StepStore(code: Code, dev: Device, a: int, top: int, s: State)
    requires Placed(code, a) && At(a, top, s) && Storing(s, s.pc - a) && s.pc < a + 156
    ensures Onward(a, top, s, Step(code, dev, s))
  {
    hide Opening, Exit, Gap, Load64, Early, Spinning, Leaving, Gapping, Wrap64, Step;
    var o := s.pc - a;
    var i: u8 := (o - 60) / 8;
    if o == 60 + 8 * i {
      StoreData(code, dev, s, i);
    } else {
      assert o == 64 + 8 * i;
      UpStep(code, dev, s, s.r[2]);
      NextCount(Count(s), i);
    }
  }

  lemma StepSpin(code: Code, dev: Device, a: int, top: int, s: State)
    requires Placed(code, a) && At(a, top, s)
    requires (s.pc == a + 156 && Storing(s, 156)) || Spinning(s, s.pc - a)
    ensures Onward(a, top, s, Step(code, dev, s))
  {
    hide Opening, Exit, Gap, Load64, Early, Gapping, Step, Wrap64;
    var o := s.pc - a;
    if o == 168 {
      BackStep(code, dev, s, 6, BACK_ONE, 4);
    } else if o == 164 {
      DownStep(code, dev, s, 6);
    } else {
      SetStep(code, dev, s, 6, 8);
    }
  }

  lemma StepReads(code: Code, dev: Device, a: int, top: int, s: State)
    requires Placed(code, a) && At(a, top, s) && Leaving(s, s.pc - a) && s.pc <= a + 180
    ensures Onward(a, top, s, Step(code, dev, s))
  {
    hide Opening, Section, Gap, Load64, Early, Storing, Spinning, Gapping, Wrap64, Step;
    var o := s.pc - a;
    if o == 172 {
      LoadCounter(code, dev, s, 3);
    } else if o == 176 {
      LoadCounter(code, dev, s, 4);
    } else {
      EiStep(code, dev, s);
    }
  }

  lemma StepCompare(code: Code, dev: Device, a: int, top: int, s: State)
    requires Placed(code, a) && At(a, top, s) && Leaving(s, s.pc - a) && s.pc > a + 180
    ensures Onward(a, top, s, Step(code, dev, s))
  {
    hide Opening, Section, Gap, Load64, Early, Storing, Spinning, SubFlags;
    Counts(code, dev, s, code[s.pc]);
    OrZero();
  }

  lemma OrZero()
    ensures Bitwise(5, 0, 0) == 0
  {
  }

  lemma StepGap(code: Code, dev: Device, a: int, top: int, s: State)
    requires Placed(code, a) && At(a, top, s) && Gapping(s, s.pc - a) && s.pc < a + 220
    ensures Onward(a, top, s, Step(code, dev, s))
  {
    hide Opening, Section, Exit, Load64, Early, Storing, Spinning, Leaving, Step;
    var o := s.pc - a;
    if o == 204 {
      BackStep(code, dev, s, 7, BACK_ONE, 4);
    } else if o == 212 {
      BackStep(code, dev, s, 11, BACK_40, 160);
    } else if o == 216 {
      LoadCounter(code, dev, s, 8);
    } else if o == 192 {
      SetStep(code, dev, s, 7, 3);
    } else {
      DownStep(code, dev, s, if o == 200 then 7 else 11);
    }
  }

  // ---- every interleaving

  lemma StepOnward(code: Code, dev: Device, a: int, top: int, s: State)
    requires Placed(code, a) && Inv(a, top, s) && s.pc != a + 220
    ensures Onward(a, top, s, Step(code, dev, s))
  {
    hide Placed, Step, Onward;
    var o := s.pc - a;
    if Early(s, o) {
      StepEarly(code, dev, a, top, s);
    } else if o == 52 || o == 56 {
      StepTop(code, dev, a, top, s);
    } else if Storing(s, o) && o < 156 {
      StepStore(code, dev, a, top, s);
    } else if Storing(s, o) || Spinning(s, o) {
      StepSpin(code, dev, a, top, s);
    } else if Leaving(s, o) {
      if o <= 180 {
        StepReads(code, dev, a, top, s);
      } else {
        StepCompare(code, dev, a, top, s);
      }
    } else {
      StepGap(code, dev, a, top, s);
    }
  }

  lemma StepHalt(code: Code, dev: Device, a: int, top: int, s: State)
    requires Placed(code, a) && Inv(a, top, s) && s.pc == a + 220
    ensures Step(code, dev, s) == s.(st := Halted) && s.r[9] == 0
  {
    hide Placed, Inv, Exec;
    HaltHere(code, a, top, s);
    ExecHalt(s, dev);
  }

  lemma ExecHalt(s: State, dev: Device)
    ensures Exec(Halt, s, dev) == s.(st := Halted)
  {
    hide ExecMemory, ExecBranch, Data, Load64, Store64, ReturnFromInterrupt;
  }

  lemma HaltHere(code: Code, a: int, top: int, s: State)
    requires Placed(code, a) && Inv(a, top, s) && s.pc == a + 220
    ensures s.st == Running && s.r[9] == 0 && s.pc in code && code[s.pc] == Halt
  {
    hide Opening, Section, Exit, Load64, Wrap64;
  }

  /** An interrupt can only come outside the section, and then it keeps the invariant. */
  lemma TickKeeps(h: Irq, a: int, top: int, s: State, t: State)
    requires Inv(a, top, s) && Enabled(s) && Ticked(h.area, s, t)
    ensures Inv(a, top, t) && Left(a, t) == Left(a, s)
  {
    hide Load64, Wrap64, SameButShadow;
  }

  predicate Ended(s: State) { s.st == Halted && s.r[9] == 0 }

  lemma {:induction false} StaysEnded(code: Code, dev: Device, h: Irq, s: State, turns: seq<bool>)
    requires Ended(s)
    ensures Weave(code, dev, h, s, turns) == s
    decreases |turns|
  {
    if turns != [] {
      StaysEnded(code, dev, h, s, turns[1..]);
    }
  }

  lemma LeftPositive(a: int, top: int, s: State)
    requires Inv(a, top, s)
    ensures Left(a, s) >= 1 && (Left(a, s) == 1 <==> s.pc == a + 220)
  {
    hide Load64, Wrap64;
  }

  /** From any point of the program, under any schedule: either it has ended with r9 = 0,
      after exactly the instructions that were left, or it is still on its way. */
  lemma {:induction false} Always(code: Code, dev: Device, h: Irq, a: int, top: int, s: State, turns: seq<bool>)
    requires Placed(code, a) && Benign(h) && Inv(a, top, s) && Roomy(h.area, s)
    ensures var t := Weave(code, dev, h, s, turns);
      if Goes(turns) >= Left(a, s) then Ended(t)
      else Inv(a, top, t) && Left(a, t) == Left(a, s) - Goes(turns)
    decreases |turns|
  {
    hide Placed, Benign, Inv, Left, Step, Ended;
    LeftPositive(a, top, s);
    if turns != [] {
      if turns[0] {
        if Enabled(s) {
          BenignTicked(h, s);
          TickKeeps(h, a, top, s, h.run(s));
          SameRoom(h, a, top, s, h.run(s));
          Always(code, dev, h, a, top, h.run(s), turns[1..]);
        } else {
          Always(code, dev, h, a, top, s, turns[1..]);
        }
      } else if s.pc == a + 220 {
        StepHalt(code, dev, a, top, s);
        assert Ended(Step(code, dev, s)) by { Finished(s); }
        StaysEnded(code, dev, h, Step(code, dev, s), turns[1..]);
      } else {
        StepOnward(code, dev, a, top, s);
        SameRoom(h, a, top, s, Step(code, dev, s));
        Always(code, dev, h, a, top, Step(code, dev, s), turns[1..]);
      }
    }
  }

  lemma SameRoom(h: Irq, a: int, top: int, s: State, t: State)
    requires Inv(a, top, s) && Inv(a, top, t) && Roomy(h.area, s)
    ensures Roomy(h.area, t)
  {
    hide Early, Looping, Storing, Spinning, Leaving, Gapping;
  }

  lemma Finished(s: State)
    requires s.r[9] == 0
    ensures Ended(s.(st := Halted))
  {
  }

  /** The test's claim: started anywhere with room for the handler, the program halts
      with r9 = 0 after 17109 instructions of its own, however the timer fires. */
  lemma CriticalSections(code: Code, dev: Device, h: Irq, a: int, s: State, turns: seq<bool>)
    requires Placed(code, a) && Benign(h) && Roomy(h.area, s) && s.st == Running && s.pc == a
    ensures Goes(turns) >= 17109 ==> Ended(Weave(code, dev, h, s, turns))
    ensures Goes(turns) < 17109 ==> Inv(a, s.sp, Weave(code, dev, h, s, turns))
  {
    hide Placed, Benign, Weave, Ended;
    Always(code, dev, h, a, s.sp, s, turns);
  }

  /** Whenever a run, under any schedule, is at the end of a section, the counter read at
      its start (plus the twelve increments) equals both reads at its end. */
  lemma WindowClosed(code: Code, dev: Device, h: Irq, a: int, s: State, turns: seq<bool>)
    requires Placed(code, a) && Benign(h) && Roomy(h.area, s) && s.st == Running && s.pc == a
    ensures var t := Weave(code, dev, h, s, turns); t.st == Running && t.pc == a + 184 ==> Same(t)
  {
    hide Placed, Benign, Weave, Inv, Same, Left;
    var t := Weave(code, dev, h, s, turns);
    assert Inv(a, s.sp, s) && Left(a, s) == 17109 by { AtStart(a, s); }
    Always(code, dev, h, a, s.sp, s, turns);
    if t.st == Running && t.pc == a + 184 {
      AfterExit(a, s.sp, t);
    }
  }

  lemma AtStart(a: int, s: State)
    requires s.st == Running && s.pc == a
    ensures Inv(a, s.sp, s) && Left(a, s) == 17109
  {
  }

  lemma AfterExit(a: int, top: int, s: State)
    requires Inv(a, top, s) && s.pc == a + 184
    ensures Same(s)
  {
    hide Load64, Wrap64;
  }

  // ---- the same with instructions fetched from memory

  /** An instruction that writes no memory. */
  predicate Dry(i: Instr) {
    i.SetR? || i.AluIS? || i.Alu? || i.Inc? || i.Fbr? || i.Load? || i.Di? || i.Ei? || i.Halt?
  }

  lemma DryStep(code: Code, dev: Device, s: State)
    requires s.st == Running && s.pc in code && Dry(code[s.pc])
    ensures Step(code, dev, s).mem == s.mem
  {
    hide Data, EffAddr, LoadLe, Misaligned, ExtendLoad, Taken, BranchTarget;
  }

  /** A store of the section goes to the data, above the code. */
  lemma StoreAbove(code: Code, dev: Device, s: State, i: u8, a: int)
    requires s.st == Running && s.pc in code && code[s.pc] == Store(3, false, 2, Scaled(12, i)) && s.r[12] == DATA
    requires i < 12 && a + 224 < DATA
    ensures SameIn(s.mem, Step(code, dev, s).mem, a, a + 224)
  {
    hide LoadLe, StoreLe, Peek;
    assert EffAddr(code[s.pc], s.r) == DATA + 8 * i;
    forall x | a <= x < a + 224
      ensures Peek(Step(code, dev, s).mem, x) == Peek(s.mem, x)
    {
      PeekStore(s.mem, DATA + 8 * i, 8, s.r[2], x);
    }
  }

  /** One of the section's stores. */
  predicate DataStore(i: Instr) {
    i.Store? && i.ea.Scaled? && i.ea.off8 < 12 && i == Store(3, false, 2, Scaled(12, i.ea.off8))
  }

  /** What the next instruction may write: the device, the data, or nothing. */
  predicate NextKind(i: Instr, s: State) {
    || (i == Store(3, false, 13, Base(14)) && s.r[14] == INT_MASK)
    || (DataStore(i) && s.r[12] == DATA)
    || Dry(i)
  }

  lemma NextEarly(code: Code, a: int, s: State)
    requires Opening(code, a) && Early(s, s.pc - a)
    ensures s.pc in code && NextKind(code[s.pc], s)
  {
  }

  lemma NextTop(code: Code, a: int, s: State)
    requires Section(code, a) && s.pc - a in {52, 56, 156, 164, 168}
    ensures s.pc in code && Dry(code[s.pc])
  {
  }

  lemma NextStoring(code: Code, a: int, s: State)
    requires Section(code, a) && s.r[12] == DATA && 60 <= s.pc - a < 156 && (s.pc - a) % 4 == 0
    ensures s.pc in code && NextKind(code[s.pc], s)
  {
    var k: u8 := (s.pc - a - 60) / 8;
    assert s.pc == a + 60 + 8 * k || s.pc == a + 64 + 8 * k;
  }

  lemma NextLeaving(code: Code, a: int, s: State)
    requires Exit(code, a) && s.pc - a in {172, 176, 180, 184, 188}
    ensures s.pc in code && Dry(code[s.pc])
  {
  }

  lemma NextGapping(code: Code, a: int, s: State)
    requires Gap(code, a) && s.pc - a in {192, 200, 204, 208, 212, 216, 220}
    ensures s.pc in code && Dry(code[s.pc])
  {
  }

  lemma NextIs(code: Code, a: int, top: int, s: State)
    requires Placed(code, a) && Inv(a, top, s)
    ensures s.pc in code && NextKind(code[s.pc], s)
  {
    hide Opening, Section, Exit, Gap, Load64, Wrap64, Dry, DataStore, Early;
    var o := s.pc - a;
    if Early(s, o) {
      NextEarly(code, a, s);
    } else if o == 52 || o == 56 || o == 156 || Spinning(s, o) {
      NextTop(code, a, s);
    } else if Storing(s, o) {
      NextStoring(code, a, s);
    } else if Leaving(s, o) {
      NextLeaving(code, a, s);
    } else {
      NextGapping(code, a, s);
    }
  }

  lemma CodeUntouched(code: Code, dev: Device, a: int, top: int, s: State)
    requires Placed(code, a) && Inv(a, top, s)
    ensures SameIn(s.mem, Step(code, dev, s).mem, a, a + 224)
  {
    hide Inv, Opening, Section, Exit, Gap, Step, Peek, Dry;
    NextIs(code, a, top, s);
    InvRunning(a, top, s);
    var i := code[s.pc];
    if Dry(i) {
      DryStep(code, dev, s);
    } else if DataStore(i) {
      StoreAbove(code, dev, s, i.ea.off8, a);
    } else {
      MaskStored(code, dev, s);
    }
  }

  lemma MaskStored(code: Code, dev: Device, s: State)
    requires s.st == Running && s.pc in code && code[s.pc] == Store(3, false, 13, Base(14)) && s.r[14] == INT_MASK
    ensures Step(code, dev, s).mem == s.mem
  {
    hide StoreLe;
    assert EffAddr(code[s.pc], s.r) == INT_MASK;
  }

  lemma InvRunning(a: int, top: int, s: State)
    requires Inv(a, top, s)
    ensures s.st == Running && s.sp == top
  {
    hide Early, Looping, Storing, Spinning, Leaving, Gapping;
  }

  /** The handler keeps off the code. */
  predicate Off(h: Irq, a: int, sp: int) {
    (h.area.ticks + 8 <= a || a + 224 <= h.area.ticks) && (a + 224 <= sp - h.area.room || sp <= a)
  }

  lemma TickCode(h: Irq, a: int, s: State, t: State)
    requires Ticked(h.area, s, t) && Off(h, a, s.sp)
    ensures SameIn(s.mem, t.mem, a, a + 224)
  {
    hide Load64, Wrap64, Peek;
  }

  /** With the program's words at a, out of the handler's way, fetching and decoding from
      memory makes no difference, so the two results above hold of the machine proper. */
  lemma {:induction false} CritFromMemory(code: Code, dev: Device, h: Irq, a: int, top: int, s: State, turns: seq<bool>)
    requires Placed(code, a) && Benign(h) && Inv(a, top, s) && Roomy(h.area, s)
    requires Holds(s.mem, code, a, a + 224) && Off(h, a, top)
    ensures MemWeave(dev, h, s, turns) == Weave(code, dev, h, s, turns)
    decreases |turns|
  {
    hide Placed, Benign, Inv, Left, Step, Holds, MemStep, Off, Ticked;
    InvRunning(a, top, s);
    if turns != [] {
      if turns[0] {
        if Enabled(s) {
          BenignTicked(h, s);
          TickKeeps(h, a, top, s, h.run(s));
          SameRoom(h, a, top, s, h.run(s));
          TickCode(h, a, s, h.run(s));
          HoldsSame(s.mem, h.run(s).mem, code, a, a + 224);
          CritFromMemory(code, dev, h, a, top, h.run(s), turns[1..]);
        } else {
          CritFromMemory(code, dev, h, a, top, s, turns[1..]);
        }
      } else {
        NextIs(code, a, top, s);
        MemIsStep(code, dev, s, a, a + 224);
        var t := Step(code, dev, s);
        if s.pc == a + 220 {
          StepHalt(code, dev, a, top, s);
          StoppedWoven(code, dev, h, t, turns[1..]);
        } else {
          StepOnward(code, dev, a, top, s);
          SameRoom(h, a, top, s, t);
          CodeUntouched(code, dev, a, top, s);
          HoldsSame(s.mem, t.mem, code, a, a + 224);
          CritFromMemory(code, dev, h, a, top, t, turns[1..]);
        }
      }
    }
  }

  /** The machine proper halts with r9 = 0 after 17109 instructions of the program, however
      the timer fires. */
  lemma SectionsFromMemory(code: Code, dev: Device, h: Irq, a: int, s: State, turns: seq<bool>)
    requires Placed(code, a) && Benign(h) && Roomy(h.area, s) && s.st == Running && s.pc == a
    requires Holds(s.mem, code, a, a + 224) && Off(h, a, s.sp) && Goes(turns) >= 17109
    ensures Ended(MemWeave(dev, h, s, turns))
  {
    hide Placed, Benign, Weave, Ended, MemWeave, Holds, Off, Inv;
    assert Inv(a, s.sp, s) by { AtStart(a, s); }
    CriticalSections(code, dev, h, a, s, turns);
    CritFromMemory(code, dev, h, a, s.sp, s, turns);
  }
}
