/** The chase as the probe runs it: build the permutation, clear the counters, follow it. */
module Measured {
  import opened Bits
  import opened Isa
  import opened Machine
  import opened Monitor
  import opened Fetch
  import opened Steps
  import opened Cycles
  import opened Chase

  const PERF_CTRL: int := 0xF00D_0000

  /** CALL build_perm; CALL clear_perf; CALL k_chase. */
  ghost predicate Dispatched(code: Code, a: int, build: u32, clear: u32, chase: u32) {
    && 0 <= a && a + 24 < U32
    && a in code && code[a] == BrAbs(true, 0, false, build)
    && a + 8 in code && code[a + 8] == BrAbs(true, 0, false, clear)
    && a + 16 in code && code[a + 16] == BrAbs(true, 0, false, chase)
  }

  ghost predicate ClearCode(code: Code, a: int) {
    && 0 <= a && a + 24 < U32
    && a in code && code[a] == SetR(true, 1, PERF_CTRL)
    && a + 8 in code && code[a + 8] == SetR(true, 0, 1)
    && a + 16 in code && code[a + 16] == Store(2, false, 0, Base(1))
    && a + 20 in code && code[a + 20] == Ret
  }

  /** A word of stack below SP, off the buffer. */
  predicate Spare(m: Setup, c: Cfg, base: int, n: int) {
    m.b.top - m.b.depth <= c.s.sp - 8 && (c.s.sp <= base || base + 8 * n <= c.s.sp - 8)
  }

  /** A CALL of a routine, seen from the routine. */
  lemma Calling(m: Setup, c: Cfg, base: int, n: int, tgt: u32)
    requires Here(m, c, BrAbs(true, 0, false, tgt)) && Room(m, base, n) && Spare(m, c, base, n)
    ensures var d := NextCfg(m, c);
      && Entered(m, d, base, n, c.s.pc + 8) && d.s.pc == tgt && d.s.sp == c.s.sp - 8
      && d.calls == c.calls + [c.s.pc + 8] && d.s.r == c.s.r && Rest(c, d)
      && Buffer(d.s.mem, base, n) == Buffer(c.s.mem, base, n)
  {
    hide Load64, Store64, NextCfg, Above;
    var v := c.s.pc + 8;
    assert 0 <= v < U32 by { CallAddress(m, c, tgt); }
    CallStep(m, c, tgt);
    var d := NextCfg(m, c);
    Load64Store64(c.s.mem, c.s.sp - 8, v);
    forall k | 0 <= k < n
      ensures Load64(d.s.mem, base + 8 * k) == Load64(c.s.mem, base + 8 * k)
    {
      Load64Other(c.s.mem, c.s.sp - 8, v, base + 8 * k);
    }
    assert Buffer(d.s.mem, base, n) == Buffer(c.s.mem, base, n);
  }

  lemma CallAddress(m: Setup, c: Cfg, tgt: u32)
    requires Here(m, c, BrAbs(true, 0, false, tgt))
    ensures c.s.pc + 8 < U32
  {
  }

  /** The store that clears the counters goes to the device. */
  lemma ClearStep(m: Setup, c: Cfg)
    requires Here(m, c, Store(2, false, 0, Base(1))) && m.b.register == PERF_CTRL && c.s.r[1] % U32 == PERF_CTRL
    ensures NextCfg(m, c)
      == Cfg(c.s.(io := c.s.io + [IoStore(PERF_CTRL, 2, c.s.r[0])], pc := c.s.pc + 4), c.calls, c.live, true)
  {
    hide Data, StoreLe;
    assert EffAddr(m.code[c.s.pc], c.s.r) == PERF_CTRL;
    assert Fine(m, c);
  }

  /** The address of PERF_CTRL in r1 and 1 in r0. */
  lemma ClearLoads(m: Setup, a: int, c: Cfg)
    requires Live(m, c) && ClearCode(m.code, a) && c.s.pc == a
    ensures var d := NextCfg(m, NextCfg(m, c));
      && d.ok && d.calls == c.calls && d.live == c.live && d.s == c.s.(r := d.s.r, fl := d.s.fl, pc := a + 16)
      && d.s.r[0] == 1 && d.s.r[1] % U32 == PERF_CTRL
  {
    hide NextCfg;
    DataStep(m, c, SetR(true, 1, PERF_CTRL));
    DataStep(m, NextCfg(m, c), SetR(true, 0, 1));
  }

  /** clear_perf. */
  lemma ClearPerf(m: Setup, a: int, base: int, n: int, c: Cfg, ra: int)
    requires Entered(m, c, base, n, ra) && ClearCode(m.code, a) && m.b.register == PERF_CTRL && c.s.pc == a
    ensures var d := Run(m, c, 4);
      && d.ok && d.s.st == Running && d.calls == c.calls[..|c.calls| - 1] && d.s.pc == ra && d.s.sp == c.s.sp + 8
      && d.s.mem == c.s.mem && d.s.io == c.s.io + [IoStore(PERF_CTRL, 2, 1)]
  {
    hide NextCfg, Run, Load64, Above;
    RunFew(m, c);
    ClearLoads(m, a, c);
    var e := NextCfg(m, NextCfg(m, c));
    ClearStep(m, e);
    RetStep(m, NextCfg(m, e), ra);
  }

  /** Back at the dispatch after a routine. */
  predicate Returned(m: Setup, c: Cfg, d: Cfg, pc: int) {
    Live(m, d) && d.s.pc == pc && d.s.sp == c.s.sp && d.calls == c.calls
  }

  lemma BuildCall(m: Setup, c: Cfg, build: u32, base: int, n: int) returns (t: nat)
    requires Here(m, c, BrAbs(true, 0, false, build)) && Room(m, base, n) && Spare(m, c, base, n)
    requires BuildCode(m.code, build, base, n)
    ensures var d := Run(m, c, t);
      && Returned(m, c, d, c.s.pc + 8) && SingleCycle(Buffer(d.s.mem, base, n)) && Buffer(d.s.mem, base, n) == Built(n)
      && d.s.io == c.s.io
  {
    hide NextCfg, Run, BuildCode, SingleCycle, Buffer, Peek, Load64, SameOutside, Room, Built;
    Calling(m, c, base, n, build);
    var d := NextCfg(m, c);
    var u := BuildPerm(m, build, base, n, d, c.s.pc + 8);
    t := 1 + u;
    RunOne(m, c);
    RunAdd(m, c, 1, u);
  }

  lemma ClearCall(m: Setup, c: Cfg, clear: u32, base: int, n: int)
    requires Here(m, c, BrAbs(true, 0, false, clear)) && Room(m, base, n) && Spare(m, c, base, n)
    requires ClearCode(m.code, clear) && m.b.register == PERF_CTRL
    ensures var d := Run(m, c, 5);
      && Returned(m, c, d, c.s.pc + 8) && Buffer(d.s.mem, base, n) == Buffer(c.s.mem, base, n)
      && d.s.io == c.s.io + [IoStore(PERF_CTRL, 2, 1)]
  {
    hide NextCfg, Run, ClearCode, Buffer, Load64, Room;
    Calling(m, c, base, n, clear);
    var d := NextCfg(m, c);
    ClearPerf(m, clear, base, n, d, c.s.pc + 8);
    RunOne(m, c);
    RunAdd(m, c, 1, 4);
  }

  lemma ChaseCall(m: Setup, c: Cfg, chase: u32, base: int, n: nat)
    requires Here(m, c, BrAbs(true, 0, false, chase)) && Room(m, base, n) && Spare(m, c, base, n)
    requires ChaseCode(m.code, chase, base, n) && SingleCycle(Buffer(c.s.mem, base, n))
    ensures var d := Run(m, c, 8 * n + 7);
      && Returned(m, c, d, c.s.pc + 8) && Buffer(d.s.mem, base, n) == Buffer(c.s.mem, base, n) && d.s.io == c.s.io
      && d.s.r[2] == 0 && d.s.r[7] == n * (n - 1) / 2
  {
    hide NextCfg, Run, ChaseCode, SingleCycle, Buffer, Peek, Load64, SameOutside, Room;
    Calling(m, c, base, n, chase);
    var d := NextCfg(m, c);
    FullTurn(m, chase, base, n, d, c.s.pc + 8);
    RunOne(m, c);
    RunAdd(m, c, 1, 8 * n + 6);
  }

  lemma CallHere(m: Setup, c: Cfg, a: int, tgt: u32)
    requires Live(m, c) && c.s.pc == a && a in m.code && m.code[a] == BrAbs(true, 0, false, tgt) && 0 <= a && a + 8 < U32
    ensures Here(m, c, BrAbs(true, 0, false, tgt))
  {
  }

  /** After the three calls the buffer is the generator's permutation, one single cycle,
      the counters were cleared once in between, and a chase of n steps has come back to
      entry 0 having added up n * (n - 1) / 2. */
  lemma MeasuredChase(m: Setup, c: Cfg, a: int, build: u32, clear: u32, chase: u32, base: int, n: nat) returns (t: nat)
    requires Live(m, c) && c.s.pc == a && Dispatched(m.code, a, build, clear, chase)
    requires BuildCode(m.code, build, base, n) && ClearCode(m.code, clear) && ChaseCode(m.code, chase, base, n)
    requires Room(m, base, n) && Spare(m, c, base, n) && m.b.register == PERF_CTRL
    ensures var d := Run(m, c, t);
      && Returned(m, c, d, a + 24) && SingleCycle(Buffer(d.s.mem, base, n)) && Buffer(d.s.mem, base, n) == Built(n)
      && d.s.io == c.s.io + [IoStore(PERF_CTRL, 2, 1)]
      && d.s.r[2] == 0 && d.s.r[7] == n * (n - 1) / 2
  {
    hide Run, Live, BuildCode, ClearCode, ChaseCode, SingleCycle, Buffer, Room, Here, Built;
    CallHere(m, c, a, build);
    var u := BuildCall(m, c, build, base, n);
    var d := Run(m, c, u);
    CallHere(m, d, a + 8, clear);
    ClearCall(m, d, clear, base, n);
    var e := Run(m, d, 5);
    CallHere(m, e, a + 16, chase);
    ChaseCall(m, e, chase, base, n);
    RunAdd(m, c, u, 5);
    RunAdd(m, c, u + 5, 8 * n + 7);
    t := u + 5 + (8 * n + 7);
  }

  /** The same with every instruction fetched from memory. */
  lemma MeasuredFromMemory(m: Setup, c: Cfg, a: int, build: u32, clear: u32, chase: u32, base: int, n: nat, lo: int, hi: int)
      returns (t: nat)
    requires Live(m, c) && c.s.pc == a && Dispatched(m.code, a, build, clear, chase)
    requires BuildCode(m.code, build, base, n) && ClearCode(m.code, clear) && ChaseCode(m.code, chase, base, n)
    requires Room(m, base, n) && Spare(m, c, base, n) && m.b.register == PERF_CTRL
    requires Holds(c.s.mem, m.code, lo, hi) && Safe(m.b, lo, hi)
    ensures var d := MemRun(m.dev, c.s, t);
      && d.st == Running && d.pc == a + 24 && d.sp == c.s.sp && SingleCycle(Buffer(d.mem, base, n)) && Buffer(d.mem, base, n) == Built(n)
      && d.r[2] == 0 && d.r[7] == n * (n - 1) / 2
  {
    hide Run, MemRun, BuildCode, ClearCode, ChaseCode, SingleCycle, Buffer, Room, Holds, Safe, Dispatched, Built;
    t := MeasuredChase(m, c, a, build, clear, chase, base, n);
    RunFromMemory(m, c, t, lo, hi);
  }
}
