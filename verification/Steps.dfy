/** One lemma per instruction that the hand-written kernels use: what a monitored
    step does when the access is inside the limits. */
module Steps {
  import opened Bits
  import opened Isa
  import opened Machine
  import opened Monitor

  /** Running, nothing wrong so far, stack 8-aligned and at a checked depth. */
  predicate Live(m: Setup, c: Cfg) {
    && c.ok && c.s.st == Running && c.s.sp % 8 == 0 && m.b.top % 8 == 0
    && m.b.top - m.b.depth <= c.s.sp <= m.b.top && m.b.depth == m.b.touch <= m.b.top
  }

  ghost predicate Here(m: Setup, c: Cfg, i: Instr) {
    Live(m, c) && c.s.pc in m.code && m.code[c.s.pc] == i && c.s.pc + 4 * Words(i) < U32
  }

  lemma DataStep(m: Setup, c: Cfg, i: Instr)
    requires Here(m, c, i) && IsData(i)
    ensures var d := Data(i, c.s.r, c.s.pc, c.s.fl);
      NextCfg(m, c) == Cfg(c.s.(r := if WritesRd(i) then c.s.r[i.rd := d.0] else c.s.r, fl := d.1,
                                pc := c.s.pc + 4 * Words(i)), c.calls, c.live, true)
  {
    hide Data;
    assert Fine(m, c);
  }

  lemma PushStep(m: Setup, c: Cfg, rs1: Reg)
    requires Here(m, c, Push(rs1)) && m.b.top - m.b.depth <= c.s.sp - 8
    ensures NextCfg(m, c) == Cfg(c.s.(sp := c.s.sp - 8, mem := Store64(c.s.mem, c.s.sp - 8, c.s.r[rs1]),
                                      pc := c.s.pc + 4), c.calls, c.live + {c.s.sp - 8}, true)
  {
    hide Data, Store64, ExecMemory, ExecBranch, EffAddr, Misaligned;
    assert Fine(m, c);
  }

  lemma PopStep(m: Setup, c: Cfg, rd: Reg)
    requires Here(m, c, Pop(rd)) && c.s.sp + 8 <= m.b.top && c.s.sp in c.live
    ensures NextCfg(m, c) == Cfg(c.s.(sp := c.s.sp + 8, r := c.s.r[rd := Load64(c.s.mem, c.s.sp)],
                                      pc := c.s.pc + 4), c.calls, Above(c.live, c.s.sp + 8), true)
  {
    hide Data, Load64, Above;
    assert Fine(m, c);
  }

  lemma CallStep(m: Setup, c: Cfg, tgt: u32)
    requires Here(m, c, BrAbs(true, 0, false, tgt)) && m.b.top - m.b.depth <= c.s.sp - 8
    ensures NextCfg(m, c) == Cfg(c.s.(sp := c.s.sp - 8, mem := Store64(c.s.mem, c.s.sp - 8, c.s.pc + 8), pc := tgt),
                                 c.calls + [c.s.pc + 8], c.live + {c.s.sp - 8}, true)
  {
    hide Data, Store64;
    assert Fine(m, c);
  }

  lemma RetStep(m: Setup, c: Cfg, ra: int)
    requires Here(m, c, Ret) && c.s.sp + 8 <= m.b.top && c.calls != [] && c.calls[|c.calls| - 1] == ra
    requires Load64(c.s.mem, c.s.sp) == ra < U32 && c.s.sp in c.live
    ensures NextCfg(m, c) == Cfg(c.s.(sp := c.s.sp + 8, pc := ra), c.calls[..|c.calls| - 1], Above(c.live, c.s.sp + 8), true)
  {
    hide Data, Load64, Above;
    assert Fine(m, c);
  }

  /** An absolute conditional jump. */
  lemma JumpStep(m: Setup, c: Cfg, cond: Cond, inv: bool, tgt: u32)
    requires Here(m, c, BrAbs(false, cond, inv, tgt))
    ensures NextCfg(m, c)
      == Cfg(c.s.(pc := if Condition(cond, inv, c.s.fl) then tgt else c.s.pc + 8), c.calls, c.live, true)
  {
    hide Data, Condition;
    assert Fine(m, c);
  }

  predicate InWindow(m: Setup, a: int) {
    m.b.lo <= a && a + 8 <= m.b.hi && a % 8 == 0 && 0 <= a < MMIO
  }

  lemma Whole(v: u64)
    ensures ExtendLoad(false, 3, v) == v
  {
  }

  lemma Load64Step(m: Setup, c: Cfg, rd: Reg, rs1: Reg)
    requires Here(m, c, Load(3, false, false, rd, Base(rs1))) && InWindow(m, c.s.r[rs1])
    ensures NextCfg(m, c) == Cfg(c.s.(r := c.s.r[rd := Load64(c.s.mem, c.s.r[rs1])], pc := c.s.pc + 4), c.calls, c.live, true)
  {
    hide Data, LoadLe, ExtendLoad;
    Whole(Load64(c.s.mem, c.s.r[rs1]));
    assert EffAddr(m.code[c.s.pc], c.s.r) == c.s.r[rs1];
    assert Fine(m, c);
  }

  lemma Store64Step(m: Setup, c: Cfg, rs2: Reg, rs1: Reg)
    requires Here(m, c, Store(3, false, rs2, Base(rs1))) && InWindow(m, c.s.r[rs1])
    ensures NextCfg(m, c)
      == Cfg(c.s.(mem := Store64(c.s.mem, c.s.r[rs1], c.s.r[rs2]), pc := c.s.pc + 4), c.calls, c.live, true)
  {
    hide Data, StoreLe;
    assert EffAddr(m.code[c.s.pc], c.s.r) == c.s.r[rs1];
    assert Fine(m, c);
  }

  // ---- the stack

  /** Nothing below SP is waiting to be popped. */
  predicate AllAbove(c: Cfg) {
    forall a :: a in c.live ==> a >= c.s.sp
  }

  // ---- flags of an unsigned compare

  /** JMPULT after CMPRV/CMPRR. */
  lemma CompareUlt(a: u64, b: u64)
    ensures Condition(7, false, CmpFlags(false, a, b)) <==> a < b
    ensures Condition(7, true, CmpFlags(false, a, b)) <==> a >= b
    ensures Condition(9, false, CmpFlags(false, a, b)) <==> a == b
    ensures Condition(9, true, CmpFlags(false, a, b)) <==> a != b
  {
  }

  // ---- memory above an address

  ghost predicate SameFrom(m: Mem, m': Mem, a: int) {
    forall b :: b >= a ==> Peek(m', b) == Peek(m, b)
  }

  lemma StoreSameFrom(m: Mem, a: int, v: u64, b: int)
    requires a % 8 == 0 && a + 8 <= b
    ensures SameFrom(m, Store64(m, a, v), b)
  {
    hide StoreLe, Peek;
    forall x | x >= b
      ensures Peek(Store64(m, a, v), x) == Peek(m, x)
    {
      PeekStore(m, a, 8, v, x);
    }
  }

  lemma LoadSameFrom(m: Mem, m': Mem, a: int, b: int)
    requires SameFrom(m, m', b) && b <= a && a % 8 == 0
    ensures Load64(m', a) == Load64(m, a)
  {
    hide LoadLe, Peek;
    LoadSame(m, m', a, 8);
  }

  // ---- parts of a state that a step leaves alone

  /** Everything but registers, flags, SP, PC and memory. */
  predicate Rest(c: Cfg, d: Cfg) {
    d.s.disabled == c.s.disabled && d.s.mask == c.s.mask && d.s.io == c.s.io && d.s.st == c.s.st
  }

  /** Registers outside a set are unchanged. */
  predicate SameBut(r: Regs, r': Regs, ws: set<int>) {
    forall k :: 0 <= k < 16 && k !in ws ==> r'[k] == r[k]
  }

  lemma RunFew(m: Setup, c: Cfg)
    ensures Run(m, c, 2) == NextCfg(m, NextCfg(m, c))
    ensures Run(m, c, 3) == NextCfg(m, NextCfg(m, NextCfg(m, c)))
    ensures Run(m, c, 4) == NextCfg(m, NextCfg(m, NextCfg(m, NextCfg(m, c))))
    ensures Run(m, c, 5) == NextCfg(m, NextCfg(m, NextCfg(m, NextCfg(m, NextCfg(m, c)))))
  {
    hide NextCfg;
    RunOne(m, c);
    RunNext(m, c, 1);
    RunNext(m, c, 2);
    RunNext(m, c, 3);
    RunNext(m, c, 4);
  }
}
