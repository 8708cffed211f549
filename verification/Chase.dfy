/** The probe's pointer-chase kernels on the machine: build_perm shuffles a buffer of
    64-bit words in memory into one cycle, k_chase follows it. */
module Chase {
  import opened Bits
  import opened BitLaws
  import opened Isa
  import opened Machine
  import opened Monitor
  import opened Steps
  import opened Cycles

  // ---- the buffer

  function Buffer(m: Mem, base: int, n: nat): (b: seq<int>)
    ensures |b| == n
  {
    seq(n, k => Load64(m, base + 8 * k))
  }

  lemma BufferStore(m: Mem, base: int, n: nat, k: nat, v: u64)
    requires base % 8 == 0 && k < n
    ensures Buffer(Store64(m, base + 8 * k, v), base, n) == Buffer(m, base, n)[k := v]
  {
    hide Load64, Store64;
    forall l | 0 <= l < n
      ensures Load64(Store64(m, base + 8 * k, v), base + 8 * l) == if l == k then v else Load64(m, base + 8 * l)
    {
      if l == k {
        Load64Store64(m, base + 8 * k, v);
      } else {
        Load64Other(m, base + 8 * k, v, base + 8 * l);
      }
    }
  }

  ghost predicate SameOutside(m: Mem, m': Mem, lo: int, hi: int) {
    forall x :: x < lo || x >= hi ==> Peek(m', x) == Peek(m, x)
  }

  lemma StoreOutside(m: Mem, a: int, v: u64, lo: int, hi: int)
    requires a % 8 == 0 && lo <= a && a + 8 <= hi
    ensures SameOutside(m, Store64(m, a, v), lo, hi)
  {
    hide StoreLe, Peek;
    forall x | x < lo || x >= hi
      ensures Peek(Store64(m, a, v), x) == Peek(m, x)
    {
      PeekStore(m, a, 8, v, x);
    }
  }

  /** n words at base, inside the window that the monitor allows. */
  predicate Room(m: Setup, base: int, n: int) {
    && 1 <= n && 0 <= base && base % 8 == 0 && m.b.lo <= base && base + 8 * n <= m.b.hi
    && base < HALF32 && base + 8 * n <= MMIO
  }

  /** Live with the base in A; whatever else is written is in the buffer. */
  ghost predicate Working(m: Setup, base: int, n: int, c: Cfg, d: Cfg) {
    && Live(m, d) && d.calls == c.calls && d.live == c.live && d.s.sp == c.s.sp && Rest(c, d) && d.s.r[0] == base
    && SameOutside(c.s.mem, d.s.mem, base, base + 8 * n)
  }

  // ---- pieces of code

  /** COPY rd rs; SHLV rd 3; ADDR rd rd A. */
  ghost predicate IndexCode(code: Code, a: int, rd: Reg, rs: Reg) {
    && a in code && code[a] == Copy(rd, rs)
    && a + 4 in code && code[a + 4] == ShiftN(0, 3, true, rd, rd)
    && a + 8 in code && code[a + 8] == Alu(0, false, rd, rd, 0)
  }

  lemma ShiftThree(x: int)
    requires 0 <= x < 0x1000_0000_0000
    ensures Shift(0, x, 3) == 8 * x
  {
    assert Pow2(3) == 8;
  }

  /** The address of entry rs in rd. */
  lemma Index(m: Setup, c: Cfg, rd: Reg, rs: Reg)
    requires Live(m, c) && IndexCode(m.code, c.s.pc, rd, rs) && c.s.pc + 12 < U32 && rd != 0
    requires c.s.r[rs] < 0x2000_0000 && c.s.r[0] < U32
    ensures var d := Run(m, c, 3);
      && Live(m, d) && d.calls == c.calls && d.live == c.live && Rest(c, d) && d.s.sp == c.s.sp && d.s.mem == c.s.mem
      && d.s.pc == c.s.pc + 12 && d.s.r == c.s.r[rd := c.s.r[0] + 8 * c.s.r[rs]]
  {
    hide NextCfg, Run, Shift, ShiftFlags, AluFlags;
    RunFew(m, c);
    DataStep(m, c, Copy(rd, rs));
    var d := NextCfg(m, c);
    DataStep(m, d, ShiftN(0, 3, true, rd, rd));
    ShiftThree(c.s.r[rs]);
    var e := NextCfg(m, d);
    DataStep(m, e, Alu(0, false, rd, rd, 0));
  }

  /** INCR x; CMPRR x y; JMPULT tgt. */
  ghost predicate CountCode(code: Code, a: int, x: Reg, y: Reg, tgt: int) {
    && 0 <= tgt < U32
    && a in code && code[a] == Inc(x, x)
    && a + 4 in code && code[a + 4] == Cmp(false, x, y)
    && a + 8 in code && code[a + 8] == BrAbs(false, 7, false, tgt)
  }

  lemma Counted(m: Setup, c: Cfg, x: Reg, y: Reg, tgt: int)
    requires Live(m, c) && CountCode(m.code, c.s.pc, x, y, tgt) && c.s.pc + 16 < U32 && x != y
    requires c.s.r[x] < HALF32
    ensures var d := Run(m, c, 3);
      && Live(m, d) && d.calls == c.calls && d.live == c.live && Rest(c, d) && d.s.sp == c.s.sp && d.s.mem == c.s.mem
      && d.s.r == c.s.r[x := c.s.r[x] + 1]
      && d.s.pc == if c.s.r[x] + 1 < c.s.r[y] then tgt else c.s.pc + 16
  {
    hide NextCfg, Run, AluFlags, CmpFlags, Condition;
    RunFew(m, c);
    DataStep(m, c, Inc(x, x));
    var d := NextCfg(m, c);
    DataStep(m, d, Cmp(false, x, y));
    CompareUlt(c.s.r[x] + 1, c.s.r[y]);
    JumpStep(m, NextCfg(m, d), 7, false, tgt);
  }

  /** One third of xorshift32 on G with H as scratch. */
  ghost predicate XorCode(code: Code, a: int, sop: ShiftOp, n: u6) {
    && a in code && code[a] == Copy(7, 6)
    && a + 4 in code && code[a + 4] == ShiftN(sop, n, true, 7, 7)
    && a + 8 in code && code[a + 8] == Alu(6, false, 6, 6, 7)
    && a + 12 in code && code[a + 12] == AluI(4, false, false, 6, 6, 0xFFFF_FFFF)
  }

  /** xorshift32: the generator's step from g. */
  function XorShift(g: u32): u32 {
    Pow2Of64();
    OrXorBound(g, g * 0x2000 % U32, 32);
    var x: u32 := Xor(g, g * 0x2000 % U32);
    OrXorBound(x, x / 0x2_0000, 32);
    var y: u32 := Xor(x, x / 0x2_0000);
    OrXorBound(y, y * 0x20 % U32, 32);
    Xor(y, y * 0x20 % U32)
  }

  /** One third of it, with H = G shifted. */
  function XorWith(g: u32, h: nat): u32 {
    Pow2Of64();
    OrXorBound(g, h % U32, 32);
    Xor(g, h % U32)
  }

  lemma Masked(g: u32, h: u64)
    ensures Bitwise(4, Bitwise(6, g, h), 0xFFFF_FFFF) == XorWith(g, h)
  {
    hide Xor, And;
    Pow2Of64();
    AndLow(Xor(g, h), 32);
    XorMod(g, h, 32);
  }

  lemma Thirds(g: u32)
    ensures XorShift(g) == var x := XorWith(g, Shift(0, g, 13)); var y := XorWith(x, Shift(1, x, 17)); XorWith(y, Shift(0, y, 5))
  {
    hide Xor, Shift, XorShift, XorWith;
    ShiftValues(g);
    ThreeRounds(g);
    var x := XorWith(g, g * 0x2000);
    ShiftValues(x);
    ShiftValues(XorWith(x, x / 0x2_0000));
  }

  lemma ThreeRounds(g: u32)
    ensures var x := XorWith(g, g * 0x2000); var y := XorWith(x, x / 0x2_0000); XorShift(g) == XorWith(y, y * 0x20)
  {
    hide Xor;
  }

  lemma ShiftValues(g: u32)
    ensures Shift(0, g, 13) == g * 0x2000 && Shift(1, g, 17) == g / 0x2_0000 && Shift(0, g, 5) == g * 0x20
  {
    assert Pow2(13) == 0x2000 && Pow2(17) == 0x2_0000 && Pow2(5) == 0x20 by { SomePowers(); }
  }

  lemma SomePowers()
    ensures Pow2(5) == 0x20 && Pow2(13) == 0x2000 && Pow2(17) == 0x2_0000
  {
  }

  lemma XorRound(m: Setup, c: Cfg, sop: ShiftOp, n: u6)
    requires Live(m, c) && XorCode(m.code, c.s.pc, sop, n) && c.s.pc + 20 < U32 && c.s.r[6] < U32
    ensures var d := Run(m, c, 4);
      && Live(m, d) && d.calls == c.calls && d.live == c.live && Rest(c, d) && d.s.sp == c.s.sp && d.s.mem == c.s.mem
      && d.s.pc == c.s.pc + 20 && SameBut(c.s.r, d.s.r, {6, 7})
      && d.s.r[6] == XorWith(c.s.r[6], Shift(sop, c.s.r[6], n))
  {
    hide NextCfg, Run, Shift, ShiftFlags, AluFlags, Bitwise, XorWith;
    RunFew(m, c);
    DataStep(m, c, Copy(7, 6));
    var d := NextCfg(m, c);
    DataStep(m, d, ShiftN(sop, n, true, 7, 7));
    var e := NextCfg(m, d);
    DataStep(m, e, Alu(6, false, 6, 6, 7));
    DataStep(m, NextCfg(m, e), AluI(4, false, false, 6, 6, 0xFFFF_FFFF));
    Masked(c.s.r[6], Shift(sop, c.s.r[6], n));
  }

  // ---- build_perm

  ghost predicate BuildCode(code: Code, a: int, base: int, n: int) {
    && 0 <= a && a + 216 < U32 && 0 <= base < HALF32 && 0 <= n < HALF32
    && a in code && code[a] == SetR(true, 0, base)
    && a + 8 in code && code[a + 8] == SetR(true, 1, n)
    && a + 16 in code && code[a + 16] == SetR(true, 2, 0)
    && a + 24 in code && code[a + 24] == Copy(4, 0)
    && InitCode(code, a) && TurnCode(code, a) && SwapCode(code, a)
  }

  /** build_perm_init: b[i] = i for i = 0, 1, ..., n-1; then the seed and i = n-1. */
  ghost predicate InitCode(code: Code, a: int) {
    && 0 <= a && a + 216 < U32
    && a + 28 in code && code[a + 28] == Store(3, false, 2, Base(4))
    && a + 32 in code && code[a + 32] == AluI(0, false, false, 4, 4, 8)
    && CountCode(code, a + 40, 2, 1, a + 28)
    && a + 56 in code && code[a + 56] == SetR(true, 6, 0x2545_F491)
    && a + 64 in code && code[a + 64] == Copy(2, 1)
    && a + 68 in code && code[a + 68] == AluI(1, false, false, 2, 2, 1)
  }

  /** build_perm_shuf, up to the drawn j in D. */
  ghost predicate TurnCode(code: Code, a: int) {
    && 0 <= a && a + 216 < U32
    && a + 76 in code && code[a + 76] == CmpI(false, 2, 0)
    && a + 84 in code && code[a + 84] == BrAbs(false, 9, false, a + 212)
    && XorCode(code, a + 92, 0, 13) && XorCode(code, a + 112, 1, 17) && XorCode(code, a + 132, 0, 5)
    && a + 152 in code && code[a + 152] == Mod(false, 3, 6, 2)
  }

  /** The exchange of b[i] and b[j], i := i - 1, back to the top, and the end. */
  ghost predicate SwapCode(code: Code, a: int) {
    && 0 <= a && a + 216 < U32
    && IndexCode(code, a + 156, 4, 2) && IndexCode(code, a + 168, 5, 3)
    && a + 180 in code && code[a + 180] == Load(3, false, false, 7, Base(4))
    && a + 184 in code && code[a + 184] == Load(3, false, false, 8, Base(5))
    && a + 188 in code && code[a + 188] == Store(3, false, 8, Base(4))
    && a + 192 in code && code[a + 192] == Store(3, false, 7, Base(5))
    && a + 196 in code && code[a + 196] == AluI(1, false, false, 2, 2, 1)
    && a + 204 in code && code[a + 204] == BrAbs(false, 0, false, a + 76)
    && a + 212 in code && code[a + 212] == Ret
  }

  /** A store into entry k. */
  lemma Put(m: Setup, base: int, n: int, c: Cfg, rs2: Reg, rs1: Reg, k: nat)
    requires Here(m, c, Store(3, false, rs2, Base(rs1))) && Room(m, base, n) && k < n && c.s.r[rs1] == base + 8 * k
    ensures var d := NextCfg(m, c);
      && Live(m, d) && d.calls == c.calls && d.live == c.live && d.s.sp == c.s.sp && Rest(c, d) && d.s.r == c.s.r && d.s.pc == c.s.pc + 4
      && Buffer(d.s.mem, base, n) == Buffer(c.s.mem, base, n)[k := c.s.r[rs2]]
      && SameOutside(c.s.mem, d.s.mem, base, base + 8 * n)
  {
    hide NextCfg, Store64, Peek, Buffer;
    Store64Step(m, c, rs2, rs1);
    BufferStore(c.s.mem, base, n, k, c.s.r[rs2]);
    StoreOutside(c.s.mem, base + 8 * k, c.s.r[rs2], base, base + 8 * n);
  }

  /** A load from entry k. */
  lemma Get(m: Setup, base: int, n: int, c: Cfg, rd: Reg, rs1: Reg, k: nat)
    requires Here(m, c, Load(3, false, false, rd, Base(rs1))) && Room(m, base, n) && k < n && c.s.r[rs1] == base + 8 * k
    ensures NextCfg(m, c) == Cfg(c.s.(r := c.s.r[rd := Load64(c.s.mem, base + 8 * k)], pc := c.s.pc + 4), c.calls, c.live, true)
    ensures Buffer(c.s.mem, base, n)[k] == Load64(c.s.mem, base + 8 * k)
  {
    hide NextCfg, Load64;
    Load64Step(m, c, rd, rs1);
  }

  /** One round of the initialising loop. */
  lemma InitRound(m: Setup, a: int, base: int, n: int, c: Cfg, i: nat)
    requires Live(m, c) && InitCode(m.code, a) && Room(m, base, n) && i < n && c.s.pc == a + 28
    requires c.s.r[0] == base && c.s.r[1] == n && c.s.r[2] == i && c.s.r[4] == base + 8 * i
    ensures var d := Run(m, c, 5);
      && Working(m, base, n, c, d) && d.s.r[1] == n && d.s.r[2] == i + 1 && d.s.r[4] == base + 8 * i + 8
      && d.s.pc == (if i + 1 < n then a + 28 else a + 56)
      && Buffer(d.s.mem, base, n) == Buffer(c.s.mem, base, n)[i := i]
  {
    hide NextCfg, Run, AluFlags, Peek, Buffer, CountCode;
    Put(m, base, n, c, 2, 4, i);
    var d := NextCfg(m, c);
    DataStep(m, d, AluI(0, false, false, 4, 4, 8));
    RunFew(m, c);
    Counted(m, NextCfg(m, d), 2, 1, a + 28);
    RunAdd(m, c, 2, 3);
  }

  lemma WorkingOn(m: Setup, base: int, n: int, c: Cfg, d: Cfg, e: Cfg)
    requires Working(m, base, n, c, d) && Working(m, base, n, d, e)
    ensures Working(m, base, n, c, e)
  {
    hide Peek;
  }

  /** The initialising loop leaves b[k] = k. */
  lemma {:induction false} Init(m: Setup, a: int, base: int, n: int, c: Cfg, i: nat) returns (t: nat)
    requires Live(m, c) && InitCode(m.code, a) && Room(m, base, n) && i < n && c.s.pc == a + 28
    requires c.s.r[0] == base && c.s.r[1] == n && c.s.r[2] == i && c.s.r[4] == base + 8 * i
    requires forall k :: 0 <= k < i ==> Buffer(c.s.mem, base, n)[k] == k
    ensures var d := Run(m, c, t);
      Working(m, base, n, c, d) && d.s.r[1] == n && d.s.pc == a + 56 && Buffer(d.s.mem, base, n) == Identity(n)
    decreases n - i
  {
    hide Run, Peek, Buffer, InitCode, SameOutside, Rest, Live;
    InitRound(m, a, base, n, c, i);
    var d := Run(m, c, 5);
    t := 5;
    if i + 1 < n {
      assert Live(m, d);
      var u := Init(m, a, base, n, d, i + 1);
      WorkingOn(m, base, n, c, d, Run(m, d, u));
      RunAdd(m, c, 5, u);
      t := 5 + u;
    }
  }

  /** G := the seed, C := n - 1. */
  lemma Seed(m: Setup, a: int, base: int, n: int, c: Cfg)
    requires Live(m, c) && InitCode(m.code, a) && Room(m, base, n) && c.s.pc == a + 56
    requires c.s.r[0] == base && c.s.r[1] == n
    ensures var d := Run(m, c, 3);
      && Working(m, base, n, c, d) && d.s.r[2] == n - 1 && d.s.r[6] == 0x2545_F491 && d.s.pc == a + 76 && d.s.mem == c.s.mem
  {
    hide NextCfg, Run, AluFlags, Peek;
    RunFew(m, c);
    DataStep(m, c, SetR(true, 6, 0x2545_F491));
    var d := NextCfg(m, c);
    DataStep(m, d, Copy(2, 1));
    DataStep(m, NextCfg(m, d), AluI(1, false, false, 2, 2, 1));
  }

  /** The generator's step. */
  lemma Generate(m: Setup, a: int, base: int, n: int, c: Cfg, i: nat)
    requires Live(m, c) && TurnCode(m.code, a) && c.s.pc == a + 92 && c.s.r[0] == base && c.s.r[2] == i && c.s.r[6] < U32
    ensures var d := Run(m, c, 12);
      && Working(m, base, n, c, d) && d.s.mem == c.s.mem && d.s.r[2] == i && d.s.pc == a + 152
      && d.s.r[6] == XorShift(c.s.r[6])
  {
    hide NextCfg, Run, Peek, XorCode, XorWith, XorShift, Shift;
    Thirds(c.s.r[6]);
    XorRound(m, c, 0, 13);
    var d := Run(m, c, 4);
    XorRound(m, d, 1, 17);
    XorRound(m, Run(m, d, 4), 0, 5);
    RunAdd(m, c, 4, 4);
    RunAdd(m, c, 8, 4);
  }

  /** The loop test, the generator's step in G and j = G % i in D. */
  lemma Draw(m: Setup, a: int, base: int, n: int, c: Cfg, i: nat)
    requires Live(m, c) && TurnCode(m.code, a) && Room(m, base, n) && 0 < i < n && c.s.pc == a + 76
    requires c.s.r[0] == base && c.s.r[2] == i && c.s.r[6] < U32
    ensures var d := Run(m, c, 15);
      && Working(m, base, n, c, d) && d.s.mem == c.s.mem && d.s.r[2] == i && d.s.pc == a + 156
      && d.s.r[6] == XorShift(c.s.r[6]) && d.s.r[3] == d.s.r[6] % i
  {
    hide NextCfg, Run, AluFlags, CmpFlags, Condition, Peek, XorCode, DivResult, XorShift;
    DataStep(m, c, CmpI(false, 2, 0));
    CompareUlt(i, 0);
    JumpStep(m, NextCfg(m, c), 9, false, a + 212);
    RunFew(m, c);
    var d := Run(m, c, 2);
    Generate(m, a, base, n, d, i);
    var g := Run(m, d, 12);
    DataStep(m, g, Mod(false, 3, 6, 2));
    Remainder(g.s.r[6], i, g.s.fl);
    RunOne(m, g);
    RunAdd(m, c, 2, 12);
    RunAdd(m, c, 14, 1);
  }

  lemma Remainder(x: u64, y: u64, fl: Flags)
    requires y > 0
    ensures DivResult(true, false, x, y, fl).0 == x % y
  {
    var q := x / y;
    assert x - q * y == x % y;
  }

  /** Both addresses, then both entries: t in H and u in I. */
  lemma Fetched(m: Setup, a: int, base: int, n: int, c: Cfg, i: nat, j: nat)
    requires Live(m, c) && SwapCode(m.code, a) && Room(m, base, n) && j < i < n && c.s.pc == a + 156
    requires c.s.r[0] == base && c.s.r[2] == i && c.s.r[3] == j
    ensures var d := Run(m, c, 8); var b := Buffer(c.s.mem, base, n);
      && Live(m, d) && d.calls == c.calls && d.live == c.live && Rest(c, d) && d.s.sp == c.s.sp && d.s.mem == c.s.mem && d.s.pc == a + 188
      && d.s.r[0] == base && d.s.r[2] == i && d.s.r[4] == base + 8 * i && d.s.r[5] == base + 8 * j
      && d.s.r[6] == c.s.r[6] && d.s.r[7] == b[i] && d.s.r[8] == b[j]
  {
    hide NextCfg, Run, Peek, IndexCode, Buffer, Load64;
    Index(m, c, 4, 2);
    var c1 := Run(m, c, 3);
    Index(m, c1, 5, 3);
    var c2 := Run(m, c1, 3);
    Get(m, base, n, c2, 7, 4, i);
    Get(m, base, n, NextCfg(m, c2), 8, 5, j);
    RunFew(m, c2);
    RunAdd(m, c, 3, 3);
    RunAdd(m, c, 6, 2);
  }

  /** Stores b[i] := u and b[j] := t. */
  lemma Stored(m: Setup, a: int, base: int, n: int, c: Cfg, i: nat, j: nat)
    requires Live(m, c) && SwapCode(m.code, a) && Room(m, base, n) && j < i < n && c.s.pc == a + 188
    requires c.s.r[0] == base && c.s.r[2] == i && c.s.r[4] == base + 8 * i && c.s.r[5] == base + 8 * j
    ensures var d := Run(m, c, 2);
      && Working(m, base, n, c, d) && d.s.r == c.s.r && d.s.pc == a + 196
      && Buffer(d.s.mem, base, n) == Buffer(c.s.mem, base, n)[i := c.s.r[8]][j := c.s.r[7]]
  {
    hide NextCfg, Run, Peek, IndexCode, Buffer;
    Put(m, base, n, c, 8, 4, i);
    Put(m, base, n, NextCfg(m, c), 7, 5, j);
    RunFew(m, c);
  }

  /** i--, and back to the test. */
  lemma Again(m: Setup, a: int, base: int, n: int, c: Cfg, i: nat)
    requires Live(m, c) && SwapCode(m.code, a) && c.s.r[0] == base && 0 < i == c.s.r[2] && c.s.pc == a + 196
    ensures var d := Run(m, c, 2);
      && Working(m, base, n, c, d) && d.s.mem == c.s.mem && d.s.r[2] == i - 1 && d.s.r[6] == c.s.r[6] && d.s.pc == a + 76
  {
    hide NextCfg, Run, Peek, IndexCode, AluFlags;
    DataStep(m, c, AluI(1, false, false, 2, 2, 1));
    JumpStep(m, NextCfg(m, c), 0, false, a + 76);
    RunFew(m, c);
  }

  /** The exchange of entries i and j. */
  lemma Exchange(m: Setup, a: int, base: int, n: int, c: Cfg, i: nat, j: nat)
    requires Live(m, c) && SwapCode(m.code, a) && Room(m, base, n) && j < i < n && c.s.pc == a + 156
    requires c.s.r[0] == base && c.s.r[2] == i && c.s.r[3] == j
    ensures var d := Run(m, c, 12);
      && Working(m, base, n, c, d) && d.s.r[2] == i - 1 && d.s.r[6] == c.s.r[6] && d.s.pc == a + 76
      && Buffer(d.s.mem, base, n) == Swapped(Buffer(c.s.mem, base, n), i, j)
  {
    hide NextCfg, Run, Peek, SwapCode, Buffer, Load64;
    Fetched(m, a, base, n, c, i, j);
    var c1 := Run(m, c, 8);
    Stored(m, a, base, n, c1, i, j);
    var c2 := Run(m, c1, 2);
    Again(m, a, base, n, c2, i);
    RunAdd(m, c, 8, 2);
    RunAdd(m, c, 10, 2);
  }

  /** The draws for i, i - 1, .., 1 with the generator at g, the one for 1 in front. */
  function Draws(g: u32, i: nat): (js: seq<nat>)
    ensures |js| == i && forall k :: 0 <= k < i ==> js[k] <= k
    decreases i
  {
    hide XorShift;
    if i == 0 then [] else Draws(XorShift(g), i - 1) + [XorShift(g) % i]
  }

  /** The numbers 0 to n - 1, shuffled by the draws of the generator from its seed. */
  function Built(n: int): seq<int> {
    if n < 1 then [] else Shuffled(Identity(n), n - 1, Draws(0x2545_F491, n - 1))
  }

  lemma FirstSwap(b: seq<int>, i: nat, g: u32)
    requires 0 < i < |b|
    ensures Shuffled(b, i, Draws(g, i)) == Shuffled(Swapped(b, i, XorShift(g) % i), i - 1, Draws(XorShift(g), i - 1))
  {
    hide XorShift, Swapped;
    assert Draws(g, i)[..i - 1] == Draws(XorShift(g), i - 1);
  }

  /** One turn of the shuffling loop. */
  lemma ShuffleTurn(m: Setup, a: int, base: int, n: int, c: Cfg, i: nat, g: u32)
    requires Live(m, c) && TurnCode(m.code, a) && SwapCode(m.code, a) && Room(m, base, n) && 0 < i < n && c.s.pc == a + 76
    requires c.s.r[0] == base && c.s.r[2] == i && c.s.r[6] == g
    ensures var d := Run(m, c, 27);
      && Working(m, base, n, c, d) && d.s.r[2] == i - 1 && d.s.r[6] == XorShift(g) && d.s.pc == a + 76
      && Buffer(d.s.mem, base, n) == Swapped(Buffer(c.s.mem, base, n), i, XorShift(g) % i)
  {
    hide Run, Peek, Buffer, TurnCode, SwapCode, Room, SameOutside, Rest, Live, Swapped, XorShift;
    Draw(m, a, base, n, c, i);
    var c1 := Run(m, c, 15);
    Exchange(m, a, base, n, c1, i, XorShift(g) % i);
    WorkingOn(m, base, n, c, c1, Run(m, c1, 12));
    RunAdd(m, c, 15, 12);
  }

  /** The shuffling loop: the buffer ends up Sattolo-shuffled with the generator's draws. */
  lemma {:induction false} Shuffle(m: Setup, a: int, base: int, n: int, c: Cfg, i: nat, g: u32) returns (t: nat)
    requires Live(m, c) && TurnCode(m.code, a) && SwapCode(m.code, a) && Room(m, base, n) && i < n && c.s.pc == a + 76
    requires c.s.r[0] == base && c.s.r[2] == i && c.s.r[6] == g
    ensures var d := Run(m, c, t);
      && Working(m, base, n, c, d) && d.s.pc == a + 212
      && Buffer(d.s.mem, base, n) == Shuffled(Buffer(c.s.mem, base, n), i, Draws(g, i))
    decreases i
  {
    hide Run, Peek, Buffer, TurnCode, SwapCode, Room, SameOutside, Rest, Live, Swapped, XorShift, Draws, Shuffled;
    if i == 0 {
      Leaving(m, a, base, n, c);
      t := 2;
      NoSwap(Buffer(c.s.mem, base, n), g);
    } else {
      FirstSwap(Buffer(c.s.mem, base, n), i, g);
      ShuffleTurn(m, a, base, n, c, i, g);
      var d := Run(m, c, 27);
      var u := Shuffle(m, a, base, n, d, i - 1, XorShift(g));
      WorkingOn(m, base, n, c, d, Run(m, d, u));
      RunAdd(m, c, 27, u);
      t := 27 + u;
    }
  }

  lemma NoSwap(b: seq<int>, g: u32)
    requires 0 < |b|
    ensures Shuffled(b, 0, Draws(g, 0)) == b
  {
  }

  lemma Leaving(m: Setup, a: int, base: int, n: int, c: Cfg)
    requires Live(m, c) && TurnCode(m.code, a) && c.s.pc == a + 76 && c.s.r[0] == base && c.s.r[2] == 0
    ensures var d := Run(m, c, 2);
      Working(m, base, n, c, d) && d.s.pc == a + 212 && d.s.mem == c.s.mem
  {
    hide NextCfg, Run, XorCode, CmpFlags, Condition, Peek;
    RunFew(m, c);
    DataStep(m, c, CmpI(false, 2, 0));
    CompareUlt(0, 0);
    JumpStep(m, NextCfg(m, c), 9, false, a + 212);
  }

  /** The four loads before the first loop. */
  lemma Begin(m: Setup, a: int, base: int, n: int, c: Cfg)
    requires Live(m, c) && BuildCode(m.code, a, base, n) && Room(m, base, n) && c.s.pc == a
    ensures var d := Run(m, c, 4);
      && Working(m, base, n, c, d) && d.s.mem == c.s.mem && d.s.pc == a + 28
      && d.s.r[1] == n && d.s.r[2] == 0 && d.s.r[4] == base
  {
    hide NextCfg, Run, InitCode, TurnCode, SwapCode, Peek;
    RunFew(m, c);
    DataStep(m, c, SetR(true, 0, base));
    var d := NextCfg(m, c);
    DataStep(m, d, SetR(true, 1, n));
    var e := NextCfg(m, d);
    DataStep(m, e, SetR(true, 2, 0));
    DataStep(m, NextCfg(m, e), Copy(4, 0));
  }

  /** Called from just before ra, with the return address outside the buffer. */
  ghost predicate Entered(m: Setup, c: Cfg, base: int, n: int, ra: int) {
    && Live(m, c) && c.s.sp + 8 <= m.b.top && c.calls != [] && c.calls[|c.calls| - 1] == ra
    && 0 <= ra < U32 && Load64(c.s.mem, c.s.sp) == ra && c.s.sp in c.live
    && (c.s.sp + 8 <= base || base + 8 * n <= c.s.sp)
  }

  /** Back at ra, nothing written outside the buffer. */
  ghost predicate Left(c: Cfg, d: Cfg, base: int, n: int, ra: int) {
    && c.calls != [] && d.ok && d.calls == c.calls[..|c.calls| - 1] && d.live == Above(c.live, c.s.sp + 8) && Rest(c, d)
    && d.s.pc == ra && d.s.sp == c.s.sp + 8 && SameOutside(c.s.mem, d.s.mem, base, base + 8 * n)
  }

  lemma Leave(m: Setup, base: int, n: int, c: Cfg, d: Cfg, ra: int)
    requires Entered(m, c, base, n, ra) && Working(m, base, n, c, d) && Here(m, d, Ret)
    ensures var e := Run(m, d, 1);
      Left(c, e, base, n, ra) && e.s.mem == d.s.mem && e.s.r == d.s.r
  {
    hide NextCfg, Run, LoadLe, Peek;
    LoadSame(c.s.mem, d.s.mem, c.s.sp, 8);
    RetStep(m, d, ra);
    RunOne(m, d);
  }

  /** build_perm returns with the buffer shuffled by the draws of xorshift32 from its seed:
      one single n-cycle. */
  lemma BuildPerm(m: Setup, a: int, base: int, n: int, c: Cfg, ra: int) returns (t: nat)
    requires Entered(m, c, base, n, ra) && BuildCode(m.code, a, base, n) && Room(m, base, n) && c.s.pc == a
    ensures var d := Run(m, c, t);
      && Left(c, d, base, n, ra) && SingleCycle(Buffer(d.s.mem, base, n))
      && Buffer(d.s.mem, base, n) == Built(n)
  {
    hide Run, Peek, Buffer, InitCode, TurnCode, SwapCode, SameOutside, Rest, Room, SingleCycle, Load64, Draws, Shuffled;
    Begin(m, a, base, n, c);
    var c1 := Run(m, c, 4);
    var u := InitFrom(m, a, base, n, c1);
    var c2 := Run(m, c1, u);
    Seed(m, a, base, n, c2);
    var c3 := Run(m, c2, 3);
    SizePositive(m, base, n);
    var v := Shuffle(m, a, base, n, c3, n - 1, 0x2545_F491);
    var c4 := Run(m, c3, v);
    Sattolo(n, Draws(0x2545_F491, n - 1));
    WorkingOn(m, base, n, c, c1, c2);
    WorkingOn(m, base, n, c, c2, c3);
    WorkingOn(m, base, n, c, c3, c4);
    EndHere(m, a, base, n, c, c4);
    Leave(m, base, n, c, c4, ra);
    RunAdd(m, c, 4, u);
    RunAdd(m, c, 4 + u, 3);
    RunAdd(m, c, 7 + u, v);
    RunAdd(m, c, 7 + u + v, 1);
    t := 8 + u + v;
  }

  lemma SizePositive(m: Setup, base: int, n: int)
    requires Room(m, base, n)
    ensures n >= 1
  {
  }

  lemma InitFrom(m: Setup, a: int, base: int, n: int, c: Cfg) returns (t: nat)
    requires Live(m, c) && InitCode(m.code, a) && Room(m, base, n) && c.s.pc == a + 28
    requires c.s.r[0] == base && c.s.r[1] == n && c.s.r[2] == 0 && c.s.r[4] == base
    ensures var d := Run(m, c, t);
      Working(m, base, n, c, d) && d.s.r[1] == n && d.s.pc == a + 56 && Buffer(d.s.mem, base, n) == Identity(n)
  {
    hide Run, Peek, Buffer, InitCode, Working;
    t := Init(m, a, base, n, c, 0);
  }

  lemma EndHere(m: Setup, a: int, base: int, n: int, c: Cfg, d: Cfg)
    requires Working(m, base, n, c, d) && SwapCode(m.code, a) && d.s.pc == a + 212
    ensures Here(m, d, Ret)
  {
    hide Peek, IndexCode;
  }

  // ---- k_chase

  ghost predicate ChaseCode(code: Code, a: int, base: int, steps: int) {
    && 0 <= a && a + 84 < U32 && 0 <= base < HALF32 && 0 <= steps < HALF32
    && a in code && code[a] == SetR(true, 0, base)
    && a + 8 in code && code[a + 8] == SetR(true, 2, 0)
    && a + 16 in code && code[a + 16] == SetR64(7, 0)
    && a + 28 in code && code[a + 28] == SetR(true, 3, 0)
    && a + 36 in code && code[a + 36] == SetR(true, 4, steps)
    && IndexCode(code, a + 44, 5, 2)
    && a + 56 in code && code[a + 56] == Load(3, false, false, 2, Base(5))
    && a + 60 in code && code[a + 60] == Alu(0, false, 7, 7, 2)
    && CountCode(code, a + 64, 3, 4, a + 44)
    && a + 80 in code && code[a + 80] == Ret
  }

  /** In the loop after t steps: idx in C, acc in H, t in D. */
  ghost predicate Chasing(m: Setup, a: int, base: int, n: int, steps: int, b: seq<int>, c: Cfg, t: nat) {
    && Live(m, c) && ChaseCode(m.code, a, base, steps) && Room(m, base, n) && Buffer(c.s.mem, base, n) == b
    && SingleCycle(b) && c.s.r[0] == base && c.s.r[2] == Walk(b, 0, t) && c.s.r[7] == WalkSum(b, 0, t) % U64
    && c.s.r[3] == t && c.s.r[4] == steps && 0 <= Walk(b, 0, t) < n
  }

  lemma AddMod(x: int, y: int)
    ensures Wrap64(x % U64 + y) == (x + y) % U64
  {
  }

  /** One round of the chase. */
  lemma ChaseRound(m: Setup, a: int, base: int, n: int, steps: int, b: seq<int>, c: Cfg, t: nat)
    requires Chasing(m, a, base, n, steps, b, c, t) && c.s.pc == a + 44 && t < steps
    ensures var d := Run(m, c, 8);
      && Working(m, base, n, c, d) && d.s.mem == c.s.mem && Chasing(m, a, base, n, steps, b, d, t + 1)
      && d.s.pc == if t + 1 < steps then a + 44 else a + 80
  {
    hide NextCfg, Run, Peek, IndexCode, CountCode, Buffer, Load64, SingleCycle, AluFlags, Wrap64;
    Index(m, c, 5, 2);
    var c1 := Run(m, c, 3);
    Get(m, base, n, c1, 2, 5, Walk(b, 0, t));
    var c2 := NextCfg(m, c1);
    DataStep(m, c2, Alu(0, false, 7, 7, 2));
    RunFew(m, c1);
    AddMod(WalkSum(b, 0, t), Walk(b, 0, t + 1));
    Counted(m, NextCfg(m, c2), 3, 4, a + 44);
    RunAdd(m, c, 3, 2);
    RunAdd(m, c, 5, 3);
    InCycle(b, t + 1);
  }

  lemma InCycle(b: seq<int>, t: nat)
    requires SingleCycle(b) && |b| >= 1
    ensures 0 <= Walk(b, 0, t) < |b|
  {
    hide Walk;
    WalkInRange(b, 0, t);
  }

  lemma {:induction false} ChaseLoop(m: Setup, a: int, base: int, n: int, steps: int, b: seq<int>, c: Cfg, t: nat)
    requires Chasing(m, a, base, n, steps, b, c, t) && c.s.pc == a + 44 && t < steps
    ensures var d := Run(m, c, 8 * (steps - t));
      && Working(m, base, n, c, d) && d.s.mem == c.s.mem && Chasing(m, a, base, n, steps, b, d, steps)
      && d.s.pc == a + 80
    decreases steps - t
  {
    hide Run, Chasing, SameOutside, Rest, Live;
    ChaseRound(m, a, base, n, steps, b, c, t);
    if t + 1 < steps {
      var d := Run(m, c, 8);
      ChaseLoop(m, a, base, n, steps, b, d, t + 1);
      WorkingOn(m, base, n, c, d, Run(m, d, 8 * (steps - t - 1)));
      RunAdd(m, c, 8, 8 * (steps - t - 1));
    }
  }

  /** The five loads before the loop. */
  lemma SetNext(m: Setup, c: Cfg, rd: Reg, v: u32)
    requires Here(m, c, SetR(true, rd, v)) && v < HALF32
    ensures NextCfg(m, c) == Cfg(c.s.(r := c.s.r[rd := v], pc := c.s.pc + 8), c.calls, c.live, true)
  {
    DataStep(m, c, SetR(true, rd, v));
  }

  lemma ChaseLoads(m: Setup, a: int, base: int, n: int, steps: int, c: Cfg)
    requires Live(m, c) && ChaseCode(m.code, a, base, steps) && c.s.pc == a
    ensures var d := Run(m, c, 5);
      && Working(m, base, n, c, d) && d.s.mem == c.s.mem && d.s.pc == a + 44
      && d.s.r[2] == 0 && d.s.r[7] == 0 && d.s.r[3] == 0 && d.s.r[4] == steps
  {
    hide NextCfg, Run, Peek, IndexCode, CountCode;
    RunFew(m, c);
    SetNext(m, c, 0, base);
    var d := NextCfg(m, c);
    SetNext(m, d, 2, 0);
    var e := NextCfg(m, d);
    DataStep(m, e, SetR64(7, 0));
    var f := NextCfg(m, e);
    SetNext(m, f, 3, 0);
    SetNext(m, NextCfg(m, f), 4, steps);
  }

  lemma ChaseBegin(m: Setup, a: int, base: int, n: int, steps: int, b: seq<int>, c: Cfg)
    requires Live(m, c) && ChaseCode(m.code, a, base, steps) && Room(m, base, n) && c.s.pc == a
    requires Buffer(c.s.mem, base, n) == b && SingleCycle(b)
    ensures var d := Run(m, c, 5);
      && Working(m, base, n, c, d) && d.s.mem == c.s.mem && Chasing(m, a, base, n, steps, b, d, 0) && d.s.pc == a + 44
  {
    hide NextCfg, Run, Peek, IndexCode, CountCode, Buffer, SingleCycle;
    ChaseLoads(m, a, base, n, steps, c);
  }

  lemma CalledLive(m: Setup, c: Cfg, base: int, n: int, ra: int)
    requires Entered(m, c, base, n, ra)
    ensures Live(m, c)
  {
  }

  lemma ChaseEnd(m: Setup, a: int, base: int, n: int, steps: nat, b: seq<int>, c: Cfg)
    requires Chasing(m, a, base, n, steps, b, c, steps) && c.s.pc == a + 80
    ensures Here(m, c, Ret) && c.s.r[2] == Walk(b, 0, steps) && c.s.r[7] == WalkSum(b, 0, steps) % U64
  {
    hide IndexCode, CountCode, Walk, WalkSum, SingleCycle, Buffer;
  }

  /** Back at ra with idx in C and acc in H. */
  ghost predicate Answer(c: Cfg, d: Cfg, base: int, n: int, ra: int, idx: int, acc: int) {
    Left(c, d, base, n, ra) && d.s.mem == c.s.mem && d.s.r[2] == idx && d.s.r[7] == acc
  }

  /** k_chase over a single cycle: after 8 * steps + 6 instructions idx is the entry
      reached and acc the sum of the entries visited; memory is untouched. */
  lemma FollowCycle(m: Setup, a: int, base: int, n: nat, steps: nat, c: Cfg, ra: int)
    requires Entered(m, c, base, n, ra) && ChaseCode(m.code, a, base, steps) && Room(m, base, n) && c.s.pc == a
    requires SingleCycle(Buffer(c.s.mem, base, n)) && steps >= 1
    ensures var b := Buffer(c.s.mem, base, n);
      Answer(c, Run(m, c, 8 * steps + 6), base, n, ra, Walk(b, 0, steps), WalkSum(b, 0, steps) % U64)
  {
    hide Run, Peek, Buffer, SameOutside, Rest, SingleCycle, Load64, Walk, WalkSum, ChaseCode, Room, Chasing, Entered;
    hide Left, Working;
    var b := Buffer(c.s.mem, base, n);
    assert Live(m, c) by { CalledLive(m, c, base, n, ra); }
    ChaseBegin(m, a, base, n, steps, b, c);
    var c1 := Run(m, c, 5);
    ChaseLoop(m, a, base, n, steps, b, c1, 0);
    var c2 := Run(m, c1, 8 * steps);
    WorkingOn(m, base, n, c, c1, c2);
    ChaseEnd(m, a, base, n, steps, b, c2);
    Leave(m, base, n, c, c2, ra);
    RunAdd(m, c, 5, 8 * steps);
    RunAdd(m, c, 5 + 8 * steps, 1);
  }

  /** With as many steps as entries, the chase is back at entry 0 having added up
      n * (n - 1) / 2. */
  lemma FullTurn(m: Setup, a: int, base: int, n: nat, c: Cfg, ra: int)
    requires Entered(m, c, base, n, ra) && ChaseCode(m.code, a, base, n) && Room(m, base, n) && c.s.pc == a
    requires SingleCycle(Buffer(c.s.mem, base, n))
    ensures Answer(c, Run(m, c, 8 * n + 6), base, n, ra, 0, n * (n - 1) / 2)
  {
    hide Run, Buffer, Answer, Entered, SingleCycle, Walk, WalkSum, ChaseCode;
    var b := Buffer(c.s.mem, base, n);
    assert n >= 1;
    hide Room;
    FollowCycle(m, a, base, n, n, c, ra);
    FullTurnSum(b, 0);
    TurnBack(b);
    assert n < U32;
    Half(WalkSum(b, 0, n), n);
  }

  lemma TurnBack(b: seq<int>)
    requires SingleCycle(b) && |b| >= 1
    ensures Walk(b, 0, |b|) == 0
  {
    hide Walk;
  }

  lemma Half(s: int, n: int)
    requires 2 * s == n * (n - 1) && 1 <= n < U32
    ensures s % U64 == n * (n - 1) / 2
  {
    var p := n * (n - 1);
    assert 0 <= p by { Scale(n, n); }
    assert p < U64 by { Scale(U32 - n, n); }
    assert s == p / 2;
  }
}
