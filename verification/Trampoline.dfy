/** The relocation trampoline that the network loader runs to start an image. */
module Trampoline {
  import opened Bits
  import opened Isa
  import opened Encoder
  import opened Machine
  import opened Monitor
  import opened Fetch
  import opened Steps
  import opened Netboot

  const STAGING: int := 0x400_0000
  const TRAMP: int := 0x7FF_0000
  const STACK_TOP: int := 0x800_0000
  const CACHE_CTRL: int := 0xF005_0000

  /** nb_tramp at TRAMP_BASE; the two jumps are PC-relative. */
  ghost predicate Placed(code: Code) {
    && TRAMP in code && code[TRAMP] == SetR(true, 2, STAGING)
    && TRAMP + 8 in code && code[TRAMP + 8] == SetR(true, 3, 0)
    && LoopPlaced(code) && TailPlaced(code)
  }

  ghost predicate LoopPlaced(code: Code) {
    && TRAMP + 16 in code && code[TRAMP + 16] == CmpI(false, 0, 0)
    && TRAMP + 24 in code && code[TRAMP + 24] == Br(false, 9, false, 12)
    && TRAMP + 28 in code && code[TRAMP + 28] == Load(3, false, false, 4, Offset(2, 0))
    && TRAMP + 36 in code && code[TRAMP + 36] == Store(3, false, 4, Offset(3, 0))
    && TRAMP + 44 in code && code[TRAMP + 44] == AluI(0, false, false, 2, 2, 8)
    && TRAMP + 52 in code && code[TRAMP + 52] == AluI(0, false, false, 3, 3, 8)
    && TRAMP + 60 in code && code[TRAMP + 60] == AluI(1, false, false, 0, 0, 8)
    && TRAMP + 68 in code && code[TRAMP + 68] == Br(false, 0, false, 0x4_0000 - 13)
  }

  ghost predicate TailPlaced(code: Code) {
    && TRAMP + 72 in code && code[TRAMP + 72] == SetR(true, 5, CACHE_CTRL)
    && TRAMP + 80 in code && code[TRAMP + 80] == SetR(true, 6, 8)
    && TRAMP + 88 in code && code[TRAMP + 88] == Store(2, false, 6, Offset(5, 0))
    && TRAMP + 96 in code && code[TRAMP + 96] == SetR(true, 7, STACK_TOP)
    && TRAMP + 104 in code && code[TRAMP + 104] == SetSp(7)
    && TRAMP + 108 in code && code[TRAMP + 108] == BrReg(false, 0, false, 1)
  }

  /** Accesses stay in a window that reaches at least to the end of the staging area, apart
      from the cache register. */
  predicate Window(m: Setup) {
    m.b.lo == 0 && 0x500_0000 <= m.b.hi <= MMIO && m.b.register == CACHE_CTRL
  }

  /** In the copying loop with k dwords done. */
  ghost predicate Copying(m: Setup, s: State, c: Cfg, n: nat, k: nat, entry: u64) {
    && Live(m, c) && Window(m) && 8 * n < U32 && k <= n && 8 * k <= MMIO - STAGING
    && c.s.r[0] == 8 * (n - k) && c.s.r[1] == entry && c.s.r[2] == STAGING + 8 * k && c.s.r[3] == 8 * k
    && c.s.io == s.io && (forall j :: 0 <= j < k ==> Load64(c.s.mem, 8 * j) == Load64(s.mem, STAGING + 8 * j))
    && (forall x :: x < 0 || x >= 8 * k ==> Peek(c.s.mem, x) == Peek(s.mem, x))
  }

  lemma OffsetAddress(r: Regs, x: Reg)
    requires r[x] < MMIO && r[x] % 8 == 0
    ensures Wrap32(r[x] + 0) == r[x] && Align8(r[x]) == r[x]
  {
  }

  lemma LoadStep(m: Setup, c: Cfg)
    requires Here(m, c, Load(3, false, false, 4, Offset(2, 0))) && Window(m) && c.s.r[2] + 8 <= m.b.hi && c.s.r[2] % 8 == 0
    ensures NextCfg(m, c) == Cfg(c.s.(r := c.s.r[4 := Load64(c.s.mem, c.s.r[2])], pc := c.s.pc + 8), c.calls, c.live, true)
  {
    hide Data, LoadLe, ExtendLoad;
    OffsetAddress(c.s.r, 2);
    Whole(Load64(c.s.mem, c.s.r[2]));
    assert EffAddr(m.code[c.s.pc], c.s.r) == c.s.r[2];
    assert Fine(m, c);
  }

  lemma StoreStep(m: Setup, c: Cfg)
    requires Here(m, c, Store(3, false, 4, Offset(3, 0))) && Window(m) && c.s.r[3] + 8 <= m.b.hi && c.s.r[3] % 8 == 0
    ensures NextCfg(m, c)
      == Cfg(c.s.(mem := Store64(c.s.mem, c.s.r[3], c.s.r[4]), pc := c.s.pc + 8), c.calls, c.live, true)
  {
    hide Data, StoreLe;
    OffsetAddress(c.s.r, 3);
    assert EffAddr(m.code[c.s.pc], c.s.r) == c.s.r[3];
    assert Fine(m, c);
  }

  lemma ShortJump(m: Setup, c: Cfg, cond: Cond, disp: u18)
    requires Here(m, c, Br(false, cond, false, disp))
    ensures NextCfg(m, c)
      == Cfg(c.s.(pc := if Condition(cond, false, c.s.fl) then Wrap32(c.s.pc + 4 * Signed(disp, 0x2_0000)) else c.s.pc + 4),
             c.calls, c.live, true)
  {
    hide Data, Condition;
    assert Fine(m, c);
  }

  /** The loop test. */
  lemma Test(m: Setup, c: Cfg)
    requires Live(m, c) && LoopPlaced(m.code) && c.s.pc == TRAMP + 16
    ensures var d := Run(m, c, 2);
      && d.ok && d.calls == c.calls && d.live == c.live
      && d.s == c.s.(fl := d.s.fl, pc := if c.s.r[0] == 0 then TRAMP + 72 else TRAMP + 28)
  {
    hide NextCfg, CmpFlags, Condition, Run;
    RunFew(m, c);
    DataStep(m, c, CmpI(false, 0, 0));
    CompareUlt(c.s.r[0], 0);
    ShortJump(m, NextCfg(m, c), 9, 12);
  }

  /** One dword moved. */
  lemma Move(m: Setup, s: State, c: Cfg, n: nat, k: nat, entry: u64)
    requires Copying(m, s, c, n, k, entry) && k < n && STAGING + 8 * k + 8 <= m.b.hi
    requires LoopPlaced(m.code) && c.s.pc == TRAMP + 28
    ensures var d := Run(m, c, 2);
      && Live(m, d) && d.calls == c.calls && d.live == c.live && Rest(c, d) && d.s.sp == c.s.sp && d.s.pc == TRAMP + 44
      && d.s.r == c.s.r[4 := d.s.r[4]]
      && d.s.mem == Store64(c.s.mem, 8 * k, Load64(s.mem, STAGING + 8 * k))
  {
    hide NextCfg, Run, Load64, Store64, Peek;
    RunFew(m, c);
    LoadStep(m, c);
    SourceIntact(s, c, n, k);
    StoreStep(m, NextCfg(m, c));
  }

  lemma SourceIntact(s: State, c: Cfg, n: nat, k: nat)
    requires k < n && forall x :: x < 0 || x >= 8 * k ==> Peek(c.s.mem, x) == Peek(s.mem, x)
    ensures Load64(c.s.mem, STAGING + 8 * k) == Load64(s.mem, STAGING + 8 * k)
  {
    hide LoadLe, Peek;
    LoadSame(s.mem, c.s.mem, STAGING + 8 * k, 8);
  }

  /** ADDV or MINUSV of 8 without wrapping. */
  lemma ByEight(m: Setup, c: Cfg, x: Reg, op: AluOp, v: int)
    requires Here(m, c, AluI(op, false, false, x, x, 8)) && op <= 1 && 0 <= v < U64
    requires var u: int := c.s.r[x]; v == if op == 0 then u + 8 else u - 8
    ensures var d := NextCfg(m, c); d == Cfg(c.s.(r := c.s.r[x := v], fl := d.s.fl, pc := c.s.pc + 8), c.calls, c.live, true)
  {
    hide NextCfg, AluFlags;
    DataStep(m, c, AluI(op, false, false, x, x, 8));
  }

  lemma AdvanceAt(code: Code)
    requires LoopPlaced(code)
    ensures TRAMP + 44 in code && code[TRAMP + 44] == AluI(0, false, false, 2, 2, 8)
    ensures TRAMP + 52 in code && code[TRAMP + 52] == AluI(0, false, false, 3, 3, 8)
    ensures TRAMP + 60 in code && code[TRAMP + 60] == AluI(1, false, false, 0, 0, 8)
    ensures TRAMP + 68 in code && code[TRAMP + 68] == Br(false, 0, false, 0x4_0000 - 13)
  {
  }

  /** Both pointers up, the length down, back to the test. */
  lemma Advance(m: Setup, c: Cfg, x: int, y: int, z: int)
    requires Live(m, c) && LoopPlaced(m.code) && c.s.pc == TRAMP + 44
    requires c.s.r[2] == x < U32 && c.s.r[3] == y < U32 && c.s.r[0] == z >= 8
    ensures var d := Run(m, c, 4);
      && Live(m, d) && d.calls == c.calls && d.live == c.live && Rest(c, d) && d.s.sp == c.s.sp && d.s.mem == c.s.mem
      && d.s.pc == TRAMP + 16
      && d.s.r[2] == x + 8 && d.s.r[3] == y + 8 && d.s.r[0] == z - 8 && d.s.r[1] == c.s.r[1]
  {
    hide NextCfg, Run, Condition, LoopPlaced;
    AdvanceAt(m.code);
    RunFew(m, c);
    ByEight(m, c, 2, 0, x + 8);
    var d := NextCfg(m, c);
    ByEight(m, d, 3, 0, y + 8);
    var e := NextCfg(m, d);
    ByEight(m, e, 0, 1, z - 8);
    var f := NextCfg(m, e);
    ShortJump(m, f, 0, 0x4_0000 - 13);
    Always(f.s.fl);
  }

  lemma Always(f: Flags)
    ensures Condition(0, false, f)
  {
  }

  /** What one more stored dword does to the picture. */
  lemma Extended(s: State, c: Cfg, d: Cfg, n: nat, k: nat)
    requires k < n && d.s.mem == Store64(c.s.mem, 8 * k, Load64(s.mem, STAGING + 8 * k))
    requires forall j :: 0 <= j < k ==> Load64(c.s.mem, 8 * j) == Load64(s.mem, STAGING + 8 * j)
    requires forall x :: x < 0 || x >= 8 * k ==> Peek(c.s.mem, x) == Peek(s.mem, x)
    ensures forall j :: 0 <= j < k + 1 ==> Load64(d.s.mem, 8 * j) == Load64(s.mem, STAGING + 8 * j)
    ensures forall x :: x < 0 || x >= 8 * k + 8 ==> Peek(d.s.mem, x) == Peek(s.mem, x)
  {
    hide LoadLe, StoreLe, Peek;
    var v := Load64(s.mem, STAGING + 8 * k);
    forall j | 0 <= j < k + 1
      ensures Load64(d.s.mem, 8 * j) == Load64(s.mem, STAGING + 8 * j)
    {
      if j == k {
        Load64Store64(c.s.mem, 8 * k, v);
      } else {
        Load64Other(c.s.mem, 8 * k, v, 8 * j);
      }
    }
    forall x | x < 0 || x >= 8 * k + 8
      ensures Peek(d.s.mem, x) == Peek(s.mem, x)
    {
      PeekStore(c.s.mem, 8 * k, 8, v, x);
    }
  }

  lemma Round(m: Setup, s: State, c: Cfg, n: nat, k: nat, entry: u64)
    requires Copying(m, s, c, n, k, entry) && k < n && STAGING + 8 * k + 8 <= m.b.hi
    requires LoopPlaced(m.code) && c.s.pc == TRAMP + 16
    ensures var d := Run(m, c, 8);
      Copying(m, s, d, n, k + 1, entry) && d.s.pc == TRAMP + 16
  {
    hide Run, Load64, Store64, Peek, LoopPlaced;
    Test(m, c);
    var c1 := Run(m, c, 2);
    Move(m, s, c1, n, k, entry);
    var c2 := Run(m, c1, 2);
    Advance(m, c2, STAGING + 8 * k, 8 * k, 8 * (n - k));
    Extended(s, c, c2, n, k);
    RunAdd(m, c, 2, 2);
    RunAdd(m, c, 4, 4);
  }

  /** Rounds k to j - 1. */
  lemma {:induction false} Rounds(m: Setup, s: State, c: Cfg, n: nat, k: nat, j: nat, entry: u64)
    requires Copying(m, s, c, n, k, entry) && k <= j <= n && STAGING + 8 * j <= m.b.hi
    requires LoopPlaced(m.code) && c.s.pc == TRAMP + 16
    ensures var d := Run(m, c, 8 * (j - k));
      Copying(m, s, d, n, j, entry) && d.s.pc == TRAMP + 16
    decreases j - k
  {
    hide Run, Copying, LoopPlaced, Window;
    if k == j {
      RunNone(m, c);
    } else {
      Round(m, s, c, n, k, entry);
      Rounds(m, s, Run(m, c, 8), n, k + 1, j, entry);
      RunAdd(m, c, 8, 8 * (j - k - 1));
    }
  }

  lemma Loop(m: Setup, s: State, c: Cfg, n: nat, k: nat, entry: u64)
    requires Copying(m, s, c, n, k, entry) && STAGING + 8 * n <= m.b.hi && LoopPlaced(m.code) && c.s.pc == TRAMP + 16
    ensures var d := Run(m, c, 8 * (n - k) + 2);
      Copying(m, s, d, n, n, entry) && d.s.pc == TRAMP + 72
  {
    hide Run, Load64, Peek, LoopPlaced, Live, Window;
    CountBound(m, s, c, n, k, entry);
    Rounds(m, s, c, n, k, n, entry);
    var d := Run(m, c, 8 * (n - k));
    assert Live(m, d);
    Test(m, d);
    SameLive(m, d, Run(m, d, 2));
    RunAdd(m, c, 8 * (n - k), 2);
  }

  lemma CountBound(m: Setup, s: State, c: Cfg, n: nat, k: nat, entry: u64)
    requires Copying(m, s, c, n, k, entry)
    ensures k <= n
  {
  }

  lemma SameLive(m: Setup, c: Cfg, d: Cfg)
    requires Live(m, c) && d.ok && d.s.st == c.s.st && d.s.sp == c.s.sp
    ensures Live(m, d)
  {
  }

  /** The I-cache is told to forget everything. */
  lemma Invalidate(m: Setup, c: Cfg)
    requires Here(m, c, Store(2, false, 6, Offset(5, 0))) && Window(m) && c.s.r[5] == U64 - U32 + CACHE_CTRL && c.s.r[6] == 8
    ensures NextCfg(m, c) == Cfg(c.s.(io := c.s.io + [IoStore(CACHE_CTRL, 2, 8)], pc := c.s.pc + 8), c.calls, c.live, true)
  {
    hide Data, StoreLe;
    assert Wrap32(c.s.r[5] + 0) == CACHE_CTRL;
    assert EffAddr(m.code[c.s.pc], c.s.r) == CACHE_CTRL;
    assert Fine(m, c);
  }

  /** The tail up to the jump. */
  lemma Tail(m: Setup, c: Cfg)
    requires Live(m, c) && Window(m) && TailPlaced(m.code) && c.s.pc == TRAMP + 72 && m.b.top == STACK_TOP
    ensures var d := Run(m, c, 5);
      && Live(m, d) && d.s.mem == c.s.mem && d.s.r[1] == c.s.r[1] && d.s.sp == STACK_TOP && d.s.pc == TRAMP + 108
      && d.s.io == c.s.io + [IoStore(CACHE_CTRL, 2, 8)]
  {
    hide NextCfg, Run;
    RunFew(m, c);
    DataStep(m, c, SetR(true, 5, CACHE_CTRL));
    var d := NextCfg(m, c);
    DataStep(m, d, SetR(true, 6, 8));
    var e := NextCfg(m, d);
    Invalidate(m, e);
    var f := NextCfg(m, e);
    DataStep(m, f, SetR(true, 7, STACK_TOP));
    SetSpStep(m, NextCfg(m, f));
  }

  lemma SetSpStep(m: Setup, c: Cfg)
    requires Here(m, c, SetSp(7)) && c.s.r[7] == STACK_TOP
    ensures var d := NextCfg(m, c);
      d.ok && d.s == c.s.(sp := STACK_TOP, pc := c.s.pc + 4)
  {
    hide Data;
    assert Fine(m, c);
  }

  lemma JumpRegister(m: Setup, c: Cfg)
    requires Here(m, c, BrReg(false, 0, false, 1))
    ensures var d := NextCfg(m, c); d.ok && d.s == c.s.(pc := Wrap32(c.s.r[1]))
  {
    hide Data;
    assert Fine(m, c);
  }

  /** launch_image: called with the image length rounded up to dwords. */
  ghost predicate Launched(m: Setup, c: Cfg, n: nat, entry: u32) {
    && Live(m, c) && Window(m) && Placed(m.code) && m.b.hi <= TRAMP && m.b.top == STACK_TOP && n <= 0x20_0000
    && c.s.pc == TRAMP && c.s.r[0] == 8 * n && c.s.r[1] == entry
  }

  lemma Begin(m: Setup, c: Cfg, n: nat, entry: u32)
    requires Live(m, c) && Window(m) && Placed(m.code) && 8 * n < U32
    requires c.s.pc == TRAMP && c.s.r[0] == 8 * n && c.s.r[1] == entry
    ensures var d := Run(m, c, 2);
      Copying(m, c.s, d, n, 0, entry) && d.s.pc == TRAMP + 16
  {
    hide NextCfg, Run, LoopPlaced, TailPlaced, Load64, Peek;
    RunFew(m, c);
    DataStep(m, c, SetR(true, 2, STAGING));
    DataStep(m, NextCfg(m, c), SetR(true, 3, 0));
  }

  /** The trampoline ends after 8 * n + 10 instructions at the entry point, with SP as the
      hardware loader leaves it, the n staged dwords at address 0, and everything else,
      staging area and trampoline included, as it was. */
  lemma Launch(m: Setup, c: Cfg, n: nat, entry: u32)
    requires Launched(m, c, n, entry)
    ensures var d := Run(m, c, 8 * n + 10);
      && d.ok && d.s.st == Running && d.s.pc == entry && d.s.sp == STACK_TOP
      && d.s.io == c.s.io + [IoStore(CACHE_CTRL, 2, 8)] && Copied(c.s.mem, d.s.mem, n)
  {
    hide Run, Load64, Peek, LoopPlaced, Copying, TailPlaced;
    Begin(m, c, n, entry);
    var c1 := Run(m, c, 2);
    Loop(m, c.s, c1, n, 0, entry);
    var c2 := Run(m, c1, 8 * n + 2);
    AllCopied(m, c.s, c2, n, entry);
    Tail(m, c2);
    var c3 := Run(m, c2, 5);
    assert Here(m, c3, BrReg(false, 0, false, 1)) by { LastPlaced(m); }
    JumpRegister(m, c3);
    RunOne(m, c3);
    RunAdd(m, c, 2, 8 * n + 2);
    RunAdd(m, c, 8 * n + 4, 5);
    RunAdd(m, c, 8 * n + 9, 1);
  }

  lemma LastPlaced(m: Setup)
    requires TailPlaced(m.code)
    ensures TRAMP + 108 in m.code && m.code[TRAMP + 108] == BrReg(false, 0, false, 1)
  {
  }

  /** The first 8 * n bytes are those of the staging area; no other byte has changed. */
  ghost predicate Copied(m: Mem, m': Mem, n: nat) {
    && (forall x :: 0 <= x < 8 * n ==> Peek(m', x) == Peek(m, STAGING + x))
    && (forall x :: x < 0 || x >= 8 * n ==> Peek(m', x) == Peek(m, x))
  }

  /** Equal dwords have equal bytes. */
  lemma {:induction false} SameBytes(m: Mem, a: int, m': Mem, b: int, n: nat, k: nat)
    requires LoadLe(m, a, n) == LoadLe(m', b, n) && k < n
    ensures Peek(m, a + k) == Peek(m', b + k)
    decreases n
  {
    hide Peek;
    var q, q' := LoadLe(m, a + 1, n - 1), LoadLe(m', b + 1, n - 1);
    LowByte(Peek(m, a), q, Peek(m', b), q');
    if k > 0 {
      SameBytes(m, a + 1, m', b + 1, n - 1, k - 1);
    }
  }

  lemma LowByte(p: u8, q: nat, p': u8, q': nat)
    requires p + 0x100 * q == p' + 0x100 * q'
    ensures p == p' && q == q'
  {
  }

  /** The first k dwords have arrived: so have their bytes. */
  lemma BytesSoFar(m: Setup, s: State, c: Cfg, n: nat, k: nat, entry: u64)
    requires Copying(m, s, c, n, k, entry)
    ensures forall x :: 0 <= x < 8 * k ==> Peek(c.s.mem, x) == Peek(s.mem, STAGING + x)
  {
    hide LoadLe, Peek;
    forall x | 0 <= x < 8 * k
      ensures Peek(c.s.mem, x) == Peek(s.mem, STAGING + x)
    {
      var j := x / 8;
      assert Load64(c.s.mem, 8 * j) == Load64(s.mem, STAGING + 8 * j);
      SameBytes(c.s.mem, 8 * j, s.mem, STAGING + 8 * j, 8, x % 8);
    }
  }

  lemma AllCopied(m: Setup, s: State, c: Cfg, n: nat, entry: u64)
    requires Copying(m, s, c, n, n, entry)
    ensures Live(m, c) && Window(m) && c.s.r[1] == entry && c.s.io == s.io && Copied(s.mem, c.s.mem, n)
  {
    hide Load64, Peek;
    BytesSoFar(m, s, c, n, n, entry);
  }

  /** With an image in the staging area and the trampoline's words at TRAMP_BASE, the
      machine, fetching from memory, arrives at the entry with the image at 0. */
  lemma Boot(m: Setup, c: Cfg, entry: u32, image: seq<u8>)
    requires |image| < MAX_IMG && m.b.touch <= 0xFF00
    requires Launched(m, c, (|image| + 7) / 8, entry) && Holds(c.s.mem, m.code, TRAMP, TRAMP + 112)
    requires forall x :: 0 <= x < |image| ==> Peek(c.s.mem, STAGING + x) == image[x]
    ensures var n := (|image| + 7) / 8; var d := MemRun(m.dev, c.s, 8 * n + 10);
      && d.st == Running && d.pc == entry && d.sp == STACK_TOP && Copied(c.s.mem, d.mem, n)
      && forall x :: 0 <= x < |image| ==> Peek(d.mem, x) == image[x]
  {
    hide Run, MemRun, Peek, Holds, Placed, Window;
    var n := (|image| + 7) / 8;
    Launch(m, c, n, entry);
    Apart(m, c, n, entry);
    RunFromMemory(m, c, 8 * n + 10, TRAMP, TRAMP + 112);
  }

  lemma Apart(m: Setup, c: Cfg, n: nat, entry: u32)
    requires Launched(m, c, n, entry) && m.b.touch <= 0xFF00
    ensures Safe(m.b, TRAMP, TRAMP + 112)
  {
    hide Placed, Peek;
  }

  // ---- launch_image

  /** n words copied from `from` to TRAMP_BASE. */
  ghost predicate Emitted(m: Mem, m': Mem, from: int, n: nat) {
    && (forall y :: TRAMP <= y < TRAMP + 4 * n ==> Peek(m', y) == Peek(m, y - TRAMP + from))
    && (forall x :: x < TRAMP || x >= TRAMP + 4 * n ==> Peek(m', x) == Peek(m, x))
  }

  /** The loop over the trampoline's words, which lie clear of TRAMP_BASE. */
  method EmitTrampoline(mem: Mem, from: int, n: nat) returns (out: Mem)
    requires from + 4 * n <= TRAMP || TRAMP + 4 * n <= from
    ensures Emitted(mem, out, from, n)
  {
    hide LoadLe, StoreLe, Peek;
    out := mem;
    for w := 0 to n
      invariant Emitted(mem, out, from, w)
    {
      LoadBound(out, from + 4 * w, 4);
      OneWord(mem, out, from, w);
      out := StoreLe(out, TRAMP + 4 * w, 4, LoadLe(out, from + 4 * w, 4));
    }
  }

  lemma OneWord(m: Mem, m': Mem, from: int, w: nat)
    requires Emitted(m, m', from, w) && (from + 4 * w + 4 <= TRAMP || TRAMP + 4 * w <= from)
    ensures LoadLe(m', from + 4 * w, 4) >= 0
    ensures Emitted(m, StoreLe(m', TRAMP + 4 * w, 4, LoadLe(m', from + 4 * w, 4)), from, w + 1)
  {
    hide LoadLe, StoreLe, Peek;
    var a, b := TRAMP + 4 * w, from + 4 * w;
    LoadBound(m', b, 4);
    Pow2Of64();
    var v := LoadLe(m', b, 4);
    var out := StoreLe(m', a, 4, v);
    LoadStore(m', a, 4, v);
    forall y | TRAMP <= y < TRAMP + 4 * w + 4
      ensures Peek(out, y) == Peek(m, y - TRAMP + from)
    {
      if y >= a {
        SameBytes(out, a, m', b, 4, y - a);
      } else {
        PeekStore(m', a, 4, v, y);
      }
    }
    forall x | x < TRAMP || x >= TRAMP + 4 * (w + 1)
      ensures Peek(out, x) == Peek(m, x)
    {
      PeekStore(m', a, 4, v, x);
    }
  }

  /** The trampoline's code as the loader links it, at `from` instead of TRAMP_BASE. */
  ghost predicate Linked(m: Mem, code: Code, from: int) {
    forall a :: a in code ==>
      && Legal(code[a]) && TRAMP <= a && a + 4 * Words(code[a]) <= TRAMP + 112
      && forall k :: 0 <= k < Words(code[a]) ==> WordAt(m, from + (a - TRAMP) + 4 * k) == Encode(code[a])[k]
  }

  lemma {:induction false} ShiftedLoad(m: Mem, a: int, m': Mem, b: int, n: nat)
    requires forall y :: b <= y < b + n ==> Peek(m', y) == Peek(m, y - b + a)
    ensures LoadLe(m', b, n) == LoadLe(m, a, n)
    decreases n
  {
    hide Peek;
    if n != 0 {
      ShiftedLoad(m, a + 1, m', b + 1, n - 1);
    }
  }

  lemma LinkedHolds(m: Mem, m': Mem, code: Code, from: int)
    requires Linked(m, code, from) && Emitted(m, m', from, 28)
    ensures Holds(m', code, TRAMP, TRAMP + 112)
  {
    hide LoadLe, Peek, Legal, Encode, Words;
    forall a | a in code
      ensures Stored(m', a, code[a])
    {
      forall k | 0 <= k < Words(code[a])
        ensures WordAt(m', a + 4 * k) == Encode(code[a])[k]
      {
        ShiftedWord(m, m', from, a - TRAMP + 4 * k);
      }
    }
  }

  lemma ShiftedWord(m: Mem, m': Mem, from: int, o: int)
    requires Emitted(m, m', from, 28) && 0 <= o && o + 4 <= 112
    ensures WordAt(m', TRAMP + o) == WordAt(m, from + o)
  {
    hide LoadLe, Peek;
    ShiftedLoad(m, from + o, m', TRAMP + o, 4);
  }

  /** The machine when launch_image calls the trampoline: its words emitted, the loader's
      length, rounded up, and entry in r0 and r1. */
  ghost predicate Calls(m: Setup, c: Cfg, l: Loader, mem: Mem, from: int) {
    && Live(m, c) && Window(m) && Placed(m.code) && m.b.top == STACK_TOP && m.b.touch <= 0xFF00
    && Linked(mem, m.code, from) && Emitted(mem, c.s.mem, from, 28)
    && |l.area| == MAX_IMG && (forall x :: 0 <= x < MAX_IMG ==> Peek(mem, STAGING + x) == l.area[x])
    && c.s.pc == TRAMP && c.s.r[0] == Rounded(l.rx.len) && c.s.r[1] == l.rx.entry
  }

  /** From the copy of the trampoline to the running program. */
  lemma LaunchImage(m: Setup, c: Cfg, l: Loader, mem: Mem, from: int, entry: u32, image: seq<u8>)
    requires Calls(m, c, l, mem, from) && Launches(l, entry, image) && |image| < MAX_IMG && m.b.hi <= TRAMP
    ensures var n := (|image| + 7) / 8; var d := MemRun(m.dev, c.s, 8 * n + 10);
      && d.st == Running && d.pc == entry && d.sp == STACK_TOP && Copied(c.s.mem, d.mem, n)
      && forall x :: 0 <= x < |image| ==> Peek(d.mem, x) == image[x]
  {
    hide MemRun, Peek, Placed, Linked, Holds;
    LinkedHolds(mem, c.s.mem, m.code, from);
    forall x | 0 <= x < |image|
      ensures Peek(c.s.mem, STAGING + x) == image[x]
    {
      assert Peek(c.s.mem, STAGING + x) == Peek(mem, STAGING + x);
      assert l.area[..|image|][x] == l.area[x];
    }
    Boot(m, c, entry, image);
  }

  /** From any history of connections and bytes: if those after the last acknowledged image
      are harmless, that image is what runs. */
  lemma BootLastImage(m: Setup, c: Cfg, start: Loader, es: seq<Event>, k: nat, mem: Mem, from: int)
    requires Started(start) && k <= |es| && Calls(m, c, History(start, es), mem, from) && m.b.hi <= TRAMP
    requires Acknowledged(History(start, es[..k])) && Incomplete(Streams(es[k..]))
    requires var a := History(start, es[..k]).rx; Harmless(Streams(es[k..])[1..], a.entry, a.staged)
    ensures var a := History(start, es[..k]).rx;
      var n := (|a.staged| + 7) / 8; var d := MemRun(m.dev, c.s, 8 * n + 10);
      && d.st == Running && d.pc == a.entry && d.sp == STACK_TOP && Copied(c.s.mem, d.mem, n)
      && forall x :: 0 <= x < |a.staged| ==> Peek(d.mem, x) == a.staged[x]
  {
    hide MemRun, Peek, Calls, History, Streams, Harmless, Copied;
    var l := History(start, es[..k]);
    OffsetBound(start, es[..k]);
    assert es == es[..k] + es[k..];
    HistoryAdd(start, es[..k], es[k..]);
    LaunchExact(l, es[k..]);
    LaunchImage(m, c, History(start, es), mem, from, l.rx.entry, l.rx.staged);
  }

  // ---- a length that reaches the trampoline

  /** Two steps of which the first leaves memory alone. */
  lemma HeldPair(m: Setup, c: Cfg, m0: Mem)
    requires Run(m, c, 2).ok && NextCfg(m, c).s.mem == c.s.mem
    requires Holds(m0, m.code, TRAMP, TRAMP + 112) && SameIn(m0, c.s.mem, TRAMP, TRAMP + 112)
    ensures MemRun(m.dev, c.s, 2) == Run(m, c, 2).s
  {
    hide NextCfg, Run, MemRun, Holds, SameIn;
    RunNone(m, c);
    RunOne(m, c);
    forall k | 0 <= k < 2
      ensures SameIn(m0, Run(m, c, k).s.mem, TRAMP, TRAMP + 112)
    {
      assert k == 0 || k == 1;
    }
    HeldRun(m, c, 2, m0, TRAMP, TRAMP + 112);
  }

  lemma TestQuiet(m: Setup, c: Cfg)
    requires Live(m, c) && LoopPlaced(m.code) && c.s.pc == TRAMP + 16
    ensures NextCfg(m, c).s.mem == c.s.mem
  {
    hide NextCfg;
    DataStep(m, c, CmpI(false, 0, 0));
  }

  lemma MoveQuiet(m: Setup, s: State, c: Cfg, n: nat, k: nat, entry: u64)
    requires Copying(m, s, c, n, k, entry) && k < n && STAGING + 8 * k + 8 <= m.b.hi
    requires LoopPlaced(m.code) && c.s.pc == TRAMP + 28
    ensures NextCfg(m, c).s.mem == c.s.mem
  {
    hide NextCfg, Load64, Peek;
    LoadStep(m, c);
  }

  lemma AdvanceQuiet(m: Setup, c: Cfg, x: int, y: int, z: int)
    requires Live(m, c) && LoopPlaced(m.code) && c.s.pc == TRAMP + 44
    requires c.s.r[2] == x < U32 && c.s.r[3] == y < U32 && c.s.r[0] == z >= 8
    ensures forall k :: 0 <= k < 4 ==> Run(m, c, k).s.mem == c.s.mem
  {
    hide NextCfg, Run, LoopPlaced;
    AdvanceAt(m.code);
    RunNone(m, c);
    RunOne(m, c);
    RunFew(m, c);
    ByEight(m, c, 2, 0, x + 8);
    var d := NextCfg(m, c);
    ByEight(m, d, 3, 0, y + 8);
    ByEight(m, NextCfg(m, d), 0, 1, z - 8);
    forall k | 0 <= k < 4
      ensures Run(m, c, k).s.mem == c.s.mem
    {
      assert k == 0 || k == 1 || k == 2 || k == 3;
    }
  }

  lemma BelowTrampoline(s: State, c: Cfg, k: nat)
    requires 8 * k <= TRAMP && forall x :: x < 0 || x >= 8 * k ==> Peek(c.s.mem, x) == Peek(s.mem, x)
    ensures SameIn(s.mem, c.s.mem, TRAMP, TRAMP + 112)
  {
    hide Peek;
  }

  /** The test and the copy of dword k: up to there the trampoline in memory is intact. */
  lemma HeldMove(m: Setup, s: State, c: Cfg, n: nat, k: nat, entry: u64)
    requires Copying(m, s, c, n, k, entry) && k < n && STAGING + 8 * k + 8 <= m.b.hi && 8 * k <= TRAMP
    requires LoopPlaced(m.code) && c.s.pc == TRAMP + 16 && Holds(s.mem, m.code, TRAMP, TRAMP + 112)
    ensures var d := Run(m, c, 4);
      && MemRun(m.dev, c.s, 4) == d.s && Live(m, d) && d.s.pc == TRAMP + 44
      && d.s.r == c.s.r[4 := d.s.r[4]] && d.s.mem == Store64(c.s.mem, 8 * k, Load64(s.mem, STAGING + 8 * k))
  {
    hide NextCfg, Run, MemRun, Load64, Store64, Peek, LoopPlaced, Holds, SameIn;
    BelowTrampoline(s, c, k);
    Test(m, c);
    TestQuiet(m, c);
    HeldPair(m, c, s.mem);
    var c1 := Run(m, c, 2);
    Move(m, s, c1, n, k, entry);
    MoveQuiet(m, s, c1, n, k, entry);
    HeldPair(m, c1, s.mem);
    RunAdd(m, c, 2, 2);
    MemRunAdd(m.dev, c.s, 2, 2);
  }

  lemma HeldRound(m: Setup, s: State, c: Cfg, n: nat, k: nat, entry: u64)
    requires Copying(m, s, c, n, k, entry) && k < n && STAGING + 8 * k + 8 <= m.b.hi && 8 * k + 8 <= TRAMP
    requires LoopPlaced(m.code) && c.s.pc == TRAMP + 16 && Holds(s.mem, m.code, TRAMP, TRAMP + 112)
    ensures MemRun(m.dev, c.s, 8) == Run(m, c, 8).s
  {
    hide NextCfg, Run, MemRun, Load64, Store64, Peek, LoopPlaced, Holds, SameIn;
    HeldMove(m, s, c, n, k, entry);
    var d := Run(m, c, 4);
    Extended(s, c, d, n, k);
    BelowTrampoline(s, d, k + 1);
    Advance(m, d, STAGING + 8 * k, 8 * k, 8 * (n - k));
    AdvanceQuiet(m, d, STAGING + 8 * k, 8 * k, 8 * (n - k));
    HeldRun(m, d, 4, s.mem, TRAMP, TRAMP + 112);
    RunAdd(m, c, 4, 4);
    MemRunAdd(m.dev, c.s, 4, 4);
  }

  lemma {:induction false} HeldRounds(m: Setup, s: State, c: Cfg, n: nat, k: nat, j: nat, entry: u64)
    requires Copying(m, s, c, n, k, entry) && k <= j <= n && STAGING + 8 * j <= m.b.hi && 8 * j <= TRAMP
    requires LoopPlaced(m.code) && c.s.pc == TRAMP + 16 && Holds(s.mem, m.code, TRAMP, TRAMP + 112)
    ensures MemRun(m.dev, c.s, 8 * (j - k)) == Run(m, c, 8 * (j - k)).s
    decreases j - k
  {
    hide Run, MemRun, Copying, LoopPlaced, Window, Holds;
    if k == j {
      RunNone(m, c);
      MemRunNone(m.dev, c.s);
    } else {
      HeldRound(m, s, c, n, k, entry);
      Round(m, s, c, n, k, entry);
      HeldRounds(m, s, Run(m, c, 8), n, k + 1, j, entry);
      RunAdd(m, c, 8, 8 * (j - k - 1));
      MemRunAdd(m.dev, c.s, 8, 8 * (j - k - 1));
    }
  }

  /** The first two steps set the pointers and leave memory alone. */
  lemma HeldBegin(m: Setup, c: Cfg)
    requires Live(m, c) && Placed(m.code) && c.s.pc == TRAMP && Holds(c.s.mem, m.code, TRAMP, TRAMP + 112)
    requires Run(m, c, 2).ok
    ensures MemRun(m.dev, c.s, 2) == Run(m, c, 2).s
  {
    hide NextCfg, Run, MemRun, Peek, LoopPlaced, TailPlaced, Holds;
    DataStep(m, c, SetR(true, 2, STAGING));
    HeldPair(m, c, c.s.mem);
  }

  /** After a header that announced more than TRAMP bytes: still fetching the intact
      trampoline, the copy arrives at the trampoline itself with dwords left to copy, and
      stores over its first one. */
  lemma Overrun(m: Setup, c: Cfg, l: Loader, mem: Mem, from: int)
    requires Calls(m, c, l, mem, from) && Rounded(l.rx.len) > TRAMP && m.b.hi >= STAGING + TRAMP + 8
    ensures var d := MemRun(m.dev, c.s, TRAMP + 6);
      && d.st == Running && d.pc == TRAMP + 44 && d.r[3] == TRAMP && d.r[0] == Rounded(l.rx.len) - TRAMP > 0
      && Load64(d.mem, TRAMP) == Load64(c.s.mem, STAGING + TRAMP)
      && forall x :: 0 <= x < TRAMP ==> Peek(d.mem, x) == Peek(c.s.mem, STAGING + x)
  {
    hide Run, MemRun, Peek, LoadLe, StoreLe, Linked, Holds, Emitted, LoopPlaced, TailPlaced;
    LinkedHolds(mem, c.s.mem, m.code, from);
    var n, k := Rounded(l.rx.len) / 8, TRAMP / 8;
    Arrive(m, c, n, k, l.rx.entry);
    var d := Run(m, c, TRAMP + 2);
    HeldMove(m, c.s, d, n, k, l.rx.entry);
    MemRunAdd(m.dev, c.s, TRAMP + 2, 4);
    BytesSoFar(m, c.s, d, n, k, l.rx.entry);
    var v := Load64(c.s.mem, STAGING + TRAMP);
    Load64Store64(d.s.mem, TRAMP, v);
    forall x | 0 <= x < TRAMP
      ensures Peek(Store64(d.s.mem, TRAMP, v), x) == Peek(c.s.mem, STAGING + x)
    {
      PeekStore(d.s.mem, TRAMP, 8, v, x);
    }
  }

  /** k rounds from the start. */
  lemma Arrive(m: Setup, c: Cfg, n: nat, k: nat, entry: u32)
    requires Live(m, c) && Window(m) && Placed(m.code) && c.s.pc == TRAMP && c.s.r[0] == 8 * n < U32 && c.s.r[1] == entry
    requires k <= n && STAGING + 8 * k <= m.b.hi && 8 * k <= TRAMP && Holds(c.s.mem, m.code, TRAMP, TRAMP + 112)
    ensures var d := Run(m, c, 8 * k + 2);
      Copying(m, c.s, d, n, k, entry) && d.s.pc == TRAMP + 16 && MemRun(m.dev, c.s, 8 * k + 2) == d.s
  {
    hide Run, MemRun, Copying, LoopPlaced, TailPlaced, Window, Holds;
    Begin(m, c, n, entry);
    var c1 := Run(m, c, 2);
    Alive(m, c.s, c1, n, 0, entry);
    HeldBegin(m, c);
    Rounds(m, c.s, c1, n, 0, k, entry);
    HeldRounds(m, c.s, c1, n, 0, k, entry);
    RunAdd(m, c, 2, 8 * k);
    MemRunAdd(m.dev, c.s, 2, 8 * k);
  }

  lemma Alive(m: Setup, s: State, c: Cfg, n: nat, k: nat, entry: u64)
    requires Copying(m, s, c, n, k, entry)
    ensures c.ok
  {
  }
}
