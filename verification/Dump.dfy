/** The probe's dump routine: ten counters are read into memory before anything is
    printed, then the line comes out as eleven 16-digit fields. */
module Dump {
  import opened Bits
  import opened Isa
  import opened Machine
  import opened Monitor
  import opened Steps
  import opened Uart
  import opened Chase

  const SCRATCH: int := 0x8_0000

  /** Cycles, instructions and the eight hazard counters. */
  const ADDRS: seq<u32> := [
    0xF00D_0008, 0xF00D_0010, 0xF00D_00B0, 0xF00D_00B8, 0xF00D_00C0, 0xF00D_00C8, 0xF00D_00D0, 0xF00D_00D8, 0xF00D_00E0,
    0xF00D_00E8]

  /** Device traffic after the first n counter reads. */
  function Log(io: seq<Io>, n: nat): seq<Io>
    requires n <= |ADDRS|
  {
    if n == 0 then io else Log(io, n - 1) + [IoLoad(ADDRS[n - 1], 3)]
  }

  /** What the device answers to them. */
  function Counters(dev: Device, io: seq<Io>, n: nat): (v: seq<u64>)
    requires n <= |ADDRS|
    ensures |v| == n
  {
    if n == 0 then [] else Counters(dev, io, n - 1) + [dev(Log(io, n - 1), ADDRS[n - 1])]
  }

  /** The ten counters in order: cycles, instructions, and the eight from 0xF00D00B0 on. */
  lemma {:induction false} CounterAt(dev: Device, io: seq<Io>, n: nat, i: nat)
    requires i < n <= 10 && |ADDRS| == 10
    ensures Counters(dev, io, n)[i]
      == dev(Log(io, i), if i == 0 then 0xF00D_0008 else if i == 1 then 0xF00D_0010 else 0xF00D_00A0 + 8 * i)
    decreases n
  {
    if i < n - 1 {
      CounterAt(dev, io, n - 1, i);
    }
  }

  lemma {:induction false} LogSends(io: seq<Io>, n: nat)
    requires n <= |ADDRS|
    ensures Sent(Log(io, n)) == Sent(io)
    decreases n
  {
    hide Sent;
    if n > 0 {
      LogSends(io, n - 1);
      SentNext(Log(io, n - 1), IoLoad(ADDRS[n - 1], 3));
      Neutral(Sent(io));
    }
  }

  lemma Addresses(i: nat)
    requires i < |ADDRS|
    ensures MMIO <= ADDRS[i] < U32 && ADDRS[i] % 8 == 0 && |ADDRS| == 10
  {
  }

  ghost predicate SnapCode(code: Code, a: int) {
    forall i :: 0 <= i < |ADDRS| ==> SnapOne(code, a + 8 + 24 * i, ADDRS[i])
  }

  /** SETR G addr; MEMGET64 E G; MEMSET64 E I; ADDV I 8. */
  ghost predicate SnapOne(code: Code, a: int, addr: u32) {
    && a in code && code[a] == SetR(true, 6, addr)
    && a + 8 in code && code[a + 8] == Load(3, false, false, 4, Base(6))
    && a + 12 in code && code[a + 12] == Store(3, false, 4, Base(8))
    && a + 16 in code && code[a + 16] == AluI(0, false, false, 8, 8, 8)
  }

  ghost predicate PrintCode(code: Code, a: int, k: Kit) {
    && 0 <= a && a + 332 < U32 && 0 <= k.hex < U32 && 0 <= k.crlf < U32
    && a in code && code[a] == SetR(true, 8, SCRATCH)
    && a + 248 in code && code[a + 248] == Copy(4, 3)
    && a + 252 in code && code[a + 252] == BrAbs(true, 0, false, k.hex)
    && a + 260 in code && code[a + 260] == SetR(true, 8, SCRATCH)
    && a + 268 in code && code[a + 268] == SetR(true, 9, 10)
    && a + 276 in code && code[a + 276] == Load(3, false, false, 4, Base(8))
    && a + 280 in code && code[a + 280] == BrAbs(true, 0, false, k.hex)
    && a + 288 in code && code[a + 288] == AluI(0, false, false, 8, 8, 8)
    && a + 296 in code && code[a + 296] == AluI(1, false, false, 9, 9, 1)
    && LoopCode(code, a + 304, 9, a + 276)
    && a + 320 in code && code[a + 320] == BrAbs(true, 0, false, k.crlf)
    && a + 328 in code && code[a + 328] == Ret
  }

  /** Through, but the scratch array may change as well. */
  ghost predicate Weak(m: Setup, c: Cfg, d: Cfg, ws: set<int>) {
    && Live(m, d) && d.calls == c.calls && d.live == c.live && d.s.sp == c.s.sp
    && d.s.disabled == c.s.disabled && d.s.mask == c.s.mask && SameBut(c.s.r, d.s.r, ws) && MostlySame(m, c, d)
  }

  ghost predicate MostlySame(m: Setup, c: Cfg, d: Cfg) {
    forall a :: (a < m.b.top - m.b.depth || a >= c.s.sp) && !(SCRATCH <= a < SCRATCH + 80) ==> Peek(d.s.mem, a) == Peek(c.s.mem, a)
  }

  lemma WeakOn(m: Setup, c: Cfg, d: Cfg, e: Cfg, ws: set<int>, vs: set<int>)
    requires Weak(m, c, d, ws) && Weak(m, d, e, vs)
    ensures Weak(m, c, e, ws + vs)
  {
    hide Peek;
  }

  lemma Weaken(m: Setup, c: Cfg, d: Cfg, ws: set<int>)
    requires Through(m, c, d, ws)
    ensures Weak(m, c, d, ws)
  {
    hide Peek;
  }

  lemma WeakLive(m: Setup, c: Cfg, d: Cfg, ws: set<int>)
    requires Weak(m, c, d, ws)
    ensures Live(m, d) && SameBut(c.s.r, d.s.r, ws)
    ensures AllAbove(c) ==> AllAbove(d)
    ensures d.s.sp == c.s.sp
  {
    hide MostlySame;
  }

  /** An aligned 64-bit load from a device register. */
  lemma CounterStep(m: Setup, c: Cfg, addr: u32)
    requires Here(m, c, Load(3, false, false, 4, Base(6))) && Open(m) && c.s.r[6] % U32 == addr && addr >= MMIO && addr % 8 == 0
    ensures var d := Run(m, c, 1);
      && Through(m, c, d, {4}) && d.s.mem == c.s.mem && d.s.io == c.s.io + [IoLoad(addr, 3)] && d.s.pc == c.s.pc + 4
      && d.s.r == c.s.r[4 := m.dev(c.s.io, addr)]
  {
    hide Data, LoadLe, Run, Peek;
    assert EffAddr(m.code[c.s.pc], c.s.r) == addr;
    assert Fine(m, c);
    RunOne(m, c);
  }

  lemma Scratch(m: Setup)
    requires Open(m)
    ensures Room(m, SCRATCH, 10)
  {
  }

  /** MEMSET64 E I into scratch[i]. */
  lemma PutScratch(m: Setup, c: Cfg, i: nat)
    requires Here(m, c, Store(3, false, 4, Base(8))) && Open(m) && i < 10 && c.s.r[8] == SCRATCH + 8 * i
    ensures var d := Run(m, c, 1);
      && Weak(m, c, d, {}) && d.s.io == c.s.io && d.s.pc == c.s.pc + 4 && d.s.r == c.s.r
      && Buffer(d.s.mem, SCRATCH, 10) == Buffer(c.s.mem, SCRATCH, 10)[i := c.s.r[4]]
  {
    hide NextCfg, Run, Peek, Buffer;
    Scratch(m);
    Put(m, SCRATCH, 10, c, 4, 8, i);
    RunOne(m, c);
  }

  /** One counter into scratch. */
  lemma Snap(m: Setup, a: int, c: Cfg, i: nat)
    requires Live(m, c) && Open(m) && SnapCode(m.code, a) && 0 <= a && a + 332 < U32 && i < 10
    requires c.s.pc == a + 8 + 24 * i && c.s.r[8] == SCRATCH + 8 * i
    ensures var d := Run(m, c, 4);
      && Weak(m, c, d, {4, 6, 8}) && d.s.pc == a + 8 + 24 * (i + 1) && d.s.r[8] == SCRATCH + 8 * (i + 1)
      && d.s.io == c.s.io + [IoLoad(ADDRS[i], 3)]
      && Buffer(d.s.mem, SCRATCH, 10) == Buffer(c.s.mem, SCRATCH, 10)[i := m.dev(c.s.io, ADDRS[i])]
  {
    hide Run, Through, Weak, Live, Open, Buffer, Sext32;
    Addresses(i);
    assert SnapOne(m.code, c.s.pc, ADDRS[i]);
    SetReg(m, c, 6, ADDRS[i]);
    SextLow(ADDRS[i]);
    var d := Run(m, c, 1);
    ThroughLive(m, c, d, {6});
    CounterStep(m, d, ADDRS[i]);
    var e := Run(m, d, 1);
    ThroughLive(m, d, e, {4});
    PutScratch(m, e, i);
    var f := Run(m, e, 1);
    WeakLive(m, e, f, {});
    Adjust(m, f, 8, 0, 8, SCRATCH + 8 * i + 8);
    var g := Run(m, f, 1);
    Weaken(m, c, d, {6});
    Weaken(m, d, e, {4});
    Weaken(m, f, g, {8});
    WeakOn(m, c, d, e, {6}, {4});
    WeakOn(m, c, e, f, {6} + {4}, {});
    WeakOn(m, c, f, g, {6} + {4} + {}, {8});
    assert {6} + {4} + {} + {8} == {4, 6, 8};
    RunAdd(m, c, 1, 1);
    RunAdd(m, c, 2, 1);
    RunAdd(m, c, 3, 1);
  }

  /** The snapshot loop, unrolled in the code: the rest of it from counter i on. */
  lemma {:induction false} SnapRest(m: Setup, a: int, c: Cfg, io: seq<Io>, i: nat)
    requires Live(m, c) && Open(m) && SnapCode(m.code, a) && 0 <= a && a + 332 < U32 && i <= 10 == |ADDRS|
    requires c.s.pc == a + 8 + 24 * i && c.s.r[8] == SCRATCH + 8 * i && c.s.io == Log(io, i)
    requires Buffer(c.s.mem, SCRATCH, 10)[..i] == Counters(m.dev, io, i)
    ensures var d := Run(m, c, 4 * (10 - i));
      && Weak(m, c, d, {4, 6, 8}) && d.s.pc == a + 248 && d.s.io == Log(io, 10)
      && Buffer(d.s.mem, SCRATCH, 10) == Counters(m.dev, io, 10)
    decreases 10 - i
  {
    hide Run, Weak, Live, Open, Buffer, SnapCode, Log;
    if i == 10 {
      NoRun(m, c);
      Unmoved(m, c);
      assert Buffer(c.s.mem, SCRATCH, 10)[..10] == Buffer(c.s.mem, SCRATCH, 10);
    } else {
      Snap(m, a, c, i);
      var d := Run(m, c, 4);
      LogNext(io, i);
      CountersNext(m.dev, io, i, Buffer(c.s.mem, SCRATCH, 10));
      WeakLive(m, c, d, {4, 6, 8});
      SnapRest(m, a, d, io, i + 1);
      WeakOn(m, c, d, Run(m, d, 4 * (9 - i)), {4, 6, 8}, {4, 6, 8});
      assert {4, 6, 8} + {4, 6, 8} == {4, 6, 8};
      RunAdd(m, c, 4, 4 * (9 - i));
    }
  }

  lemma LogNext(io: seq<Io>, i: nat)
    requires i < |ADDRS|
    ensures Log(io, i + 1) == Log(io, i) + [IoLoad(ADDRS[i], 3)]
  {
  }

  lemma CountersNext(dev: Device, io: seq<Io>, i: nat, b: seq<int>)
    requires i < |ADDRS| == 10 == |b| && b[..i] == Counters(dev, io, i)
    ensures b[i := dev(Log(io, i), ADDRS[i])][..i + 1] == Counters(dev, io, i + 1)
  {
  }

  lemma NoRun(m: Setup, c: Cfg)
    ensures Run(m, c, 0) == c
  {
  }

  lemma Unmoved(m: Setup, c: Cfg)
    requires Live(m, c)
    ensures Weak(m, c, c, {4, 6, 8})
  {
    hide Peek;
  }

  // ---- printing

  /** The fields, sixteen digits each. */
  function Fields(v: seq<u64>): seq<u8> {
    if v == [] then [] else Fields(v[..|v| - 1]) + Hex(v[|v| - 1], 16)
  }

  /** CALL puthex16, all the way back. */
  lemma CallHex(m: Setup, k: Kit, c: Cfg, hex: u32, e: u64) returns (t: nat)
    requires k.hex == hex && Here(m, c, BrAbs(true, 0, false, hex)) && Spare(m, c, 16) && c.s.r[4] == e && Loaded(m, k)
    ensures var d := Run(m, c, t);
      && Through(m, c, d, HEX_REGS) && d.s.pc == c.s.pc + 8 && Sent(d.s.io) == Sent(c.s.io) + Hex(e, 16)
      && Buffer(d.s.mem, SCRATCH, 10) == Buffer(c.s.mem, SCRATCH, 10)
  {
    hide Run, Peek, Sent, Load64, Patient, PutcCode, HexCode, CrlfCode, Called, Back, Through, StackOnly, Live, Hex, Buffer;
    Calling(m, c, hex);
    var d := Run(m, c, 1);
    var u := Puthex(m, k, d, c.s.pc + 8, e);
    Resumed(m, c, d, Run(m, d, u), HEX_REGS);
    ScratchKept(m, c, Run(m, d, u), HEX_REGS);
    RunAdd(m, c, 1, u);
    t := 1 + u;
  }

  /** Routines that only use the stack leave the scratch array alone. */
  lemma ScratchKept(m: Setup, c: Cfg, d: Cfg, ws: set<int>)
    requires Through(m, c, d, ws) && Open(m)
    ensures Buffer(d.s.mem, SCRATCH, 10) == Buffer(c.s.mem, SCRATCH, 10)
  {
    hide Peek, LoadLe;
    forall j | 0 <= j < 10
      ensures Load64(d.s.mem, SCRATCH + 8 * j) == Load64(c.s.mem, SCRATCH + 8 * j)
    {
      LoadSame(c.s.mem, d.s.mem, SCRATCH + 8 * j, 8);
    }
  }

  lemma PrintAt(m: Setup, a: int, k: Kit, c: Cfg)
    requires Live(m, c) && PrintCode(m.code, a, k)
    ensures 0 <= a && a + 332 < U32 && 0 <= k.hex < U32 && 0 <= k.crlf < U32 && LoopCode(m.code, a + 304, 9, a + 276)
    ensures c.s.pc == a || c.s.pc == a + 260 ==> Here(m, c, SetR(true, 8, SCRATCH))
    ensures c.s.pc == a + 268 ==> Here(m, c, SetR(true, 9, 10))
    ensures c.s.pc == a + 248 ==> Here(m, c, Copy(4, 3))
    ensures c.s.pc == a + 252 || c.s.pc == a + 280 ==> Here(m, c, BrAbs(true, 0, false, k.hex))
  {
    hide Live, LoopCode;
  }

  lemma LoopAt(m: Setup, a: int, k: Kit, c: Cfg)
    requires Live(m, c) && PrintCode(m.code, a, k)
    ensures 0 <= a && a + 332 < U32
    ensures c.s.pc == a + 276 ==> Here(m, c, Load(3, false, false, 4, Base(8)))
    ensures c.s.pc == a + 288 ==> Here(m, c, AluI(0, false, false, 8, 8, 8))
    ensures c.s.pc == a + 296 ==> Here(m, c, AluI(1, false, false, 9, 9, 1))
    ensures c.s.pc == a + 320 ==> Here(m, c, BrAbs(true, 0, false, k.crlf))
    ensures c.s.pc == a + 328 ==> Here(m, c, Ret)
  {
    hide Live, LoopCode;
  }

  /** MEMGET64 E I from scratch[i]. */
  lemma GetScratch(m: Setup, c: Cfg, i: nat)
    requires Here(m, c, Load(3, false, false, 4, Base(8))) && Open(m) && i < 10 && c.s.r[8] == SCRATCH + 8 * i
    ensures var d := Run(m, c, 1);
      && Through(m, c, d, {4}) && d.s.mem == c.s.mem && d.s.io == c.s.io && d.s.pc == c.s.pc + 4
      && d.s.r[4] == Buffer(c.s.mem, SCRATCH, 10)[i]
  {
    hide NextCfg, Run, Peek, Buffer, Load64;
    Scratch(m);
    Get(m, SCRATCH, 10, c, 4, 8, i);
    RunOne(m, c);
  }

  const LOOP_REGS: set<int> := {0, 1, 2, 4, 5, 7, 8, 9}

  /** ADDV I 8; MINUSV J 1; CMPRV J 0; JMPNE. */
  lemma NextField(m: Setup, a: int, k: Kit, c: Cfg, i: nat)
    requires Live(m, c) && PrintCode(m.code, a, k) && i < 10 && c.s.pc == a + 288
    requires c.s.r[8] == SCRATCH + 8 * i && c.s.r[9] == 10 - i
    ensures var d := Run(m, c, 4);
      && Through(m, c, d, {8, 9}) && d.s.mem == c.s.mem && d.s.io == c.s.io
      && d.s.pc == (if i < 9 then a + 276 else a + 320) && d.s.r[8] == SCRATCH + 8 * (i + 1) && d.s.r[9] == 9 - i
  {
    hide Here, Run, Through, Live, PrintCode, LoopCode;
    LoopAt(m, a, k, c);
    Adjust(m, c, 8, 0, 8, SCRATCH + 8 * i + 8);
    var d := Run(m, c, 1);
    ThroughLive(m, c, d, {8});
    LoopAt(m, a, k, d);
    Adjust(m, d, 9, 1, 1, 9 - i);
    var e := Run(m, d, 1);
    ThroughLive(m, d, e, {9});
    PrintAt(m, a, k, e);
    LoopBack(m, e, 9, a + 276);
    ThroughOn(m, c, d, e, {8}, {9});
    ThroughOn(m, c, e, Run(m, e, 2), {8} + {9}, {});
    assert {8} + {9} + {} == {8, 9};
    RunAdd(m, c, 1, 1);
    RunAdd(m, c, 2, 2);
  }

  const FIELD_REGS: set<int> := {0, 1, 2, 4, 5, 7}

  /** Load one counter from scratch and print it. */
  lemma ShowOne(m: Setup, a: int, k: Kit, c: Cfg, i: nat, e: u64) returns (t: nat)
    requires Loaded(m, k) && Live(m, c) && PrintCode(m.code, a, k) && Spare(m, c, 16) && i < 10
    requires c.s.pc == a + 276 && c.s.r[8] == SCRATCH + 8 * i && Buffer(c.s.mem, SCRATCH, 10)[i] == e
    ensures var d := Run(m, c, t);
      && Through(m, c, d, FIELD_REGS) && d.s.pc == a + 288 && Buffer(d.s.mem, SCRATCH, 10) == Buffer(c.s.mem, SCRATCH, 10)
      && Sent(d.s.io) == Sent(c.s.io) + Hex(e, 16)
  {
    hide Here, Run, Through, Live, PrintCode, Buffer, Sent, Hex, Loaded, Spare;
    assert Open(m) by { IsOpen(m, k); }
    hide Open;
    LoopAt(m, a, k, c);
    GetScratch(m, c, i);
    var d := Run(m, c, 1);
    ThroughLive(m, c, d, {4});
    SpareToo(m, c, d, {4}, 16);
    PrintAt(m, a, k, d);
    var u := CallHex(m, k, d, k.hex, e);
    ThroughOn(m, c, d, Run(m, d, u), {4}, HEX_REGS);
    assert {4} + HEX_REGS == FIELD_REGS;
    RunAdd(m, c, 1, u);
    t := u + 1;
  }

  /** One field printed. */
  lemma PrintOne(m: Setup, a: int, k: Kit, c: Cfg, v: seq<u64>, i: nat) returns (t: nat)
    requires Loaded(m, k) && Live(m, c) && PrintCode(m.code, a, k) && Spare(m, c, 16) && i < 10 == |v|
    requires c.s.pc == a + 276 && c.s.r[8] == SCRATCH + 8 * i && c.s.r[9] == 10 - i && Buffer(c.s.mem, SCRATCH, 10) == v
    ensures var d := Run(m, c, t);
      && Through(m, c, d, LOOP_REGS) && d.s.pc == (if i < 9 then a + 276 else a + 320) && Buffer(d.s.mem, SCRATCH, 10) == v
      && d.s.r[8] == SCRATCH + 8 * (i + 1) && d.s.r[9] == 9 - i && Sent(d.s.io) == Sent(c.s.io) + Hex(v[i], 16)
  {
    hide Run, Through, Live, PrintCode, Buffer, Sent, Hex, Loaded, Spare;
    var u := ShowOne(m, a, k, c, i, v[i]);
    var d := Run(m, c, u);
    ThroughLive(m, c, d, FIELD_REGS);
    NextField(m, a, k, d, i);
    ThroughOn(m, c, d, Run(m, d, 4), FIELD_REGS, {8, 9});
    assert FIELD_REGS + {8, 9} == LOOP_REGS;
    RunAdd(m, c, u, 4);
    t := u + 4;
  }

  lemma IsOpen(m: Setup, k: Kit)
    requires Loaded(m, k)
    ensures Open(m)
  {
    hide PutcCode, HexCode, CrlfCode, Patient;
  }

  lemma FieldsNext(v: seq<u64>, i: nat, s: seq<u8>)
    requires i < |v|
    ensures s + Fields(v[..i + 1]) == s + Fields(v[..i]) + Hex(v[i], 16)
  {
    assert v[..i + 1][..i] == v[..i];
    Assoc(s, Fields(v[..i]), Hex(v[i], 16));
  }

  /** The fields from i on. */
  lemma {:induction false} PrintRest(m: Setup, a: int, k: Kit, c: Cfg, v: seq<u64>, i: nat, s: seq<u8>) returns (t: nat)
    requires Loaded(m, k) && Live(m, c) && PrintCode(m.code, a, k) && Spare(m, c, 16) && i < 10 == |v|
    requires c.s.pc == a + 276 && c.s.r[8] == SCRATCH + 8 * i && c.s.r[9] == 10 - i && Buffer(c.s.mem, SCRATCH, 10) == v
    requires Sent(c.s.io) == s + Fields(v[..i])
    ensures var d := Run(m, c, t);
      Through(m, c, d, LOOP_REGS) && d.s.pc == a + 320 && Sent(d.s.io) == s + Fields(v)
    decreases 10 - i
  {
    hide Run, Through, Live, PrintCode, Buffer, Sent, Hex, Fields, Loaded, Spare;
    t := PrintOne(m, a, k, c, v, i);
    var d := Run(m, c, t);
    FieldsNext(v, i, s);
    if i < 9 {
      ThroughLive(m, c, d, LOOP_REGS);
      SpareToo(m, c, d, LOOP_REGS, 16);
      var u := PrintRest(m, a, k, d, v, i + 1, s);
      ThroughOn(m, c, d, Run(m, d, u), LOOP_REGS, LOOP_REGS);
      assert LOOP_REGS + LOOP_REGS == LOOP_REGS;
      RunAdd(m, c, t, u);
      t := t + u;
    } else {
      assert v[..10] == v;
    }
  }

  // ---- the whole routine

  /** A probe line: id, then the counters, then CR LF. */
  function Line(id: u64, v: seq<u64>): seq<u8> { Hex(id, 16) + Fields(v) + [0x0D, 0x0A] }

  /** SETR I scratch, then the snapshot. */
  lemma Snapshot(m: Setup, a: int, k: Kit, c: Cfg)
    requires Loaded(m, k) && Live(m, c) && PrintCode(m.code, a, k) && SnapCode(m.code, a) && c.s.pc == a
    ensures var d := Run(m, c, 41);
      && Weak(m, c, d, {4, 6, 8}) && d.s.pc == a + 248 && Sent(d.s.io) == Sent(c.s.io)
      && Buffer(d.s.mem, SCRATCH, 10) == Counters(m.dev, c.s.io, 10)
  {
    hide Here, Run, Through, Weak, Live, PrintCode, SnapCode, Buffer, Sent, Loaded, Log, Counters, Sext32;
    IsOpen(m, k);
    PrintAt(m, a, k, c);
    SetReg(m, c, 8, SCRATCH);
    SextLow(SCRATCH);
    var d := Run(m, c, 1);
    ThroughLive(m, c, d, {8});
    Started(m, c.s.io, Buffer(d.s.mem, SCRATCH, 10));
    SnapRest(m, a, d, c.s.io, 0);
    LogSends(c.s.io, 10);
    Weaken(m, c, d, {8});
    WeakOn(m, c, d, Run(m, d, 40), {8}, {4, 6, 8});
    assert {8} + {4, 6, 8} == {4, 6, 8};
    RunAdd(m, c, 1, 40);
  }

  lemma Started(m: Setup, io: seq<Io>, b: seq<int>)
    ensures |ADDRS| == 10 && Log(io, 0) == io && b[..0] == Counters(m.dev, io, 0)
  {
  }

  /** COPY E D; CALL puthex16: the id. */
  lemma PrintId(m: Setup, a: int, k: Kit, c: Cfg, id: u64) returns (t: nat)
    requires Loaded(m, k) && Live(m, c) && PrintCode(m.code, a, k) && Spare(m, c, 16) && c.s.pc == a + 248 && c.s.r[3] == id
    ensures var d := Run(m, c, t);
      && Through(m, c, d, FIELD_REGS) && d.s.pc == a + 260 && Sent(d.s.io) == Sent(c.s.io) + Hex(id, 16)
      && Buffer(d.s.mem, SCRATCH, 10) == Buffer(c.s.mem, SCRATCH, 10)
  {
    hide Here, Run, Through, Live, PrintCode, Buffer, Sent, Hex, Loaded, Spare;
    PrintAt(m, a, k, c);
    Data1(m, c, Copy(4, 3));
    var d := Run(m, c, 1);
    ThroughLive(m, c, d, {4});
    SpareToo(m, c, d, {4}, 16);
    PrintAt(m, a, k, d);
    var u := CallHex(m, k, d, k.hex, id);
    ThroughOn(m, c, d, Run(m, d, u), {4}, HEX_REGS);
    assert {4} + HEX_REGS == FIELD_REGS;
    RunAdd(m, c, 1, u);
    t := u + 1;
  }

  /** SETR I scratch; SETR J 10; the printing loop. */
  lemma PrintAll(m: Setup, a: int, k: Kit, c: Cfg, v: seq<u64>) returns (t: nat)
    requires Loaded(m, k) && Live(m, c) && PrintCode(m.code, a, k) && Spare(m, c, 16) && c.s.pc == a + 260
    requires |v| == 10 && Buffer(c.s.mem, SCRATCH, 10) == v
    ensures var d := Run(m, c, t);
      Through(m, c, d, LOOP_REGS) && d.s.pc == a + 320 && Sent(d.s.io) == Sent(c.s.io) + Fields(v)
  {
    hide Here, Run, Through, Live, PrintCode, Buffer, Sent, Fields, Loaded, Spare, Sext32;
    PrintAt(m, a, k, c);
    SetReg(m, c, 8, SCRATCH);
    SextLow(SCRATCH);
    var d := Run(m, c, 1);
    ThroughLive(m, c, d, {8});
    SpareToo(m, c, d, {8}, 16);
    PrintAt(m, a, k, d);
    SetReg(m, d, 9, 10);
    SextLow(10);
    var e := Run(m, d, 1);
    ThroughLive(m, d, e, {9});
    SpareToo(m, d, e, {9}, 16);
    NoFields(v, Sent(c.s.io));
    var u := PrintRest(m, a, k, e, v, 0, Sent(c.s.io));
    ThroughOn(m, c, d, e, {8}, {9});
    ThroughOn(m, c, e, Run(m, e, u), {8} + {9}, LOOP_REGS);
    assert {8} + {9} + LOOP_REGS == LOOP_REGS;
    RunAdd(m, c, 1, 1);
    RunAdd(m, c, 2, u);
    t := u + 2;
  }

  lemma NoFields(v: seq<u64>, s: seq<u8>)
    ensures s == s + Fields(v[..0])
  {
  }

  /** CALL crlf, all the way back. */
  lemma CallCrlf(m: Setup, k: Kit, c: Cfg, crlf: u32) returns (t: nat)
    requires k.crlf == crlf && Here(m, c, BrAbs(true, 0, false, crlf)) && Spare(m, c, 16) && Loaded(m, k)
    ensures var d := Run(m, c, t);
      Through(m, c, d, {0, 1, 2}) && d.s.pc == c.s.pc + 8 && Sent(d.s.io) == Sent(c.s.io) + [0x0D, 0x0A]
  {
    hide Run, Peek, Sent, Load64, Patient, PutcCode, HexCode, CrlfCode, Called, Back, Through, StackOnly, Live;
    Calling(m, c, crlf);
    var d := Run(m, c, 1);
    var u := Crlf(m, k, d, c.s.pc + 8);
    Resumed(m, c, d, Run(m, d, u), {0, 1, 2});
    RunAdd(m, c, 1, u);
    t := 1 + u;
  }

  lemma CrlfBound(m: Setup, a: int, k: Kit)
    requires PrintCode(m.code, a, k)
    ensures 0 <= k.crlf < U32
  {
    hide LoopCode;
  }

  /** Everything before the RET. */
  lemma DumpBody(m: Setup, a: int, k: Kit, c: Cfg, id: u64) returns (t: nat)
    requires Loaded(m, k) && Live(m, c) && PrintCode(m.code, a, k) && SnapCode(m.code, a) && Spare(m, c, 16)
    requires c.s.pc == a && c.s.r[3] == id
    ensures var d := Run(m, c, t);
      && Weak(m, c, d, {0, 1, 2, 4, 5, 6, 7, 8, 9}) && d.s.pc == a + 328
      && Sent(d.s.io) == Sent(c.s.io) + Line(id, Counters(m.dev, c.s.io, 10))
  {
    hide Here, Run, Through, Weak, Live, PrintCode, SnapCode, Buffer, Sent, Hex, Fields, Loaded, Counters;
    var v := Counters(m.dev, c.s.io, 10);
    Snapshot(m, a, k, c);
    var d := Run(m, c, 41);
    WeakLive(m, c, d, {4, 6, 8});
    var p := PrintId(m, a, k, d, id);
    var e := Run(m, d, p);
    ThroughLive(m, d, e, FIELD_REGS);
    SpareToo(m, d, e, FIELD_REGS, 16);
    var q := PrintAll(m, a, k, e, v);
    var f := Run(m, e, q);
    ThroughLive(m, e, f, LOOP_REGS);
    SpareToo(m, e, f, LOOP_REGS, 16);
    LoopAt(m, a, k, f);
    CrlfBound(m, a, k);
    var r := CallCrlf(m, k, f, k.crlf);
    var g := Run(m, f, r);
    Weaken(m, d, e, FIELD_REGS);
    Weaken(m, e, f, LOOP_REGS);
    Weaken(m, f, g, {0, 1, 2});
    WeakOn(m, c, d, e, {4, 6, 8}, FIELD_REGS);
    WeakOn(m, c, e, f, {4, 6, 8} + FIELD_REGS, LOOP_REGS);
    WeakOn(m, c, f, g, {4, 6, 8} + FIELD_REGS + LOOP_REGS, {0, 1, 2});
    assert {4, 6, 8} + FIELD_REGS + LOOP_REGS + {0, 1, 2} == {0, 1, 2, 4, 5, 6, 7, 8, 9};
    Assoc(Sent(c.s.io), Hex(id, 16), Fields(v));
    Assoc(Sent(c.s.io), Hex(id, 16) + Fields(v), [0x0D, 0x0A]);
    RunAdd(m, c, 41, p);
    RunAdd(m, c, 41 + p, q);
    RunAdd(m, c, 41 + p + q, r);
    t := 41 + p + q + r;
  }

  /** dump, called with the id in D: it returns, and what it has sent is one line with the
      id and the ten counters as they stood before any byte was sent. */
  lemma Dumps(m: Setup, a: int, k: Kit, c: Cfg, ra: int, id: u64) returns (t: nat)
    requires Loaded(m, k) && PrintCode(m.code, a, k) && SnapCode(m.code, a) && Called(m, c, ra) && c.s.pc == a
    requires c.s.r[3] == id && m.b.top - m.b.depth <= c.s.sp - 16
    ensures var d := Run(m, c, t);
      && d.ok && d.s.st == Running && d.s.pc == ra && d.s.sp == c.s.sp + 8 && d.s.r[3] == id && MostlySame(m, c, d)
      && Sent(d.s.io) == Sent(c.s.io) + Line(id, Counters(m.dev, c.s.io, 10))
  {
    hide Here, Run, Weak, Live, PrintCode, SnapCode, Sent, Line, Loaded, Counters, Called, Spare;
    CalledSpare(m, c, ra, 16);
    var u := DumpBody(m, a, k, c, id);
    var d := Run(m, c, u);
    WeakLive(m, c, d, {0, 1, 2, 4, 5, 6, 7, 8, 9});
    LoopAt(m, a, k, d);
    WeakReturn(m, c, d, ra, {0, 1, 2, 4, 5, 6, 7, 8, 9});
    RunAdd(m, c, u, 1);
    t := u + 1;
  }

  lemma WeakReturn(m: Setup, c: Cfg, d: Cfg, ra: int, ws: set<int>)
    requires Called(m, c, ra) && Weak(m, c, d, ws) && Here(m, d, Ret)
    ensures var e := Run(m, d, 1);
      && e.ok && e.s.st == Running && e.s.pc == ra && e.s.sp == c.s.sp + 8 && e.s.io == d.s.io && e.s.r == d.s.r
      && MostlySame(m, c, e)
  {
    hide NextCfg, Run, LoadLe, Peek, Above;
    LoadSame(c.s.mem, d.s.mem, c.s.sp, 8);
    RetStep(m, d, ra);
    RunOne(m, d);
  }
}
