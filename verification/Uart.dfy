/** The probe's output routines on the machine: putc, puthex16 and crlf drive a UART
    that may stay busy for any finite time. */
module Uart {
  import opened Bits
  import opened BitLaws
  import opened Isa
  import opened Machine
  import opened Monitor
  import opened Steps

  const STATUS: int := 0xF001_0010
  const TX: int := 0xF001_0000

  /** Bytes handed to the transmitter so far. */
  function Sent(io: seq<Io>): seq<u8> {
    if io == [] then []
    else
      var e := io[|io| - 1];
      Sent(io[..|io| - 1]) + (if e.IoStore? && e.addr == TX then [e.value % 0x100] else [])
  }

  lemma SentNext(io: seq<Io>, e: Io)
    ensures Sent(io + [e]) == Sent(io) + (if e.IoStore? && e.addr == TX then [e.value % 0x100] else [])
  {
    assert (io + [e])[..|io|] == io;
  }

  /** The transmitter never stays busy for ever: every busy answer uses up patience. */
  ghost predicate Patient(dev: Device, wait: seq<Io> -> nat) {
    forall log :: dev(log, STATUS) % 2 == 1 ==> wait(log + [IoLoad(STATUS, 2)]) < wait(log)
  }

  /** The monitor's window takes in the scratch area and every device register. */
  predicate Open(m: Setup) {
    m.b.lo <= 0x8_0000 && m.b.hi == U32 && 0x9_0000 <= m.b.top - m.b.depth && m.b.top < MMIO
  }

  // ---- what a routine leaves alone

  /** Memory is the same at and above sp, and below the stack area. */
  ghost predicate StackOnly(m: Setup, c: Cfg, d: Cfg) {
    forall a :: a < m.b.top - m.b.depth || a >= c.s.sp ==> Peek(d.s.mem, a) == Peek(c.s.mem, a)
  }

  /** Between two instructions of the same routine. */
  ghost predicate Through(m: Setup, c: Cfg, d: Cfg, ws: set<int>) {
    && Live(m, d) && d.calls == c.calls && d.live == c.live && d.s.sp == c.s.sp
    && d.s.disabled == c.s.disabled && d.s.mask == c.s.mask && StackOnly(m, c, d) && SameBut(c.s.r, d.s.r, ws)
  }

  lemma ThroughOn(m: Setup, c: Cfg, d: Cfg, e: Cfg, ws: set<int>, vs: set<int>)
    requires Through(m, c, d, ws) && Through(m, d, e, vs)
    ensures Through(m, c, e, ws + vs)
  {
    hide Peek;
  }

  lemma ThroughLive(m: Setup, c: Cfg, d: Cfg, ws: set<int>)
    requires Through(m, c, d, ws)
    ensures Live(m, d) && SameBut(c.s.r, d.s.r, ws)
  {
  }

  /** At a routine's first instruction, called from just before ra. */
  ghost predicate Called(m: Setup, c: Cfg, ra: int) {
    && Live(m, c) && Open(m) && c.s.sp + 8 <= m.b.top && AllAbove(c) && c.s.sp in c.live
    && c.calls != [] && c.calls[|c.calls| - 1] == ra && 0 <= ra < U32 && Load64(c.s.mem, c.s.sp) == ra
  }

  /** Back at ra. */
  ghost predicate Back(m: Setup, c: Cfg, d: Cfg, ra: int, ws: set<int>) {
    && c.calls != [] && d.ok && d.s.st == Running && d.calls == c.calls[..|c.calls| - 1] && d.live == Above(c.live, c.s.sp + 8)
    && d.s.pc == ra && d.s.sp == c.s.sp + 8 && d.s.disabled == c.s.disabled && d.s.mask == c.s.mask
    && StackOnly(m, c, d) && SameBut(c.s.r, d.s.r, ws)
  }

  /** RET at the end of a routine. */
  lemma Returned(m: Setup, c: Cfg, d: Cfg, ra: int, ws: set<int>)
    requires Called(m, c, ra) && Through(m, c, d, ws) && Here(m, d, Ret)
    ensures var e := Run(m, d, 1); Back(m, c, e, ra, ws) && e.s.io == d.s.io && e.s.r == d.s.r && e.s.mem == d.s.mem
  {
    hide NextCfg, Run, LoadLe, Peek, Above;
    LoadSame(c.s.mem, d.s.mem, c.s.sp, 8);
    RetStep(m, d, ra);
    RunOne(m, d);
  }

  /** CALL of a routine at tgt, from a state with room for its return address. */
  lemma Calling(m: Setup, c: Cfg, tgt: u32)
    requires Here(m, c, BrAbs(true, 0, false, tgt)) && Open(m) && AllAbove(c) && m.b.top - m.b.depth <= c.s.sp - 8
    ensures var d := Run(m, c, 1);
      && Called(m, d, c.s.pc + 8) && d.s == c.s.(sp := c.s.sp - 8, mem := d.s.mem, pc := tgt)
      && d.calls == c.calls + [c.s.pc + 8] && d.live == c.live + {c.s.sp - 8} && StackOnly(m, c, d)
  {
    hide NextCfg, Run, Load64, StoreLe, Peek;
    CallStep(m, c, tgt);
    RunOne(m, c);
    Load64Store64(c.s.mem, c.s.sp - 8, c.s.pc + 8);
    StoreStack(m, c, c.s.sp - 8, c.s.pc + 8);
  }

  lemma StoreStack(m: Setup, c: Cfg, a: int, v: u64)
    requires a % 8 == 0 && m.b.top - m.b.depth <= a && a + 8 <= c.s.sp
    ensures forall x :: x < m.b.top - m.b.depth || x >= c.s.sp ==> Peek(Store64(c.s.mem, a, v), x) == Peek(c.s.mem, x)
  {
    hide StoreLe, Peek;
    forall x | x < m.b.top - m.b.depth || x >= c.s.sp
      ensures Peek(Store64(c.s.mem, a, v), x) == Peek(c.s.mem, x)
    {
      PeekStore(c.s.mem, a, 8, v, x);
    }
  }

  /** The caller's view of a routine that has come back. */
  lemma Resumed(m: Setup, c: Cfg, d: Cfg, e: Cfg, ws: set<int>)
    requires Live(m, c) && AllAbove(c) && d.s.sp == c.s.sp - 8 && d.s.r == c.s.r
    requires d.s.disabled == c.s.disabled && d.s.mask == c.s.mask
    requires d.calls == c.calls + [c.s.pc + 8] && d.live == c.live + {c.s.sp - 8} && StackOnly(m, c, d)
    requires Back(m, d, e, c.s.pc + 8, ws) && c.s.pc + 8 < U32
    ensures Through(m, c, e, ws) && e.s.pc == c.s.pc + 8
  {
    hide Peek;
    assert Above(d.live, c.s.sp) == c.live;
    assert d.calls[..|d.calls| - 1] == c.calls;
  }

  // ---- device accesses

  lemma StatusStep(m: Setup, c: Cfg)
    requires Here(m, c, Load(2, false, false, 2, Base(1))) && Open(m) && c.s.r[1] % U32 == STATUS
    ensures NextCfg(m, c)
      == Cfg(c.s.(r := c.s.r[2 := m.dev(c.s.io, STATUS) % U32], io := c.s.io + [IoLoad(STATUS, 2)], pc := c.s.pc + 4),
             c.calls, c.live, true)
  {
    hide Data, LoadLe;
    assert EffAddr(m.code[c.s.pc], c.s.r) == STATUS;
    assert Fine(m, c);
  }

  lemma TxStep(m: Setup, c: Cfg)
    requires Here(m, c, Store(0, false, 0, Base(1))) && Open(m) && c.s.r[1] % U32 == TX
    ensures NextCfg(m, c)
      == Cfg(c.s.(io := c.s.io + [IoStore(TX, 0, c.s.r[0])], pc := c.s.pc + 4), c.calls, c.live, true)
  {
    hide Data, StoreLe;
    assert EffAddr(m.code[c.s.pc], c.s.r) == TX;
    assert Fine(m, c);
  }

  lemma Masks(x: u64)
    ensures Bitwise(4, x, 1) == x % 2 && Bitwise(4, x, 15) == x % 16
  {
    AndLow(x, 1);
    AndLow(x, 4);
    Pow2Of8();
    assert Pow2(1) == 2;
  }

  // ---- putc

  ghost predicate PutcCode(code: Code, a: int) {
    && 0 <= a && a + 52 < U32
    && a in code && code[a] == SetR(true, 1, STATUS)
    && a + 8 in code && code[a + 8] == Load(2, false, false, 2, Base(1))
    && a + 12 in code && code[a + 12] == AluI(4, false, false, 2, 2, 1)
    && LoopCode(code, a + 20, 2, a + 8)
    && a + 36 in code && code[a + 36] == SetR(true, 1, TX)
    && a + 44 in code && code[a + 44] == Store(0, false, 0, Base(1))
    && a + 48 in code && code[a + 48] == Ret
  }

  /** CMPRV x 0; JMPNE tgt. */
  ghost predicate LoopCode(code: Code, a: int, x: Reg, tgt: int) {
    && 0 <= tgt < U32
    && a in code && code[a] == CmpI(false, x, 0)
    && a + 8 in code && code[a + 8] == BrAbs(false, 9, true, tgt)
  }

  lemma LoopBack(m: Setup, c: Cfg, x: Reg, tgt: int)
    requires Live(m, c) && LoopCode(m.code, c.s.pc, x, tgt) && c.s.pc + 16 < U32
    ensures var d := Run(m, c, 2);
      && Through(m, c, d, {}) && d.s.mem == c.s.mem && d.s.io == c.s.io && d.s.r == c.s.r
      && d.s.pc == if c.s.r[x] != 0 then tgt else c.s.pc + 16
  {
    hide NextCfg, Run, Peek, CmpFlags, Condition;
    RunFew(m, c);
    DataStep(m, c, CmpI(false, x, 0));
    CompareUlt(c.s.r[x], 0);
    JumpStep(m, NextCfg(m, c), 9, true, tgt);
  }

  /** ANDV of a register with 1 or 15. */
  lemma Keep(m: Setup, c: Cfg, x: Reg, mask: u32)
    requires Here(m, c, AluI(4, false, false, x, x, mask)) && (mask == 1 || mask == 15)
    ensures var d := Run(m, c, 1);
      && Through(m, c, d, {x}) && d.s.mem == c.s.mem && d.s.io == c.s.io && d.s.pc == c.s.pc + 8
      && d.s.r == c.s.r[x := c.s.r[x] % (mask + 1)]
  {
    hide NextCfg, Run, Peek, Bitwise;
    RunOne(m, c);
    Masks(c.s.r[x]);
    DataStep(m, c, AluI(4, false, false, x, x, mask));
  }

  lemma ReadStatus(m: Setup, c: Cfg)
    requires Here(m, c, Load(2, false, false, 2, Base(1))) && Open(m) && c.s.r[1] % U32 == STATUS
    ensures var d := Run(m, c, 1);
      && Through(m, c, d, {2}) && d.s.mem == c.s.mem && d.s.io == c.s.io + [IoLoad(STATUS, 2)] && d.s.pc == c.s.pc + 4
      && d.s.r[2] == m.dev(c.s.io, STATUS) % U32
  {
    hide NextCfg, Run, Peek;
    StatusStep(m, c);
    RunOne(m, c);
  }

  /** Read the status and keep the busy bit. */
  lemma Ask(m: Setup, a: int, c: Cfg)
    requires Live(m, c) && Open(m) && PutcCode(m.code, a) && c.s.pc == a + 8 && c.s.r[1] % U32 == STATUS
    ensures var d := Run(m, c, 2);
      && Through(m, c, d, {2}) && d.s.mem == c.s.mem && d.s.io == c.s.io + [IoLoad(STATUS, 2)] && d.s.pc == a + 20
      && d.s.r[2] == m.dev(c.s.io, STATUS) % 2
  {
    hide Run, Through, Live, Open, PutcCode, Here;
    PutcAt(m, a, c);
    ReadStatus(m, c);
    var d := Run(m, c, 1);
    ThroughLive(m, c, d, {2});
    PutcAt(m, a, d);
    KeepBusy(m, d, m.dev(c.s.io, STATUS));
    ThroughOn(m, c, d, Run(m, d, 1), {2}, {2});
    assert {2} + {2} == {2};
    RunAdd(m, c, 1, 1);
  }

  lemma PutcAt(m: Setup, a: int, c: Cfg)
    requires Live(m, c) && PutcCode(m.code, a)
    ensures c.s.pc == a + 8 ==> Here(m, c, Load(2, false, false, 2, Base(1)))
    ensures c.s.pc == a + 12 ==> Here(m, c, AluI(4, false, false, 2, 2, 1))
  {
    hide Live;
  }

  lemma KeepBusy(m: Setup, c: Cfg, x: u64)
    requires Here(m, c, AluI(4, false, false, 2, 2, 1)) && c.s.r[2] == x % U32
    ensures var d := Run(m, c, 1);
      Through(m, c, d, {2}) && d.s.mem == c.s.mem && d.s.io == c.s.io && d.s.pc == c.s.pc + 8 && d.s.r[2] == x % 2
  {
    hide Run, Through;
    Keep(m, c, 2, 1);
    LowBit(x);
  }

  lemma LowBit(x: u64)
    ensures x % U32 % 2 == x % 2
  {
  }

  /** One poll of the status register. */
  lemma Poll(m: Setup, a: int, c: Cfg)
    requires Live(m, c) && Open(m) && PutcCode(m.code, a) && c.s.pc == a + 8 && c.s.r[1] % U32 == STATUS
    ensures var d := Run(m, c, 4);
      && Through(m, c, d, {2}) && d.s.mem == c.s.mem && d.s.io == c.s.io + [IoLoad(STATUS, 2)]
      && d.s.pc == if m.dev(c.s.io, STATUS) % 2 == 1 then a + 8 else a + 36
  {
    hide Run, Peek, Through, CmpFlags;
    Ask(m, a, c);
    var d := Run(m, c, 2);
    ThroughLive(m, c, d, {2});
    LoopBack(m, d, 2, a + 8);
    var e := Run(m, d, 2);
    ThroughOn(m, c, d, e, {2}, {});
    assert {2} + {} == {2};
    RunAdd(m, c, 2, 2);
  }

  /** Polling ends, whatever the transmitter answers meanwhile. */
  lemma {:induction false} Wait(m: Setup, a: int, c: Cfg, wait: seq<Io> -> nat) returns (t: nat)
    requires Live(m, c) && Open(m) && PutcCode(m.code, a) && c.s.pc == a + 8 && c.s.r[1] % U32 == STATUS
    requires Patient(m.dev, wait)
    ensures var d := Run(m, c, t);
      Through(m, c, d, {2}) && d.s.mem == c.s.mem && d.s.pc == a + 36 && Sent(d.s.io) == Sent(c.s.io)
    decreases wait(c.s.io)
  {
    hide Run, Peek, PutcCode, Live, StackOnly, Sent;
    Poll(m, a, c);
    var d := Run(m, c, 4);
    SentNext(c.s.io, IoLoad(STATUS, 2));
    Neutral(Sent(c.s.io));
    t := 4;
    if m.dev(c.s.io, STATUS) % 2 == 1 {
      var u := Wait(m, a, d, wait);
      ThroughOn(m, c, d, Run(m, d, u), {2}, {2});
      assert {2} + {2} == {2};
      RunAdd(m, c, 4, u);
      t := 4 + u;
    }
  }

  lemma SetReg(m: Setup, c: Cfg, rd: Reg, v: u32)
    requires Here(m, c, SetR(true, rd, v))
    ensures var d := Run(m, c, 1);
      && Through(m, c, d, {rd}) && d.s.mem == c.s.mem && d.s.io == c.s.io && d.s.pc == c.s.pc + 8
      && d.s.r == c.s.r[rd := Sext32(v)]
  {
    hide NextCfg, Run, Peek, Sext32;
    RunOne(m, c);
    DataStep(m, c, SetR(true, rd, v));
  }

  lemma SextLow(v: u32)
    ensures Sext32(v) % U32 == v && (v < HALF32 ==> Sext32(v) == v)
  {
  }

  lemma CalledLive(m: Setup, c: Cfg, ra: int)
    requires Called(m, c, ra)
    ensures Live(m, c) && Open(m)
  {
  }

  /** putc sends the low byte of A; it changes B and C only. */
  lemma Putc(m: Setup, a: int, c: Cfg, ra: int, wait: seq<Io> -> nat) returns (t: nat)
    requires Called(m, c, ra) && PutcCode(m.code, a) && c.s.pc == a && Patient(m.dev, wait)
    ensures var d := Run(m, c, t);
      Back(m, c, d, ra, {1, 2}) && Sent(d.s.io) == Sent(c.s.io) + [c.s.r[0] % 0x100]
  {
    hide Run, Peek, Sent, Patient, Through, Called, Back, Open, Sext32;
    CalledLive(m, c, ra);
    SetReg(m, c, 1, STATUS);
    SextLow(STATUS);
    var d, ws := Run(m, c, 1), {1, 2};
    ThroughLive(m, c, d, {1});
    var u := Wait(m, a, d, wait);
    var e := Run(m, d, u);
    ThroughLive(m, d, e, {2});
    Send(m, a, e);
    var f := Run(m, e, 2);
    ThroughLive(m, e, f, {1});
    ThroughOn(m, c, d, e, {1}, {2});
    ThroughOn(m, c, e, f, {1} + {2}, {1});
    assert {1} + {2} + {1} == ws;
    SentNext(e.s.io, IoStore(TX, 0, e.s.r[0]));
    Returned(m, c, f, ra, ws);
    RunAdd(m, c, 1, u);
    RunAdd(m, c, 1 + u, 2);
    RunAdd(m, c, 3 + u, 1);
    t := 4 + u;
  }

  /** SETR B TX; MEMSET8 A B. */
  lemma Send(m: Setup, a: int, c: Cfg)
    requires Live(m, c) && Open(m) && PutcCode(m.code, a) && c.s.pc == a + 36
    ensures var d := Run(m, c, 2);
      && Through(m, c, d, {1}) && d.s.mem == c.s.mem && d.s.io == c.s.io + [IoStore(TX, 0, c.s.r[0])] && d.s.pc == a + 48
  {
    hide NextCfg, Run, Peek, PutcCode, Sext32;
    SendAt(m.code, a);
    SextLow(TX);
    RunFew(m, c);
    DataStep(m, c, SetR(true, 1, TX));
    TxStep(m, NextCfg(m, c));
  }

  lemma SendAt(code: Code, a: int)
    requires PutcCode(code, a)
    ensures 0 <= a && a + 52 < U32
    ensures a + 36 in code && code[a + 36] == SetR(true, 1, TX)
    ensures a + 44 in code && code[a + 44] == Store(0, false, 0, Base(1))
  {
    hide LoopCode;
  }

  // ---- puthex16

  ghost predicate HexCode(code: Code, a: int, putc: int) {
    && 0 <= a && a + 92 < U32 && 0 <= putc < U32
    && a in code && code[a] == SetR(true, 5, 64)
    && a + 8 in code && code[a + 8] == AluI(1, false, false, 5, 5, 4)
    && a + 16 in code && code[a + 16] == ShiftR(1, true, 0, 4, 5)
    && a + 20 in code && code[a + 20] == AluI(4, false, false, 0, 0, 15)
    && a + 28 in code && code[a + 28] == Copy(7, 0)
    && a + 32 in code && code[a + 32] == AluI(0, false, false, 0, 0, 0x30)
    && a + 40 in code && code[a + 40] == CmpI(false, 7, 10)
    && a + 48 in code && code[a + 48] == BrAbs(false, 7, false, a + 64)
    && a + 56 in code && code[a + 56] == AluI(0, false, false, 0, 0, 7)
    && a + 64 in code && code[a + 64] == BrAbs(true, 0, false, putc)
    && LoopCode(code, a + 72, 5, a + 8)
    && a + 88 in code && code[a + 88] == Ret
  }

  /** '0' to '9', then 'A' to 'F'. */
  function HexChar(x: nat): u8
    requires x < 16
  {
    if x < 10 then 0x30 + x else 0x37 + x
  }

  /** The digit of e whose lowest bit is bit k. */
  function DigitAt(e: u64, k: nat): nat { e / Pow2(k) % 16 }

  /** n digits, the most significant first. */
  function Hex(e: nat, n: nat): (s: seq<u8>)
    ensures |s| == n
  {
    if n == 0 then [] else Hex(e / 16, n - 1) + [HexChar(e % 16)]
  }

  /** A data instruction that writes a register. */
  lemma Data1(m: Setup, c: Cfg, i: Instr)
    requires Here(m, c, i) && WritesRd(i)
    ensures var d := Run(m, c, 1);
      && Through(m, c, d, {i.rd}) && d.s.mem == c.s.mem && d.s.io == c.s.io && d.s.pc == c.s.pc + 4 * Words(i)
      && d.s.r == c.s.r[i.rd := Data(i, c.s.r, c.s.pc, c.s.fl).0]
  {
    hide NextCfg, Run, Peek, Data;
    RunOne(m, c);
    DataStep(m, c, i);
  }

  /** Add to or subtract from a register without wrapping. */
  lemma Adjust(m: Setup, c: Cfg, x: Reg, op: AluOp, k: u32, v: int)
    requires Here(m, c, AluI(op, false, false, x, x, k)) && op <= 1 && 0 <= v < U64
    requires v == if op == 0 then c.s.r[x] + k else c.s.r[x] - k
    ensures var d := Run(m, c, 1);
      && Through(m, c, d, {x}) && d.s.mem == c.s.mem && d.s.io == c.s.io && d.s.pc == c.s.pc + 8 && d.s.r == c.s.r[x := v]
  {
    hide Run, Through, AluFlags;
    Data1(m, c, AluI(op, false, false, x, x, k));
  }

  /** F -= 4; A = (E >> F) & 15. */
  lemma Extract(m: Setup, a: int, putc: int, c: Cfg, k: nat)
    requires Live(m, c) && HexCode(m.code, a, putc) && c.s.pc == a + 8 && c.s.r[5] == k + 4 <= 64
    ensures var d := Run(m, c, 3);
      && Through(m, c, d, {0, 5}) && d.s.mem == c.s.mem && d.s.io == c.s.io && d.s.pc == a + 28
      && d.s.r[5] == k && d.s.r[0] == DigitAt(c.s.r[4], k)
  {
    hide Run, Through, Pow2, ShiftFlags, Bitwise, Shift, AluFlags, Live, HexCode;
    ExtractAt(m.code, a, putc);
    Adjust(m, c, 5, 1, 4, k);
    var d := Run(m, c, 1);
    ThroughLive(m, c, d, {5});
    Data1(m, d, ShiftR(1, true, 0, 4, 5));
    ShiftRight(c.s.r[4], k);
    var e := Run(m, d, 1);
    ThroughLive(m, d, e, {0});
    Keep(m, e, 0, 15);
    ThroughOn(m, c, d, e, {5}, {0});
    ThroughOn(m, c, e, Run(m, e, 1), {5} + {0}, {0});
    assert {5} + {0} + {0} == {0, 5};
    RunAdd(m, c, 1, 1);
    RunAdd(m, c, 2, 1);
  }

  lemma ExtractAt(code: Code, a: int, putc: int)
    requires HexCode(code, a, putc)
    ensures 0 <= a && a + 92 < U32 && a + 8 in code && code[a + 8] == AluI(1, false, false, 5, 5, 4)
    ensures a + 16 in code && code[a + 16] == ShiftR(1, true, 0, 4, 5)
    ensures a + 20 in code && code[a + 20] == AluI(4, false, false, 0, 0, 15)
  {
    hide LoopCode;
  }

  lemma ShiftRight(x: u64, k: nat)
    requires k < 64
    ensures 0 <= x / Pow2(k) < U64 && Shift(1, x, k) == x / Pow2(k)
  {
    hide Pow2;
    var p := Pow2(k);
    Grows(Quotient(x, p), p);
  }

  lemma Grows(q: nat, p: nat)
    requires p >= 1
    ensures q * p >= q
  {
  }

  /** CMPRV x k; JMPULT tgt. */
  lemma SkipBelow(m: Setup, c: Cfg, x: Reg, k: u8, tgt: int)
    requires Here(m, c, CmpI(false, x, k)) && c.s.pc + 16 < U32 && 0 <= tgt < U32
    requires c.s.pc + 8 in m.code && m.code[c.s.pc + 8] == BrAbs(false, 7, false, tgt)
    ensures var d := Run(m, c, 2);
      && Through(m, c, d, {}) && d.s.mem == c.s.mem && d.s.io == c.s.io && d.s.r == c.s.r
      && d.s.pc == if c.s.r[x] < k then tgt else c.s.pc + 16
  {
    hide NextCfg, Run, Peek, CmpFlags, Condition;
    RunFew(m, c);
    DataStep(m, c, CmpI(false, x, k));
    CompareUlt(c.s.r[x], k);
    JumpStep(m, NextCfg(m, c), 7, false, tgt);
  }

  lemma LetterAt(code: Code, a: int, putc: int)
    requires HexCode(code, a, putc)
    ensures 0 <= a && a + 92 < U32 && a + 28 in code && code[a + 28] == Copy(7, 0)
    ensures a + 32 in code && code[a + 32] == AluI(0, false, false, 0, 0, 0x30)
    ensures a + 40 in code && code[a + 40] == CmpI(false, 7, 10)
    ensures a + 48 in code && code[a + 48] == BrAbs(false, 7, false, a + 64)
    ensures a + 56 in code && code[a + 56] == AluI(0, false, false, 0, 0, 7)
  {
    hide LoopCode;
  }

  /** The character of the digit in A. */
  lemma Letter(m: Setup, a: int, putc: int, c: Cfg) returns (t: nat)
    requires Live(m, c) && HexCode(m.code, a, putc) && c.s.pc == a + 28 && c.s.r[0] < 16
    ensures var d := Run(m, c, t);
      && Through(m, c, d, {0, 7}) && d.s.mem == c.s.mem && d.s.io == c.s.io && d.s.pc == a + 64
      && d.s.r[0] == HexChar(c.s.r[0])
  {
    hide Run, Through, Live, AluFlags, HexCode;
    LetterAt(m.code, a, putc);
    var x := c.s.r[0];
    Data1(m, c, Copy(7, 0));
    var d := Run(m, c, 1);
    ThroughLive(m, c, d, {7});
    Adjust(m, d, 0, 0, 0x30, x + 0x30);
    var e := Run(m, d, 1);
    ThroughLive(m, d, e, {0});
    SkipBelow(m, e, 7, 10, a + 64);
    var f := Run(m, e, 2);
    ThroughLive(m, e, f, {});
    ThroughOn(m, c, d, e, {7}, {0});
    ThroughOn(m, c, e, f, {7} + {0}, {});
    assert {7} + {0} + {} == {0, 7};
    RunAdd(m, c, 1, 1);
    RunAdd(m, c, 2, 2);
    t := 4;
    if x >= 10 {
      Adjust(m, f, 0, 0, 7, x + 0x37);
      ThroughOn(m, c, f, Run(m, f, 1), {0, 7}, {0});
      assert {0, 7} + {0} == {0, 7};
      RunAdd(m, c, 4, 1);
      t := 5;
    }
  }

  const HEX_REGS: set<int> := {0, 1, 2, 5, 7}

  /** The routines in memory, and a transmitter that makes progress. */
  datatype Kit = Kit(putc: int, hex: int, crlf: int, ghost wait: seq<Io> -> nat)

  ghost predicate Loaded(m: Setup, k: Kit) {
    && Open(m) && PutcCode(m.code, k.putc) && HexCode(m.code, k.hex, k.putc) && CrlfCode(m.code, k.crlf, k.putc)
    && Patient(m.dev, k.wait)
  }

  ghost predicate CrlfCode(code: Code, a: int, putc: int) {
    && 0 <= a && a + 36 < U32 && 0 <= putc < U32
    && a in code && code[a] == SetR(true, 0, 0x0D)
    && a + 8 in code && code[a + 8] == BrAbs(true, 0, false, putc)
    && a + 16 in code && code[a + 16] == SetR(true, 0, 0x0A)
    && a + 24 in code && code[a + 24] == BrAbs(true, 0, false, putc)
    && a + 32 in code && code[a + 32] == Ret
  }

  /** A state with room for a nested call. */
  predicate Spare(m: Setup, c: Cfg, bytes: nat) {
    AllAbove(c) && m.b.top - m.b.depth <= c.s.sp - bytes
  }

  /** CALL putc, all the way back. */
  lemma CallPutc(m: Setup, k: Kit, c: Cfg) returns (t: nat)
    requires Loaded(m, k) && Here(m, c, BrAbs(true, 0, false, k.putc)) && Spare(m, c, 8)
    ensures var d := Run(m, c, t);
      Through(m, c, d, {1, 2}) && d.s.pc == c.s.pc + 8 && Sent(d.s.io) == Sent(c.s.io) + [c.s.r[0] % 0x100]
  {
    hide Run, Peek, Sent, Load64, Patient, PutcCode, HexCode, CrlfCode, Called, Back, Through, StackOnly, Live;
    Calling(m, c, k.putc);
    var d := Run(m, c, 1);
    var u := Putc(m, k.putc, d, c.s.pc + 8, k.wait);
    Resumed(m, c, d, Run(m, d, u), {1, 2});
    RunAdd(m, c, 1, u);
    t := 1 + u;
  }

  lemma SpareToo(m: Setup, c: Cfg, d: Cfg, ws: set<int>, bytes: nat)
    requires Through(m, c, d, ws) && Spare(m, c, bytes)
    ensures Spare(m, d, bytes)
  {
    hide StackOnly, Live;
  }

  lemma CallAt(m: Setup, k: Kit, c: Cfg)
    requires Loaded(m, k) && Live(m, c) && (c.s.pc == k.hex + 64 || c.s.pc == k.crlf + 8 || c.s.pc == k.crlf + 24)
    ensures Here(m, c, BrAbs(true, 0, false, k.putc)) && c.s.pc + 8 < U32
  {
    hide Live, PutcCode, Patient, LoopCode;
  }

  lemma RetAt(m: Setup, k: Kit, c: Cfg)
    requires Loaded(m, k) && Live(m, c) && (c.s.pc == k.hex + 88 || c.s.pc == k.crlf + 32)
    ensures Here(m, c, Ret)
  {
    hide Live, PutcCode, Patient, LoopCode, HexCode, CrlfCode;
    if c.s.pc == k.hex + 88 {
      HexRet(m.code, k.hex, k.putc);
    } else {
      CrlfRet(m.code, k.crlf, k.putc);
    }
  }

  lemma HexRet(code: Code, a: int, putc: int)
    requires HexCode(code, a, putc)
    ensures 0 <= a && a + 92 < U32 && a + 88 in code && code[a + 88] == Ret
  {
    hide LoopCode;
  }

  lemma CrlfRet(code: Code, a: int, putc: int)
    requires CrlfCode(code, a, putc)
    ensures 0 <= a && a + 36 < U32 && a + 32 in code && code[a + 32] == Ret
  {
  }

  lemma SetAt(m: Setup, k: Kit, c: Cfg)
    requires Loaded(m, k) && Live(m, c)
    ensures c.s.pc == k.hex ==> Here(m, c, SetR(true, 5, 64))
    ensures c.s.pc == k.crlf ==> Here(m, c, SetR(true, 0, 0x0D))
    ensures c.s.pc == k.crlf + 16 ==> Here(m, c, SetR(true, 0, 0x0A))
  {
    hide Live, PutcCode, Patient, LoopCode;
  }

  lemma HexParts(m: Setup, k: Kit)
    requires Loaded(m, k)
    ensures HexCode(m.code, k.hex, k.putc) && LoopCode(m.code, k.hex + 72, 5, k.hex + 8) && k.hex + 92 < U32
  {
    hide PutcCode, Patient, CrlfCode;
  }

  /** One digit. */
  lemma HexRound(m: Setup, k: Kit, c: Cfg, b: nat) returns (t: nat)
    requires Loaded(m, k) && Live(m, c) && c.s.pc == k.hex + 8 && c.s.r[5] == b + 4 <= 64 && Spare(m, c, 8)
    ensures var d := Run(m, c, t);
      && Through(m, c, d, HEX_REGS) && d.s.r[5] == b && d.s.pc == (if b != 0 then k.hex + 8 else k.hex + 88)
      && Sent(d.s.io) == Sent(c.s.io) + [HexChar(DigitAt(c.s.r[4], b))]
  {
    hide Here, Run, Sent, Through, Live, Loaded, HexCode, CrlfCode, DigitAt, LoopCode;
    HexParts(m, k);
    Extract(m, k.hex, k.putc, c, b);
    var d := Run(m, c, 3);
    ThroughLive(m, c, d, {0, 5});
    DigitSmall(c.s.r[4], b);
    var u := Letter(m, k.hex, k.putc, d);
    var e := Run(m, d, u);
    ThroughLive(m, d, e, {0, 7});
    ThroughOn(m, c, d, e, {0, 5}, {0, 7});
    SpareToo(m, c, e, {0, 5} + {0, 7}, 8);
    CallAt(m, k, e);
    var v := CallPutc(m, k, e);
    var f := Run(m, e, v);
    ThroughLive(m, e, f, {1, 2});
    ThroughOn(m, c, e, f, {0, 5} + {0, 7}, {1, 2});
    LoopBack(m, f, 5, k.hex + 8);
    ThroughOn(m, c, f, Run(m, f, 2), {0, 5} + {0, 7} + {1, 2}, {});
    assert {0, 5} + {0, 7} + {1, 2} + {} == HEX_REGS;
    RunAdd(m, c, 3, u);
    RunAdd(m, c, 3 + u, v);
    RunAdd(m, c, 3 + u + v, 2);
    t := 5 + u + v;
  }

  lemma DigitSmall(e: u64, b: nat)
    ensures 0 <= DigitAt(e, b) < 16
  {
    hide Pow2;
  }

  /** e / 2^b has one digit more than e / 2^(b+4). */
  lemma HexNext(e: u64, b: nat, n: nat)
    ensures 0 <= e / Pow2(b) && 0 <= e / Pow2(b + 4)
    ensures Hex(e / Pow2(b), n + 1) == Hex(e / Pow2(b + 4), n) + [HexChar(DigitAt(e, b))]
  {
    hide Pow2;
    Pow2Add(4, b);
    Pow2Of8();
    var p := Pow2(b);
    var q, r := Quotient(e, p), e % p;
    var x, y := Quotient(q, 16), q % 16;
    assert x * (16 * p) == 16 * (x * p) && q * p == y * p + 16 * (x * p) by { assert q == y + x * 16; Spread(y, x, p); }
    Small(y, p, r);
    DivModUnique(x, r + y * p, 16 * p);
  }

  lemma Spread(y: nat, x: nat, p: nat)
    ensures (y + x * 16) * p == y * p + 16 * (x * p) && x * (16 * p) == 16 * (x * p)
  {
    assert x * 16 * p == 16 * (x * p);
  }

  lemma Small(y: nat, p: nat, r: nat)
    requires y < 16 && r < p
    ensures 0 <= r + y * p < 16 * p
  {
    MulBelow(y, p, 16, r);
  }

  lemma OneDigit(e: u64, b: nat, start: seq<u8>)
    requires 4 <= b <= 64 && b % 4 == 0
    ensures 0 <= e / Pow2(b) && 0 <= e / Pow2(b - 4) && 0 <= DigitAt(e, b - 4) < 16
    ensures (start + Hex(e / Pow2(b), (64 - b) / 4)) + [HexChar(DigitAt(e, b - 4))]
      == start + Hex(e / Pow2(b - 4), (64 - (b - 4)) / 4)
  {
    hide Hex, Pow2, HexChar, DigitAt;
    DigitSmall(e, b - 4);
    HexNext(e, b - 4, (64 - b) / 4);
    Assoc(start, Hex(e / Pow2(b), (64 - b) / 4), [HexChar(DigitAt(e, b - 4))]);
  }

  /** The remaining digits, from bit b - 4 down. */
  lemma {:induction false} HexLoop(m: Setup, k: Kit, c: Cfg, b: nat, e: u64, start: seq<u8>) returns (t: nat)
    requires Loaded(m, k) && Live(m, c) && c.s.pc == k.hex + 8 && c.s.r[5] == b <= 64 && 4 <= b && b % 4 == 0 && Spare(m, c, 8)
    requires c.s.r[4] == e && 0 <= e / Pow2(b) && Sent(c.s.io) == start + Hex(e / Pow2(b), (64 - b) / 4)
    ensures var d := Run(m, c, t);
      Through(m, c, d, HEX_REGS) && d.s.pc == k.hex + 88 && Sent(d.s.io) == start + Hex(e, 16)
    decreases b
  {
    hide Run, Sent, Through, Live, Loaded, DigitAt, Hex, Pow2, HexChar;
    t := HexRound(m, k, c, b - 4);
    var d := Run(m, c, t);
    OneDigit(e, b, start);
    if b > 4 {
      ThroughLive(m, c, d, HEX_REGS);
      SpareToo(m, c, d, HEX_REGS, 8);
      var u := HexLoop(m, k, d, b - 4, e, start);
      ThroughOn(m, c, d, Run(m, d, u), HEX_REGS, HEX_REGS);
      assert HEX_REGS + HEX_REGS == HEX_REGS;
      RunAdd(m, c, t, u);
      t := t + u;
    } else {
      assert Pow2(0) == 1 by { PowZero(); }
    }
  }

  lemma PowZero()
    ensures Pow2(0) == 1
  {
  }

  lemma Whole64(e: u64)
    ensures e / Pow2(64) == 0
  {
    hide Pow2;
    Pow2Of64();
  }

  lemma CalledSpare(m: Setup, c: Cfg, ra: int, bytes: nat)
    requires Called(m, c, ra) && m.b.top - m.b.depth <= c.s.sp - bytes
    ensures Spare(m, c, bytes) && Live(m, c)
  {
    hide Load64;
  }

  /** From the first instruction to the RET. */
  lemma HexBody(m: Setup, k: Kit, c: Cfg, e: u64) returns (t: nat)
    requires Loaded(m, k) && Live(m, c) && c.s.pc == k.hex && Spare(m, c, 8) && c.s.r[4] == e
    ensures var d := Run(m, c, t);
      Through(m, c, d, HEX_REGS) && d.s.pc == k.hex + 88 && Sent(d.s.io) == Sent(c.s.io) + Hex(e, 16)
  {
    hide Here, Run, Sent, Through, Live, Loaded, Hex, Pow2, Sext32, Spare;
    SetAt(m, k, c);
    SetReg(m, c, 5, 64);
    SextLow(64);
    var d := Run(m, c, 1);
    ThroughLive(m, c, d, {5});
    SpareToo(m, c, d, {5}, 8);
    Whole64(e);
    NoDigits(Sent(c.s.io));
    var u := HexLoop(m, k, d, 64, e, Sent(c.s.io));
    ThroughOn(m, c, d, Run(m, d, u), {5}, HEX_REGS);
    assert {5} + HEX_REGS == HEX_REGS;
    RunAdd(m, c, 1, u);
    t := u + 1;
  }

  /** puthex16 prints E as sixteen hexadecimal digits; D, E, G, I and J survive. */
  lemma Puthex(m: Setup, k: Kit, c: Cfg, ra: int, e: u64) returns (t: nat)
    requires Loaded(m, k) && Called(m, c, ra) && c.s.pc == k.hex && m.b.top - m.b.depth <= c.s.sp - 8 && c.s.r[4] == e
    ensures var d := Run(m, c, t);
      Back(m, c, d, ra, HEX_REGS) && Sent(d.s.io) == Sent(c.s.io) + Hex(e, 16)
  {
    hide Here, Run, Sent, Through, Live, Loaded, Hex, Back, Called, Spare;
    CalledSpare(m, c, ra, 8);
    var u := HexBody(m, k, c, e);
    var d := Run(m, c, u);
    ThroughLive(m, c, d, HEX_REGS);
    RetAt(m, k, d);
    Returned(m, c, d, ra, HEX_REGS);
    RunAdd(m, c, u, 1);
    t := u + 1;
  }

  lemma NoDigits(s: seq<u8>)
    ensures s == s + Hex(0, 0)
  {
  }

  /** SETR A v; CALL putc. */
  lemma PutByte(m: Setup, k: Kit, c: Cfg, v: u8) returns (t: nat)
    requires Loaded(m, k) && Here(m, c, SetR(true, 0, v)) && Spare(m, c, 8)
    requires c.s.pc + 8 == k.crlf + 8 || c.s.pc + 8 == k.crlf + 24
    ensures var d := Run(m, c, t);
      Through(m, c, d, {0, 1, 2}) && d.s.pc == c.s.pc + 16 && Sent(d.s.io) == Sent(c.s.io) + [v]
  {
    hide Run, Sent, Through, Live, Loaded, Sext32, Spare;
    SetReg(m, c, 0, v);
    SextLow(v);
    var d := Run(m, c, 1);
    ThroughLive(m, c, d, {0});
    SpareToo(m, c, d, {0}, 8);
    CallAt(m, k, d);
    var u := CallPutc(m, k, d);
    ThroughOn(m, c, d, Run(m, d, u), {0}, {1, 2});
    assert {0} + {1, 2} == {0, 1, 2};
    RunAdd(m, c, 1, u);
    t := 1 + u;
  }

  /** crlf. */
  lemma Crlf(m: Setup, k: Kit, c: Cfg, ra: int) returns (t: nat)
    requires Loaded(m, k) && Called(m, c, ra) && c.s.pc == k.crlf && m.b.top - m.b.depth <= c.s.sp - 8
    ensures var d := Run(m, c, t);
      Back(m, c, d, ra, {0, 1, 2}) && Sent(d.s.io) == Sent(c.s.io) + [0x0D, 0x0A]
  {
    hide Here, Run, Sent, Through, Live, Loaded, Back, Called, Spare;
    var ws := {0, 1, 2};
    CalledSpare(m, c, ra, 8);
    SetAt(m, k, c);
    var u := PutByte(m, k, c, 0x0D);
    var d := Run(m, c, u);
    ThroughLive(m, c, d, ws);
    SpareToo(m, c, d, ws, 8);
    SetAt(m, k, d);
    var v := PutByte(m, k, d, 0x0A);
    var e := Run(m, d, v);
    ThroughOn(m, c, d, e, ws, ws);
    assert ws + ws == ws;
    ThroughLive(m, d, e, ws);
    RetAt(m, k, e);
    Returned(m, c, e, ra, ws);
    Assoc(Sent(c.s.io), [0x0D], [0x0A]);
    RunAdd(m, c, u, v);
    RunAdd(m, c, u + v, 1);
    t := u + v + 1;
  }
}
