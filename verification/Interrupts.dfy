/** Timer interrupts: the frame, the handler's register discipline, and the machine
    whose program is interrupted at any set of instruction boundaries. */
module Interrupts {
  import opened Bits
  import opened Isa
  import opened Machine

  // ---- the frame word

  lemma Digit(lo: int, w: int, x: int, n: int, rest: int)
    requires 0 <= lo < w && 0 <= x < n
    ensures (lo + (x + rest * n) * w) / w % n == x
  {
    DivModUnique(x + rest * n, lo, w);
    DivModUnique(rest, x, n);
  }

  /** Seven bits, four bits and a bit. */
  lemma HighDigits(a: int, b: int, c: int, d: int, e: int, f: int, g: int, m: int, x: int)
    requires 0 <= a <= 1 && 0 <= b <= 1 && 0 <= c <= 1 && 0 <= d <= 1 && 0 <= e <= 1 && 0 <= f <= 1 && 0 <= g <= 1
    requires 0 <= m < 16 && 0 <= x <= 1
    ensures var hi := a + 2 * b + 4 * c + 8 * d + 16 * e + 32 * f + 64 * g + 128 * m + 2048 * x;
      && 0 <= hi < 4096 && hi % 2 == a && hi / 2 % 2 == b && hi / 4 % 2 == c && hi / 8 % 2 == d && hi / 16 % 2 == e
      && hi / 32 % 2 == f && hi / 64 % 2 == g && hi / 128 % 16 == m && hi / 2048 % 2 == x
  {
    var l1 := a + 2 * b;
    var l2 := l1 + 4 * c;
    var l3 := l2 + 8 * d;
    var l4 := l3 + 16 * e;
    var l5 := l4 + 32 * f;
    var l6 := l5 + 64 * g;
    Digit(0, 1, a, 2, b + 2 * c + 4 * d + 8 * e + 16 * f + 32 * g + 64 * m + 1024 * x);
    Digit(a, 2, b, 2, c + 2 * d + 4 * e + 8 * f + 16 * g + 32 * m + 512 * x);
    Digit(l1, 4, c, 2, d + 2 * e + 4 * f + 8 * g + 16 * m + 256 * x);
    Digit(l2, 8, d, 2, e + 2 * f + 4 * g + 8 * m + 128 * x);
    Digit(l3, 16, e, 2, f + 2 * g + 4 * m + 64 * x);
    Digit(l4, 32, f, 2, g + 2 * m + 32 * x);
    Digit(l5, 64, g, 2, m + 16 * x);
    Digit(l6, 128, m, 16, x);
    Digit(l6 + 128 * m, 2048, x, 2, 0);
  }

  /** IRET undoes interrupt entry: PC, flags, mask and the disable bit come back. */
  lemma FrameRoundTrip(s: State, pc: u32, f: Flags, mask: u4, disabled: bool)
    requires Load64(s.mem, s.sp) == Frame(pc, f, mask, disabled)
    ensures ReturnFromInterrupt(s)
      == s.(pc := pc, sp := Wrap32(s.sp + 8), fl := f, mask := mask, disabled := disabled)
  {
    hide Load64;
    HighDigits(B(f.c), B(f.s != f.v), B(f.s), B(f.v), B(f.c), B(f.z), B(f.z), mask, B(disabled));
    var hi := B(f.c) + 2 * B(f.s != f.v) + 4 * B(f.s) + 8 * B(f.v) + 16 * B(f.c) + 32 * B(f.z) + 64 * B(f.z)
              + 128 * mask + 2048 * B(disabled);
    DivModUnique(hi, pc, U32);
  }

  /** The frame word: PC below bit 32, then C, less, S, V, C, Z and Z again, the mask in
      four bits from 39, the disable bit at 43, and nothing above. */
  lemma FrameLayout(pc: u32, f: Flags, mask: u4, disabled: bool)
    ensures var w: int := Frame(pc, f, mask, disabled); var hi := w / 0x1_0000_0000;
      && w % 0x1_0000_0000 == pc && hi % 2 == B(f.c) && hi / 2 % 2 == B(f.s != f.v) && hi / 4 % 2 == B(f.s)
      && hi / 8 % 2 == B(f.v) && hi / 16 % 2 == B(f.c) && hi / 32 % 2 == B(f.z) && hi / 64 % 2 == B(f.z)
      && hi / 128 % 16 == mask && hi / 2048 % 2 == B(disabled) && hi < 4096
  {
    HighDigits(B(f.c), B(f.s != f.v), B(f.s), B(f.v), B(f.c), B(f.z), B(f.z), mask, B(disabled));
    var hi := B(f.c) + 2 * B(f.s != f.v) + 4 * B(f.s) + 8 * B(f.v) + 16 * B(f.c) + 32 * B(f.z) + 64 * B(f.z)
              + 128 * mask + 2048 * B(disabled);
    DivModUnique(hi, pc, U32);
  }

  /** IRET takes PC, Z, S, C, V, mask and the disable bit from these bits of any frame. */
  lemma ResumeFlags(s: State, pc: u32, f: Flags, mask: u4, bit43: bool)
    requires Load64(s.mem, s.sp) == pc + 0x1_0000_0000 * (4 * B(f.s) + 8 * B(f.v) + 16 * B(f.c) + 64 * B(f.z)
      + 128 * mask + 2048 * B(bit43))
    ensures ReturnFromInterrupt(s)
      == s.(pc := pc, sp := Wrap32(s.sp + 8), fl := f, mask := mask, disabled := bit43)
  {
    hide Load64;
    HighDigits(0, 0, B(f.s), B(f.v), B(f.c), 0, B(f.z), mask, B(bit43));
    DivModUnique(4 * B(f.s) + 8 * B(f.v) + 16 * B(f.c) + 64 * B(f.z) + 128 * mask + 2048 * B(bit43), pc, U32);
  }

  /** A frame built by software resumes enabled exactly when bit 43 is clear. */
  lemma SoftwareFrame(s: State, pc: u32, mask: u4, bit43: bool)
    requires Load64(s.mem, s.sp) == pc + 0x80_0000_0000 * mask + 0x800_0000_0000 * B(bit43)
    ensures ReturnFromInterrupt(s)
      == s.(pc := pc, sp := Wrap32(s.sp + 8), fl := Flags(false, false, false, false), mask := mask, disabled := bit43)
  {
    hide Load64;
    FrameRoundTrip(s, pc, Flags(false, false, false, false), mask, bit43);
  }

  // ---- the handler

  /** The registers hw_timer_isr saves, in push order. */
  const SAVED: seq<Reg> := [0, 1, 2, 3, 8, 9, 10, 11, 12, 13, 14]

  function PushAll(s: State, rs: seq<Reg>): State
    decreases |rs|
  {
    if rs == [] then s else PushAll(ExecStack(Push(rs[0]), s), rs[1..])
  }

  /** Pops in the opposite order. */
  function PopAll(s: State, rs: seq<Reg>): State
    decreases |rs|
  {
    if rs == [] then s else ExecStack(Pop(rs[0]), PopAll(s, rs[1..]))
  }

  ghost predicate SameBetween(m: Mem, m': Mem, lo: int, hi: int) {
    forall a :: lo <= a < hi ==> Peek(m', a) == Peek(m, a)
  }

  /** Equal but for the bytes in a range. */
  ghost predicate SameBeside(m: Mem, m': Mem, lo: int, hi: int) {
    forall a :: a < lo || a >= hi ==> Peek(m', a) == Peek(m, a)
  }

  lemma ExecPush(s: State, x: Reg)
    requires s.sp >= 8
    ensures var t := ExecStack(Push(x), s);
      t == s.(sp := s.sp - 8, mem := Store64(s.mem, s.sp - 8, s.r[x]), pc := t.pc)
  {
    hide Store64, Next;
  }

  lemma {:induction false} PushEffect(s: State, rs: seq<Reg>)
    requires s.sp % 8 == 0 && 8 * |rs| <= s.sp
    ensures var t := PushAll(s, rs);
      && t == s.(sp := s.sp - 8 * |rs|, mem := t.mem, pc := t.pc) && SameBeside(s.mem, t.mem, t.sp, s.sp)
    decreases |rs|
  {
    hide Store64, Peek, ExecStack;
    if rs != [] {
      var u := ExecStack(Push(rs[0]), s);
      ExecPush(s, rs[0]);
      StoreBeside(s.mem, s.sp - 8, s.r[rs[0]]);
      PushEffect(u, rs[1..]);
    }
  }

  lemma StoreBeside(m: Mem, a: int, v: u64)
    requires a % 8 == 0
    ensures SameBeside(m, Store64(m, a, v), a, a + 8)
  {
    hide StoreLe, Peek;
    forall b | b < a || b >= a + 8
      ensures Peek(Store64(m, a, v), b) == Peek(m, b)
    {
      PeekStore(m, a, 8, v, b);
    }
  }

  lemma LoadBetween(m: Mem, m': Mem, a: int, lo: int, hi: int)
    requires SameBetween(m, m', lo, hi) && a % 8 == 0 && lo <= a && a + 8 <= hi
    ensures Load64(m', a) == Load64(m, a)
  {
    hide LoadLe, Peek;
    LoadSame(m, m', a, 8);
  }

  lemma ExecPop(s: State, x: Reg, v: u64)
    requires s.sp + 8 < U32 && Load64(s.mem, s.sp) == v
    ensures var t := ExecStack(Pop(x), s);
      t == s.(sp := s.sp + 8, r := s.r[x := v], pc := t.pc)
  {
    hide Load64, Next;
  }

  /** Whatever happens in between, as long as the saved words and SP are intact the
      pops give the pushed registers back. */
  lemma {:induction false} PushPop(s: State, rs: seq<Reg>, t: State)
    requires s.sp % 8 == 0 && 8 * |rs| <= s.sp && t.sp == s.sp - 8 * |rs|
    requires SameBetween(PushAll(s, rs).mem, t.mem, t.sp, s.sp)
    ensures var u := PopAll(t, rs);
      && u == t.(sp := s.sp, r := u.r, pc := u.pc)
      && forall k :: 0 <= k < 16 ==> u.r[k] == if k in rs then s.r[k] else t.r[k]
    decreases |rs|
  {
    hide Store64, Load64, Peek, ExecStack;
    if rs != [] {
      var v := ExecStack(Push(rs[0]), s);
      ExecPush(s, rs[0]);
      PushPop(v, rs[1..], t);
      PushedWord(s, rs, t);
      ExecPop(PopAll(t, rs[1..]), rs[0], s.r[rs[0]]);
      assert forall k :: k in rs <==> k == rs[0] || k in rs[1..];
    }
  }

  /** The first push is still on the stack. */
  lemma PushedWord(s: State, rs: seq<Reg>, t: State)
    requires rs != [] && s.sp % 8 == 0 && 8 * |rs| <= s.sp && t.sp == s.sp - 8 * |rs|
    requires SameBetween(PushAll(s, rs).mem, t.mem, t.sp, s.sp)
    ensures Load64(t.mem, s.sp - 8) == s.r[rs[0]]
  {
    hide Store64, Load64, Peek, ExecStack;
    var v := ExecStack(Push(rs[0]), s);
    ExecPush(s, rs[0]);
    PushEffect(v, rs[1..]);
    var p := PushAll(s, rs);
    Load64Store64(s.mem, s.sp - 8, s.r[rs[0]]);
    LoadSameWord(v.mem, p.mem, s.sp - 8, t.sp, s.sp - 8);
    LoadBetween(p.mem, t.mem, s.sp - 8, t.sp, s.sp);
  }

  lemma LoadSameWord(m: Mem, m': Mem, a: int, lo: int, hi: int)
    requires SameBeside(m, m', lo, hi) && a % 8 == 0 && hi <= a
    ensures Load64(m', a) == Load64(m, a)
  {
    hide LoadLe, Peek;
    LoadSame(m, m', a, 8);
  }

  /** What an interrupt may touch: its counter, and `room` bytes of stack below SP. */
  datatype Area = Area(ticks: int, room: nat)

  /** hw_timer_isr around its C function: `body` takes the state at its CALL to the state
      after its RET. */
  datatype Handler = Handler(vec: u32, ticks: int, use: nat, body: State -> State)
  {
    /** The frame, the saves and the call. */
    function Reach(): Area { Area(ticks, 8 + 8 * |SAVED| + use) }
  }

  /** The calling convention, and ticks++: r4-r7, r15 and SP survive, and nothing is
      written but the counter and `use` bytes below SP. */
  ghost predicate Conforms(h: Handler, s: State, t: State) {
    && t == s.(r := t.r, fl := t.fl, pc := t.pc, mem := t.mem)
    && (forall k :: 4 <= k <= 7 || k == 15 ==> t.r[k] == s.r[k])
    && (forall a :: !(h.ticks <= a < h.ticks + 8) && !(s.sp - h.use <= a < s.sp) ==> Peek(t.mem, a) == Peek(s.mem, a))
    && Load64(t.mem, h.ticks) == Wrap64(Load64(s.mem, h.ticks) + 1)
  }

  /** At the CALL: the stack has `use` bytes left, none of them the counter's. */
  predicate Callable(h: Handler, s: State) {
    s.sp % 8 == 0 && h.use <= s.sp && s.st == Running && (h.ticks + 8 <= s.sp - h.use || s.sp <= h.ticks)
  }

  ghost predicate Respects(h: Handler) {
    h.ticks % 8 == 0 && forall s: State :: Callable(h, s) ==> Conforms(h, s, h.body(s))
  }

  /** Interrupt entry: push the frame, clear the source's mask bit, go to the vector. */
  function Entry(vec: u32, s: State): State {
    PushWord(s, Frame(s.pc, s.fl, s.mask, s.disabled)).(mask := s.mask - s.mask % 2, pc := vec)
  }

  /** One whole timer interrupt handled by hw_timer_isr. */
  function Interrupt(h: Handler, s: State): State {
    ExecStack(IRet, PopAll(h.body(PushAll(Entry(h.vec, s), SAVED)), SAVED))
  }

  /** The source is dispatched only when unmasked and not disabled by DI. */
  predicate Enabled(s: State) {
    s.st == Running && !s.disabled && s.mask % 2 == 1
  }

  /** The stack has room for the handler, apart from its counter. */
  predicate Roomy(a: Area, s: State) {
    s.sp % 8 == 0 && a.room <= s.sp && (a.ticks + 8 <= s.sp - a.room || s.sp <= a.ticks)
  }

  /** Bytes an interrupt at this SP may change. */
  predicate Shadow(a: Area, sp: int, x: int) {
    a.ticks <= x < a.ticks + 8 || sp - a.room <= x < sp
  }

  ghost predicate SameButShadow(a: Area, sp: int, m: Mem, m': Mem) {
    forall x :: !Shadow(a, sp, x) ==> Peek(m', x) == Peek(m, x)
  }

  /** What the interrupted program sees: nothing changed but the shadow, and the counter
      one up. */
  ghost predicate Ticked(a: Area, s: State, t: State) {
    && t == s.(mem := t.mem) && SameButShadow(a, s.sp, s.mem, t.mem)
    && Load64(t.mem, a.ticks) == Wrap64(Load64(s.mem, a.ticks) + 1)
  }

  /** A handler, as a function from the interrupted to the resumed state. */
  datatype Irq = Irq(area: Area, run: State -> State)

  ghost predicate Benign(h: Irq) {
    h.area.ticks % 8 == 0 && forall s: State :: Roomy(h.area, s) && s.st == Running ==> Ticked(h.area, s, h.run(s))
  }

  /** Entry pushes the frame and masks the source it serves, no other. */
  lemma EntryEffect(vec: u32, s: State)
    requires s.sp % 8 == 0 && 8 <= s.sp
    ensures var t := Entry(vec, s);
      && t == s.(sp := s.sp - 8, mem := t.mem, mask := t.mask, pc := vec)
      && SameBeside(s.mem, t.mem, s.sp - 8, s.sp)
      && Load64(t.mem, s.sp - 8) == Frame(s.pc, s.fl, s.mask, s.disabled)
      && t.mask % 2 == 0 && t.mask / 2 == s.mask / 2
  {
    hide Store64, Load64, Peek, Frame;
    StoreBeside(s.mem, s.sp - 8, Frame(s.pc, s.fl, s.mask, s.disabled));
    Load64Store64(s.mem, s.sp - 8, Frame(s.pc, s.fl, s.mask, s.disabled));
  }

  lemma SavedSet(k: int)
    requires 0 <= k < 16
    ensures k in SAVED <==> !(4 <= k <= 7 || k == 15)
    ensures |SAVED| == 11
  {
  }

  /** From the interrupted state s: after entry, after the pushes, after the body. */
  ghost predicate Nested(h: Handler, s: State, a: Mem, b: Mem, c: Mem) {
    var low := s.sp - 8 - 8 * |SAVED|;
    && SameBeside(s.mem, a, s.sp - 8, s.sp) && SameBeside(a, b, low, s.sp - 8)
    && (forall x :: !(h.ticks <= x < h.ticks + 8) && !(low - h.use <= x < low) ==> Peek(c, x) == Peek(b, x))
  }

  lemma MemoryAfter(h: Handler, s: State, a: Mem, b: Mem, c: Mem)
    requires Roomy(h.Reach(), s) && Nested(h, s, a, b, c) && h.ticks % 8 == 0
    ensures SameButShadow(h.Reach(), s.sp, s.mem, c)
    ensures SameBetween(b, c, s.sp - 8 - 8 * |SAVED|, s.sp - 8)
    ensures Load64(c, s.sp - 8) == Load64(a, s.sp - 8) && Load64(b, h.ticks) == Load64(s.mem, h.ticks)
  {
    hide Peek, LoadLe;
    SavedSet(0);
    LoadSame(a, c, s.sp - 8, 8);
    LoadSame(s.mem, b, h.ticks, 8);
  }

  lemma BodyConforms(h: Handler, s: State)
    requires Respects(h) && Callable(h, s)
    ensures Conforms(h, s, h.body(s)) && h.ticks % 8 == 0
  {
    hide Conforms;
  }

  /** Just before IRET the registers and the frame word are back. */
  lemma BeforeReturn(h: Handler, s: State) returns (d: State)
    requires Respects(h) && Roomy(h.Reach(), s) && s.st == Running
    ensures d == PopAll(h.body(PushAll(Entry(h.vec, s), SAVED)), SAVED)
    ensures d == s.(sp := s.sp - 8, fl := d.fl, mem := d.mem, mask := d.mask, pc := d.pc)
    ensures Load64(d.mem, s.sp - 8) == Frame(s.pc, s.fl, s.mask, s.disabled)
    ensures SameButShadow(h.Reach(), s.sp, s.mem, d.mem)
    ensures Load64(d.mem, h.ticks) == Wrap64(Load64(s.mem, h.ticks) + 1)
  {
    hide Load64, Peek, Frame, Store64, Entry, PushAll, PopAll, SameBeside, SameBetween, SameButShadow, Wrap64, Respects;
    SavedSet(0);
    var a := Entry(h.vec, s);
    EntryEffect(h.vec, s);
    PushEffect(a, SAVED);
    var b := PushAll(a, SAVED);
    var c := h.body(b);
    BodyConforms(h, b);
    MemoryAfter(h, s, a.mem, b.mem, c.mem);
    PushPop(a, SAVED, c);
    d := PopAll(c, SAVED);
    forall k | 0 <= k < 16
      ensures d.r[k] == s.r[k]
    {
      SavedSet(k);
    }
    assert d.r == s.r;
  }

  /** A whole interrupt changes nothing but the counter, which goes up by one, and
      stack bytes below SP. */
  lemma Transparent(h: Handler, s: State)
    requires Respects(h) && Roomy(h.Reach(), s) && s.st == Running
    ensures Ticked(h.Reach(), s, Interrupt(h, s))
  {
    hide Load64, Frame, Entry, PushAll, PopAll, ExecStack, SameButShadow, Wrap64, Respects;
    var d := BeforeReturn(h, s);
    FrameRoundTrip(d, s.pc, s.fl, s.mask, s.disabled);
    ExecReturn(d);
    SpBack(s.sp);
  }

  lemma HandlerBenign(h: Handler)
    requires Respects(h)
    ensures Benign(Irq(h.Reach(), s => Interrupt(h, s)))
  {
    hide Interrupt, Ticked, Respects;
    forall s: State | Roomy(h.Reach(), s) && s.st == Running
      ensures Ticked(h.Reach(), s, Interrupt(h, s))
    {
      Transparent(h, s);
    }
    assert h.ticks % 8 == 0 by { TicksAligned(h); }
  }

  lemma TicksAligned(h: Handler)
    requires Respects(h)
    ensures h.ticks % 8 == 0
  {
  }

  lemma SpBack(sp: int)
    requires 8 <= sp < U32
    ensures Wrap32(sp - 8 + 8) == sp
  {
  }

  lemma ExecReturn(s: State)
    ensures ExecStack(IRet, s) == ReturnFromInterrupt(s)
  {
    hide ReturnFromInterrupt;
  }

  // ---- the simulation bench's handler

  const CNT: int := 0x18_0000

  /** SETR r1 at; load r2; INCR r2; store r2. */
  function Bump(at: u32, s: State, dev: Device): State {
    var a := Exec(SetR(true, 1, at), s, dev);
    var b := Exec(Load(3, false, false, 2, Base(1)), a, dev);
    var c := Exec(Inc(2, 2), b, dev);
    Exec(Store(3, false, 2, Base(1)), c, dev)
  }

  /** The handler at 0x100000: saves r1 and r2, counts at CNT, restores and returns. */
  function BenchInterrupt(s: State, dev: Device): State {
    var t := ExecStack(Push(2), ExecStack(Push(1), Entry(0x10_0000, s)));
    ExecStack(IRet, ExecStack(Pop(1), ExecStack(Pop(2), Bump(CNT, t, dev))))
  }

  const BENCH_AREA := Area(CNT, 24)

  /** Where a counter can be: SETR extends its sign. */
  predicate Countable(at: int) { 0 <= at < 0x8000_0000 && at % 8 == 0 }

  lemma BumpEffect(at: u32, s: State, dev: Device)
    requires Countable(at)
    ensures var t := Bump(at, s, dev);
      && t == s.(r := t.r, fl := t.fl, pc := t.pc, mem := Store64(s.mem, at, Wrap64(Load64(s.mem, at) + 1)))
      && forall k :: 0 <= k < 16 && k != 1 && k != 2 ==> t.r[k] == s.r[k]
  {
    hide LoadLe, StoreLe, Next, AddFlags, Exec;
    var a := Exec(SetR(true, 1, at), s, dev);
    SetCount(at, s, dev);
    var b := Exec(Load(3, false, false, 2, Base(1)), a, dev);
    LoadCount(at, a, dev);
    var c := Exec(Inc(2, 2), b, dev);
    IncCount(b, dev);
    StoreCount(at, c, dev);
  }

  lemma SetCount(at: u32, s: State, dev: Device)
    requires Countable(at)
    ensures var t := Exec(SetR(true, 1, at), s, dev); t == s.(r := s.r[1 := at], pc := t.pc)
  {
    hide Next;
  }

  lemma LoadCount(at: u32, s: State, dev: Device)
    requires s.r[1] == at && Countable(at)
    ensures var t := Exec(Load(3, false, false, 2, Base(1)), s, dev);
      t == s.(r := s.r[2 := Load64(s.mem, at)], pc := t.pc)
  {
    hide LoadLe, Next, Data, ExecBranch, ExecStack, EffAddr;
    assert EffAddr(Load(3, false, false, 2, Base(1)), s.r) == at by { BaseAddress(at, s.r); }
  }

  lemma BaseAddress(at: u32, r: Regs)
    requires r[1] == at && Countable(at)
    ensures EffAddr(Load(3, false, false, 2, Base(1)), r) == at
    ensures EffAddr(Store(3, false, 2, Base(1)), r) == at
  {
  }

  lemma IncCount(s: State, dev: Device)
    ensures var t := Exec(Inc(2, 2), s, dev); var x: int := s.r[2];
      t == s.(r := s.r[2 := Wrap64(x + 1)], fl := t.fl, pc := t.pc)
  {
    hide AddFlags, Next;
  }

  lemma StoreCount(at: u32, s: State, dev: Device)
    requires s.r[1] == at && Countable(at)
    ensures var t := Exec(Store(3, false, 2, Base(1)), s, dev);
      t == s.(mem := Store64(s.mem, at, s.r[2]), pc := t.pc)
  {
    hide StoreLe, Next, Data, ExecBranch, ExecStack, EffAddr;
    assert EffAddr(Store(3, false, 2, Base(1)), s.r) == at by { BaseAddress(at, s.r); }
  }

  /** The bench's handler is transparent too. */
  lemma BenchTransparent(s: State, dev: Device)
    requires Roomy(BENCH_AREA, s) && s.st == Running
    ensures Ticked(BENCH_AREA, s, BenchInterrupt(s, dev))
  {
    hide Load64, Store64, Frame, Entry, ExecStack, Bump, Wrap64, Peek;
    var a := Entry(0x10_0000, s);
    EntryEffect(0x10_0000, s);
    ExecPush(a, 1);
    var b := ExecStack(Push(1), a);
    ExecPush(b, 2);
    var c := ExecStack(Push(2), b);
    BumpEffect(CNT, c, dev);
    var d := Bump(CNT, c, dev);
    BenchMemory(s, a, b, c, d);
    ExecPop(d, 2, s.r[2]);
    var e := ExecStack(Pop(2), d);
    ExecPop(e, 1, s.r[1]);
    var f := ExecStack(Pop(1), e);
    assert f.r == s.r;
    FrameRoundTrip(f, s.pc, s.fl, s.mask, s.disabled);
    ExecReturn(f);
    SpBack(s.sp);
  }

  /** The words on the stack survive the count, and the count survives the stack. */
  lemma BenchMemory(s: State, a: State, b: State, c: State, d: State)
    requires Roomy(BENCH_AREA, s) && SameBeside(s.mem, a.mem, s.sp - 8, s.sp)
    requires b.mem == Store64(a.mem, s.sp - 16, s.r[1]) && c.mem == Store64(b.mem, s.sp - 24, s.r[2])
    requires d.mem == Store64(c.mem, CNT, Wrap64(Load64(c.mem, CNT) + 1))
    ensures Load64(d.mem, s.sp - 24) == s.r[2] && Load64(d.mem, s.sp - 16) == s.r[1]
    ensures Load64(d.mem, s.sp - 8) == Load64(a.mem, s.sp - 8)
    ensures SameButShadow(BENCH_AREA, s.sp, s.mem, d.mem)
    ensures Load64(d.mem, CNT) == Wrap64(Load64(s.mem, CNT) + 1)
  {
    hide LoadLe, StoreLe, Wrap64, Peek;
    var v := Wrap64(Load64(c.mem, CNT) + 1);
    StoreBeside(a.mem, s.sp - 16, s.r[1]);
    StoreBeside(b.mem, s.sp - 24, s.r[2]);
    StoreBeside(c.mem, CNT, v);
    Load64Store64(a.mem, s.sp - 16, s.r[1]);
    Load64Store64(b.mem, s.sp - 24, s.r[2]);
    Load64Store64(c.mem, CNT, v);
    LoadSame(c.mem, d.mem, s.sp - 24, 8);
    LoadSame(b.mem, d.mem, s.sp - 16, 8);
    LoadSame(a.mem, d.mem, s.sp - 8, 8);
    LoadSame(s.mem, c.mem, CNT, 8);
  }

  lemma BenchBenign(dev: Device)
    ensures Benign(Irq(BENCH_AREA, s => BenchInterrupt(s, dev)))
  {
    hide BenchInterrupt, Ticked;
    forall s: State | Roomy(BENCH_AREA, s) && s.st == Running
      ensures Ticked(BENCH_AREA, s, BenchInterrupt(s, dev))
    {
      BenchTransparent(s, dev);
    }
  }

  // ---- hw_timer_isr_c

  /** CALL hw_timer_isr_c; ticks++; RET, for a counter at `at`. */
  function TimerC(entry: u32, at: u32, dev: Device, s: State): State {
    ExecStack(Ret, Bump(at, ExecBranch(BrAbs(true, 0, false, entry), s), dev))
  }

  /** hw_timer_isr at vec around that function: one word of stack for the CALL. */
  function TimerIsr(vec: u32, entry: u32, at: u32, dev: Device): Handler {
    Handler(vec, at, 8, s => TimerC(entry, at, dev, s))
  }

  lemma ExecCall(entry: u32, s: State)
    requires s.sp >= 8
    ensures ExecBranch(BrAbs(true, 0, false, entry), s)
      == s.(sp := s.sp - 8, mem := Store64(s.mem, s.sp - 8, Wrap32(s.pc + 8)), pc := entry)
  {
    hide Store64;
  }

  lemma ExecRet(s: State)
    requires s.sp + 8 < U32
    ensures var t := ExecStack(Ret, s); t == s.(sp := s.sp + 8, pc := t.pc)
  {
    hide Load64;
  }

  lemma TimerConforms(vec: u32, entry: u32, at: u32, dev: Device, s: State)
    requires Countable(at) && Callable(TimerIsr(vec, entry, at, dev), s)
    ensures Conforms(TimerIsr(vec, entry, at, dev), s, TimerC(entry, at, dev, s))
  {
    hide Load64, Store64, Peek, Wrap64, Bump, ExecStack, ExecBranch;
    var a := ExecBranch(BrAbs(true, 0, false, entry), s);
    ExecCall(entry, s);
    var b := Bump(at, a, dev);
    BumpEffect(at, a, dev);
    ExecRet(b);
    var v := Wrap64(Load64(a.mem, at) + 1);
    StoreBeside(s.mem, s.sp - 8, Wrap32(s.pc + 8));
    StoreBeside(a.mem, at, v);
    Load64Other(s.mem, s.sp - 8, Wrap32(s.pc + 8), at);
    Load64Store64(a.mem, at, v);
  }

  /** The compiled handler meets the convention, so it is benign wherever it strikes. */
  lemma TimerRespects(vec: u32, entry: u32, at: u32, dev: Device)
    requires Countable(at)
    ensures Respects(TimerIsr(vec, entry, at, dev))
    ensures Benign(Irq(TimerIsr(vec, entry, at, dev).Reach(), s => Interrupt(TimerIsr(vec, entry, at, dev), s)))
  {
    hide Conforms, Callable, TimerC, Interrupt, Ticked;
    var h := TimerIsr(vec, entry, at, dev);
    forall s: State | Callable(h, s)
      ensures Conforms(h, s, h.body(s))
    {
      TimerConforms(vec, entry, at, dev, s);
    }
    HandlerBenign(h);
    forall s: State | Roomy(h.Reach(), s) && s.st == Running
      ensures Ticked(h.Reach(), s, Interrupt(h, s))
    {
      Transparent(h, s);
    }
  }
}
