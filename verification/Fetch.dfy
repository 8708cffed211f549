/** Running a program out of memory: fetch, decode, execute. */
module Fetch {
  import opened Bits
  import opened Isa
  import opened Machine
  import opened Encoder
  import opened Monitor

  function WordAt(m: Mem, a: int): u32 {
    LoadBound(m, a, 4);
    Pow2Of64();
    LoadLe(m, a, 4)
  }

  function FetchAt(m: Mem, a: int): Option<Instr> {
    Decode(WordAt(m, a), WordAt(m, a + 4), WordAt(m, a + 8))
  }

  /** The machine proper: instructions come from memory, and a word that does not
      decode parks the core. */
  function MemStep(dev: Device, s: State): State {
    if s.st != Running then s
    else match FetchAt(s.mem, s.pc)
      case None => s.(st := Parked(2))
      case Some(i) => Exec(i, s, dev)
  }

  function MemRun(dev: Device, s: State, n: nat): State
    decreases n
  {
    if n == 0 then s else MemRun(dev, MemStep(dev, s), n - 1)
  }

  /** The encoded words of i are in memory at a. */
  ghost predicate Stored(m: Mem, a: int, i: Instr) {
    Legal(i) && forall k :: 0 <= k < Words(i) ==> WordAt(m, a + 4 * k) == Encode(i)[k]
  }

  lemma FetchStored(m: Mem, a: int, i: Instr)
    requires Stored(m, a, i)
    ensures FetchAt(m, a) == Some(i)
  {
    hide FirstWord, SecondWord, ThirdWord, Decode, WordAt, Legal;
    assert Encode(i)[0] == FirstWord(i) && WordAt(m, a + 4 * 0) == Encode(i)[0];
    if Words(i) >= 2 {
      assert WordAt(m, a + 4 * 1) == Encode(i)[1];
    }
    if Words(i) >= 3 {
      assert WordAt(m, a + 4 * 2) == Encode(i)[2];
    }
    DecodeEncode(i, WordAt(m, a + 4), WordAt(m, a + 8));
  }

  /** All of `code` is in memory, inside [lo, hi). */
  ghost predicate Holds(m: Mem, code: Code, lo: int, hi: int) {
    forall a :: a in code ==> Stored(m, a, code[a]) && lo <= a && a + 4 * Words(code[a]) <= hi
  }

  ghost predicate SameIn(m: Mem, m': Mem, lo: int, hi: int) {
    forall b :: lo <= b < hi ==> Peek(m', b) == Peek(m, b)
  }

  lemma WordSame(m: Mem, m': Mem, a: int, lo: int, hi: int)
    requires SameIn(m, m', lo, hi) && lo <= a && a + 4 <= hi
    ensures WordAt(m', a) == WordAt(m, a)
  {
    LoadSame(m, m', a, 4);
  }

  lemma HoldsSame(m: Mem, m': Mem, code: Code, lo: int, hi: int)
    requires SameIn(m, m', lo, hi) && Holds(m, code, lo, hi)
    ensures Holds(m', code, lo, hi)
  {
    hide WordAt, SameIn, Legal, Encode;
    forall a | a in code
      ensures Stored(m', a, code[a])
    {
      assert Stored(m, a, code[a]);
      forall k | 0 <= k < Words(code[a])
        ensures WordAt(m', a + 4 * k) == Encode(code[a])[k]
      {
        WordSame(m, m', a + 4 * k, lo, hi);
      }
    }
  }

  /** Bytes that no access inside the limits can write. */
  predicate Untouchable(b: Limits, a: int) {
    !(b.lo <= a < b.hi) && !(b.top - b.touch <= a < b.top) && (b.register < 0 || a < b.register || MMIO <= b.register)
  }

  /** A step inside the limits changes no other byte of memory. */
  lemma FineKeeps(m: Setup, c: Cfg, a: int)
    requires Fine(m, c) && Untouchable(m.b, a)
    ensures Peek(Step(m.code, m.dev, c.s).mem, a) == Peek(c.s.mem, a)
  {
    hide Data, StoreLe, LoadLe, Load64, Peek;
    var i, s := m.code[c.s.pc], c.s;
    if i.Store? {
      if EffAddr(i, s.r) < MMIO {
        PeekStore(s.mem, EffAddr(i, s.r), Bytes(i.size), s.r[i.rd], a);
      }
    } else if i.Push? || i.PushV? || i.Enter? || Calls(i, s) {
      var v := if i.Push? then s.r[i.rs1] else if i.PushV? then i.imm else if i.Enter? then s.r[15] else Next(i, s);
      PeekStore(s.mem, Align8(Wrap32(s.sp - 8)), 8, v, a);
    }
  }

  /** No access inside the limits can write into [lo, hi). */
  ghost predicate Safe(b: Limits, lo: int, hi: int) {
    forall a :: lo <= a < hi ==> Untouchable(b, a)
  }

  lemma FineKeepsIn(m: Setup, c: Cfg, lo: int, hi: int)
    requires Fine(m, c) && Safe(m.b, lo, hi)
    ensures SameIn(c.s.mem, Step(m.code, m.dev, c.s).mem, lo, hi)
  {
    hide Fine, Step, Peek, Untouchable;
    forall a | lo <= a < hi
      ensures Peek(Step(m.code, m.dev, c.s).mem, a) == Peek(c.s.mem, a)
    {
      FineKeeps(m, c, a);
    }
  }

  /** Over a whole run, only the data window and the top of the stack change. */
  lemma {:induction false} RunKeeps(m: Setup, c: Cfg, n: nat, a: int)
    requires Run(m, c, n).ok && Untouchable(m.b, a)
    ensures Peek(Run(m, c, n).s.mem, a) == Peek(c.s.mem, a)
    decreases n
  {
    hide Fine, Step, Peek, Untouchable;
    if n != 0 {
      var d := NextCfg(m, c);
      if c.s.st == Running {
        OkStays(m, d, n - 1);
        FineKeeps(m, c, a);
      }
      RunKeeps(m, d, n - 1, a);
    }
  }

  lemma MemRunNone(dev: Device, s: State)
    ensures MemRun(dev, s, 0) == s
  {
  }

  lemma {:induction false} MemRunAdd(dev: Device, s: State, a: nat, b: nat)
    ensures MemRun(dev, MemRun(dev, s, a), b) == MemRun(dev, s, a + b)
    decreases a
  {
    hide MemStep;
    if a != 0 {
      MemRunAdd(dev, MemStep(dev, s), a - 1, b);
    }
  }

  /** With the code as it was in m0 whenever an instruction is fetched, running out of
      memory is the same as running the code. */
  lemma {:induction false} HeldRun(m: Setup, c: Cfg, n: nat, m0: Mem, lo: int, hi: int)
    requires Run(m, c, n).ok && Holds(m0, m.code, lo, hi)
    requires forall k :: 0 <= k < n ==> SameIn(m0, Run(m, c, k).s.mem, lo, hi)
    ensures MemRun(m.dev, c.s, n) == Run(m, c, n).s
    decreases n
  {
    hide Fine, Step, Holds, Exec, FetchAt, SameIn;
    if n != 0 {
      var d := NextCfg(m, c);
      if c.s.st == Running {
        OkStays(m, d, n - 1);
        assert SameIn(m0, Run(m, c, 0).s.mem, lo, hi);
        HoldsSame(m0, c.s.mem, m.code, lo, hi);
        SameStep(m, c, lo, hi);
      }
      forall k | 0 <= k < n - 1
        ensures SameIn(m0, Run(m, d, k).s.mem, lo, hi)
      {
        assert Run(m, c, k + 1) == Run(m, d, k);
      }
      HeldRun(m, d, n - 1, m0, lo, hi);
    }
  }

  /** With the code where no access can write it, it is never changed. */
  lemma RunFromMemory(m: Setup, c: Cfg, n: nat, lo: int, hi: int)
    requires Run(m, c, n).ok && Holds(c.s.mem, m.code, lo, hi) && Safe(m.b, lo, hi)
    ensures MemRun(m.dev, c.s, n) == Run(m, c, n).s
  {
    hide Run, Holds, Peek, Untouchable;
    forall k | 0 <= k < n
      ensures SameIn(c.s.mem, Run(m, c, k).s.mem, lo, hi)
    {
      RunAdd(m, c, k, n - k);
      OkStays(m, Run(m, c, k), n - k);
      forall a | lo <= a < hi
        ensures Peek(Run(m, c, k).s.mem, a) == Peek(c.s.mem, a)
      {
        RunKeeps(m, c, k, a);
      }
    }
    HeldRun(m, c, n, c.s.mem, lo, hi);
  }

  lemma SameStep(m: Setup, c: Cfg, lo: int, hi: int)
    requires Fine(m, c) && Holds(c.s.mem, m.code, lo, hi)
    ensures MemStep(m.dev, c.s) == Step(m.code, m.dev, c.s)
  {
    hide Exec, Stored, FetchAt, AccessFine;
    FetchStored(c.s.mem, c.s.pc, m.code[c.s.pc]);
  }
}
