/** Runs of a program under a monitor that checks every memory access, every
    return address and the depth of the stack. */
module Monitor {
  import opened Bits
  import opened Isa
  import opened Machine

  predicate Calls(i: Instr, s: State) {
    (i.Br? || i.BrAbs? || i.BrReg?) && i.link && Taken(i, s)
  }

  predicate Returns(i: Instr) { i.Ret? || i.LeaveRet? }

  predicate Pushes(i: Instr, s: State) { i.Push? || i.PushV? || i.Enter? || Calls(i, s) }

  /** Where loads and stores may go (a data window, one device register), where the
      stack may be touched (some bytes below its top) and how far it may grow. */
  datatype Limits = Limits(lo: int, hi: int, top: u32, touch: nat, depth: nat, register: int)

  predicate InData(b: Limits, addr: int, len: nat) {
    (b.lo <= addr && addr + len <= b.hi) || addr == b.register
  }

  predicate InStack(b: Limits, addr: int) {
    b.top - b.touch <= addr && addr + 8 <= b.top
  }

  /** The dword at addr is on the stack: pushed earlier and not yet popped. */
  predicate Held(b: Limits, live: set<int>, addr: int) {
    InStack(b, addr) && addr in live
  }

  /** Every byte the instruction reads or writes as data is inside the limits, no
      access traps, and the stack gives back only what was pushed. */
  predicate AccessFine(b: Limits, i: Instr, s: State, live: set<int>) {
    var fp := Wrap32(s.r[15]);
    if i.Load? || i.Store? then
      InData(b, EffAddr(i, s.r), Bytes(i.size)) && !Misaligned(i, EffAddr(i, s.r))
    else if Pushes(i, s) then InStack(b, Align8(Wrap32(s.sp - 8)))
    else if i.Pop? || i.Ret? || i.IRet? then Held(b, live, Align8(s.sp))
    else if i.Leave? then Held(b, live, Align8(fp))
    else if i.LeaveRet? then Held(b, live, Align8(fp)) && Held(b, live, Align8(Wrap32(fp + 8)))
    else true
  }

  /** calls is the stack of pending return addresses, live the addresses of the dwords
      on the stack, ok the verdict so far. */
  datatype Cfg = Cfg(s: State, calls: seq<int>, live: set<int>, ok: bool)

  datatype Setup = Setup(code: Code, dev: Device, b: Limits)

  predicate Fine(m: Setup, c: Cfg) {
    var s := c.s;
    s.st == Running && s.pc in m.code &&
    var i := m.code[s.pc];
    && AccessFine(m.b, i, s, c.live)
    && (Returns(i) ==> c.calls != [] && Step(m.code, m.dev, s).pc == c.calls[|c.calls| - 1])
    && m.b.top - m.b.depth <= s.sp <= m.b.top && s.sp % 8 == 0
  }

  function NextCalls(i: Instr, s: State, calls: seq<int>): seq<int> {
    if Calls(i, s) then calls + [Next(i, s)]
    else if Returns(i) && calls != [] then calls[..|calls| - 1]
    else calls
  }

  predicate Drops(i: Instr) {
    i.Pop? || Returns(i) || i.IRet? || i.Leave? || i.SetSp? || i.AddSp?
  }

  function Above(live: set<int>, sp: int): set<int> {
    set a | a in live && a >= sp
  }

  /** sp is the stack pointer after the instruction. */
  function NextLive(i: Instr, s: State, sp: int, live: set<int>): set<int> {
    if Pushes(i, s) then live + {Align8(Wrap32(s.sp - 8))}
    else if Drops(i) then Above(live, sp)
    else live
  }

  function NextCfg(m: Setup, c: Cfg): Cfg {
    if c.s.st != Running then c
    else
      var t := Step(m.code, m.dev, c.s);
      if c.s.pc !in m.code then Cfg(t, c.calls, c.live, false)
      else
        var i := m.code[c.s.pc];
        Cfg(t, NextCalls(i, c.s, c.calls), NextLive(i, c.s, t.sp, c.live), c.ok && Fine(m, c))
  }

  function Run(m: Setup, c: Cfg, n: nat): Cfg
    decreases n
  {
    if n == 0 then c else Run(m, NextCfg(m, c), n - 1)
  }

  lemma {:induction false} RunAdd(m: Setup, c: Cfg, a: nat, b: nat)
    ensures Run(m, Run(m, c, a), b) == Run(m, c, a + b)
    decreases a
  {
    hide NextCfg;
    if a != 0 {
      RunAdd(m, NextCfg(m, c), a - 1, b);
    }
  }

  lemma RunNone(m: Setup, c: Cfg)
    ensures Run(m, c, 0) == c
  {
  }

  lemma RunOne(m: Setup, c: Cfg)
    ensures Run(m, c, 1) == NextCfg(m, c)
  {
    hide NextCfg;
    assert Run(m, NextCfg(m, c), 0) == NextCfg(m, c);
  }

  lemma RunNext(m: Setup, c: Cfg, n: nat)
    ensures Run(m, c, n + 1) == NextCfg(m, Run(m, c, n))
  {
    hide NextCfg;
    RunOne(m, Run(m, c, n));
    RunAdd(m, c, n, 1);
  }

  /** A good verdict at the end means every step before it was fine. */
  lemma {:induction false} OkMeansFine(m: Setup, c: Cfg, n: nat, k: nat)
    requires Run(m, c, n).ok && k < n && Run(m, c, k).s.st == Running
    ensures Fine(m, Run(m, c, k)) && Run(m, c, k).ok
  {
    hide Fine, Step;
    RunAdd(m, c, k, n - k);
    var d := Run(m, c, k);
    OkStays(m, NextCfg(m, d), n - k - 1);
  }

  lemma {:induction false} OkStays(m: Setup, c: Cfg, n: nat)
    requires Run(m, c, n).ok
    ensures c.ok
    decreases n
  {
    hide Fine, Step;
    if n != 0 {
      OkStays(m, NextCfg(m, c), n - 1);
    }
  }

  // ---- program text in memory

  function WordCount(ins: seq<Instr>): nat {
    if ins == [] then 0 else Words(ins[0]) + WordCount(ins[1..])
  }

  /** The instructions are found one after the other from address a. */
  ghost predicate At(code: Code, a: int, ins: seq<Instr>)
    decreases |ins|
  {
    ins == [] || (a in code && code[a] == ins[0] && At(code, a + 4 * Words(ins[0]), ins[1..]))
  }

  lemma {:induction false} AtAppend(code: Code, a: int, xs: seq<Instr>, ys: seq<Instr>)
    ensures At(code, a, xs + ys) <==> At(code, a, xs) && At(code, a + 4 * WordCount(xs), ys)
    ensures WordCount(xs + ys) == WordCount(xs) + WordCount(ys)
    decreases xs
  {
    hide Words;
    if xs == [] {
      assert xs + ys == ys;
    } else {
      assert (xs + ys)[1..] == xs[1..] + ys;
      AtAppend(code, a + 4 * Words(xs[0]), xs[1..], ys);
    }
  }

  lemma WordCountShort(i: Instr, j: Instr)
    ensures WordCount([i]) == Words(i) && WordCount([i, j]) == Words(i) + Words(j)
  {
    hide Words;
    assert [i][1..] == [] && [j][1..] == [] && [i, j][1..] == [j];
    assert WordCount([j]) == Words(j);
  }

  lemma AtThree(code: Code, a: int, i: Instr, j: Instr, k: Instr)
    requires At(code, a, [i, j, k])
    ensures a in code && code[a] == i
    ensures var b := a + 4 * Words(i); var c := b + 4 * Words(j); b in code && code[b] == j && c in code && code[c] == k
  {
    hide Words;
    var b := a + 4 * Words(i);
    assert [i, j, k][1..] == [j, k] && [j, k][1..] == [k];
    assert At(code, b, [j, k]);
    assert At(code, b + 4 * Words(j), [k]);
  }

  lemma AtTwo(code: Code, a: int, i: Instr, j: Instr)
    requires At(code, a, [i] + [j])
    ensures a in code && code[a] == i && a + 4 * Words(i) in code && code[a + 4 * Words(i)] == j
  {
    hide Words;
    AtAppend(code, a, [i], [j]);
    WordCountShort(i, j);
  }
}
