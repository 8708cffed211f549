/** Every random program halts, and its memory traffic stays confined. */
module RandRuns {
  import opened Bits
  import opened Isa
  import opened Machine
  import opened Monitor
  import opened RandShape

  datatype Ctx = Ctx(code: Code, dev: Device, top: u32, register: int, leaves: seq<Leaf>, fa: seq<int>, window: nat)
  {
    function M(): Setup { Setup(code, dev, Limits(DATA, DATA + window, top, 16, 32, register)) }
  }

  /** The stack is 8-aligned and above the data window; the leaf functions are in place. */
  ghost predicate Good(x: Ctx) {
    && x.top % 8 == 0 && DUMPED <= x.window && DATA + x.window + 32 <= x.top < MMIO
    && |x.leaves| == 3 && |x.fa| == 3
    && forall k :: 0 <= k < 3 ==>
      LeafOk(x.leaves[k]) && 0 <= x.fa[k] && x.fa[k] % 4 == 0 && x.fa[k] + 4 * LeafWords(x.leaves[k]) < DATA
      && At(x.code, x.fa[k], FlatLeaf(x.leaves[k]))
  }

  /** Nothing wrong so far, and between two items of the main program. */
  predicate Sound(x: Ctx, c: Cfg) {
    c.ok && c.s.st == Running && x.top - 32 <= c.s.sp <= x.top && c.s.sp % 8 == 0
  }

  predicate Alive(x: Ctx, c: Cfg) {
    Sound(x, c) && c.s.r[12] == DATA
  }

  predicate Ready(x: Ctx, c: Cfg) {
    Alive(x, c) && c.s.sp == x.top && c.calls == [] && c.live == {}
  }

  /** One or two dwords pushed. */
  predicate OnStack(x: Ctx, c: Cfg, n: nat) {
    c.live == if n == 1 then {x.top - 8} else {x.top - 8, x.top - 16}
  }

  /** Only data and scratch registers differ. */
  predicate Kept(r: Regs, r': Regs) {
    forall k :: 0 <= k < 16 && !Scratch(k) ==> r'[k] == r[k]
  }

  lemma GoodTop(x: Ctx)
    requires Good(x)
    ensures x.top % 8 == 0 && DUMPED <= x.window && DATA + x.window + 32 <= x.top < MMIO
  {
    hide LeafOk, At;
  }

  lemma DataStep(x: Ctx, c: Cfg, i: Instr)
    requires Sound(x, c) && c.s.pc < DATA && c.s.pc in x.code && x.code[c.s.pc] == i && IsData(i)
    ensures var d := NextCfg(x.M(), c);
      && d.ok && d.calls == c.calls && d.live == c.live
      && d.s == c.s.(r := d.s.r, fl := d.s.fl, pc := c.s.pc + 4 * Words(i))
      && d.s.r == (if WritesRd(i) then c.s.r[i.rd := Data(i, c.s.r, c.s.pc, c.s.fl).0] else c.s.r)
      && d.s.fl == Data(i, c.s.r, c.s.pc, c.s.fl).1
  {
    hide Data;
    assert Fine(x.M(), c);
  }

  lemma PlainWrites(i: Instr)
    requires PlainOk(i) || SimpleOk(i)
    ensures IsData(i) && (WritesRd(i) ==> Scratch(i.rd))
  {
  }

  lemma {:induction false} RunData(x: Ctx, c: Cfg, ins: seq<Instr>)
    requires Alive(x, c) && c.s.pc + 4 * WordCount(ins) < DATA && At(x.code, c.s.pc, ins)
    requires forall k :: 0 <= k < |ins| ==> PlainOk(ins[k]) || SimpleOk(ins[k])
    ensures var d := Run(x.M(), c, |ins|);
      && Alive(x, d) && d.calls == c.calls && d.live == c.live && Kept(c.s.r, d.s.r)
      && d.s == c.s.(r := d.s.r, fl := d.s.fl, pc := c.s.pc + 4 * WordCount(ins))
    decreases |ins|
  {
    hide Data, Words, PlainOk, SimpleOk, NextCfg, LeafOk, IsData, Legal;
    if ins != [] {
      var i := ins[0];
      PlainWrites(i);
      DataStep(x, c, i);
      RunData(x, NextCfg(x.M(), c), ins[1..]);
    }
  }

  // ---- leaf functions

  lemma CallStep(x: Ctx, c: Cfg, disp: u18, ra: int)
    requires Good(x) && Ready(x, c) && c.s.pc + 4 == ra < DATA && c.s.pc in x.code
    requires x.code[c.s.pc] == Br(true, 0, false, disp)
    ensures var d := NextCfg(x.M(), c);
      && d.ok && d.calls == [ra] && d.live == {x.top - 8}
      && d.s == c.s.(sp := x.top - 8, mem := Store64(c.s.mem, x.top - 8, ra), pc := Wrap32(c.s.pc + 4 * Signed(disp, 0x2_0000)))
  {
    hide Store64, Data, Good;
    GoodTop(x);
    assert Next(x.code[c.s.pc], c.s) == ra;
    assert Fine(x.M(), c);
  }

  lemma RetStep(x: Ctx, c: Cfg, ra: int)
    requires Alive(x, c) && Good(x) && c.s.sp == x.top - 8 && c.calls == [ra] && 0 <= ra < DATA
    requires c.s.pc in x.code && x.code[c.s.pc] == Ret && Load64(c.s.mem, x.top - 8) == ra
    requires OnStack(x, c, 1)
    ensures var d := NextCfg(x.M(), c);
      d.ok && d.calls == [] && d.live == {} && d.s == c.s.(sp := x.top, pc := ra)
  {
    hide Load64, Data, Good;
    GoodTop(x);
    assert Step(x.code, x.dev, c.s).pc == ra;
    assert Fine(x.M(), c);
  }

  lemma ExecEnter(s: State, dev: Device, top: u32, n: u22)
    requires top % 8 == 0 && 32 <= top && s.sp == top - 8 && n <= 2 && s.pc + 4 < U32
    ensures Exec(Enter(n), s, dev)
      == s.(r := s.r[15 := top - 16], sp := top - 16 - 8 * n, mem := Store64(s.mem, top - 16, s.r[15]), pc := s.pc + 4)
  {
    hide Store64, Data;
  }

  lemma EnterStep(x: Ctx, c: Cfg, n: u22)
    requires Alive(x, c) && Good(x) && c.s.sp == x.top - 8 && c.s.pc < DATA && n <= 2
    requires c.s.pc in x.code && x.code[c.s.pc] == Enter(n)
    ensures var d := NextCfg(x.M(), c);
      && d.ok && d.calls == c.calls && d.live == c.live + {x.top - 16}
      && d.s == c.s.(r := c.s.r[15 := x.top - 16], sp := x.top - 16 - 8 * n,
                     mem := Store64(c.s.mem, x.top - 16, c.s.r[15]), pc := c.s.pc + 4)
  {
    hide Store64, Exec, Good;
    GoodTop(x);
    ExecEnter(c.s, x.dev, x.top, n);
    assert Fine(x.M(), c);
  }

  lemma ExecLeave(s: State, dev: Device, top: u32)
    requires top % 8 == 0 && 16 <= top && s.r[15] == top - 16 && s.pc + 4 < U32
    ensures Exec(Isa.Leave, s, dev) == s.(r := s.r[15 := Load64(s.mem, top - 16)], sp := top - 8, pc := s.pc + 4)
  {
    hide Load64;
  }

  lemma LeaveStep(x: Ctx, c: Cfg)
    requires Alive(x, c) && Good(x) && c.s.r[15] == x.top - 16 && c.s.pc < DATA
    requires c.s.pc in x.code && x.code[c.s.pc] == Isa.Leave && OnStack(x, c, 2)
    ensures var d := NextCfg(x.M(), c);
      && d.ok && d.calls == c.calls && OnStack(x, d, 1)
      && d.s == c.s.(r := c.s.r[15 := Load64(c.s.mem, x.top - 16)], sp := x.top - 8, pc := c.s.pc + 4)
  {
    hide Load64, Exec, Good;
    GoodTop(x);
    ExecLeave(c.s, x.dev, x.top);
    assert Fine(x.M(), c);
  }

  lemma ExecLeaveRet(s: State, dev: Device, top: u32)
    requires top % 8 == 0 && 16 <= top && s.r[15] == top - 16
    ensures Exec(LeaveRet, s, dev)
      == s.(r := s.r[15 := Load64(s.mem, top - 16)], pc := Load64(s.mem, top - 8) % U32, sp := top)
  {
    hide Load64;
  }

  lemma LeaveRetStep(x: Ctx, c: Cfg, ra: int)
    requires Alive(x, c) && Good(x) && c.s.r[15] == x.top - 16 && c.calls == [ra] && 0 <= ra < DATA
    requires c.s.pc in x.code && x.code[c.s.pc] == LeaveRet && Load64(c.s.mem, x.top - 8) == ra && OnStack(x, c, 2)
    ensures var d := NextCfg(x.M(), c);
      && d.ok && d.calls == [] && d.live == {}
      && d.s == c.s.(r := c.s.r[15 := Load64(c.s.mem, x.top - 16)], sp := x.top, pc := ra)
  {
    hide Load64, Exec, Good, Fine;
    LeaveRetFine(x, c, ra);
    GoodTop(x);
    ExecLeaveRet(c.s, x.dev, x.top);
  }

  lemma LeaveRetFine(x: Ctx, c: Cfg, ra: int)
    requires Alive(x, c) && Good(x) && c.s.r[15] == x.top - 16 && c.calls == [ra] && 0 <= ra < DATA
    requires c.s.pc in x.code && x.code[c.s.pc] == LeaveRet && Load64(c.s.mem, x.top - 8) == ra && OnStack(x, c, 2)
    ensures Fine(x.M(), c)
  {
    hide Load64, Exec, Good;
    GoodTop(x);
    ExecLeaveRet(c.s, x.dev, x.top);
    assert AccessFine(x.M().b, LeaveRet, c.s, c.live);
  }

  /** Between CALL and return: the leaf changes scratch registers and flags only. */
  lemma RunBareLeaf(x: Ctx, c: Cfg, f: Leaf, ra: int) returns (n: nat)
    requires Good(x) && LeafOk(f) && f.frame.None? && Alive(x, c)
    requires c.s.sp == x.top - 8 && c.calls == [ra] && 0 <= ra < DATA && Load64(c.s.mem, x.top - 8) == ra
    requires OnStack(x, c, 1)
    requires At(x.code, c.s.pc, FlatLeaf(f)) && c.s.pc + 4 * LeafWords(f) < DATA
    ensures var d := Run(x.M(), c, n);
      Ready(x, d) && Kept(c.s.r, d.s.r) && d.s.pc == ra
  {
    hide NextCfg, Load64, Data, PlainOk, SimpleOk, Words, Store64;
    AtAppend(x.code, c.s.pc, f.body, [Ret]);
    RunData(x, c, f.body);
    var d := Run(x.M(), c, |f.body|);
    RetStep(x, d, ra);
    RunOne(x.M(), d);
    RunAdd(x.M(), c, |f.body|, 1);
    n := |f.body| + 1;
  }

  lemma FrameBody(x: Ctx, c: Cfg, n: u22, body: seq<Instr>)
    requires Good(x) && Alive(x, c) && n <= 2 && forall k :: 0 <= k < |body| ==> SimpleOk(body[k])
    requires c.s.sp == x.top - 8 && c.s.pc + 4 + 4 * WordCount(body) < DATA
    requires At(x.code, c.s.pc, [Enter(n)] + body)
    requires OnStack(x, c, 1)
    ensures var d := Run(x.M(), c, 1 + |body|);
      && Alive(x, d) && d.calls == c.calls && OnStack(x, d, 2) && d.s.pc == c.s.pc + 4 + 4 * WordCount(body)
      && d.s.r[15] == x.top - 16 && Kept(c.s.r[15 := x.top - 16], d.s.r)
      && Load64(d.s.mem, x.top - 16) == c.s.r[15]
      && Load64(d.s.mem, x.top - 8) == Load64(c.s.mem, x.top - 8)
  {
    hide NextCfg, Load64, Data, PlainOk, SimpleOk, Store64, LeafOk;
    AtAppend(x.code, c.s.pc, [Enter(n)], body);
    EnterStep(x, c, n);
    var d := NextCfg(x.M(), c);
    RunData(x, d, body);
    Load64Store64(c.s.mem, x.top - 16, c.s.r[15]);
    Load64Other(c.s.mem, x.top - 16, c.s.r[15], x.top - 8);
  }

  /** The frame is in place: r15 at top-16, the caller's r15 and return address above it. */
  predicate InFrame(x: Ctx, d: Cfg, fp: u64, ra: int) {
    && Alive(x, d) && d.calls == [ra] && OnStack(x, d, 2) && 0 <= ra < DATA && d.s.r[15] == x.top - 16
    && Load64(d.s.mem, x.top - 16) == fp && Load64(d.s.mem, x.top - 8) == ra
  }

  lemma ExitFrame(x: Ctx, d: Cfg, split: bool, fp: u64, ra: int) returns (n: nat)
    requires Good(x) && InFrame(x, d, fp, ra) && d.s.pc + (if split then 8 else 4) < DATA
    requires At(x.code, d.s.pc, if split then [Isa.Leave, Ret] else [LeaveRet])
    ensures var e := Run(x.M(), d, n);
      Ready(x, e) && e.s.r == d.s.r[15 := fp] && e.s.pc == ra
  {
    hide NextCfg, Load64, Data, LeafOk;
    RunOne(x.M(), d);
    if split {
      assert At(x.code, d.s.pc + 4, [Isa.Leave, Ret][1..]);
      LeaveStep(x, d);
      RetStep(x, NextCfg(x.M(), d), ra);
      RunNext(x.M(), d, 1);
      n := 2;
    } else {
      LeaveRetStep(x, d, ra);
      n := 1;
    }
  }

  lemma FrameWords(n: u22)
    ensures Words(Enter(n)) == 1 && Words(Isa.Leave) == 1 && Words(LeaveRet) == 1 && Words(Ret) == 1
  {
  }

  lemma FramedParts(code: Code, a: int, f: Leaf)
    requires f.frame.Some? && At(code, a, FlatLeaf(f))
    ensures At(code, a, [Enter(f.frame.value)] + f.body)
    ensures At(code, a + 4 + 4 * WordCount(f.body), if f.split then [Isa.Leave, Ret] else [LeaveRet])
    ensures LeafWords(f) == 1 + WordCount(f.body) + (if f.split then 2 else 1)
  {
    hide At, WordCount, LeafOk, Words;
    var n := f.frame.value;
    var enter := [Enter(n)];
    var tail := if f.split then [Isa.Leave, Ret] else [LeaveRet];
    FrameWords(n);
    WordCountShort(Enter(n), Ret);
    WordCountShort(Isa.Leave, Ret);
    WordCountShort(LeaveRet, Ret);
    AtAppend(code, a, enter + f.body, tail);
    AtAppend(code, a, enter, f.body);
  }

  lemma RunFramedLeaf(x: Ctx, c: Cfg, f: Leaf, ra: int) returns (n: nat)
    requires Good(x) && LeafOk(f) && f.frame.Some? && Alive(x, c)
    requires c.s.sp == x.top - 8 && c.calls == [ra] && 0 <= ra < DATA && Load64(c.s.mem, x.top - 8) == ra
    requires OnStack(x, c, 1)
    requires At(x.code, c.s.pc, FlatLeaf(f)) && c.s.pc + 4 * LeafWords(f) < DATA
    ensures var d := Run(x.M(), c, n);
      Ready(x, d) && Kept(c.s.r, d.s.r) && d.s.pc == ra
  {
    hide NextCfg, Load64, SimpleOk, Good, Run, At, WordCount, FlatLeaf, LeafWords;
    FramedParts(x.code, c.s.pc, f);
    FrameBody(x, c, f.frame.value, f.body);
    var k := 1 + |f.body|;
    var m := ExitFrame(x, Run(x.M(), c, k), f.split, c.s.r[15], ra);
    RunAdd(x.M(), c, k, m);
    n := k + m;
  }

  // ---- items of the main program

  /** Forward progress by some words, with nothing kept but what matters. */
  predicate Moved(x: Ctx, c: Cfg, d: Cfg, words: nat) {
    Ready(x, d) && Kept(c.s.r, d.s.r) && d.s.pc == c.s.pc + 4 * words
  }

  lemma MemoryStep(x: Ctx, c: Cfg, i: Instr)
    requires Good(x) && Ready(x, c) && c.s.pc + 4 * Words(i) < DATA && c.s.pc in x.code && x.code[c.s.pc] == i
    requires (i.Load? || i.Store?) && (i.Load? ==> Scratch(i.rd))
    requires var a := EffAddr(i, c.s.r); DATA <= a && a + Bytes(i.size) <= DATA + x.window && !Misaligned(i, a)
    ensures Moved(x, c, NextCfg(x.M(), c), Words(i))
  {
    hide LeafOk, At, StoreLe, LoadLe, Misaligned, EffAddr, ExtendLoad;
    assert Fine(x.M(), c);
  }

  lemma WindowAddress(w: nat, size: Size, o: int)
    requires AccessOk(w, size, o)
    ensures Wrap32(DATA + o) == DATA + o
    ensures size == 1 ==> (DATA + o) % 2 == 0
    ensures size == 2 ==> (DATA + o) % 4 == 0
    ensures size == 3 ==> Align8(DATA + o) == DATA + o
  {
    InSpace(DATA + o);
    if size == 1 {
      Beyond(o, 2, DATA / 2);
    } else if size == 2 {
      Beyond(o, 4, DATA / 4);
    } else if size == 3 {
      Beyond(o, 8, DATA / 8);
    }
  }

  lemma InSpace(a: int)
    requires 0 <= a < U32
    ensures Wrap32(a) == a
  {
  }

  lemma Beyond(o: int, k: nat, q: nat)
    requires k > 0 && o % k == 0
    ensures (q * k + o) % k == 0
  {
    assert q * k + o == 0 + (q + o / k) * k;
    DivModUnique(q + o / k, 0, k);
  }

  lemma DirectAddress(w: nat, i: Instr, r: Regs)
    requires DirectOk(w, i) && r[12] == DATA
    ensures EffAddr(i, r) == DATA + DirectOffset(i) && !Misaligned(i, EffAddr(i, r))
  {
    hide Legal, AccessOk, Align8, Wrap32, Bytes, Signed;
    WindowAddress(w, i.size, DirectOffset(i));
  }

  lemma IndexedAddress(w: nat, i: Instr, r: Regs, o: int)
    requires (i.Load? || i.Store?) && i.ea == Indexed(12, 13) && AccessOk(w, i.size, o) && r[12] == DATA && r[13] == o
    ensures EffAddr(i, r) == DATA + o && !Misaligned(i, EffAddr(i, r))
  {
    hide AccessOk, Align8, Wrap32, Bytes;
    WindowAddress(w, i.size, o);
  }

  lemma SetStep(x: Ctx, c: Cfg, rd: Reg, v: u32)
    requires Good(x) && Ready(x, c) && c.s.pc + 8 < DATA && c.s.pc in x.code && x.code[c.s.pc] == SetR(false, rd, v)
    requires rd != 12
    ensures var d := NextCfg(x.M(), c);
      Ready(x, d) && d.s.r == c.s.r[rd := v] && d.s.pc == c.s.pc + 8
  {
    hide LeafOk, At, NextCfg, Good;
    DataStep(x, c, SetR(false, rd, v));
  }

  lemma RunPair(x: Ctx, c: Cfg, v: u32, i: Instr)
    requires Good(x) && Ready(x, c) && c.s.pc + 8 + 4 * Words(i) < DATA && At(x.code, c.s.pc, [SetR(false, 13, v), i])
    requires (i.Load? || i.Store?) && (i.Load? ==> Scratch(i.rd))
    requires var a := EffAddr(i, c.s.r[13 := v]); DATA <= a && a + Bytes(i.size) <= DATA + x.window && !Misaligned(i, a)
    ensures Moved(x, c, Run(x.M(), c, 2), 2 + Words(i))
  {
    hide LeafOk, NextCfg, Good, Words, EffAddr, Misaligned, Bytes;
    assert At(x.code, c.s.pc + 8, [SetR(false, 13, v), i][1..]) by { SetWords(13, v); }
    assert [SetR(false, 13, v), i][1..] == [i];
    SetStep(x, c, 13, v);
    MemoryStep(x, NextCfg(x.M(), c), i);
    RunOne(x.M(), c);
    RunNext(x.M(), c, 1);
  }

  lemma SetWords(rd: Reg, v: u32)
    ensures Words(SetR(false, rd, v)) == 2
  {
  }

  lemma BracketSteps(x: Ctx, c: Cfg, src: Reg, mid: Instr, dst: Reg)
    requires Good(x) && Ready(x, c) && SimpleOk(mid) && 1 <= dst <= 10 && c.s.pc + 12 < DATA
    requires At(x.code, c.s.pc, [Push(src), mid, Pop(dst)])
    ensures Moved(x, c, Run(x.M(), c, 3), 3)
  {
    hide LeafOk, Data, NextCfg, Good, Run;
    AtThree(x.code, c.s.pc, Push(src), mid, Pop(dst));
    var d := NextCfg(x.M(), c);
    var e := NextCfg(x.M(), d);
    PushStep(x, c, src);
    DataStep(x, d, mid);
    PopStep(x, e, dst);
    RunOne(x.M(), c);
    RunNext(x.M(), c, 1);
    RunNext(x.M(), c, 2);
  }

  lemma PushStep(x: Ctx, c: Cfg, src: Reg)
    requires Good(x) && Ready(x, c) && c.s.pc + 4 < DATA && c.s.pc in x.code && x.code[c.s.pc] == Push(src)
    ensures var d := NextCfg(x.M(), c);
      && d.ok && d.calls == c.calls && OnStack(x, d, 1)
      && d.s == c.s.(sp := x.top - 8, mem := d.s.mem, pc := c.s.pc + 4)
  {
    hide Store64, Good;
    GoodTop(x);
    assert Fine(x.M(), c);
  }

  lemma PopStep(x: Ctx, c: Cfg, dst: Reg)
    requires Good(x) && Alive(x, c) && c.s.sp == x.top - 8 && c.s.pc + 4 < DATA
    requires c.s.pc in x.code && x.code[c.s.pc] == Pop(dst) && OnStack(x, c, 1)
    ensures var d := NextCfg(x.M(), c);
      && d.ok && d.calls == c.calls && d.live == {}
      && d.s == c.s.(r := d.s.r, sp := x.top, pc := c.s.pc + 4)
      && d.s.r == c.s.r[dst := d.s.r[dst]]
  {
    hide Load64, Good;
    GoodTop(x);
    assert Fine(x.M(), c);
  }

  lemma DispTarget(a: int, t: int)
    requires 0 <= a < DATA && 0 <= t < DATA && (t - a) % 4 == 0
    ensures Wrap32(a + 4 * Signed(Disp18(a, t), 0x2_0000)) == t
    ensures -0x4000 <= t - a < 0x4000 ==> Wrap32(a + 4 * Signed(Disp13(a, t), 0x1000)) == t
  {
    var w := (t - a) / 4;
    assert t - a == 4 * w;
    SignedMod(w, 0x2_0000);
    if -0x4000 <= t - a < 0x4000 {
      SignedMod(w, 0x1000);
    }
    InSpace(t);
  }

  lemma SignedMod(w: int, half: int)
    requires half > 0 && -half <= w < half
    ensures Signed(w % (2 * half), half) == w
  {
    if w >= 0 {
      DivModUnique(0, w, 2 * half);
    } else {
      DivModUnique(-1, w + 2 * half, 2 * half);
    }
  }

  /** The call leads to its leaf, with the return address on the stack. */
  lemma LeafEntered(x: Ctx, c: Cfg, f: nat)
    requires Good(x) && Ready(x, c) && f < 3 && c.s.pc + 4 < DATA && c.s.pc % 4 == 0
    requires c.s.pc in x.code && |x.fa| == |x.leaves| == 3 && x.code[c.s.pc] == Br(true, 0, false, Disp18(c.s.pc, x.fa[f]))
    ensures var d, ra := NextCfg(x.M(), c), c.s.pc + 4;
      && Alive(x, d) && d.s.sp == x.top - 8 && d.calls == [ra] && Load64(d.s.mem, x.top - 8) == ra && OnStack(x, d, 1)
      && d.s.r == c.s.r && LeafOk(x.leaves[f])
      && At(x.code, d.s.pc, FlatLeaf(x.leaves[f])) && d.s.pc + 4 * LeafWords(x.leaves[f]) < DATA
  {
    hide LeafOk, NextCfg, At, Load64, Store64, Disp18, Signed, LeafWords, FlatLeaf;
    var ra := c.s.pc + 4;
    DispTarget(c.s.pc, x.fa[f]);
    CallStep(x, c, Disp18(c.s.pc, x.fa[f]), ra);
    Load64Store64(c.s.mem, x.top - 8, ra);
  }

  lemma RunCall(x: Ctx, c: Cfg, f: nat) returns (n: nat)
    requires Good(x) && Ready(x, c) && f < 3 && c.s.pc + 4 < DATA && c.s.pc % 4 == 0
    requires c.s.pc in x.code && |x.fa| == |x.leaves| == 3 && x.code[c.s.pc] == Br(true, 0, false, Disp18(c.s.pc, x.fa[f]))
    ensures Moved(x, c, Run(x.M(), c, n), 1)
  {
    hide Good, LeafOk, NextCfg, At, Load64, Run, Disp18, FlatLeaf, LeafWords;
    var ra := c.s.pc + 4;
    LeafEntered(x, c, f);
    var leaf, d := x.leaves[f], NextCfg(x.M(), c);
    var m;
    if leaf.frame.None? {
      m := RunBareLeaf(x, d, leaf, ra);
    } else {
      m := RunFramedLeaf(x, d, leaf, ra);
    }
    RunOne(x.M(), c);
    RunAdd(x.M(), c, 1, m);
    n := 1 + m;
  }

  lemma RunItem(x: Ctx, c: Cfg, it: Item) returns (n: nat)
    requires Good(x) && Ready(x, c) && ItemOk(x.window, it) && c.s.pc + 4 * ItemWords(it) < DATA && c.s.pc % 4 == 0
    requires At(x.code, c.s.pc, FlatItem(it, c.s.pc, x.fa))
    ensures Moved(x, c, Run(x.M(), c, n), ItemWords(it))
  {
    hide LeafOk, NextCfg, Good, Run, Words, PlainOk, DirectOk, SimpleOk, AccessOk, EffAddr, Misaligned;
    RunOne(x.M(), c);
    match it {
      case Plain(i) =>
        PlainWrites(i);
        DataStep(x, c, i);
        n := 1;
      case Direct(i) =>
        DirectStep(x, c, i);
        n := 1;
      case ViaR13(o, i) =>
        IndexedAddress(x.window, i, c.s.r[13 := o], o);
        WindowInside(x.window, i.size, o);
        RunPair(x, c, o, i);
        n := 2;
      case Unaligned(o, rd) =>
        var i := Load(2, false, false, rd, Base(13));
        UnalignedAddress(i, c.s.r, o);
        WindowDumped(x);
        RunPair(x, c, (DATA + o) % U32, i);
        n := 2;
      case Bracket(src, mid, dst) =>
        SimpleWords(mid);
        BracketSteps(x, c, src, mid, dst);
        n := 3;
      case CallLeaf(f) =>
        LeafCount(x);
        n := RunCall(x, c, f);
    }
  }

  lemma WindowInside(w: nat, size: Size, o: int)
    requires AccessOk(w, size, o)
    ensures 0 <= o && o + Bytes(size) <= w <= WIDEST
  {
  }

  lemma WindowDumped(x: Ctx)
    requires Good(x)
    ensures DUMPED <= x.window
  {
  }

  lemma SimpleWords(i: Instr)
    requires SimpleOk(i)
    ensures Words(i) == 1
  {
  }

  lemma UnalignedAddress(i: Instr, r: Regs, o: nat)
    requires o < 0x7F8 && i.Load? && i.size == 2 && !i.sgn && i.ea == Base(13)
    ensures Words(i) == 1 && Bytes(i.size) == 4
    ensures var r' := r[13 := (DATA + o) % U32]; EffAddr(i, r') == DATA + o && !Misaligned(i, DATA + o)
  {
  }

  lemma DirectStep(x: Ctx, c: Cfg, i: Instr)
    requires Good(x) && Ready(x, c) && DirectOk(x.window, i) && c.s.pc + 4 * Words(i) < DATA
    requires c.s.pc in x.code && x.code[c.s.pc] == i
    ensures Moved(x, c, NextCfg(x.M(), c), Words(i))
  {
    hide LeafOk, NextCfg, Good, AccessOk, EffAddr, Misaligned, Words;
    DirectAddress(x.window, i, c.s.r);
    WindowInside(x.window, i.size, DirectOffset(i));
    MemoryStep(x, c, i);
  }

  lemma {:induction false} RunItems(x: Ctx, c: Cfg, its: seq<Item>) returns (n: nat)
    requires Good(x) && Ready(x, c) && ItemsOk(x.window, its) && c.s.pc + 4 * ItemsWords(its) < DATA && c.s.pc % 4 == 0
    requires At(x.code, c.s.pc, FlatItems(its, c.s.pc, x.fa))
    ensures Moved(x, c, Run(x.M(), c, n), ItemsWords(its))
    decreases |its|
  {
    hide Good, Run, ItemOk, Words, At, FlatItem, ItemWords;
    if its == [] {
      n := 0;
      RunNone(x.M(), c);
    } else {
      var w := ItemWords(its[0]);
      FlatItemWords(its[0], c.s.pc, x.fa);
      AtAppend(x.code, c.s.pc, FlatItem(its[0], c.s.pc, x.fa), FlatItems(its[1..], c.s.pc + 4 * w, x.fa));
      var k := RunItem(x, c, its[0]);
      var m := RunItems(x, Run(x.M(), c, k), its[1..]);
      RunAdd(x.M(), c, k, m);
      n := k + m;
    }
  }

  lemma FlatItemWords(it: Item, a: int, fa: seq<int>)
    ensures WordCount(FlatItem(it, a, fa)) == ItemWords(it)
  {
    hide Words, WordCount;
    match it
    case Plain(i) => WordCountShort(i, i);
    case Direct(i) => WordCountShort(i, i);
    case ViaR13(o, i) => WordCountShort(SetR(false, 13, o), i); SetWords(13, o);
    case Unaligned(o, rd) =>
      var i := Load(2, false, false, rd, Base(13));
      var v := (DATA + o) % U32;
      WordCountShort(SetR(false, 13, v), i);
      SetWords(13, v);
      LoadWords(rd);
    case Bracket(src, mid, dst) => BracketWords(src, mid, dst);
    case CallLeaf(f) =>
      var d := if f < |fa| then Disp18(a, fa[f]) else 0;
      WordCountShort(Br(true, 0, false, d), Ret);
      BrWords(true, d);
  }

  lemma LoadWords(rd: Reg)
    ensures Words(Load(2, false, false, rd, Base(13))) == 1
  {
  }

  lemma BrWords(link: bool, d: u18)
    ensures Words(Br(link, 0, false, d)) == 1
  {
  }

  lemma BracketWords(src: Reg, mid: Instr, dst: Reg)
    ensures WordCount([Push(src), mid, Pop(dst)]) == 2 + Words(mid)
  {
    assert [Push(src), mid, Pop(dst)][1..] == [mid, Pop(dst)];
    WordCountShort(mid, Pop(dst));
  }

  lemma LeafCount(x: Ctx)
    requires Good(x)
    ensures |x.fa| == 3 && |x.leaves| == 3
  {
  }

  // ---- blocks

  /** A jump or fused branch moves the PC only. */
  lemma BranchStep(x: Ctx, c: Cfg, i: Instr)
    requires Sound(x, c) && (i.Fbr? || (i.Br? && !i.link)) && c.s.pc + 4 * Words(i) < DATA
    requires c.s.pc in x.code && x.code[c.s.pc] == i
    ensures var d := NextCfg(x.M(), c);
      && d.ok && d.calls == c.calls && d.live == c.live
      && d.s == c.s.(pc := if Taken(i, c.s) then BranchTarget(i, c.s) else c.s.pc + 4 * Words(i))
  {
    hide BranchTarget, Taken, Data;
    assert !Calls(i, c.s);
    assert Fine(x.M(), c);
  }

  lemma TestTarget(a: int, t: int, i: Instr, s: State)
    requires 0 <= a < DATA && 0 <= t < DATA && (t - a) % 4 == 0 && s.pc == a
    requires (i.Br? && i.disp == Disp18(a, t)) || (i.Fbr? && i.disp13 == Disp13(a, t) && -0x4000 <= t - a < 0x4000)
    ensures BranchTarget(i, s) == t
  {
    DispTarget(a, t);
  }

  lemma FusedTail(x: Ctx, c: Cfg, top: int)
    requires Ready(x, c) && 1 <= c.s.r[11] && 0 <= top <= c.s.pc && c.s.pc - top < 0x1000
    requires c.s.pc + 8 < DATA && top % 4 == 0 && c.s.pc % 4 == 0
    requires At(x.code, c.s.pc, [AluIS(0, true, 11, 11, 0xFF)] + [Fbr(0, true, 11, Imm4(0), Disp13(c.s.pc + 4, top))])
    ensures var d := Run(x.M(), c, 2);
      && Ready(x, d) && d.s.r == c.s.r[11 := c.s.r[11] - 1]
      && d.s.pc == if d.s.r[11] != 0 then top else c.s.pc + 8
  {
    hide NextCfg, Run, Words, Disp13, BranchTarget, Data, At;
    var a, b := AluIS(0, true, 11, 11, 0xFF), Fbr(0, true, 11, Imm4(0), Disp13(c.s.pc + 4, top));
    var d := NextCfg(x.M(), c);
    RunOne(x.M(), c);
    RunNext(x.M(), c, 1);
    EndWords();
    AtTwo(x.code, c.s.pc, a, b);
    TestWords(b);
    DataStep(x, c, a);
    DecrementValue(c.s.r, c.s.pc, c.s.fl);
    BranchStep(x, d, b);
    TestTarget(d.s.pc, top, b, d.s);
  }

  lemma FlaggedTail(x: Ctx, c: Cfg, top: int)
    requires Ready(x, c) && 1 <= c.s.r[11] && 0 <= top <= c.s.pc && c.s.pc - top < 0x1000
    requires c.s.pc + 12 < DATA && top % 4 == 0 && c.s.pc % 4 == 0
    requires At(x.code, c.s.pc, [AluIS(0, true, 11, 11, 0xFF), CmpIS(false, 11, 0), Br(false, 1, true, Disp18(c.s.pc + 8, top))])
    ensures var d := Run(x.M(), c, 3);
      && Ready(x, d) && d.s.r == c.s.r[11 := c.s.r[11] - 1]
      && d.s.pc == if d.s.r[11] != 0 then top else c.s.pc + 12
  {
    hide NextCfg, Run, Words, Disp18, BranchTarget, Data, At;
    var a, b, j := AluIS(0, true, 11, 11, 0xFF), CmpIS(false, 11, 0), Br(false, 1, true, Disp18(c.s.pc + 8, top));
    var d := NextCfg(x.M(), c);
    var e := NextCfg(x.M(), d);
    RunOne(x.M(), c);
    RunNext(x.M(), c, 1);
    RunNext(x.M(), c, 2);
    EndWords();
    AtThree(x.code, c.s.pc, a, b, j);
    TestWords(j);
    DataStep(x, c, a);
    DecrementValue(c.s.r, c.s.pc, c.s.fl);
    DataStep(x, d, b);
    CompareValue(d.s.r, d.s.pc, d.s.fl);
    BranchStep(x, e, j);
    TestTarget(e.s.pc, top, j, e.s);
  }

  lemma EndWords()
    ensures Words(AluIS(0, true, 11, 11, 0xFF)) == 1 && Words(CmpIS(false, 11, 0)) == 1
  {
  }

  lemma TestWords(i: Instr)
    requires i.Br? || (i.Fbr? && !i.rhs.Imm32?)
    ensures Words(i) == 1
  {
  }

  lemma DecrementValue(r: Regs, pc: u32, fl: Flags)
    requires r[11] >= 1
    ensures Data(AluIS(0, true, 11, 11, 0xFF), r, pc, fl).0 == r[11] - 1
  {
    hide Bitwise;
  }

  lemma CompareValue(r: Regs, pc: u32, fl: Flags)
    ensures Data(CmpIS(false, 11, 0), r, pc, fl).1.z == (r[11] == 0)
  {
    hide Bitwise;
  }

  /** Increasing step counts at which the run is back at the loop's top, with
      count, count - 1, ..., 1 left in r11. */
  ghost predicate Passes(m: Setup, c: Cfg, ts: seq<nat>, n: nat) {
    && |ts| == c.s.r[11] && (forall k :: 0 < k < |ts| ==> ts[k - 1] < ts[k])
    && forall k :: 0 <= k < |ts| ==>
      ts[k] < n && Run(m, c, ts[k]).s.pc == c.s.pc && Run(m, c, ts[k]).s.r[11] == |ts| - k
  }

  /** The first pass, then the later ones t steps on. */
  function Onward(ts: seq<nat>, t: nat): (us: seq<nat>)
    ensures |us| == |ts| + 1 && us[0] == 0 && forall k :: 0 < k < |us| ==> us[k] == ts[k - 1] + t
  {
    [0] + seq(|ts|, k requires 0 <= k < |ts| => ts[k] + t)
  }

  lemma PassesNext(m: Setup, c: Cfg, t: nat, ts: seq<nat>, n: nat)
    requires var e, k: int := Run(m, c, t), c.s.r[11];
      t > 0 && Passes(m, e, ts, n) && e.s.pc == c.s.pc && e.s.r[11] == k - 1 >= 1
    ensures Passes(m, c, Onward(ts, t), t + n)
  {
    hide NextCfg, Run, Onward;
    var us := Onward(ts, t);
    RunNone(m, c);
    forall k | 0 <= k < |us|
      ensures us[k] < t + n && Run(m, c, us[k]).s.pc == c.s.pc && Run(m, c, us[k]).s.r[11] == |us| - k
    {
      if k > 0 {
        assert ts[k - 1] < n;
        RunAdd(m, c, t, ts[k - 1]);
      }
    }
    forall k | 0 < k < |us|
      ensures us[k - 1] < us[k]
    {
      if k > 1 {
        assert ts[k - 2] < ts[k - 1];
      }
    }
  }

  ghost predicate AtLoop(x: Ctx, c: Cfg, its: seq<Item>, fused: bool) {
    && Good(x) && Ready(x, c) && ItemsOk(x.window, its) && 1 <= c.s.r[11] && c.s.pc % 4 == 0
    && ItemsWords(its) <= 21 && c.s.pc + 4 * ItemsWords(its) + (if fused then 8 else 12) < DATA
    && At(x.code, c.s.pc, FlatItems(its, c.s.pc, x.fa) + LoopEnd(c.s.pc, its, fused))
  }

  /** One turn: the body, r11 counted down, and back to the top unless it is 0. */
  lemma RunTurn(x: Ctx, c: Cfg, its: seq<Item>, fused: bool) returns (n: nat)
    requires AtLoop(x, c, its, fused)
    ensures n > 0
    ensures var e, k: int := Run(x.M(), c, n), c.s.r[11] - 1;
      && Ready(x, e) && Kept(c.s.r[11 := k], e.s.r) && e.s.r[11] == k
      && e.s.pc == if k != 0 then c.s.pc else c.s.pc + 4 * (ItemsWords(its) + (if fused then 2 else 3))
  {
    hide Good, Run, ItemsWords, At, FlatItems, LoopEnd, NextCfg, ItemOk;
    var top, m := c.s.pc, x.M();
    FlatItemsWords(its, top, x.fa);
    AtAppend(x.code, top, FlatItems(its, top, x.fa), LoopEnd(top, its, fused));
    var a := RunItems(x, c, its);
    var d := Run(m, c, a);
    LoopEndIs(top, its, fused);
    var b := if fused then 2 else 3;
    if fused {
      FusedTail(x, d, top);
    } else {
      FlaggedTail(x, d, top);
    }
    RunAdd(m, c, a, b);
    n := a + b;
  }

  /** A loop entered at its top with k >= 1 in r11 runs its body exactly k times. */
  lemma {:induction false} RunLoop(x: Ctx, c: Cfg, its: seq<Item>, fused: bool) returns (n: nat, ts: seq<nat>)
    requires AtLoop(x, c, its, fused)
    ensures Moved(x, c.(s := c.s.(r := c.s.r[11 := 0])), Run(x.M(), c, n), ItemsWords(its) + (if fused then 2 else 3))
    ensures Passes(x.M(), c, ts, n)
    decreases c.s.r[11]
  {
    hide Good, Run, ItemsWords, ItemsOk, At, FlatItems, LoopEnd, NextCfg, Onward, Passes;
    var m := x.M();
    n := RunTurn(x, c, its, fused);
    var e := Run(m, c, n);
    if e.s.r[11] != 0 {
      var k, us := RunLoop(x, e, its, fused);
      RunAdd(m, c, n, k);
      PassesNext(m, c, n, us, k);
      ts := Onward(us, n);
      n := n + k;
    } else {
      PassesOnce(m, c, n);
      ts := [0];
    }
  }

  lemma PassesOnce(m: Setup, c: Cfg, n: nat)
    requires n > 0 && c.s.r[11] == 1
    ensures Passes(m, c, [0], n)
  {
    hide Run, NextCfg;
    RunNone(m, c);
  }

  lemma LoopEndIs(top: int, its: seq<Item>, fused: bool)
    ensures var e, a := top + 4 * ItemsWords(its), AluIS(0, true, 11, 11, 0xFF);
      LoopEnd(top, its, fused) == if fused then [a] + [Fbr(0, true, 11, Imm4(0), Disp13(e + 4, top))]
        else [a, CmpIS(false, 11, 0), Br(false, 1, true, Disp18(e + 8, top))]
  {
  }

  lemma {:induction false} FlatItemsWords(its: seq<Item>, a: int, fa: seq<int>)
    ensures WordCount(FlatItems(its, a, fa)) == ItemsWords(its)
    decreases |its|
  {
    hide FlatItem, ItemWords, WordCount, At;
    if its == [] {
      NoWords();
    } else {
      var w := ItemWords(its[0]);
      FlatItemWords(its[0], a, fa);
      FlatItemsWords(its[1..], a + 4 * w, fa);
      AtAppend(map[], a, FlatItem(its[0], a, fa), FlatItems(its[1..], a + 4 * w, fa));
    }
  }

  lemma RunFused(x: Ctx, c: Cfg, i: Instr, t: int)
    requires Ready(x, c) && c.s.pc % 4 == 0 && t % 4 == 0 && c.s.pc <= t < DATA && t - c.s.pc < 0x1000
    requires c.s.pc + 4 < DATA && At(x.code, c.s.pc, [i]) && i.Fbr? && !i.rhs.Imm32? && i.disp13 == Disp13(c.s.pc, t)
    ensures var d := Run(x.M(), c, 1);
      Ready(x, d) && d.s.r == c.s.r && d.s.pc == if Taken(i, c.s) then t else c.s.pc + 4
  {
    hide Run, NextCfg, Disp13, BranchTarget, Taken, Data, Words;
    RunOne(x.M(), c);
    TestWords(i);
    BranchStep(x, c, i);
    TestTarget(c.s.pc, t, i, c.s);
  }

  lemma RunFlagged(x: Ctx, c: Cfg, i: Instr, j: Instr, t: int) returns (skipped: bool)
    requires Ready(x, c) && c.s.pc % 4 == 0 && t % 4 == 0 && c.s.pc <= t < DATA && c.s.pc + 8 < DATA
    requires At(x.code, c.s.pc, [i, j]) && i.Cmp? && j.Br? && !j.link && j.disp == Disp18(c.s.pc + 4, t)
    ensures var d := Run(x.M(), c, 2);
      Ready(x, d) && d.s.r == c.s.r && d.s.pc == if skipped then t else c.s.pc + 8
  {
    hide Run, NextCfg, Disp18, BranchTarget, Taken, Data, Words;
    var m, a, d := x.M(), c.s.pc, NextCfg(x.M(), c);
    RunOne(m, c);
    RunNext(m, c, 1);
    assert [i, j] == [i] + [j];
    CmpWords(i.w, i.rs1, i.rs2);
    TestWords(j);
    AtTwo(x.code, a, i, j);
    DataStep(x, c, i);
    BranchStep(x, d, j);
    TestTarget(a + 4, t, j, d.s);
    skipped := Taken(j, d.s);
  }

  /** The test of a conditional skip goes on or jumps to t. */
  lemma RunTest(x: Ctx, c: Cfg, test: Test, t: int) returns (n: nat, skipped: bool)
    requires Ready(x, c) && c.s.pc % 4 == 0 && t % 4 == 0 && c.s.pc <= t < DATA && t - c.s.pc < 0x1000
    requires c.s.pc + 4 * TestSize(test) < DATA && At(x.code, c.s.pc, FlatTest(test, c.s.pc, t))
    ensures var d := Run(x.M(), c, n);
      Ready(x, d) && d.s.r == c.s.r && d.s.pc == if skipped then t else c.s.pc + 4 * TestSize(test)
  {
    hide Run, Disp13, Disp18, Taken, At, Ready;
    var a := c.s.pc;
    match test {
      case Fused(p, inv, rs1, rs2) =>
        var i := Fbr(p, inv, rs1, RegRhs(rs2), Disp13(a, t));
        RunFused(x, c, i, t);
        n, skipped := 1, Taken(i, c.s);
      case Flagged(w, rs1, rs2, cond, inv) =>
        skipped := RunFlagged(x, c, Cmp(w, rs1, rs2), Br(false, cond, inv, Disp18(a + 4, t)), t);
        n := 2;
    }
  }

  lemma CmpWords(w: bool, rs1: Reg, rs2: Reg)
    ensures Words(Cmp(w, rs1, rs2)) == 1
  {
  }

  lemma RunSkip(x: Ctx, c: Cfg, b: Block) returns (n: nat, skipped: bool)
    requires Ready(x, c) && b.Skip? && BlockWords(b) <= 21 && c.s.pc % 4 == 0 && c.s.pc + 4 * BlockWords(b) < DATA
    requires At(x.code, c.s.pc, FlatHead(b, c.s.pc))
    ensures var d := Run(x.M(), c, n);
      && Ready(x, d) && d.s.r == c.s.r
      && d.s.pc == c.s.pc + 4 * (HeadWords(b) + (if skipped then ItemsWords(b.its) else 0))
  {
    hide Ready, Run, FlatTest, FlatHead, At, HeadWords, BlockWords, ItemsWords;
    SkipParts(b, c.s.pc);
    n, skipped := RunTest(x, c, b.test, c.s.pc + 4 * (HeadWords(b) + ItemsWords(b.its)));
  }

  lemma SkipParts(b: Block, a: int)
    requires b.Skip?
    ensures FlatHead(b, a) == FlatTest(b.test, a, a + 4 * (HeadWords(b) + ItemsWords(b.its)))
    ensures HeadWords(b) == TestSize(b.test) && BlockWords(b) == HeadWords(b) + ItemsWords(b.its)
    ensures a % 4 == 0 ==> (a + 4 * (HeadWords(b) + ItemsWords(b.its))) % 4 == 0
  {
    hide FlatTest, ItemsWords;
  }

  lemma RunHead(x: Ctx, c: Cfg, b: Block) returns (n: nat, skipped: bool)
    requires Good(x) && Ready(x, c) && BlockOk(x.window, b) && c.s.pc % 4 == 0 && c.s.pc + 4 * BlockWords(b) < DATA
    requires At(x.code, c.s.pc, FlatHead(b, c.s.pc))
    ensures var d := Run(x.M(), c, n);
      && Ready(x, d) && (b.Loop? ==> d.s.r[11] == b.count) && (skipped ==> b.Skip?)
      && d.s.pc == c.s.pc + 4 * (HeadWords(b) + (if skipped then ItemsWords(b.its) else 0))
    ensures !b.Loop? ==> Run(x.M(), c, n).s.r == c.s.r
  {
    hide Good, Run, NextCfg, ItemsWords, FlatTest, ItemOk;
    match b {
      case Straight(_) =>
        n, skipped := 0, false;
        RunNone(x.M(), c);
      case Loop(count, _, _) =>
        RunOne(x.M(), c);
        SetStep(x, c, 11, count);
        n, skipped := 1, false;
      case Skip(test, its) =>
        n, skipped := RunSkip(x, c, b);
    }
  }

  lemma BlockSplit(b: Block)
    ensures BlockWords(b) >= HeadWords(b) && (b.Skip? ==> BlockWords(b) == HeadWords(b) + ItemsWords(b.its))
  {
    hide ItemsWords;
  }

  lemma RunBlock(x: Ctx, c: Cfg, b: Block) returns (n: nat)
    requires Good(x) && Ready(x, c) && BlockOk(x.window, b) && c.s.pc % 4 == 0 && c.s.pc + 4 * BlockWords(b) < DATA
    requires At(x.code, c.s.pc, FlatBlock(b, c.s.pc, x.fa))
    ensures Ready(x, Run(x.M(), c, n)) && Run(x.M(), c, n).s.pc == c.s.pc + 4 * BlockWords(b)
  {
    hide Good, Ready, Run, NextCfg, ItemsWords, FlatItems, FlatTail, BlockOk, At, FlatHead, BlockWords;
    var a := c.s.pc;
    BlockSplit(b);
    var body := FlatItems(b.its, a + 4 * HeadWords(b), x.fa);
    FlatHeadWords(b, a);
    assert FlatBlock(b, a, x.fa) == FlatHead(b, a) + (body + FlatTail(b, a));
    AtAppend(x.code, a, FlatHead(b, a), body + FlatTail(b, a));
    var k, skipped := RunHead(x, c, b);
    var d := Run(x.M(), c, k);
    n := k;
    if !skipped {
      var j := RunBody(x, d, b, a);
      RunAdd(x.M(), c, k, j);
      n := k + j;
    }
  }

  /** What follows the head of a block at a. */
  lemma RunBody(x: Ctx, c: Cfg, b: Block, a: int) returns (n: nat)
    requires Good(x) && Ready(x, c) && BlockOk(x.window, b) && a % 4 == 0 && a + 4 * BlockWords(b) < DATA
    requires c.s.pc == a + 4 * HeadWords(b) && (b.Loop? ==> c.s.r[11] == b.count)
    requires At(x.code, c.s.pc, FlatItems(b.its, c.s.pc, x.fa) + FlatTail(b, a))
    ensures Ready(x, Run(x.M(), c, n)) && Run(x.M(), c, n).s.pc == a + 4 * BlockWords(b)
  {
    hide Good, Run, NextCfg, ItemsWords, FlatItems, LoopEnd, ItemOk, At, Passes;
    if b.Loop? {
      var ts;
      n, ts := RunLoop(x, c, b.its, b.fused);
    } else {
      assert FlatItems(b.its, c.s.pc, x.fa) + FlatTail(b, a) == FlatItems(b.its, c.s.pc, x.fa);
      n := RunItems(x, c, b.its);
    }
  }

  lemma FlatHeadWords(b: Block, a: int)
    ensures WordCount(FlatHead(b, a)) == HeadWords(b)
  {
    hide WordCount, Disp13, Disp18, ItemsWords;
    match b
    case Straight(_) => NoWords();
    case Loop(count, _, _) => WordCountShort(SetR(false, 11, count % U32), Ret);
    case Skip(test, its) =>
      var t := a + 4 * (HeadWords(b) + ItemsWords(b.its));
      match test
      case Fused(p, inv, rs1, rs2) => WordCountShort(Fbr(p, inv, rs1, RegRhs(rs2), Disp13(a, t)), Ret);
      case Flagged(w, rs1, rs2, cond, inv) =>
        WordCountShort(Cmp(w, rs1, rs2), Br(false, cond, inv, Disp18(a + 4, t)));
  }

  lemma NoWords()
    ensures WordCount([]) == 0
  {
  }

  lemma {:induction false} RunBlocks(x: Ctx, c: Cfg, bs: seq<Block>) returns (n: nat)
    requires Good(x) && Ready(x, c) && c.s.pc % 4 == 0 && c.s.pc + 4 * BlocksWords(bs) < DATA
    requires forall k :: 0 <= k < |bs| ==> BlockOk(x.window, bs[k])
    requires At(x.code, c.s.pc, FlatBlocks(bs, c.s.pc, x.fa))
    ensures Ready(x, Run(x.M(), c, n)) && Run(x.M(), c, n).s.pc == c.s.pc + 4 * BlocksWords(bs)
    decreases |bs|
  {
    hide Good, Ready, Run, BlockWords, BlockOk, At, FlatBlock;
    if bs == [] {
      n := 0;
      RunNone(x.M(), c);
    } else {
      var a, w := c.s.pc, BlockWords(bs[0]);
      FlatBlockWords(bs[0], a, x.fa);
      AtAppend(x.code, a, FlatBlock(bs[0], a, x.fa), FlatBlocks(bs[1..], a + 4 * w, x.fa));
      var k := RunBlock(x, c, bs[0]);
      var m := RunBlocks(x, Run(x.M(), c, k), bs[1..]);
      RunAdd(x.M(), c, k, m);
      n := k + m;
    }
  }

  lemma FlatBlockWords(b: Block, a: int, fa: seq<int>)
    ensures WordCount(FlatBlock(b, a, fa)) == BlockWords(b)
  {
    hide WordCount, FlatItems, FlatHead, ItemsWords, LoopEnd;
    var body := FlatItems(b.its, a + 4 * HeadWords(b), fa);
    FlatHeadWords(b, a);
    FlatItemsWords(b.its, a + 4 * HeadWords(b), fa);
    AtAppend(map[], a, FlatHead(b, a) + body, FlatTail(b, a));
    AtAppend(map[], a, FlatHead(b, a), body);
    if b.Loop? {
      LoopEndWords(a + 8, b.its, b.fused);
    } else {
      NoWords();
    }
  }

  lemma LoopEndWords(top: int, its: seq<Item>, fused: bool)
    ensures WordCount(LoopEnd(top, its, fused)) == if fused then 2 else 3
  {
    hide WordCount, Disp13, Disp18, ItemsWords;
    var e := top + 4 * ItemsWords(its);
    var a := AluIS(0, true, 11, 11, 0xFF);
    var f := Fbr(0, true, 11, Imm4(0), Disp13(e + 4, top));
    var b, j := CmpIS(false, 11, 0), Br(false, 1, true, Disp18(e + 8, top));
    WordCountShort(a, f);
    WordCountShort(b, j);
    AtAppend(map[], 0, [a], [b, j]);
    assert [a] + [f] == [a, f];
  }

  // ---- the whole program

  const BASE: int := 0x20

  lemma {:induction false} LeafSize(f: Leaf)
    requires LeafOk(f)
    ensures LeafWords(f) <= 7 && LeafWords(f) == |FlatLeaf(f)|
  {
    OneWordEach(FlatLeaf(f));
  }

  lemma {:induction false} OneWordEach(ins: seq<Instr>)
    requires forall k :: 0 <= k < |ins| ==> Words(ins[k]) == 1
    ensures WordCount(ins) == |ins|
  {
    hide Words;
    if ins != [] {
      OneWordEach(ins[1..]);
    }
  }

  lemma {:induction false} BlocksSize(w: nat, bs: seq<Block>)
    requires forall k :: 0 <= k < |bs| ==> BlockOk(w, bs[k])
    ensures BlocksWords(bs) <= 21 * |bs|
  {
    if bs != [] {
      assert BlockOk(w, bs[0]);
      BlocksSize(w, bs[1..]);
    }
  }

  lemma {:induction false} FlatBlocksWords(bs: seq<Block>, a: int, fa: seq<int>)
    ensures WordCount(FlatBlocks(bs, a, fa)) == BlocksWords(bs)
    decreases |bs|
  {
    hide FlatBlock, BlockWords, WordCount, At;
    if bs == [] {
      NoWords();
    } else {
      var w := BlockWords(bs[0]);
      FlatBlockWords(bs[0], a, fa);
      FlatBlocksWords(bs[1..], a + 4 * w, fa);
      AtAppend(map[], a, FlatBlock(bs[0], a, fa), FlatBlocks(bs[1..], a + 4 * w, fa));
    }
  }

  lemma {:induction false} RunLoads(x: Ctx, c: Cfg, ins: seq<Instr>)
    requires Sound(x, c) && c.s.pc + 4 * WordCount(ins) < DATA && At(x.code, c.s.pc, ins)
    requires forall k :: 0 <= k < |ins| ==> InitOk(ins[k])
    ensures var d := Run(x.M(), c, |ins|);
      Sound(x, d) && d.calls == c.calls && d.live == c.live && d.s == c.s.(r := d.s.r, fl := d.s.fl, pc := c.s.pc + 4 * WordCount(ins))
    decreases |ins|
  {
    hide Data, Words, NextCfg;
    if ins != [] {
      assert InitOk(ins[0]);
      DataStep(x, c, ins[0]);
      RunLoads(x, NextCfg(x.M(), c), ins[1..]);
    }
  }

  lemma BaseStep(x: Ctx, c: Cfg, rd: Reg, v: u32)
    requires Sound(x, c) && c.s.pc + 8 < DATA && c.s.pc in x.code && x.code[c.s.pc] == SetR(false, rd, v)
    ensures var d := NextCfg(x.M(), c);
      Sound(x, d) && d.calls == c.calls && d.live == c.live && d.s == c.s.(r := c.s.r[rd := v], fl := d.s.fl, pc := c.s.pc + 8)
  {
    hide NextCfg;
    DataStep(x, c, SetR(false, rd, v));
  }

  /** The store that unmasks interrupts goes to the device register, not to memory. */
  lemma MaskStep(x: Ctx, c: Cfg)
    requires Good(x) && Ready(x, c) && c.s.pc + 4 < DATA && x.register == INT_MASK
    requires c.s.pc in x.code && x.code[c.s.pc] == Store(3, false, 13, Base(14)) && c.s.r[14] == INT_MASK
    ensures Moved(x, c, NextCfg(x.M(), c), 1)
  {
    hide Exec, Bytes, EffAddr, Misaligned, Good;
    GoodTop(x);
    MaskStored(c.s, x.dev);
    assert Fine(x.M(), c);
  }

  /** The store of the mask goes to the device. */
  lemma MaskStored(s: State, dev: Device)
    requires s.r[14] == INT_MASK && s.pc + 4 < U32
    ensures var i := Store(3, false, 13, Base(14)); var t := Exec(i, s, dev);
      && EffAddr(i, s.r) == INT_MASK && !Misaligned(i, INT_MASK)
      && t.st == s.st && t.r == s.r && t.sp == s.sp && t.pc == s.pc + 4
  {
    hide StoreLe, LoadLe, Data, ExecBranch, ExecStack, ExtendLoad;
    assert Align8(INT_MASK) == INT_MASK;
  }

  lemma RunMask(x: Ctx, c: Cfg, irq: bool) returns (n: nat)
    requires Good(x) && Ready(x, c) && (irq ==> x.register == INT_MASK) && c.s.pc + 4 * WordCount(MaskSetup(irq)) < DATA
    requires At(x.code, c.s.pc, MaskSetup(irq))
    ensures var d := Run(x.M(), c, n); Ready(x, d) && d.s.pc == c.s.pc + 4 * WordCount(MaskSetup(irq))
  {
    hide Good, NextCfg, Run, WordCount, Words, At;
    var m, st := x.M(), Store(3, false, 13, Base(14));
    MaskWords(irq);
    if irq {
      AtThree(x.code, c.s.pc, SetR(false, 14, INT_MASK), SetR(false, 13, 1), st);
      SetStep(x, c, 14, INT_MASK);
      var d := NextCfg(m, c);
      SetStep(x, d, 13, 1);
      MaskStep(x, NextCfg(m, d));
      RunOne(m, c);
      RunNext(m, c, 1);
      RunNext(m, c, 2);
      n := 3;
    } else {
      RunNone(m, c);
      n := 0;
    }
  }

  lemma MaskWords(irq: bool)
    ensures WordCount(MaskSetup(irq)) == if irq then 5 else 0
    ensures Words(SetR(false, 14, INT_MASK)) == 2 && Words(SetR(false, 13, 1)) == 2
    ensures Words(Store(3, false, 13, Base(14))) == 1
  {
    var a, b, c := SetR(false, 14, INT_MASK), SetR(false, 13, 1), Store(3, false, 13, Base(14));
    WordCountShort(b, c);
    assert [a, b, c][1..] == [b, c];
  }

  /** r12 at the data, r15 cleared. */
  lemma RunBases(x: Ctx, c: Cfg)
    requires Good(x) && Sound(x, c) && c.s.sp == x.top && c.calls == [] && c.live == {} && c.s.pc + 16 < DATA
    requires At(x.code, c.s.pc, [SetR(false, 12, DATA), SetR(false, 15, 0)])
    ensures var d := Run(x.M(), c, 2); Ready(x, d) && d.s.pc == c.s.pc + 16
  {
    hide Good, NextCfg, Run, WordCount, Words, At;
    var m, a := x.M(), c.s.pc;
    var s12, s15 := SetR(false, 12, DATA), SetR(false, 15, 0);
    SetWords(12, DATA);
    SetWords(15, 0);
    assert [s12, s15] == [s12] + [s15];
    AtTwo(x.code, a, s12, s15);
    RunOne(m, c);
    RunNext(m, c, 1);
    BaseStep(x, c, 12, DATA);
    BaseStep(x, NextCfg(m, c), 15, 0);
  }

  lemma RunPrologue(x: Ctx, c: Cfg, p: Program) returns (n: nat)
    requires Good(x) && Sound(x, c) && c.s.sp == x.top && c.calls == [] && c.live == {} && ProgramOk(p)
    requires (p.irq ==> x.register == INT_MASK) && c.s.pc + 4 * WordCount(Prologue(p)) < DATA
    requires At(x.code, c.s.pc, Prologue(p))
    ensures var d := Run(x.M(), c, n); Ready(x, d) && d.s.pc == c.s.pc + 4 * WordCount(Prologue(p))
  {
    hide Good, NextCfg, Run, WordCount, Words, MaskSetup, At, InitOk, LeafOk, BlockOk;
    var m, a := x.M(), c.s.pc;
    var s12, s15 := SetR(false, 12, DATA), SetR(false, 15, 0);
    WordCountShort(s12, s15);
    SetWords(12, DATA);
    SetWords(15, 0);
    AtAppend(x.code, a, p.inits, [s12, s15] + MaskSetup(p.irq));
    var b := a + 4 * WordCount(p.inits);
    AtAppend(x.code, b, [s12, s15], MaskSetup(p.irq));
    RunLoads(x, c, p.inits);
    n := |p.inits|;
    RunBases(x, Run(m, c, n));
    RunAdd(m, c, n, 2);
    n := n + 2;
    var k := RunMask(x, Run(m, c, n), p.irq);
    RunAdd(m, c, n, k);
    n := n + k;
  }

  /** From the first leaf function to the end. */
  function Behind(p: Program): seq<Instr>
    requires |p.leaves| == 3
  {
    FlatLeaf(p.leaves[0])
    + (FlatLeaf(p.leaves[1])
       + (FlatLeaf(p.leaves[2]) + (FlatBlocks(p.blocks, LeafAt(p, BASE, 3), LeafTable(p, BASE)) + [Halt])))
  }

  lemma BehindParts(code: Code, p: Program)
    requires |p.leaves| == 3 && At(code, LeafAt(p, BASE, 0), Behind(p))
    ensures forall k :: 0 <= k < 3 ==> At(code, LeafAt(p, BASE, k), FlatLeaf(p.leaves[k]))
    ensures At(code, LeafAt(p, BASE, 3), FlatBlocks(p.blocks, LeafAt(p, BASE, 3), LeafTable(p, BASE)))
    ensures At(code, LeafAt(p, BASE, 3) + 4 * BlocksWords(p.blocks), [Halt])
    ensures WordCount(Behind(p))
      == LeafWords(p.leaves[0]) + LeafWords(p.leaves[1]) + LeafWords(p.leaves[2]) + BlocksWords(p.blocks) + 1
  {
    hide At, WordCount, Prologue, FlatLeaf, FlatBlocks, BlocksWords, OverLeaves, LeafTable;
    var a3, fa := LeafAt(p, BASE, 3), LeafTable(p, BASE);
    var bs := FlatBlocks(p.blocks, a3, fa);
    var s4 := bs + [Halt];
    var s3 := FlatLeaf(p.leaves[2]) + s4;
    var s2 := FlatLeaf(p.leaves[1]) + s3;
    WordCountShort(Halt, Ret);
    JumpWords(p);
    FlatBlocksWords(p.blocks, a3, fa);
    AtAppend(code, LeafAt(p, BASE, 0), FlatLeaf(p.leaves[0]), s2);
    AtAppend(code, LeafAt(p, BASE, 1), FlatLeaf(p.leaves[1]), s3);
    AtAppend(code, LeafAt(p, BASE, 2), FlatLeaf(p.leaves[2]), s4);
    AtAppend(code, a3, bs, [Halt]);
  }

  /** Where the parts of an assembled program sit. */
  lemma ProgramParts(code: Code, p: Program)
    requires |p.leaves| == 3 && At(code, BASE, FlatProgram(p, BASE))
    ensures At(code, BASE, Prologue(p))
    ensures At(code, JumpAt(p, BASE), [OverLeaves(p, BASE)])
    ensures forall k :: 0 <= k < 3 ==> At(code, LeafAt(p, BASE, k), FlatLeaf(p.leaves[k]))
    ensures At(code, LeafAt(p, BASE, 3), FlatBlocks(p.blocks, LeafAt(p, BASE, 3), LeafTable(p, BASE)))
    ensures At(code, LeafAt(p, BASE, 3) + 4 * BlocksWords(p.blocks), [Halt])
    ensures WordCount(FlatProgram(p, BASE)) == WordCount(Prologue(p)) + 1 + LeafWords(p.leaves[0])
      + LeafWords(p.leaves[1]) + LeafWords(p.leaves[2]) + BlocksWords(p.blocks) + 1
  {
    hide At, WordCount, Prologue, FlatLeaf, FlatBlocks, BlocksWords, OverLeaves, LeafTable, LeafWords;
    var j := [OverLeaves(p, BASE)];
    assert FlatProgram(p, BASE) == Prologue(p) + (j + Behind(p));
    hide FlatProgram, Behind;
    WordCountShort(OverLeaves(p, BASE), Ret);
    JumpWords(p);
    AtAppend(code, BASE, Prologue(p), j + Behind(p));
    AtAppend(code, JumpAt(p, BASE), j, Behind(p));
    BehindParts(code, p);
  }

  lemma JumpWords(p: Program)
    requires |p.leaves| == 3
    ensures Words(OverLeaves(p, BASE)) == 1 && Words(Halt) == 1
  {
    hide Disp18, JumpAt, LeafAt;
  }

  lemma ProgramSize(p: Program)
    requires ProgramOk(p)
    ensures WordCount(Prologue(p)) <= 39 && JumpAt(p, BASE) % 4 == 0
    ensures forall k :: 0 <= k < 3 ==> LeafWords(p.leaves[k]) <= 7
    ensures BlocksWords(p.blocks) <= 21 * |p.blocks|
  {
    hide WordCount, InitOk, LeafOk, BlockOk, MaskSetup, FlatLeaf, BlocksWords, LeafWords;
    WordCountShort(SetR(false, 12, DATA), SetR(false, 15, 0));
    SetWords(12, DATA);
    SetWords(15, 0);
    MaskWords(p.irq);
    AtAppend(map[], 0, p.inits, [SetR(false, 12, DATA), SetR(false, 15, 0)] + MaskSetup(p.irq));
    AtAppend(map[], 0, [SetR(false, 12, DATA), SetR(false, 15, 0)], MaskSetup(p.irq));
    LeafSize(p.leaves[0]);
    LeafSize(p.leaves[1]);
    LeafSize(p.leaves[2]);
    BlocksSize(p.window, p.blocks);
  }

  lemma ProgramWords(p: Program)
    requires |p.leaves| == 3
    ensures WordCount(FlatProgram(p, BASE)) == WordCount(Prologue(p)) + 1 + LeafWords(p.leaves[0])
      + LeafWords(p.leaves[1]) + LeafWords(p.leaves[2]) + BlocksWords(p.blocks) + 1
  {
    hide At, WordCount, Prologue, FlatLeaf, FlatBlocks, BlocksWords, OverLeaves, LeafTable;
    var a3, fa := LeafAt(p, BASE, 3), LeafTable(p, BASE);
    var s4 := FlatBlocks(p.blocks, a3, fa) + [Halt];
    var s3 := FlatLeaf(p.leaves[2]) + s4;
    var s2 := FlatLeaf(p.leaves[1]) + s3;
    WordCountShort(OverLeaves(p, BASE), Halt);
    WordCountShort(Halt, Ret);
    JumpWords(p);
    FlatBlocksWords(p.blocks, a3, fa);
    AtAppend(map[], 0, FlatBlocks(p.blocks, a3, fa), [Halt]);
    AtAppend(map[], 0, FlatLeaf(p.leaves[2]), s4);
    AtAppend(map[], 0, FlatLeaf(p.leaves[1]), s3);
    AtAppend(map[], 0, FlatLeaf(p.leaves[0]), s2);
    AtAppend(map[], 0, [OverLeaves(p, BASE)], Behind(p));
    AtAppend(map[], 0, Prologue(p), [OverLeaves(p, BASE)] + Behind(p));
  }

  /** The code ends below the data window. */
  predicate Fitting(p: Program) {
    |p.leaves| == 3 && BASE + 4 * WordCount(FlatProgram(p, BASE)) <= DATA
  }

  /** Up to so many blocks the code surely fits: a block has at most 21 words. */
  const MAX_BLOCKS: nat := 776

  lemma SmallFits(p: Program)
    requires ProgramOk(p) && |p.blocks| <= MAX_BLOCKS
    ensures Fitting(p)
  {
    hide WordCount, Prologue, FlatLeaf, LeafOk, BlockOk, InitOk, LeafWords, BlocksWords, FlatProgram;
    ProgramSize(p);
    ProgramWords(p);
  }

  lemma LeavesInPlace(x: Ctx, p: Program)
    requires ProgramOk(p) && Fitting(p) && x.leaves == p.leaves && x.fa == LeafTable(p, BASE) && x.window == p.window
    requires x.top % 8 == 0 && DATA + x.window + 32 <= x.top < MMIO
    requires forall k :: 0 <= k < 3 ==> At(x.code, LeafAt(p, BASE, k), FlatLeaf(p.leaves[k]))
    ensures Good(x)
  {
    hide At, WordCount, Prologue, FlatLeaf, LeafOk, BlockOk, InitOk, LeafWords, FlatProgram, BlocksWords;
    ProgramSize(p);
    ProgramWords(p);
  }

  ghost predicate StartsAt(w: nat, s: State, top: u32) {
    s.st == Running && s.pc == BASE && s.sp == top && top % 8 == 0 && DATA + w + 32 <= top < MMIO
  }

  function Rig(code: Code, dev: Device, top: u32, irq: bool, w: nat): Setup {
    Setup(code, dev, Limits(DATA, DATA + w, top, 16, 32, if irq then INT_MASK else -1))
  }

  /** The jump over the leaf functions. */
  lemma JumpOver(x: Ctx, d: Cfg, p: Program) returns (e: Cfg)
    requires ProgramOk(p) && Fitting(p) && At(x.code, BASE, FlatProgram(p, BASE))
    requires Ready(x, d) && d.s.pc == BASE + 4 * WordCount(Prologue(p))
    ensures e == NextCfg(x.M(), d) && Ready(x, e) && e.s.pc == LeafAt(p, BASE, 3)
  {
    hide At, WordCount, Prologue, FlatLeaf, FlatBlocks, BlocksWords, NextCfg, Words, LeafOk, BlockOk, InitOk, LeafWords,
      FlatProgram, BranchTarget;
    var j := OverLeaves(p, BASE);
    e := NextCfg(x.M(), d);
    ProgramParts(x.code, p);
    ProgramSize(p);
    AtOne(x.code, JumpAt(p, BASE), j);
    JumpWords(p);
    BranchStep(x, d, j);
    TestTarget(JumpAt(p, BASE), LeafAt(p, BASE, 3), j, d.s);
  }

  lemma BlocksFit(code: Code, p: Program)
    requires ProgramOk(p) && Fitting(p) && At(code, BASE, FlatProgram(p, BASE))
    ensures BASE + 4 * WordCount(Prologue(p)) < DATA
    ensures LeafAt(p, BASE, 3) % 4 == 0 && LeafAt(p, BASE, 3) + 4 * BlocksWords(p.blocks) + 4 <= DATA
  {
    hide At, WordCount, Prologue, FlatLeaf, FlatBlocks, BlocksWords, LeafOk, BlockOk, InitOk, LeafWords, FlatProgram, LeafTable;
    ProgramParts(code, p);
    ProgramSize(p);
  }

  /** From the first instruction to HALT. */
  lemma RunProgram(x: Ctx, c: Cfg, p: Program) returns (n: nat)
    requires Good(x) && Sound(x, c) && c.s.sp == x.top && c.calls == [] && c.live == {} && c.s.pc == BASE
    requires ProgramOk(p) && Fitting(p) && At(x.code, BASE, FlatProgram(p, BASE))
    requires x.window == p.window && x.fa == LeafTable(p, BASE) && (p.irq ==> x.register == INT_MASK)
    ensures var d := Run(x.M(), c, n);
      d.s.st == Halted && d.ok && d.calls == [] && d.s.sp == x.top
  {
    hide At, WordCount, Prologue, FlatLeaf, FlatBlocks, BlocksWords, NextCfg, Run, Words, LeafOk, BlockOk, InitOk, LeafWords,
      FlatProgram, Good, LeafTable, LeafAt, JumpAt, Fitting;
    var m := x.M();
    ProgramParts(x.code, p);
    BlocksFit(x.code, p);
    n := RunPrologue(x, c, p);
    var e := JumpOver(x, Run(m, c, n), p);
    RunNext(m, c, n);
    n := n + 1;
    var k := RunBlocks(x, e, p.blocks);
    RunAdd(m, c, n, k);
    n := n + k;
    var f := Run(m, c, n);
    AtOne(x.code, f.s.pc, Halt);
    HaltStep(x, f);
    RunNext(m, c, n);
    n := n + 1;
  }

  /** The generator's claim.  From any registers and memory the program reaches HALT;
      on the way every access is aligned and stays inside the data window or the 16
      bytes below the stack top, the stack never grows by more than 32 bytes, every
      return goes back to its own call, and SP ends where it began. */
  lemma EveryProgramHalts(p: Program, code: Code, dev: Device, s: State) returns (n: nat)
    requires ProgramOk(p) && Fitting(p) && At(code, BASE, FlatProgram(p, BASE))
    requires StartsAt(p.window, s, s.sp)
    ensures var d := Run(Rig(code, dev, s.sp, p.irq, p.window), Cfg(s, [], {}, true), n);
      d.s.st == Halted && d.ok && d.calls == [] && d.s.sp == s.sp
  {
    hide At, Run, WordCount, Prologue, FlatLeaf, FlatBlocks, BlocksWords, LeafOk, BlockOk, InitOk, FlatProgram, Good,
      LeafTable, LeafAt, JumpAt, LeafWords, Fitting;
    ProgramParts(code, p);
    var x := Ctx(code, dev, s.sp, if p.irq then INT_MASK else -1, p.leaves, LeafTable(p, BASE), p.window);
    LeavesInPlace(x, p);
    n := RunProgram(x, Cfg(s, [], {}, true), p);
  }

  lemma AtOne(code: Code, a: int, i: Instr)
    requires At(code, a, [i])
    ensures a in code && code[a] == i
  {
  }

  lemma HaltStep(x: Ctx, c: Cfg)
    requires Good(x) && Ready(x, c) && c.s.pc in x.code && x.code[c.s.pc] == Halt
    ensures NextCfg(x.M(), c) == Cfg(c.s.(st := Halted), [], {}, true)
  {
    hide Good;
    GoodTop(x);
    assert Fine(x.M(), c);
  }
}
