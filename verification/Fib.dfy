/** The recursive Fibonacci routine of the hazard probe, run on the machine. */
module Fib {
  import opened Bits
  import opened Isa
  import opened Machine
  import opened Monitor
  import opened Fetch
  import opened Steps

  function Fibonacci(n: nat): nat {
    if n < 2 then n else Fibonacci(n - 1) + Fibonacci(n - 2)
  }

  const SIZE: int := 80

  /** fib(A) -> M, loaded at address a. */
  ghost predicate Placed(code: Code, a: int) {
    && 0 <= a && a + SIZE < U32
    && a in code && code[a] == CmpI(false, 0, 2)
    && a + 8 in code && code[a + 8] == BrAbs(false, 7, true, a + 24)
    && a + 16 in code && code[a + 16] == Copy(12, 0)
    && a + 20 in code && code[a + 20] == Ret
    && a + 24 in code && code[a + 24] == Push(0)
    && a + 28 in code && code[a + 28] == AluI(1, false, false, 0, 0, 1)
    && a + 36 in code && code[a + 36] == BrAbs(true, 0, false, a)
    && a + 44 in code && code[a + 44] == Pop(0)
    && a + 48 in code && code[a + 48] == Push(12)
    && a + 52 in code && code[a + 52] == AluI(1, false, false, 0, 0, 2)
    && a + 60 in code && code[a + 60] == BrAbs(true, 0, false, a)
    && a + 68 in code && code[a + 68] == Pop(0)
    && a + 72 in code && code[a + 72] == Alu(0, false, 12, 0, 12)
    && a + 76 in code && code[a + 76] == Ret
  }

  /** Bytes of stack used below the entry SP. */
  function Need(n: int): nat { if n < 2 then 0 else 16 * (n - 1) }

  /** Instructions executed. */
  function Count(n: nat): nat { if n < 2 then 4 else 12 + Count(n - 1) + Count(n - 2) }

  lemma {:induction false} CountClosed(n: nat)
    ensures Count(n) == 16 * Fibonacci(n + 1) - 12
  {
    if n >= 2 {
      CountClosed(n - 1);
      CountClosed(n - 2);
    }
  }

  /** At the routine's first instruction, called from just before ra. */
  ghost predicate Entered(m: Setup, a: int, c: Cfg, n: int, ra: int) {
    && Placed(m.code, a) && Live(m, c) && c.s.pc == a && 0 <= n == c.s.r[0] && 0 <= ra < U32
    && m.b.top - m.b.depth + Need(n) <= c.s.sp && c.s.sp + 8 <= m.b.top
    && c.calls != [] && c.calls[|c.calls| - 1] == ra && Load64(c.s.mem, c.s.sp) == ra
    && c.s.sp in c.live && AllAbove(c)
  }

  predicate OnlyAM(r: Regs, r': Regs) {
    forall k :: 0 <= k < 16 && k != 0 && k != 12 ==> r'[k] == r[k]
  }

  /** Back at ra: M holds v, the other registers except A are as before, nothing at or
      above the entry SP was written. */
  ghost predicate Left(c: Cfg, d: Cfg, v: int, ra: int) {
    && c.calls != [] && d.ok && d.calls == c.calls[..|c.calls| - 1] && d.live == Above(c.live, c.s.sp + 8) && Rest(c, d)
    && d.s.pc == ra && d.s.sp == c.s.sp + 8 && d.s.r[12] == v && OnlyAM(c.s.r, d.s.r)
    && SameFrom(c.s.mem, d.s.mem, c.s.sp)
  }

  /** Between the two calls: one word pushed, x in M. */
  ghost predicate Within(c: Cfg, d: Cfg, pc: int, saved: int) {
    && d.ok && d.calls == c.calls && Rest(c, d) && d.s.pc == pc && d.s.sp == c.s.sp - 8
    && d.live == c.live + {c.s.sp - 8}
    && OnlyAM(c.s.r, d.s.r) && SameFrom(c.s.mem, d.s.mem, c.s.sp) && Load64(d.s.mem, c.s.sp - 8) == saved
  }

  /** Just inside a nested call that will return to ra. */
  ghost predicate Nested(m: Setup, a: int, c: Cfg, d: Cfg, n: int, saved: int, ra: int) {
    && Entered(m, a, d, n, ra) && d.calls == c.calls + [ra] && Rest(c, d) && d.s.sp == c.s.sp - 16
    && d.live == c.live + {c.s.sp - 8} + {c.s.sp - 16}
    && OnlyAM(c.s.r, d.s.r) && SameFrom(c.s.mem, d.s.mem, c.s.sp) && Load64(d.s.mem, c.s.sp - 8) == saved
  }

  /** A nested call that has returned. */
  lemma Unnest(m: Setup, a: int, c: Cfg, d: Cfg, n: int, saved: int, ra: int, e: Cfg, v: int)
    requires Nested(m, a, c, d, n, saved, ra) && Left(d, e, v, ra) && AllAbove(c)
    ensures Within(c, e, ra, saved) && e.s.r[12] == v
  {
    hide Load64, Peek, Placed, Need;
    assert d.calls[..|d.calls| - 1] == c.calls;
    assert Above(d.live, c.s.sp - 8) == c.live + {c.s.sp - 8};
    LoadSameFrom(d.s.mem, e.s.mem, c.s.sp - 8, c.s.sp - 16);
  }

  /** The compare and the branch. */
  lemma Test(m: Setup, a: int, c: Cfg, n: int, ra: int)
    requires Entered(m, a, c, n, ra)
    ensures var d := NextCfg(m, NextCfg(m, c));
      && d.ok && d.calls == c.calls && d.live == c.live && Rest(c, d) && d.s.r == c.s.r && d.s.sp == c.s.sp && d.s.mem == c.s.mem
      && d.s.pc == if n < 2 then a + 16 else a + 24
  {
    hide NextCfg, CmpFlags, Condition, Load64;
    DataStep(m, c, CmpI(false, 0, 2));
    JumpStep(m, NextCfg(m, c), 7, true, a + 24);
    CompareUlt(n, 2);
  }

  lemma Small(m: Setup, a: int, c: Cfg, n: int, ra: int)
    requires Entered(m, a, c, n, ra) && n < 2
    ensures Left(c, Run(m, c, 4), n, ra)
  {
    hide NextCfg, Load64, Run, Need, Placed, Above, AllAbove;
    Test(m, a, c, n, ra);
    RunFew(m, c);
    SmallParts(m.code, a);
    var d := NextCfg(m, NextCfg(m, c));
    DataStep(m, d, Copy(12, 0));
    RetStep(m, NextCfg(m, d), ra);
  }

  lemma SmallParts(code: Code, a: int)
    requires Placed(code, a)
    ensures 0 <= a && a + 24 < U32
    ensures a + 16 in code && code[a + 16] == Copy(12, 0) && a + 20 in code && code[a + 20] == Ret
  {
  }

  /** MINUSV A k; CALL fib, after a push. */
  lemma CallFib(m: Setup, a: int, d: Cfg, k: u32, ra: int)
    requires Placed(m.code, a) && Here(m, d, AluI(1, false, false, 0, 0, k)) && d.s.pc == ra - 16
    requires ra - 8 >= 0 && ra - 8 in m.code && m.code[ra - 8] == BrAbs(true, 0, false, a) && k <= d.s.r[0]
    requires m.b.top - m.b.depth + Need(d.s.r[0] - k) <= d.s.sp - 8 && ra < U32 && AllAbove(d)
    ensures var e := NextCfg(m, NextCfg(m, d));
      && Entered(m, a, e, d.s.r[0] - k, ra) && e.calls == d.calls + [ra] && e.live == d.live + {d.s.sp - 8} && Rest(d, e)
      && e.s.r == d.s.r[0 := d.s.r[0] - k] && e.s.sp == d.s.sp - 8
      && e.s.mem == Store64(d.s.mem, d.s.sp - 8, ra)
  {
    hide NextCfg, Load64, Store64, Run, Need, Placed;
    DataStep(m, d, AluI(1, false, false, 0, 0, k));
    CallStep(m, NextCfg(m, d), a);
    Load64Store64(d.s.mem, d.s.sp - 8, ra);
  }

  /** PUSH rs1 at a live state. */
  lemma PushSaved(m: Setup, c: Cfg, rs1: Reg)
    requires Here(m, c, Push(rs1)) && m.b.top - m.b.depth + 8 <= c.s.sp
    ensures var d := NextCfg(m, c);
      && Live(m, d) && d.calls == c.calls && d.live == c.live + {c.s.sp - 8}
      && Rest(c, d) && d.s.r == c.s.r && d.s.sp == c.s.sp - 8 && d.s.pc == c.s.pc + 4
      && SameFrom(c.s.mem, d.s.mem, c.s.sp) && Load64(d.s.mem, c.s.sp - 8) == c.s.r[rs1]
  {
    hide NextCfg, Load64, Store64;
    PushStep(m, c, rs1);
    StoreSameFrom(c.s.mem, c.s.sp - 8, c.s.r[rs1], c.s.sp);
    Load64Store64(c.s.mem, c.s.sp - 8, c.s.r[rs1]);
  }

  /** The nested call's return address goes below the saved word. */
  lemma BelowSaved(m: Mem, sp: int, w: u64)
    requires sp % 8 == 0
    ensures SameFrom(m, Store64(m, sp - 16, w), sp) && Load64(Store64(m, sp - 16, w), sp - 8) == Load64(m, sp - 8)
  {
    hide Load64, Store64;
    StoreSameFrom(m, sp - 16, w, sp);
    Load64Other(m, sp - 16, w, sp - 8);
  }

  /** PUSH rs1; MINUSV A k; CALL fib, from a state d with the entry SP. */
  lemma PushCall(m: Setup, a: int, c: Cfg, d: Cfg, rs1: Reg, k: u32, n: int, ra: int)
    requires Placed(m.code, a) && Here(m, d, Push(rs1)) && d.s.pc == ra - 20 >= 0 && ra < U32
    requires ra - 16 in m.code && m.code[ra - 16] == AluI(1, false, false, 0, 0, k)
    requires ra - 8 in m.code && m.code[ra - 8] == BrAbs(true, 0, false, a)
    requires 0 <= n == d.s.r[0] - k && m.b.top - m.b.depth + Need(n) + 16 <= c.s.sp
    requires d.calls == c.calls && d.live == c.live && AllAbove(c) && Rest(c, d) && d.s.sp == c.s.sp
    requires OnlyAM(c.s.r, d.s.r) && SameFrom(c.s.mem, d.s.mem, c.s.sp)
    ensures Nested(m, a, c, NextCfg(m, NextCfg(m, NextCfg(m, d))), n, d.s.r[rs1], ra)
  {
    hide NextCfg, Load64, Store64, Peek, Run, Need, Placed;
    PushSaved(m, d, rs1);
    var e := NextCfg(m, d);
    CallFib(m, a, e, k, ra);
    BelowSaved(e.s.mem, c.s.sp, ra);
  }

  lemma FirstCall(m: Setup, a: int, c: Cfg, n: int, ra: int)
    requires Entered(m, a, c, n, ra) && n >= 2
    ensures Nested(m, a, c, Run(m, c, 5), n - 1, n, a + 44)
  {
    hide NextCfg, Load64, Peek, Run, Nested;
    Test(m, a, c, n, ra);
    RunFew(m, c);
    PushCall(m, a, c, NextCfg(m, NextCfg(m, c)), 0, 1, n - 1, a + 44);
  }

  lemma Popped(c: Cfg, d: Cfg)
    requires AllAbove(c) && d.live == c.live + {c.s.sp - 8}
    ensures Above(d.live, c.s.sp) == c.live
  {
  }

  lemma PopAt(m: Setup, a: int, c: Cfg, n: int, ra: int, d: Cfg, pc: int, saved: int)
    requires Entered(m, a, c, n, ra) && n >= 2 && Within(c, d, pc, saved) && (pc == a + 44 || pc == a + 68)
    ensures Here(m, d, Pop(0)) && pc + 12 < U32
  {
    hide Load64, Peek, SameFrom, OnlyAM, AllAbove;
  }

  /** POP A: back at the entry SP with the saved word in A. */
  lemma PopSaved(m: Setup, a: int, c: Cfg, n: int, ra: int, d: Cfg, pc: int, saved: int)
    requires Entered(m, a, c, n, ra) && n >= 2 && Within(c, d, pc, saved) && Here(m, d, Pop(0))
    ensures var e := NextCfg(m, d);
      && Live(m, e) && e.calls == c.calls && e.live == c.live && Rest(c, e) && e.s.pc == pc + 4 && e.s.sp == c.s.sp
      && OnlyAM(c.s.r, e.s.r) && SameFrom(c.s.mem, e.s.mem, c.s.sp) && e.s.r[0] == saved && e.s.r[12] == d.s.r[12]
  {
    hide NextCfg, Load64, Peek, Run, Placed;
    Popped(c, d);
    PopStep(m, d, 0);
  }

  lemma SecondReady(m: Setup, a: int, c: Cfg, n: int, ra: int, d: Cfg)
    requires Entered(m, a, c, n, ra) && n >= 2 && Within(c, d, a + 44, n)
    ensures var e := NextCfg(m, d);
      && Here(m, e, Push(12)) && e.s.pc == a + 48 && e.s.r[0] == n && e.s.r[12] == d.s.r[12] && e.s.sp == c.s.sp
      && e.calls == c.calls && e.live == c.live && Rest(c, e)
      && OnlyAM(c.s.r, e.s.r) && SameFrom(c.s.mem, e.s.mem, c.s.sp)
  {
    hide NextCfg, Load64, Peek, SameFrom, OnlyAM, Above, AllAbove, Need, Within;
    PopAt(m, a, c, n, ra, d, a + 44, n);
    PopSaved(m, a, c, n, ra, d, a + 44, n);
  }

  lemma SecondParts(m: Setup, a: int, c: Cfg, n: int, ra: int)
    requires Entered(m, a, c, n, ra) && n >= 2
    ensures Placed(m.code, a) && AllAbove(c) && 0 <= a && a + 68 < U32
    ensures m.b.top - m.b.depth + Need(n - 2) + 16 <= c.s.sp
    ensures a + 52 in m.code && m.code[a + 52] == AluI(1, false, false, 0, 0, 2)
    ensures a + 60 in m.code && m.code[a + 60] == BrAbs(true, 0, false, a)
  {
    hide Load64, AllAbove;
  }

  /** POP A; PUSH M; MINUSV A 2; CALL fib. */
  lemma SecondCall(m: Setup, a: int, c: Cfg, n: int, ra: int, d: Cfg)
    requires Entered(m, a, c, n, ra) && n >= 2 && Within(c, d, a + 44, n)
    ensures Nested(m, a, c, Run(m, d, 4), n - 2, d.s.r[12], a + 68)
  {
    hide NextCfg, Run, Nested, SameFrom, OnlyAM, AllAbove, Placed, Here, Within, Entered, Need, Rest;
    RunFew(m, d);
    SecondReady(m, a, c, n, ra, d);
    SecondParts(m, a, c, n, ra);
    PushCall(m, a, c, NextCfg(m, d), 12, 2, n - 2, a + 68);
  }

  /** ADDR M A M; RET. */
  lemma AddReturn(m: Setup, a: int, c: Cfg, n: int, ra: int, d: Cfg, x: int)
    requires Entered(m, a, c, n, ra) && Live(m, d) && d.calls == c.calls && d.live == c.live && Rest(c, d)
    requires d.s.pc == a + 72 && d.s.sp == c.s.sp && d.s.r[0] == x && OnlyAM(c.s.r, d.s.r) && SameFrom(c.s.mem, d.s.mem, c.s.sp)
    ensures Left(c, NextCfg(m, NextCfg(m, d)), Wrap64(x + d.s.r[12]), ra)
  {
    hide NextCfg, Load64, Peek, Need, AluFlags, Above;
    var e := NextCfg(m, d);
    assert Here(m, d, Alu(0, false, 12, 0, 12));
    DataStep(m, d, Alu(0, false, 12, 0, 12));
    assert Here(m, e, Ret);
    hide Placed;
    LoadSameFrom(c.s.mem, d.s.mem, c.s.sp, c.s.sp);
    RetStep(m, NextCfg(m, d), ra);
  }

  /** POP A; ADDR M A M; RET. */
  lemma Finish(m: Setup, a: int, c: Cfg, n: int, ra: int, e: Cfg, x: int)
    requires Entered(m, a, c, n, ra) && n >= 2 && Within(c, e, a + 68, x)
    ensures Left(c, Run(m, e, 3), Wrap64(x + e.s.r[12]), ra)
  {
    hide NextCfg, Load64, Peek, Run, Left, SameFrom, OnlyAM, Above, Placed, Here, Within;
    PopAt(m, a, c, n, ra, e, a + 68, x);
    RunFew(m, e);
    PopSaved(m, a, c, n, ra, e, a + 68, x);
    AddReturn(m, a, c, n, ra, NextCfg(m, e), x);
  }

  lemma RunFive(m: Setup, c: Cfg, p: nat, q: nat)
    ensures Run(m, Run(m, Run(m, Run(m, Run(m, c, 5), p), 4), q), 3) == Run(m, c, 12 + p + q)
  {
    hide NextCfg, Run;
    RunAdd(m, c, 5, p);
    RunAdd(m, c, 5 + p, 4);
    RunAdd(m, c, 9 + p, q);
    RunAdd(m, c, 9 + p + q, 3);
  }

  lemma SumMod(x: nat, y: nat)
    ensures Wrap64(x % U64 + y % U64) == (x + y) % U64
  {
  }

  lemma EnteredAbove(m: Setup, a: int, c: Cfg, n: int, ra: int)
    requires Entered(m, a, c, n, ra)
    ensures AllAbove(c)
  {
  }

  /** fib(n) returns after exactly Count(n) instructions with the Fibonacci number
      mod 2^64 in M, every RET matching its CALL and SP never more than Need(n) lower. */
  lemma {:induction false} Returns(m: Setup, a: int, c: Cfg, n: nat, ra: int)
    requires Entered(m, a, c, n, ra)
    ensures Left(c, Run(m, c, Count(n)), Fibonacci(n) % U64, ra)
    decreases n
  {
    hide NextCfg, Load64, Peek, Run, Store64, Placed, Entered, Left, AllAbove, Above, Within, Live, Need, Rest, SameFrom, Wrap64;
    assert AllAbove(c) by { EnteredAbove(m, a, c, n, ra); }
    if n < 2 {
      Small(m, a, c, n, ra);
    } else {
      FirstCall(m, a, c, n, ra);
      var d0 := Run(m, c, 5);
      Returns(m, a, d0, n - 1, a + 44);
      var d := Run(m, d0, Count(n - 1));
      var x: u64, y: u64 := Fibonacci(n - 1) % U64, Fibonacci(n - 2) % U64;
      Unnest(m, a, c, d0, n - 1, n, a + 44, d, x);
      SecondCall(m, a, c, n, ra, d);
      var e0 := Run(m, d, 4);
      Returns(m, a, e0, n - 2, a + 68);
      var e := Run(m, e0, Count(n - 2));
      Unnest(m, a, c, e0, n - 2, x, a + 68, e, y);
      Finish(m, a, c, n, ra, e, x);
      RunFive(m, c, Count(n - 1), Count(n - 2));
      SumMod(Fibonacci(n - 1), Fibonacci(n - 2));
    }
  }

  /** The same run with every instruction fetched from memory and decoded. */
  lemma ReturnsFromMemory(m: Setup, a: int, c: Cfg, n: nat, ra: int, lo: int, hi: int)
    requires Entered(m, a, c, n, ra) && Holds(c.s.mem, m.code, lo, hi) && Safe(m.b, lo, hi)
    ensures var d := MemRun(m.dev, c.s, Count(n));
      && Count(n) == 16 * Fibonacci(n + 1) - 12 && d.st == Running && d.pc == ra && d.sp == c.s.sp + 8 && d.r[12] == Fibonacci(n) % U64
      && OnlyAM(c.s.r, d.r) && SameFrom(c.s.mem, d.mem, c.s.sp)
  {
    hide Run, Holds, Safe, MemRun, Load64, Placed, Count;
    Returns(m, a, c, n, ra);
    CountClosed(n);
    RunFromMemory(m, c, Count(n), lo, hi);
  }
}
