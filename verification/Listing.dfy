/** What an assembled program means: targets, linear disassembly, memory images. */
module Listing {
  import opened Bits
  import opened Isa
  import opened Machine
  import opened Encoder
  import opened Fetch
  import opened MemImage
  import opened Kasm

  // ---- targets

  /** Where a resolved symbol goes (or, for LEAPC, what it loads). */
  function Destination(i: Instr, s: State): u32
    requires i.Br? || i.BrAbs? || i.Fbr? || i.LeaPc? || i.LeaPcS?
  {
    if i.LeaPc? || i.LeaPcS? then Wrap32(Data(i, s.r, s.pc, s.fl).0) else BranchTarget(i, s)
  }

  predicate HasTarget(s: Sym) { !s.Fixed? && !s.Raw? }

  /** Jumps count in words, so a target that is not a multiple of 4 away is rounded
      down; everything else is exact. */
  lemma TargetReached(s: Sym, labels: Labels, i: Instr, st: State)
    requires HasTarget(s) && Resolve(s, st.pc, labels) == Some(i)
    ensures AddressOf(s.t, labels).Some?
    ensures var t := AddressOf(s.t, labels).value;
      && (i.Br? || i.BrAbs? || i.Fbr? || i.LeaPc? || i.LeaPcS?)
      && Destination(i, st) == Wrap32(if s.Jump? || s.Branch? then t - (t - st.pc) % 4 else t)
  {
    var t := AddressOf(s.t, labels).value;
    if s.Lea? {
      WrapBack(t, st.pc);
    } else if s.Jump? || s.Branch? {
      assert 4 * ((t - st.pc) / 4) == (t - st.pc) - (t - st.pc) % 4;
    }
  }

  lemma WrapBack(t: int, pc: u32)
    ensures Wrap32(pc + Wrap32(t - pc)) == Wrap32(t)
  {
  }

  /** A relative jump goes to its target exactly when the target is a multiple of 4 away. */
  lemma JumpExact(s: Sym, labels: Labels, i: Instr, st: State)
    requires (s.Jump? || s.Branch?) && Resolve(s, st.pc, labels) == Some(i)
    ensures AddressOf(s.t, labels).Some? && (i.Br? || i.Fbr?)
    ensures var t := AddressOf(s.t, labels).value;
      0 <= t < U32 ==> (BranchTarget(i, st) == t <==> (t - st.pc) % 4 == 0)
  {
    hide BranchTarget, Simm;
    TargetReached(s, labels, i, st);
    var t := AddressOf(s.t, labels).value;
    var d := (t - st.pc) % 4;
    if 0 <= t < U32 && d != 0 {
      NotWrapped(t, d);
    }
  }

  lemma NotWrapped(t: u32, d: int)
    requires 0 < d < 4
    ensures Wrap32(t - d) != t
  {
  }

  // ---- the instructions of a listing

  function ResolveAll(ls: seq<Sym>, base: int, labels: Labels): Option<seq<Instr>>
    decreases |ls|
  {
    if ls == [] then Some([])
    else if ls[0].Raw? then None
    else
      var h := Resolve(ls[0], base, labels);
      var t := ResolveAll(ls[1..], base + 4 * SymWords(ls[0]), labels);
      if h.None? || t.None? then None else Some([h.value] + t.value)
  }

  lemma {:induction false} ResolveAppend(xs: seq<Sym>, ys: seq<Sym>, a: int, labels: Labels)
    requires ResolveAll(xs, a, labels).Some? && ResolveAll(ys, a + 4 * SymSize(xs), labels).Some?
    ensures ResolveAll(xs + ys, a, labels)
      == Some(ResolveAll(xs, a, labels).value + ResolveAll(ys, a + 4 * SymSize(xs), labels).value)
    decreases |xs|
  {
    hide Resolve, SymWords;
    var u := ResolveAll(ys, a + 4 * SymSize(xs), labels).value;
    if xs == [] {
      Neutral(ys);
      Neutral(u);
    } else {
      var b := a + 4 * SymWords(xs[0]);
      var h, t := Resolve(xs[0], a, labels).value, ResolveAll(xs[1..], b, labels).value;
      assert (xs + ys)[1..] == xs[1..] + ys;
      ResolveAppend(xs[1..], ys, b, labels);
      Assoc([h], t, u);
    }
  }

  lemma ResolveNone(a: int, labels: Labels)
    ensures ResolveAll([], a, labels) == Some([]) && SymSize([]) == 0
  {
  }

  lemma ResolveOne(s: Sym, a: int, labels: Labels)
    requires !s.Raw? && Resolve(s, a, labels).Some?
    ensures ResolveAll([s], a, labels) == Some([Resolve(s, a, labels).value]) && SymSize([s]) == SymWords(s)
  {
    hide Resolve, SymWords;
    assert [s][1..] == [];
    Neutral([Resolve(s, a, labels).value]);
  }

  lemma ResolveTwo(s: Sym, t: Sym, a: int, labels: Labels)
    requires !s.Raw? && Resolve(s, a, labels).Some? && !t.Raw? && Resolve(t, a + 4 * SymWords(s), labels).Some?
    ensures ResolveAll([s, t], a, labels)
      == Some([Resolve(s, a, labels).value, Resolve(t, a + 4 * SymWords(s), labels).value])
    ensures SymSize([s, t]) == SymWords(s) + SymWords(t)
  {
    hide Resolve, SymWords, ResolveAll, SymSize, AllSlots;
    var i, j := Resolve(s, a, labels).value, Resolve(t, a + 4 * SymWords(s), labels).value;
    ResolveOne(s, a, labels);
    ResolveOne(t, a + 4 * SymWords(s), labels);
    ResolveAppend([s], [t], a, labels);
    AppendSlots([s], [t]);
    assert [s] + [t] == [s, t] && [i] + [j] == [i, j];
  }

  function EncodeAll(ins: seq<Instr>): seq<u32> {
    if ins == [] then [] else Encode(ins[0]) + EncodeAll(ins[1..])
  }

  predicate LegalSym(s: Sym) {
    match s
    case Fixed(i) => Legal(i)
    case Raw(_) => false
    case Jump(_, cond, inv, _) => inv ==> cond != 0
    case JumpAbs(_, cond, inv, _) => inv ==> cond != 0
    case _ => true
  }

  /** Read instructions one after the other. */
  function Disassemble(ws: seq<u32>): Option<seq<Instr>> {
    if ws == [] then Some([])
    else
      var i := Decode(ws[0], if |ws| > 1 then ws[1] else 0, if |ws| > 2 then ws[2] else 0);
      if i.None? || Words(i.value) > |ws| then None
      else
        var t := Disassemble(ws[Words(i.value)..]);
        if t.None? then None else Some([i.value] + t.value)
  }

  lemma {:induction false} AssembledIsEncoded(ls: seq<Sym>, base: int, labels: Labels)
    requires forall k :: 0 <= k < |ls| ==> !ls[k].Raw?
    ensures var r := ResolveAll(ls, base, labels);
      Assembled(ls, base, labels) == if r.None? then None else Some(EncodeAll(r.value))
    decreases |ls|
  {
    hide Encode, Resolve, SymWords;
    if ls != [] {
      AssembledIsEncoded(ls[1..], base + 4 * SymWords(ls[0]), labels);
    }
  }

  lemma DecodeNext(i: Instr, rest: seq<u32>)
    requires Legal(i)
    ensures Disassemble(Encode(i) + rest)
      == (var t := Disassemble(rest); if t.None? then None else Some([i] + t.value))
  {
    hide Decode, FirstWord, SecondWord, ThirdWord, Legal;
    var ws := Encode(i) + rest;
    var w1, w2 := if |ws| > 1 then ws[1] else 0, if |ws| > 2 then ws[2] else 0;
    DecodeEncode(i, w1, w2);
    assert ws[Words(i)..] == rest;
  }

  lemma {:induction false} DisassembleEncoded(ins: seq<Instr>)
    requires forall k :: 0 <= k < |ins| ==> Legal(ins[k])
    ensures Disassemble(EncodeAll(ins)) == Some(ins)
  {
    hide Encode, Disassemble, Legal;
    if ins == [] {
      NothingLeft();
    } else {
      DecodeNext(ins[0], EncodeAll(ins[1..]));
      DisassembleEncoded(ins[1..]);
      assert [ins[0]] + ins[1..] == ins;
    }
  }

  lemma NothingLeft()
    ensures Disassemble([]) == Some([])
  {
  }

  lemma {:induction false} ResolvedLegal(ls: seq<Sym>, base: int, labels: Labels)
    requires ResolveAll(ls, base, labels).Some? && forall k :: 0 <= k < |ls| ==> LegalSym(ls[k])
    ensures forall k :: 0 <= k < |ResolveAll(ls, base, labels).value| ==> Legal(ResolveAll(ls, base, labels).value[k])
    decreases |ls|
  {
    hide SymWords, Simm;
    if ls != [] {
      assert LegalSym(ls[0]);
      ResolvedLegal(ls[1..], base + 4 * SymWords(ls[0]), labels);
    }
  }

  /** Reading an assembled program linearly gives back exactly the instructions that
      were emitted, each resolved at its own address. */
  lemma AssembleDisassemble(ls: seq<Sym>, base: int, labels: Labels)
    requires forall k :: 0 <= k < |ls| ==> LegalSym(ls[k])
    requires Assembled(ls, base, labels).Some?
    ensures Disassemble(Assembled(ls, base, labels).value) == ResolveAll(ls, base, labels)
  {
    hide Disassemble, EncodeAll, Legal, Assembled, ResolveAll;
    forall k | 0 <= k < |ls|
      ensures !ls[k].Raw?
    {
      assert LegalSym(ls[k]);
    }
    AssembledIsEncoded(ls, base, labels);
    ResolvedLegal(ls, base, labels);
    DisassembleEncoded(ResolveAll(ls, base, labels).value);
  }

  // ---- load and store forms

  /** kasm's choice of form for [rs1 + off]: one word when the offset is a multiple of
      the access size and the quotient fits eight bits. */
  function OffsetForm(size: Size, rs1: Reg, off: int, long: bool): Ea {
    if off % Bytes(size) == 0 && -128 <= off / Bytes(size) <= 127 && !long then
      Scaled(rs1, off / Bytes(size) % 0x100)
    else Offset(rs1, Wrap32(off))
  }

  /** Both forms denote the same address. */
  lemma FormsAgree(size: Size, rs1: Reg, off: int, r: Regs)
    ensures EaAddress(OffsetForm(size, rs1, off, false), size, r) == Wrap32(r[rs1] + off)
    ensures EaAddress(OffsetForm(size, rs1, off, true), size, r) == Wrap32(r[rs1] + off)
  {
    hide Bytes, Signed, Wrap32;
    ScaleBack(off, Bytes(size));
    OffsetWraps(r[rs1], off);
  }

  lemma OffsetWraps(x: int, off: int)
    ensures Wrap32(x + Wrap32(off)) == Wrap32(x + off)
  {
  }

  lemma ScaleBack(off: int, n: nat)
    requires n == 1 || n == 2 || n == 4 || n == 8
    ensures off % n == 0 && -128 <= off / n <= 127 ==> Signed(off / n % 0x100, 0x80) * n == off
  {
  }

  // ---- memory images

  /** The image is in byte memory. */
  ghost predicate InMemory(m: Mem, image: Image) {
    forall k :: k in image ==> LoadLe(m, 8 * k, 8) == image[k]
  }

  lemma Spread(b: int, x: int, p: int, y: int)
    ensures b + 0x100 * (x + p * y) == (b + 0x100 * x) + (0x100 * p) * y
  {
  }

  lemma {:induction false} LoadSplit(m: Mem, a: int, n: nat, k: nat)
    ensures LoadLe(m, a, n + k) == LoadLe(m, a, n) + Pow2(8 * n) * LoadLe(m, a + n, k)
    decreases n
  {
    if n != 0 {
      hide Pow2;
      LoadSplit(m, a + 1, n - 1, k);
      Pow2Bytes(n);
      Spread(Peek(m, a), LoadLe(m, a + 1, n - 1), Pow2(8 * (n - 1)), LoadLe(m, a + n, k));
    }
  }

  lemma Halves(m: Mem, b: int)
    ensures LoadLe(m, b, 8) / U32 == WordAt(m, b + 4) && LoadLe(m, b, 8) % U32 == WordAt(m, b)
  {
    hide Pow2, LoadLe;
    LoadSplit(m, b, 4, 4);
    Pow2Of64();
    DivModUnique(LoadLe(m, b + 4, 4), WordAt(m, b), U32);
  }

  lemma HalfInMemory(m: Mem, image: Image, a: int)
    requires InMemory(m, image) && a % 4 == 0 && Dw(a) in image
    ensures WordAt(m, a) == Half(image, a)
  {
    hide LoadLe, WordAt, Dw, High;
    Halves(m, 8 * Dw(a));
    WordParts(a);
  }
}
