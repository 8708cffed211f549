/** The random program generator of tools/vsim/randprog.py, for any stream of random
    choices. */
module RandGen {
  import opened Bits
  import opened Isa
  import opened Machine
  import opened Monitor
  import opened Kasm
  import opened Listing
  import opened RandShape
  import opened RandRuns
  import opened RandSym
  import opened RandDraws

  /** The random source: nothing is known about its stream. */
  class Rng {
    const stream: Stream
    var used: nat

    constructor (stream: Stream)
      ensures this.stream == stream && used == 0
    {
      this.stream := stream;
      used := 0;
    }

    method Draw() returns (v: nat)
      modifies this
      ensures v == stream(old(used)) && used == old(used) + 1
    {
      v := stream(used);
      used := used + 1;
    }

    method Below(n: nat) returns (r: nat)
      requires n > 0
      modifies this
      ensures r < n && r == Pick(stream, old(used), n) && used == old(used) + 1
    {
      var v := Draw();
      r := v % n;
    }

    /** `random()`: a 53-bit fraction, left to the stream. */
    method Random() returns (k: real)
      modifies this
      ensures 0.0 <= k < 1.0 && k == Fraction(stream(old(used))) && used == old(used) + 1
    {
      var v := Below(0x20_0000_0000_0000);
      k := v as real / 9007199254740992.0;
    }

    method Chance(c: real) returns (b: bool)
      modifies this
      ensures b == Under(stream, old(used), c) && used == old(used) + 1
    {
      var k := Random();
      b := k < c;
    }

    method DataReg() returns (r: Reg)
      modifies this
      ensures 1 <= r <= 10 && r == DataRegAt(stream, old(used)) && used == old(used) + 1
    {
      var v := Below(10);
      r := 1 + v;
    }
  }

  // ---- symbol lists of items

  lemma SymItemsAppend(xs: seq<Item>, ys: seq<Item>)
    ensures SymItems(xs + ys) == SymItems(xs) + SymItems(ys) && ItemsWords(xs + ys) == ItemsWords(xs) + ItemsWords(ys)
    decreases |xs|
  {
    hide SymItem, ItemWords;
    if xs == [] {
      Neutral(ys);
      Neutral(SymItems(ys));
    } else {
      assert (xs + ys)[1..] == xs[1..] + ys;
      SymItemsAppend(xs[1..], ys);
      Assoc(SymItem(xs[0]), SymItems(xs[1..]), SymItems(ys));
    }
  }

  lemma SymItemsOne(it: Item)
    ensures SymItems([it]) == SymItem(it) && ItemsWords([it]) == ItemWords(it)
  {
    hide SymItem, ItemWords;
    assert [it][1..] == [];
    Neutral(SymItem(it));
  }

  lemma FixedAllAppend(xs: seq<Instr>, ys: seq<Instr>)
    ensures FixedAll(xs + ys) == FixedAll(xs) + FixedAll(ys)
  {
  }

  lemma PlainSym(i: Instr)
    requires PlainOk(i)
    ensures SymItems([Plain(i)]) == [Fixed(i)] && ItemsWords([Plain(i)]) == Words(i) && ItemOk(DUMPED, Plain(i))
  {
    hide Words, PlainOk;
    SymItemsOne(Plain(i));
    assert FixedAll([i]) == [Fixed(i)];
  }

  lemma OneOk(it: Item)
    requires ItemOk(DUMPED, it)
    ensures ItemsOk(DUMPED, [it])
  {
    hide ItemOk;
  }

  method EmitPlain(a: Asm, i: Instr) returns (ghost its: seq<Item>)
    requires a.Valid() && PlainOk(i)
    modifies a
    ensures a.Valid() && a.listing == old(a.listing) + SymItems(its) && a.labels == old(a.labels) && a.data == old(a.data)
    ensures ItemsOk(DUMPED, its) && ItemsWords(its) <= 3
    ensures its == [Plain(i)] && ItemsWords(its) == Words(i)
  {
    hide *;
    PlainSym(i);
    var _ := a.Emit(Fixed(i));
    its := [Plain(i)];
    OneOk(Plain(i));
  }

  lemma AluOk(op: AluOp, w: bool, rd: Reg, rs1: Reg, rs2: Reg)
    requires (w ==> op <= 1) && 1 <= rd <= 10
    ensures PlainOk(Alu(op, w, rd, rs1, rs2))
  {
  }

  method EmitAlu(a: Asm, rng: Rng, rd: Reg, r1: Reg, r2: Reg) returns (ghost its: seq<Item>)
    requires a.Valid() && 1 <= rd <= 10
    modifies a, rng
    ensures a.Valid() && a.listing == old(a.listing) + SymItems(its) && a.labels == old(a.labels) && a.data == old(a.data)
    ensures ItemsOk(DUMPED, its) && ItemsWords(its) <= 3
    ensures var m := AluTurn(rng.stream, old(rng.used), rd, r1, r2); its == m.got && rng.used == m.next
  {
    hide Asm.Valid, SymItems, ItemsWords, ItemsOk, PlainOk, Words, Bytes, Legal, Pick, Under, DataRegAt;
    var v := rng.Below(7);
    var op := ALU_OPS[v];
    var w := false;
    if op <= 1 {
      w := rng.Chance(0.15);
    }
    AluOk(op, w, rd, r1, r2);
    its := EmitPlain(a, Alu(op, w, rd, r1, r2));
  }

  method EmitImmediate(a: Asm, rng: Rng, rd: Reg, r1: Reg, short: bool) returns (ghost its: seq<Item>)
    requires a.Valid() && 1 <= rd <= 10
    modifies a, rng
    ensures a.Valid() && a.listing == old(a.listing) + SymItems(its) && a.labels == old(a.labels) && a.data == old(a.data)
    ensures ItemsOk(DUMPED, its) && ItemsWords(its) <= 3
    ensures var m := ImmediateTurn(rng.stream, old(rng.used), rd, r1, short); its == m.got && rng.used == m.next
  {
    hide Asm.Valid, SymItems, ItemsWords, ItemsOk, PlainOk, Words, Bytes, Legal, Pick, Under, DataRegAt;
    var k := rng.Below(5);
    var op := IMMEDIATE_OPS[k];
    var i;
    if short {
      var v: int := rng.Below(0x100);
      i := AluIS(op, true, rd, r1, (v + 0x80) % 0x100);
    } else {
      var v := rng.Below(U32);
      i := AluI(op, false, true, rd, r1, v);
    }
    ImmediateOk(i);
    its := EmitPlain(a, i);
  }

  lemma ImmediateOk(i: Instr)
    requires (i.AluIS? || (i.AluI? && !i.w)) && 1 <= i.rd <= 10
    ensures PlainOk(i)
  {
  }

  lemma WindowRange(span: nat)
    requires span <= WIDEST
    ensures DUMPED <= Window(span) <= WIDEST
  {
  }

  /** A byte offset of an access into `span` bytes, a multiple of the access size. */
  method Off(rng: Rng, size: Size, span: nat) returns (o: nat)
    requires 8 <= span <= WIDEST
    modifies rng
    ensures AccessOk(Window(span), size, o)
    ensures o == OffsetAt(rng.stream, old(rng.used), size, span) && rng.used == old(rng.used) + 1
  {
    hide Pick, AccessOk;
    var n := Bytes(size);
    var v := rng.Below(span / n);
    o := n * v;
    OffsetInside(size, span, v);
  }

  lemma OffsetInside(size: Size, span: nat, v: nat)
    requires 8 <= span <= WIDEST && v < span / Bytes(size)
    ensures AccessOk(Window(span), size, Bytes(size) * v)
  {
    var n := Bytes(size);
    assert n == 1 || n == 2 || n == 4 || n == 8;
    assert n * v + n <= span;
  }

  lemma OffsetFormOk(w: nat, i: Instr, o: nat, long: bool)
    requires (i.Load? && !i.aligned && Scratch(i.rd)) || (i.Store? && !i.aligned)
    requires AccessOk(w, i.size, o) && i.ea == OffsetForm(i.size, 12, o, long)
    ensures ItemsOk(w, [Direct(i)]) && SymItems([Direct(i)]) == [Fixed(i)] && ItemsWords([Direct(i)]) <= 3
  {
    hide Words, Bytes, AccessOk, SymItems, ItemsWords;
    WindowInside(w, i.size, o);
    ScaleBack(o, Bytes(i.size));
    SymItemsOne(Direct(i));
    assert FixedAll([i]) == [Fixed(i)];
  }

  lemma ViaR13Ok(w: nat, o: u32, i: Instr)
    requires (i.Load? && !i.aligned && Scratch(i.rd)) || (i.Store? && !i.aligned)
    requires AccessOk(w, i.size, o) && i.ea == Indexed(12, 13)
    ensures ItemsOk(w, [ViaR13(o, i)]) && ItemsWords([ViaR13(o, i)]) <= 3
    ensures SymItems([ViaR13(o, i)]) == [Fixed(SetR(false, 13, o)), Fixed(i)]
  {
    hide AccessOk, SymItems, ItemsWords;
    SymItemsOne(ViaR13(o, i));
    assert FixedAll([SetR(false, 13, o), i]) == [Fixed(SetR(false, 13, o)), Fixed(i)];
  }

  method EmitTwo(a: Asm, i: Instr, j: Instr)
    requires a.Valid()
    modifies a
    ensures a.Valid() && a.listing == old(a.listing) + [Fixed(i), Fixed(j)] && a.labels == old(a.labels) && a.data == old(a.data)
  {
    hide *;
    var _ := a.Emit(Fixed(i));
    var _ := a.Emit(Fixed(j));
    Assoc(old(a.listing), [Fixed(i)], [Fixed(j)]);
    assert [Fixed(i)] + [Fixed(j)] == [Fixed(i), Fixed(j)];
  }

  /** A load or store at a random offset: short or long immediate, or through r13. */
  method EmitAccess(a: Asm, rng: Rng, load: bool, rd: Reg, span: nat) returns (ghost its: seq<Item>)
    requires a.Valid() && 1 <= rd <= 10 && 8 <= span <= WIDEST
    modifies a, rng
    ensures a.Valid() && a.listing == old(a.listing) + SymItems(its) && a.labels == old(a.labels) && a.data == old(a.data)
    ensures ItemsOk(Window(span), its) && ItemsWords(its) <= 3
    ensures var m := if load then LoadTurn(rng.stream, old(rng.used), rd, span) else StoreTurn(rng.stream, old(rng.used), rd, span);
      its == m.got && rng.used == m.next
  {
    hide AccessOk, Asm.Valid, SymItems, ItemsWords, ItemsOk, OffsetForm, OffsetAt, Bytes, Pick, Fraction;
    var size: Size := rng.Below(4);
    var o := Off(rng, size, span);
    WindowInside(Window(span), size, o);
    var f := rng.Random();
    var sgn := false;
    if load {
      sgn := rng.Chance(0.5);
    }
    var through := if load then f >= 0.75 else f >= 0.7;
    if through {
      var i := Access(load, size, sgn && size < 3, rd, Indexed(12, 13));
      ViaR13Ok(Window(span), o, i);
      EmitTwo(a, SetR(false, 13, o), i);
      its := [ViaR13(o, i)];
    } else {
      var long := load && f >= 0.5;
      var i := Access(load, size, sgn && size < 3, rd, OffsetForm(size, 12, o, long));
      OffsetFormOk(Window(span), i, o, long);
      var _ := a.Emit(Fixed(i));
      its := [Direct(i)];
    }
  }

  function Access(load: bool, size: Size, sgn: bool, rd: Reg, ea: Ea): Instr {
    if load then Load(size, sgn, false, rd, ea) else Store(size, false, rd, ea)
  }

  method EmitUnaligned(a: Asm, rng: Rng, rd: Reg) returns (ghost its: seq<Item>)
    requires a.Valid() && 1 <= rd <= 10
    modifies a, rng
    ensures a.Valid() && a.listing == old(a.listing) + SymItems(its) && a.labels == old(a.labels) && a.data == old(a.data)
    ensures ItemsOk(DUMPED, its) && ItemsWords(its) <= 3
    ensures var m := Made([Unaligned(Pick(rng.stream, old(rng.used), 0x7F8), rd)], old(rng.used) + 1); its == m.got && rng.used == m.next
  {
    hide *;
    var o := rng.Below(0x7F8);
    var v: u32 := 0x1_0000 + o;
    UnalignedOk(o, v, rd);
    EmitTwo(a, SetR(false, 13, v), Load(2, false, false, rd, Base(13)));
    its := [Unaligned(o, rd)];
  }

  lemma UnalignedOk(o: nat, v: u32, rd: Reg)
    requires o < 0x7F8 && v == 0x1_0000 + o && 1 <= rd <= 10
    ensures ItemsOk(DUMPED, [Unaligned(o, rd)]) && ItemsWords([Unaligned(o, rd)]) <= 3
    ensures SymItems([Unaligned(o, rd)]) == [Fixed(SetR(false, 13, v)), Fixed(Load(2, false, false, rd, Base(13)))]
  {
    hide SymItems, ItemsWords;
    SymItemsOne(Unaligned(o, rd));
    var i := Load(2, false, false, rd, Base(13));
    assert FixedAll([SetR(false, 13, v), i]) == [Fixed(SetR(false, 13, v)), Fixed(i)];
  }

  method EmitShift(a: Asm, rng: Rng, rd: Reg, r1: Reg) returns (ghost its: seq<Item>)
    requires a.Valid() && 1 <= rd <= 10
    modifies a, rng
    ensures a.Valid() && a.listing == old(a.listing) + SymItems(its) && a.labels == old(a.labels) && a.data == old(a.data)
    ensures ItemsOk(DUMPED, its) && ItemsWords(its) <= 3
    ensures var m := ShiftTurn(rng.stream, old(rng.used), rd, r1); its == m.got && rng.used == m.next
  {
    hide Asm.Valid, SymItems, ItemsWords, ItemsOk, PlainOk, Words, Bytes, Legal, Pick, Under, DataRegAt;
    var sop: ShiftOp := rng.Below(5);
    var n: u6 := rng.Below(64);
    var f := rng.Chance(0.3);
    var i := ShiftN(sop, n, f, rd, r1);
    OtherOk(i);
    its := EmitPlain(a, i);
  }

  lemma OtherOk(i: Instr)
    requires i.ShiftN? || (i.Mul? && !(i.high && i.w)) || i.Div? || i.Mod? || i.Cmp? || i.SetCc? || i.Inc? || i.Dec? || i.Nop?
    requires i.Cmp? || i.Nop? || 1 <= i.rd <= 10
    ensures PlainOk(i)
  {
  }

  method EmitMul(a: Asm, rng: Rng, rd: Reg, r1: Reg, r2: Reg) returns (ghost its: seq<Item>)
    requires a.Valid() && 1 <= rd <= 10
    modifies a, rng
    ensures a.Valid() && a.listing == old(a.listing) + SymItems(its) && a.labels == old(a.labels) && a.data == old(a.data)
    ensures ItemsOk(DUMPED, its) && ItemsWords(its) <= 3
    ensures var m := MulTurn(rng.stream, old(rng.used), rd, r1, r2); its == m.got && rng.used == m.next
  {
    hide Asm.Valid, SymItems, ItemsWords, ItemsOk, PlainOk, Words, Bytes, Legal, Pick, Under, DataRegAt;
    var high := rng.Chance(0.3);
    var sgn := rng.Chance(0.5);
    var w := false;
    if !high {
      w := rng.Chance(0.25);
    }
    var i := Mul(sgn, high, w, rd, r1, r2);
    OtherOk(i);
    its := EmitPlain(a, i);
  }

  method EmitDivMod(a: Asm, rng: Rng, rd: Reg, r1: Reg, r2: Reg) returns (ghost its: seq<Item>)
    requires a.Valid() && 1 <= rd <= 10
    modifies a, rng
    ensures a.Valid() && a.listing == old(a.listing) + SymItems(its) && a.labels == old(a.labels) && a.data == old(a.data)
    ensures ItemsOk(DUMPED, its) && ItemsWords(its) <= 3
    ensures var m := DivModTurn(rng.stream, old(rng.used), rd, r1, r2); its == m.got && rng.used == m.next
  {
    hide Asm.Valid, SymItems, ItemsWords, ItemsOk, PlainOk, Words, Bytes, Legal, Pick, Under, DataRegAt;
    var div := rng.Chance(0.5);
    var sgn := rng.Chance(0.5);
    var i := if div then Div(sgn, rd, r1, r2) else Mod(sgn, rd, r1, r2);
    OtherOk(i);
    its := EmitPlain(a, i);
  }

  /** The predicate and inversion of a CMP_PRED entry. */
  method AnyPredicate(rng: Rng) returns (p: Pred, inv: bool)
    modifies rng
    ensures (p, inv) == PredicateAt(rng.stream, old(rng.used)) && rng.used == old(rng.used) + 1
  {
    var v := rng.Below(10);
    p, inv := v / 2, v % 2 == 1;
  }

  method EmitCompare(a: Asm, rng: Rng, rd: Reg, r1: Reg, r2: Reg) returns (ghost its: seq<Item>)
    requires a.Valid() && 1 <= rd <= 10
    modifies a, rng
    ensures a.Valid() && a.listing == old(a.listing) + SymItems(its) && a.labels == old(a.labels) && a.data == old(a.data)
    ensures ItemsOk(DUMPED, its) && ItemsWords(its) <= 3
    ensures var m := CompareTurn(rng.stream, old(rng.used), rd, r1, r2); its == m.got && rng.used == m.next
  {
    hide Asm.Valid, SymItems, ItemsWords, ItemsOk, PlainOk, Words, Bytes, Legal, PredicateAt, Under, DataRegAt;
    var w := rng.Chance(0.2);
    var p, inv := AnyPredicate(rng);
    var i, j := Cmp(w, r1, r2), SetCc(p, inv, false, rd, r1, r2);
    OtherOk(i);
    OtherOk(j);
    PairOk(i, j);
    EmitTwo(a, i, j);
    its := [Plain(i), Plain(j)];
  }

  lemma PairOk(i: Instr, j: Instr)
    requires PlainOk(i) && PlainOk(j) && i.Cmp? && j.SetCc?
    ensures SymItems([Plain(i), Plain(j)]) == [Fixed(i), Fixed(j)] && ItemsWords([Plain(i), Plain(j)]) <= 3
    ensures ItemsOk(DUMPED, [Plain(i), Plain(j)])
  {
    hide PlainOk, SymItems, ItemsWords;
    PlainSym(i);
    PlainSym(j);
    SymItemsAppend([Plain(i)], [Plain(j)]);
    assert [Plain(i)] + [Plain(j)] == [Plain(i), Plain(j)];
    assert [Fixed(i)] + [Fixed(j)] == [Fixed(i), Fixed(j)];
  }

  /** `add` or `xor` of data registers. */
  method Simple(rng: Rng) returns (i: Instr)
    modifies rng
    ensures SimpleOk(i)
    ensures var m := SimpleAt(rng.stream, old(rng.used)); i == m.got && rng.used == m.next
  {
    var v := rng.Below(2);
    var rd := rng.DataReg();
    var r1 := rng.DataReg();
    var r2 := rng.DataReg();
    i := Alu(if v == 0 then 0 else 6, false, rd, r1, r2);
  }

  method EmitBracket(a: Asm, rng: Rng, rd: Reg, r1: Reg) returns (ghost its: seq<Item>)
    requires a.Valid() && 1 <= rd <= 10 && 1 <= r1 <= 10
    modifies a, rng
    ensures a.Valid() && a.listing == old(a.listing) + SymItems(its) && a.labels == old(a.labels) && a.data == old(a.data)
    ensures ItemsOk(DUMPED, its) && ItemsWords(its) <= 3
    ensures var m := BracketTurn(rng.stream, old(rng.used), rd, r1); its == m.got && rng.used == m.next
  {
    hide Asm.Valid, SymItems, ItemsWords, ItemsOk, SimpleOk, SimpleAt, AllSlots, Starts, SymSize;
    var mid := Simple(rng);
    var _ := a.Emit(Fixed(Push(r1)));
    EmitTwo(a, mid, Pop(rd));
    BracketOk(r1, mid, rd);
    Assoc(old(a.listing), [Fixed(Push(r1))], [Fixed(mid), Fixed(Pop(rd))]);
    its := [Bracket(r1, mid, rd)];
  }

  lemma BracketOk(r1: Reg, mid: Instr, rd: Reg)
    requires SimpleOk(mid) && 1 <= rd <= 10 && 1 <= r1 <= 10
    ensures ItemsOk(DUMPED, [Bracket(r1, mid, rd)]) && ItemsWords([Bracket(r1, mid, rd)]) <= 3
    ensures SymItems([Bracket(r1, mid, rd)]) == [Fixed(Push(r1))] + [Fixed(mid), Fixed(Pop(rd))]
  {
    hide SymItems, ItemsWords;
    SymItemsOne(Bracket(r1, mid, rd));
    assert FixedAll([Push(r1), mid, Pop(rd)]) == [Fixed(Push(r1))] + [Fixed(mid), Fixed(Pop(rd))];
  }

  method EmitIncDec(a: Asm, rng: Rng, rd: Reg) returns (ghost its: seq<Item>)
    requires a.Valid() && 1 <= rd <= 10
    modifies a, rng
    ensures a.Valid() && a.listing == old(a.listing) + SymItems(its) && a.labels == old(a.labels) && a.data == old(a.data)
    ensures ItemsOk(DUMPED, its) && ItemsWords(its) <= 3
    ensures var m := Made([Plain(if Under(rng.stream, old(rng.used), 0.5) then Inc(rd, rd) else Dec(rd, rd))], old(rng.used) + 1);
      its == m.got && rng.used == m.next
  {
    hide *;
    var inc := rng.Chance(0.5);
    var i := if inc then Inc(rd, rd) else Dec(rd, rd);
    OtherOk(i);
    its := EmitPlain(a, i);
  }

  method EmitCall(a: Asm, rng: Rng) returns (ghost its: seq<Item>)
    requires a.Valid()
    modifies a, rng
    ensures a.Valid() && a.listing == old(a.listing) + SymItems(its) && a.labels == old(a.labels) && a.data == old(a.data)
    ensures ItemsOk(DUMPED, its) && ItemsWords(its) <= 3
    ensures var m := Made([CallLeaf(Pick(rng.stream, old(rng.used), 3))], old(rng.used) + 1); its == m.got && rng.used == m.next
  {
    hide *;
    var f := rng.Below(3);
    CallOk(f);
    var _ := a.Emit(Jump(true, 0, false, Label(Name('F', f))));
    its := [CallLeaf(f)];
  }

  lemma CallOk(f: nat)
    requires f < 3
    ensures ItemsOk(DUMPED, [CallLeaf(f)]) && ItemsWords([CallLeaf(f)]) <= 3
    ensures SymItems([CallLeaf(f)]) == [Jump(true, 0, false, Label(Name('F', f)))]
  {
    hide SymItems, ItemsWords;
    SymItemsOne(CallLeaf(f));
  }

  /** One random choice of `straight`; the leaf functions are always there by now. */
  method EmitChoice(a: Asm, rng: Rng, span: nat) returns (ghost its: seq<Item>)
    requires a.Valid() && 8 <= span <= WIDEST
    modifies a, rng
    ensures a.Valid() && a.listing == old(a.listing) + SymItems(its) && a.labels == old(a.labels) && a.data == old(a.data)
    ensures ItemsOk(Window(span), its) && ItemsWords(its) <= 3
    ensures var m := Turn(rng.stream, old(rng.used), span); its == m.got && rng.used == m.next
  {
    hide AluTurn, ImmediateTurn, LoadTurn, StoreTurn, ShiftTurn, MulTurn, DivModTurn, CompareTurn, BracketTurn, SimpleAt,
      Under, Pick, DataRegAt, Fraction, Asm.Valid, SymItems, ItemsWords, ItemsOk, Window, PlainOk, Words;
    var k := rng.Random();
    var rd := rng.DataReg();
    var r1 := rng.DataReg();
    var r2 := rng.DataReg();
    if k < 0.22 {
      its := EmitAlu(a, rng, rd, r1, r2);
    } else if k < 0.30 {
      its := EmitImmediate(a, rng, rd, r1, true);
    } else if k < 0.34 {
      its := EmitImmediate(a, rng, rd, r1, false);
    } else if k < 0.48 {
      its := EmitAccess(a, rng, true, rd, span);
    } else if k < 0.60 {
      its := EmitAccess(a, rng, false, rd, span);
    } else if k < 0.63 {
      its := EmitUnaligned(a, rng, rd);
    } else if k < 0.68 {
      its := EmitShift(a, rng, rd, r1);
    } else if k < 0.73 {
      its := EmitMul(a, rng, rd, r1, r2);
    } else if k < 0.745 {
      its := EmitDivMod(a, rng, rd, r1, r2);
    } else if k < 0.78 {
      its := EmitCompare(a, rng, rd, r1, r2);
    } else if k < 0.82 {
      its := EmitBracket(a, rng, rd, r1);
    } else if k < 0.86 {
      its := EmitIncDec(a, rng, rd);
    } else if k < 0.90 {
      its := EmitCall(a, rng);
    } else if k < 0.93 {
      AluOk(5, false, rd, r1, r1);
      its := EmitPlain(a, Alu(5, false, rd, r1, r1));
    } else {
      OtherOk(Nop);
      its := EmitPlain(a, Nop);
    }
    if k < 0.34 || k >= 0.60 {
      Wider(its, span);
    }
  }

  /** What needs no more than the dumped window fits the wider one. */
  lemma Wider(its: seq<Item>, span: nat)
    requires ItemsOk(DUMPED, its) && span <= WIDEST
    ensures ItemsOk(Window(span), its)
  {
    hide PlainOk, SimpleOk, Legal, DirectOffset, Bytes;
    forall k | 0 <= k < |its|
      ensures ItemOk(Window(span), its[k])
    {
      assert ItemOk(DUMPED, its[k]);
    }
  }

  method EmitStraight(a: Asm, rng: Rng, span: nat, n: nat) returns (ghost its: seq<Item>)
    requires a.Valid() && 8 <= span <= WIDEST
    modifies a, rng
    ensures a.Valid() && a.listing == old(a.listing) + SymItems(its) && a.labels == old(a.labels) && a.data == old(a.data)
    ensures ItemsOk(Window(span), its) && ItemsWords(its) <= 3 * n
    ensures var m := Turns(rng.stream, old(rng.used), span, n); its == m.got && rng.used == m.next
  {
    hide Turn, Asm.Valid, SymItems, ItemsWords, ItemsOk, Window;
    its := [];
    NoItems(Window(span));
    Neutral(a.listing);
    for i := 0 to n
      invariant a.Valid() && a.listing == old(a.listing) + SymItems(its) && a.labels == old(a.labels) && a.data == old(a.data)
      invariant ItemsOk(Window(span), its) && ItemsWords(its) <= 3 * i
      invariant var m := Turns(rng.stream, old(rng.used), span, i); its == m.got && rng.used == m.next
    {
      ghost var before := a.listing;
      ghost var more := EmitChoice(a, rng, span);
      SymItemsAppend(its, more);
      Assoc(old(a.listing), SymItems(its), SymItems(more));
      BothOk(Window(span), its, more);
      its := its + more;
    }
  }

  lemma NoItems(w: nat)
    ensures SymItems([]) == [] && ItemsOk(w, []) && ItemsWords([]) == 0
  {
  }

  lemma BothOk(w: nat, xs: seq<Item>, ys: seq<Item>)
    requires ItemsOk(w, xs) && ItemsOk(w, ys)
    ensures ItemsOk(w, xs + ys)
  {
    hide ItemOk;
  }

  // ---- sizes of symbol lists

  lemma {:induction false} FixedSize(ins: seq<Instr>)
    ensures SymSize(FixedAll(ins)) == WordCount(ins)
  {
    hide Words;
    ResolveFixed(ins, 0, map[]);
  }

  lemma {:induction false} SymItemsSize(w: nat, its: seq<Item>)
    requires ItemsOk(w, its)
    ensures SymSize(SymItems(its)) == ItemsWords(its)
  {
    hide ItemWords, SymItem, ItemOk, SymSize, AllSlots;
    if its == [] {
      ResolveNone(0, map[]);
    } else {
      SymItemSize(its[0]);
      SymItemsSize(w, its[1..]);
      AppendSlots(SymItem(its[0]), SymItems(its[1..]));
    }
  }

  lemma SymItemSize(it: Item)
    ensures SymSize(SymItem(it)) == ItemWords(it)
  {
    hide Words, WordCount;
    if it.CallLeaf? {
      assert SymItem(it)[1..] == [];
    } else {
      FlatItemWords(it, 0, []);
      FixedSize(FlatItem(it, 0, []));
    }
  }

  lemma SymHeadSize(b: Block, n: Name)
    ensures SymSize(SymHead(b, n)) == HeadWords(b)
  {
    hide SymSize, Disp18, Disp13;
    match b
    case Straight(_) => ResolveNone(0, map[]);
    case Loop(count, _, _) => SizeShort(Fixed(SetR(false, 11, count % U32)), Fixed(Ret));
    case Skip(Fused(p, inv, rs1, rs2), _) => SizeShort(Branch(p, inv, rs1, RegRhs(rs2), Label(n)), Fixed(Ret));
    case Skip(Flagged(w, rs1, rs2, cond, inv), _) => SizeShort(Fixed(Cmp(w, rs1, rs2)), Jump(false, cond, inv, Label(n)));
  }

  lemma SymTailSize(b: Block, n: Name)
    ensures SymSize(SymTail(b, n)) == TailWords(b)
  {
    hide SymSize, ItemsWords;
    if b.Loop? {
      var dec, cmp := Fixed(AluIS(0, true, 11, 11, 0xFF)), Fixed(CmpIS(false, 11, 0));
      var f, j := Branch(0, true, 11, Imm4(0), Label(n)), Jump(false, 1, true, Label(n));
      SizeShort(dec, f);
      SizeShort(cmp, j);
      if b.fused {
        assert SymTail(b, n) == [dec, f];
      } else {
        SizeAppend([dec], [cmp, j]);
      }
    } else {
      ResolveNone(0, map[]);
      NoTail(b, n);
    }
  }

  lemma SymBlockSize(w: nat, b: Block, n: Name)
    requires ItemsOk(w, b.its)
    ensures SymSize(SymBlock(b, n)) == BlockWords(b)
  {
    hide AllSlots, SymSize, SymHead, SymTail, SymItems, ItemsWords, HeadWords, TailWords, ItemsOk;
    SymHeadSize(b, n);
    SymItemsSize(w, b.its);
    SymTailSize(b, n);
    AppendSlots(SymItems(b.its), SymTail(b, n));
    AppendSlots(SymHead(b, n), SymItems(b.its) + SymTail(b, n));
  }

  // ---- labels

  /** The names in use: L1..Lcount and the first few leaves. */
  ghost predicate NamesUsed(labels: Labels, count: nat, leaves: nat) {
    forall n :: n in labels ==> (n.prefix == 'L' && 1 <= n.index <= count) || (n.prefix == 'F' && n.index < leaves)
  }

  ghost predicate Extends(l: Labels, l': Labels) {
    forall n :: n in l ==> n in l' && l'[n] == l[n]
  }

  lemma FreshLocal(labels: Labels, count: nat, leaves: nat, a: int)
    requires NamesUsed(labels, count, leaves)
    ensures LocalName(count + 1) !in labels
    ensures var l := labels[LocalName(count + 1) := a]; NamesUsed(l, count + 1, leaves) && Extends(labels, l)
  {
  }

  lemma FreshLeaf(labels: Labels, count: nat, leaves: nat, a: int)
    requires NamesUsed(labels, count, leaves)
    ensures LeafName(leaves) !in labels
    ensures var l := labels[LeafName(leaves) := a]; NamesUsed(l, count, leaves + 1) && Extends(labels, l)
  {
  }

  lemma LabelStays(b: Block, n: Name, a: int, l: Labels, l': Labels)
    requires LabelAt(b, n, a, l) && Extends(l, l')
    ensures LabelAt(b, n, a, l')
  {
    hide HeadWords, ItemsWords;
  }

  lemma {:induction false} LabelsStay(bs: seq<Block>, ns: seq<Name>, a: int, l: Labels, l': Labels)
    requires |bs| == |ns| && LabelsAt(bs, ns, a, l) && Extends(l, l')
    ensures LabelsAt(bs, ns, a, l')
    decreases |bs|
  {
    hide LabelAt, BlockWords, Extends;
    if bs != [] {
      LabelStays(bs[0], ns[0], a, l, l');
      LabelsStay(bs[1..], ns[1..], a + 4 * BlockWords(bs[0]), l, l');
    }
  }

  lemma {:induction false} BlocksAppend(bs: seq<Block>, ns: seq<Name>, b: Block, n: Name, a: int, l: Labels)
    requires |bs| == |ns| && LabelsAt(bs, ns, a, l) && LabelAt(b, n, a + 4 * BlocksWords(bs), l)
    ensures SymBlocks(bs + [b], ns + [n]) == SymBlocks(bs, ns) + SymBlock(b, n)
    ensures LabelsAt(bs + [b], ns + [n], a, l) && BlocksWords(bs + [b]) == BlocksWords(bs) + BlockWords(b)
    decreases |bs|
  {
    hide LabelAt, BlockWords, SymBlock;
    if bs == [] {
      assert [b][1..] == [] && [n][1..] == [];
      Neutral(SymBlock(b, n));
      Neutral([b]);
      Neutral([n]);
      assert [] + [b] == [b] && [] + [n] == [n];
    } else {
      var w := BlockWords(bs[0]);
      assert (bs + [b])[1..] == bs[1..] + [b] && (ns + [n])[1..] == ns[1..] + [n];
      BlocksAppend(bs[1..], ns[1..], b, n, a + 4 * w, l);
      Assoc(SymBlock(bs[0], ns[0]), SymBlocks(bs[1..], ns[1..]), SymBlock(b, n));
    }
  }

  // ---- blocks

  method DefineLocal(a: Asm, count: nat)
    requires a.Valid() && NamesUsed(a.labels, count, 3)
    modifies a
    ensures a.Valid() && a.listing == old(a.listing) && a.data == old(a.data)
    ensures a.labels == old(a.labels)[LocalName(count + 1) := a.base + 4 * SymSize(a.listing)]
    ensures NamesUsed(a.labels, count + 1, 3) && Extends(old(a.labels), a.labels)
  {
    hide Asm.Valid, SymSize, NamesUsed, Extends;
    FreshLocal(a.labels, count, 3, a.base + 4 * SymSize(a.listing));
    var ok := a.Define(LocalName(count + 1));
  }

  /** Straight code, a forward skip or a bounded loop. */
  method EmitStraightBlock(a: Asm, rng: Rng, span: nat, count: nat) returns (ghost b: Block)
    requires a.Valid() && 8 <= span <= WIDEST
    modifies a, rng
    ensures a.Valid() && a.listing == old(a.listing) + SymBlock(b, LocalName(count)) && a.labels == old(a.labels)
    ensures a.data == old(a.data) && BlockOk(Window(span), b) && b.Straight?
    ensures var p := old(rng.used); var m := Turns(rng.stream, p + 1, span, 1 + Pick(rng.stream, p, 7));
      b == Straight(m.got) && rng.used == m.next
  {
    hide *;
    var n := rng.Below(7);
    ghost var its := EmitStraight(a, rng, span, 1 + n);
    b := Straight(its);
    StraightOk(Window(span), its, LocalName(count));
  }

  lemma StraightOk(w: nat, its: seq<Item>, n: Name)
    requires ItemsOk(w, its) && ItemsWords(its) <= 21
    ensures BlockOk(w, Straight(its)) && SymBlock(Straight(its), n) == SymItems(its)
  {
    hide ItemOk, SymItems;
    Neutral(SymItems(its));
  }

  /** A JCOND entry. */
  method AnyCondition(rng: Rng) returns (cond: Cond, inv: bool)
    modifies rng
    ensures inv ==> cond != 0
    ensures var k := Pick(rng.stream, old(rng.used), 17);
      cond == CONDITIONS[k] && inv == INVERSIONS[k] && rng.used == old(rng.used) + 1
  {
    var k := rng.Below(17);
    cond, inv := CONDITIONS[k], INVERSIONS[k];
  }

  method EmitTest(a: Asm, rng: Rng, n: Name) returns (ghost test: Test)
    requires a.Valid()
    modifies a, rng
    ensures a.Valid() && a.listing == old(a.listing) + SymTest(test, Label(n)) && a.labels == old(a.labels)
    ensures a.data == old(a.data) && (test.Flagged? ==> test.inv ==> test.cond != 0)
    ensures var m := TestAt(rng.stream, old(rng.used)); test == m.got && rng.used == m.next
  {
    hide Asm.Valid, Words, AllSlots, SymSize, PredicateAt, Pick, Under, DataRegAt;
    var r1 := rng.DataReg();
    var r2 := rng.DataReg();
    var fused := rng.Chance(0.5);
    if fused {
      var p, inv := AnyPredicate(rng);
      var _ := a.Emit(Branch(p, inv, r1, RegRhs(r2), Label(n)));
      test := Fused(p, inv, r1, r2);
    } else {
      var w := rng.Chance(0.2);
      var cond, inv := AnyCondition(rng);
      var _ := a.Emit(Fixed(Cmp(w, r1, r2)));
      var _ := a.Emit(Jump(false, cond, inv, Label(n)));
      test := Flagged(w, r1, r2, cond, inv);
      Assoc(old(a.listing), [Fixed(Cmp(w, r1, r2))], [Jump(false, cond, inv, Label(n))]);
      assert [Fixed(Cmp(w, r1, r2))] + [Jump(false, cond, inv, Label(n))] == SymTest(test, Label(n));
    }
  }

  method EmitSkip(a: Asm, rng: Rng, span: nat, count: nat) returns (ghost b: Block)
    requires a.Valid() && 8 <= span <= WIDEST && NamesUsed(a.labels, count, 3)
    modifies a, rng
    ensures a.Valid() && a.listing == old(a.listing) + SymBlock(b, LocalName(count + 1)) && a.data == old(a.data)
    ensures BlockOk(Window(span), b) && LabelAt(b, LocalName(count + 1), a.base + 4 * SymSize(old(a.listing)), a.labels)
    ensures NamesUsed(a.labels, count + 1, 3) && Extends(old(a.labels), a.labels)
    ensures var t := TestAt(rng.stream, old(rng.used));
      var m := Turns(rng.stream, t.next + 1, span, 1 + Pick(rng.stream, t.next, 4));
      b == Skip(t.got, m.got) && rng.used == m.next
  {
    hide *;
    ghost var t := LocalName(count + 1);
    ghost var test := EmitTest(a, rng, Name('L', count + 1));
    var n := rng.Below(4);
    ghost var its := EmitStraight(a, rng, span, 1 + n);
    b := Skip(test, its);
    SkipOk(Window(span), b, Name('L', count + 1), old(a.listing));
    IsLocal(count + 1);
    DefineLocal(a, count);
    SkipLabel(Window(span), b, t, a.base, old(a.listing), a.labels);
  }

  lemma IsLocal(n: nat)
    ensures LocalName(n) == Name('L', n)
  {
  }

  lemma SkipOk(w: nat, b: Block, n: Name, before: seq<Sym>)
    requires b.Skip? && ItemsOk(w, b.its) && ItemsWords(b.its) <= 12 && (b.test.Flagged? ==> b.test.inv ==> b.test.cond != 0)
    ensures BlockOk(w, b) && (before + SymTest(b.test, Label(n))) + SymItems(b.its) == before + SymBlock(b, n)
  {
    hide ItemOk, SymItems, SymTest, ItemsWords;
    NoTail(b, n);
    Neutral(SymItems(b.its));
    Assoc(before, SymTest(b.test, Label(n)), SymItems(b.its));
  }

  lemma SkipLabel(w: nat, b: Block, n: Name, base: int, before: seq<Sym>, labels: Labels)
    requires b.Skip? && ItemsOk(w, b.its)
    requires n in labels && labels[n] == base + 4 * SymSize(before + SymBlock(b, n))
    ensures LabelAt(b, n, base + 4 * SymSize(before), labels)
  {
    hide ItemOk, SymBlock, SymSize, ItemsWords, ItemsOk, AllSlots;
    SymBlockSize(w, b, n);
    AppendSlots(before, SymBlock(b, n));
  }

  method EmitLoop(a: Asm, rng: Rng, span: nat, count: nat) returns (ghost b: Block)
    requires a.Valid() && 8 <= span <= WIDEST && NamesUsed(a.labels, count, 3)
    modifies a, rng
    ensures a.Valid() && a.listing == old(a.listing) + SymBlock(b, LocalName(count + 1)) && a.data == old(a.data)
    ensures BlockOk(Window(span), b) && LabelAt(b, LocalName(count + 1), a.base + 4 * SymSize(old(a.listing)), a.labels)
    ensures NamesUsed(a.labels, count + 1, 3) && Extends(old(a.labels), a.labels)
    ensures var p := old(rng.used); var m := Turns(rng.stream, p + 2, span, 1 + Pick(rng.stream, p + 1, 5));
      b == Loop(1 + Pick(rng.stream, p, 5), m.got, Under(rng.stream, m.next, 0.5)) && rng.used == m.next + 1
  {
    hide *;
    ghost var t := LocalName(count + 1);
    IsLocal(count + 1);
    var k := rng.Below(5);
    var set11 := SetR(false, 11, 1 + k);
    var _ := a.Emit(Fixed(set11));
    DefineLocal(a, count);
    var n := rng.Below(5);
    ghost var its := EmitStraight(a, rng, span, 1 + n);
    var fused := rng.Chance(0.5);
    b := Loop(1 + k, its, fused);
    var _ := a.Emit(Fixed(AluIS(0, true, 11, 11, 0xFF)));
    if fused {
      var _ := a.Emit(Branch(0, true, 11, Imm4(0), Label(Name('L', count + 1))));
    } else {
      var _ := a.Emit(Fixed(CmpIS(false, 11, 0)));
      var _ := a.Emit(Jump(false, 1, true, Label(Name('L', count + 1))));
    }
    LoopOk(Window(span), b, Name('L', count + 1), old(a.listing));
    LoopLabel(Window(span), b, t, a.base, old(a.listing), 1 + k, a.labels);
  }

  lemma LoopOk(w: nat, b: Block, n: Name, before: seq<Sym>)
    requires b.Loop? && ItemsOk(w, b.its) && ItemsWords(b.its) <= 15 && 1 <= b.count <= 5
    ensures BlockOk(w, b)
    ensures var x := ((before + [Fixed(SetR(false, 11, b.count))]) + SymItems(b.its)) + [Fixed(AluIS(0, true, 11, 11, 0xFF))];
      (if b.fused then x + [Branch(0, true, 11, Imm4(0), Label(n))]
       else (x + [Fixed(CmpIS(false, 11, 0))]) + [Jump(false, 1, true, Label(n))])
      == before + SymBlock(b, n)
  {
    hide ItemOk, SymItems, ItemsWords;
    var h, d := [Fixed(SetR(false, 11, b.count))], [Fixed(AluIS(0, true, 11, 11, 0xFF))];
    var its, tail := SymItems(b.its), SymTail(b, n);
    assert SymHead(b, n) == h;
    var x := ((before + h) + its) + d;
    if b.fused {
      var e := [Branch(0, true, 11, Imm4(0), Label(n))];
      assert tail == d + e;
      Regroup(before, h, its, d, e);
    } else {
      var e, f := [Fixed(CmpIS(false, 11, 0))], [Jump(false, 1, true, Label(n))];
      assert e + f == [Fixed(CmpIS(false, 11, 0)), Jump(false, 1, true, Label(n))];
      assert tail == d + (e + f);
      Assoc(x, e, f);
      Regroup(before, h, its, d, e + f);
    }
  }

  lemma Regroup<T>(a: seq<T>, b: seq<T>, c: seq<T>, d: seq<T>, e: seq<T>)
    ensures (((a + b) + c) + d) + e == a + (b + (c + (d + e)))
  {
    Assoc((a + b) + c, d, e);
    Assoc(a + b, c, d + e);
    Assoc(a, b, c + (d + e));
  }

  lemma LoopLabel(w: nat, b: Block, n: Name, base: int, before: seq<Sym>, v: u32, labels: Labels)
    requires b.Loop?
    requires n in labels && labels[n] == base + 4 * SymSize(before + [Fixed(SetR(false, 11, v))])
    ensures LabelAt(b, n, base + 4 * SymSize(before), labels)
  {
    hide SymSize, ItemsWords;
    SizeShort(Fixed(SetR(false, 11, v)), Fixed(Ret));
    SizeAppend(before, [Fixed(SetR(false, 11, v))]);
  }

  // ---- prologue and leaf functions

  /** The random load of register r. */
  method Init(rng: Rng, r: Reg) returns (i: Instr)
    modifies rng
    ensures (i.SetR? || i.SetR64?) && i.rd == r
    ensures var m := InitAt(rng.stream, old(rng.used), r); i == m.got && rng.used == m.next
  {
    hide Pick, Under;
    var wide := rng.Chance(0.3);
    if wide {
      var v := rng.Below(U64);
      i := SetR64(r, v);
    } else {
      var v := rng.Below(U32);
      var sgn := rng.Chance(0.5);
      i := SetR(sgn, r, v);
    }
  }

  method EmitInits(a: Asm, rng: Rng) returns (ghost ins: seq<Instr>)
    requires a.Valid()
    modifies a, rng
    ensures a.Valid() && a.listing == old(a.listing) + FixedAll(ins) && a.labels == old(a.labels) && a.data == old(a.data)
    ensures (forall k :: 0 <= k < |ins| ==> InitOk(ins[k])) && WordCount(ins) <= 30
    ensures var m := InitsAt(rng.stream, old(rng.used), 10); ins == m.got && rng.used == m.next
  {
    hide Asm.Valid, FixedAll, InitOk, WordCount, InitAt, Pick, Under;
    ins := [];
    NoInits();
    Neutral(a.listing);
    for r := 1 to 11
      invariant a.Valid() && a.listing == old(a.listing) + FixedAll(ins) && a.labels == old(a.labels) && a.data == old(a.data)
      invariant (forall k :: 0 <= k < |ins| ==> InitOk(ins[k])) && WordCount(ins) <= 3 * (r - 1)
      invariant var m := InitsAt(rng.stream, old(rng.used), r - 1); ins == m.got && rng.used == m.next
    {
      var i := Init(rng, r);
      var _ := a.Emit(Fixed(i));
      MoreInits(old(a.listing), ins, i);
      ins := ins + [i];
    }
  }

  lemma NoInits()
    ensures FixedAll([]) == [] && WordCount([]) == 0
  {
  }

  lemma MoreInits(before: seq<Sym>, ins: seq<Instr>, i: Instr)
    requires (i.SetR? || i.SetR64?) && 1 <= i.rd <= 10
    ensures InitOk(i) && WordCount(ins + [i]) <= WordCount(ins) + 3
    ensures (before + FixedAll(ins)) + [Fixed(i)] == before + FixedAll(ins + [i])
  {
    hide WordCount;
    WordCountShort(i, i);
    AtAppend(map[], 0, ins, [i]);
    FixedAllAppend(ins, [i]);
    assert FixedAll([i]) == [Fixed(i)];
    Assoc(before, FixedAll(ins), [Fixed(i)]);
  }

  lemma FixedOne(i: Instr)
    ensures FixedAll([i]) == [Fixed(i)]
  {
  }

  /** `straight_simple(n)`. */
  method EmitSimple(a: Asm, rng: Rng, n: nat) returns (ghost body: seq<Instr>)
    requires a.Valid()
    modifies a, rng
    ensures a.Valid() && a.listing == old(a.listing) + FixedAll(body) && a.labels == old(a.labels) && a.data == old(a.data)
    ensures |body| == n && forall k :: 0 <= k < n ==> SimpleOk(body[k])
    ensures var m := SimplesAt(rng.stream, old(rng.used), n); body == m.got && rng.used == m.next
  {
    hide Asm.Valid, FixedAll, SimpleOk, SimpleAt;
    body := [];
    NoInits();
    Neutral(a.listing);
    for k := 0 to n
      invariant a.Valid() && a.listing == old(a.listing) + FixedAll(body) && a.labels == old(a.labels) && a.data == old(a.data)
      invariant |body| == k && forall j :: 0 <= j < k ==> SimpleOk(body[j])
      invariant var m := SimplesAt(rng.stream, old(rng.used), k); body == m.got && rng.used == m.next
    {
      var i := Simple(rng);
      var _ := a.Emit(Fixed(i));
      FixedAllAppend(body, [i]);
      FixedOne(i);
      Assoc(old(a.listing), FixedAll(body), [Fixed(i)]);
      body := body + [i];
    }
  }

  method DefineLeaf(a: Asm, k: nat)
    requires a.Valid() && NamesUsed(a.labels, 0, k)
    modifies a
    ensures a.Valid() && a.listing == old(a.listing) && a.data == old(a.data)
    ensures a.labels == old(a.labels)[LeafName(k) := a.base + 4 * SymSize(a.listing)]
    ensures NamesUsed(a.labels, 0, k + 1) && Extends(old(a.labels), a.labels)
  {
    hide Asm.Valid, SymSize, NamesUsed, Extends;
    FreshLeaf(a.labels, 0, k, a.base + 4 * SymSize(a.listing));
    var ok := a.Define(LeafName(k));
  }

  method EmitLeaf(a: Asm, rng: Rng, k: nat) returns (ghost f: Leaf)
    requires a.Valid() && NamesUsed(a.labels, 0, k)
    modifies a, rng
    ensures a.Valid() && a.listing == old(a.listing) + SymLeaf(f) && a.data == old(a.data) && LeafOk(f)
    ensures a.labels == old(a.labels)[LeafName(k) := a.base + 4 * SymSize(old(a.listing))]
    ensures NamesUsed(a.labels, 0, k + 1) && Extends(old(a.labels), a.labels)
    ensures var m := LeafFrom(rng.stream, old(rng.used)); f == m.got && rng.used == m.next
  {
    hide Asm.Valid, FixedAll, SimpleOk, SimplesAt, Pick, Under, NamesUsed, Extends, SymSize, LeafOk, SymLeaf, FlatLeaf;
    DefineLeaf(a, k);
    var framed := rng.Chance(0.5);
    var locals: u22 := 0;
    if framed {
      locals := rng.Below(3);
      var _ := a.Emit(Fixed(Enter(locals)));
    }
    var n := rng.Below(4);
    ghost var body := EmitSimple(a, rng, 1 + n);
    if framed {
      var joined := rng.Chance(0.6);
      if joined {
        var _ := a.Emit(Fixed(LeaveRet));
      } else {
        EmitTwo(a, Isa.Leave, Ret);
      }
      f := Leaf(Some(locals), body, !joined);
    } else {
      var _ := a.Emit(Fixed(Ret));
      f := Leaf(None, body, false);
    }
    LeafSym(old(a.listing), f);
    BodyOk(f);
  }

  lemma BodyOk(f: Leaf)
    requires (f.frame.Some? ==> f.frame.value <= 2) && 1 <= |f.body| <= 4
    requires forall k :: 0 <= k < |f.body| ==> SimpleOk(f.body[k])
    ensures LeafOk(f)
  {
    hide SimpleOk;
  }

  lemma LeafSym(before: seq<Sym>, f: Leaf)
    ensures f.frame.None? ==> (before + FixedAll(f.body)) + [Fixed(Ret)] == before + SymLeaf(f)
    ensures f.frame.Some? ==>
      var x := (before + [Fixed(Enter(f.frame.value))]) + FixedAll(f.body);
      (if f.split then x + [Fixed(Isa.Leave), Fixed(Ret)] else x + [Fixed(LeaveRet)]) == before + SymLeaf(f)
  {
    FixedOne(Ret);
    FixedOne(LeaveRet);
    assert FixedAll([Isa.Leave, Ret]) == [Fixed(Isa.Leave), Fixed(Ret)];
    if f.frame.None? {
      FixedAllAppend(f.body, [Ret]);
      Assoc(before, FixedAll(f.body), [Fixed(Ret)]);
    } else {
      var e := Enter(f.frame.value);
      var tail := if f.split then [Isa.Leave, Ret] else [LeaveRet];
      FixedOne(e);
      FixedAllAppend([e], f.body);
      FixedAllAppend([e] + f.body, tail);
      Assoc(before, [Fixed(e)], FixedAll(f.body));
      Assoc(before, [Fixed(e)] + FixedAll(f.body), FixedAll(tail));
    }
  }

  // ---- the generator

  ghost predicate BlocksOk(w: nat, bs: seq<Block>) {
    forall k :: 0 <= k < |bs| ==> BlockOk(w, bs[k])
  }

  /** All blocks so far, with their labels. */
  ghost predicate BlocksDone(w: nat, a: Asm, before: seq<Sym>, bs: seq<Block>, ns: seq<Name>)
    reads a
  {
    && |bs| == |ns| && a.listing == before + SymBlocks(bs, ns)
    && BlocksOk(w, bs)
    && LabelsAt(bs, ns, a.base + 4 * SymSize(before), a.labels)
  }

  method EmitBlock(a: Asm, rng: Rng, span: nat, count: nat) returns (used: nat, ghost b: Block, ghost n: Name)
    requires a.Valid() && 8 <= span <= WIDEST && NamesUsed(a.labels, count, 3)
    modifies a, rng
    ensures a.Valid() && a.listing == old(a.listing) + SymBlock(b, n) && a.data == old(a.data)
    ensures BlockOk(Window(span), b) && LabelAt(b, n, a.base + 4 * SymSize(old(a.listing)), a.labels)
    ensures NamesUsed(a.labels, used, 3) && Extends(old(a.labels), a.labels)
    ensures var m := BlockAt(rng.stream, old(rng.used), span); b == m.got && rng.used == m.next
  {
    hide Turns, TestAt, Pick, Fraction, Asm.Valid, SymBlock, SymSize, NamesUsed, Extends, LabelAt, BlockOk, Window;
    var k := rng.Random();
    if k < 0.5 {
      n := LocalName(count);
      b := EmitStraightBlock(a, rng, span, count);
      StraightLabel(b, n, a.base + 4 * SymSize(old(a.listing)), a.labels);
      used := count;
    } else if k < 0.7 {
      n := LocalName(count + 1);
      b := EmitSkip(a, rng, span, count);
      used := count + 1;
    } else {
      n := LocalName(count + 1);
      b := EmitLoop(a, rng, span, count);
      used := count + 1;
    }
  }

  lemma StraightLabel(b: Block, n: Name, a: int, labels: Labels)
    requires b.Straight?
    ensures LabelAt(b, n, a, labels) && Extends(labels, labels)
  {
  }

  lemma SymBlocksSize(w: nat, bs: seq<Block>, ns: seq<Name>)
    requires |bs| == |ns| && BlocksOk(w, bs)
    ensures SymSize(SymBlocks(bs, ns)) == BlocksWords(bs)
    decreases |bs|
  {
    hide SymBlock, SymSize, BlockWords, ItemOk;
    if bs == [] {
      ResolveNone(0, map[]);
    } else {
      assert BlockOk(w, bs[0]);
      SymBlockSize(w, bs[0], ns[0]);
      SymBlocksSize(w, bs[1..], ns[1..]);
      SizeAppend(SymBlock(bs[0], ns[0]), SymBlocks(bs[1..], ns[1..]));
    }
  }

  method EmitBlocks(a: Asm, rng: Rng, span: nat, count: nat, nBlocks: nat) returns (ghost bs: seq<Block>, ghost ns: seq<Name>)
    requires a.Valid() && 8 <= span <= WIDEST && NamesUsed(a.labels, count, 3)
    modifies a, rng
    ensures a.Valid() && a.data == old(a.data) && |bs| == nBlocks
    ensures BlocksDone(Window(span), a, old(a.listing), bs, ns) && Extends(old(a.labels), a.labels)
    ensures var m := BlocksAt(rng.stream, old(rng.used), span, nBlocks); bs == m.got && rng.used == m.next
  {
    hide BlockAt, Asm.Valid, SymBlock, SymSize, NamesUsed, Extends, LabelAt, BlockOk, BlocksDone, BlocksOk, LabelsAt, SymBlocks,
      Window;
    bs, ns := [], [];
    var used := count;
    NoBlocks(Window(span), a);
    for i := 0 to nBlocks
      invariant a.Valid() && a.data == old(a.data) && |bs| == i && NamesUsed(a.labels, used, 3)
      invariant var m := BlocksAt(rng.stream, old(rng.used), span, i); bs == m.got && rng.used == m.next
      invariant BlocksDone(Window(span), a, old(a.listing), bs, ns) && Extends(old(a.labels), a.labels)
    {
      ghost var l := a.labels;
      DoneFacts(Window(span), a, old(a.listing), bs, ns);
      ghost var b, n;
      used, b, n := EmitBlock(a, rng, span, used);
      OneMoreBlock(Window(span), a, old(a.listing), bs, ns, b, n, l);
      ExtendsOn(old(a.labels), l, a.labels);
      bs, ns := bs + [b], ns + [n];
    }
  }

  lemma NoBlocks(w: nat, a: Asm)
    ensures BlocksDone(w, a, a.listing, [], []) && Extends(a.labels, a.labels)
  {
    hide SymSize;
    Neutral(a.listing);
  }

  lemma DoneFacts(w: nat, a: Asm, before: seq<Sym>, bs: seq<Block>, ns: seq<Name>)
    requires BlocksDone(w, a, before, bs, ns)
    ensures |bs| == |ns| && a.listing == before + SymBlocks(bs, ns)
    ensures BlocksOk(w, bs)
    ensures LabelsAt(bs, ns, a.base + 4 * SymSize(before), a.labels)
  {
    hide SymSize, BlockOk, SymBlocks, LabelsAt;
  }

  lemma ExtendsOn(x: Labels, y: Labels, z: Labels)
    requires Extends(x, y) && Extends(y, z)
    ensures Extends(x, z)
  {
  }

  lemma OneMoreBlock(w: nat, a: Asm, before: seq<Sym>, bs: seq<Block>, ns: seq<Name>, b: Block, n: Name, l: Labels)
    requires |bs| == |ns| && BlocksOk(w, bs)
    requires LabelsAt(bs, ns, a.base + 4 * SymSize(before), l) && Extends(l, a.labels) && BlockOk(w, b)
    requires LabelAt(b, n, a.base + 4 * SymSize(before + SymBlocks(bs, ns)), a.labels)
    requires a.listing == (before + SymBlocks(bs, ns)) + SymBlock(b, n)
    ensures BlocksDone(w, a, before, bs + [b], ns + [n])
  {
    hide *;
    MoreLabels(w, a.base, before, bs, ns, b, n, l, a.labels);
    AllOk(w, bs, b);
    IsDone(w, a, before, bs + [b], ns + [n]);
  }

  lemma MoreLabels(w: nat, base: int, before: seq<Sym>, bs: seq<Block>, ns: seq<Name>, b: Block, n: Name, l: Labels, l': Labels)
    requires |bs| == |ns| && BlocksOk(w, bs)
    requires LabelsAt(bs, ns, base + 4 * SymSize(before), l) && Extends(l, l')
    requires LabelAt(b, n, base + 4 * SymSize(before + SymBlocks(bs, ns)), l')
    ensures LabelsAt(bs + [b], ns + [n], base + 4 * SymSize(before), l')
    ensures (before + SymBlocks(bs, ns)) + SymBlock(b, n) == before + SymBlocks(bs + [b], ns + [n])
  {
    hide *;
    var a0 := base + 4 * SymSize(before);
    SymBlocksSize(w, bs, ns);
    SizeAppend(before, SymBlocks(bs, ns));
    LabelsStay(bs, ns, a0, l, l');
    BlocksAppend(bs, ns, b, n, a0, l');
    Assoc(before, SymBlocks(bs, ns), SymBlock(b, n));
  }

  lemma AllOk(w: nat, bs: seq<Block>, b: Block)
    requires BlockOk(w, b) && BlocksOk(w, bs)
    ensures BlocksOk(w, bs + [b])
  {
    hide BlockOk;
  }

  lemma IsDone(w: nat, a: Asm, before: seq<Sym>, bs: seq<Block>, ns: seq<Name>)
    requires |bs| == |ns| && a.listing == before + SymBlocks(bs, ns)
    requires BlocksOk(w, bs)
    requires LabelsAt(bs, ns, a.base + 4 * SymSize(before), a.labels)
    ensures BlocksDone(w, a, before, bs, ns)
  {
    hide SymSize, BlockOk, SymBlocks, LabelsAt;
  }

  method EmitStart(a: Asm, rng: Rng, irq: bool) returns (ghost ins: seq<Instr>)
    requires a.Valid() && a.listing == []
    modifies a, rng
    ensures a.Valid() && a.listing == FixedAll(Start(ins, irq)) && a.labels == old(a.labels) && a.data == old(a.data)
    ensures (forall k :: 0 <= k < |ins| ==> InitOk(ins[k])) && WordCount(ins) <= 30
    ensures var m := InitsAt(rng.stream, old(rng.used), 10); ins == m.got && rng.used == m.next
  {
    hide *;
    ins := EmitInits(a, rng);
    var _ := a.Emit(Fixed(SetR(false, 12, 0x1_0000)));
    var _ := a.Emit(Fixed(SetR(false, 15, 0)));
    if irq {
      var _ := a.Emit(Fixed(SetR(false, 14, 0xF00F_0000)));
      EmitTwo(a, SetR(false, 13, 1), Store(3, false, 13, Base(14)));
    }
    StartListing(ins, irq);
  }

  /** `gen`: whatever the stream, the assembler ends up holding a program of the shape,
      with every label where its jumps expect it. */
  method Gen(rng: Rng, nBlocks: nat, irq: bool, span: nat)
    returns (a: Asm, ghost p: Program, ghost ns: seq<Name>)
    requires 8 <= span <= WIDEST
    modifies rng
    ensures fresh(a) && a.Valid() && a.base == BASE && a.data == map[]
    ensures ProgramOk(p) && |p.blocks| == nBlocks == |ns| && p.irq == irq && p.window == Window(span)
    ensures a.listing == SymProgram(p, LocalName(1), ns) && ProgramLabels(p, LocalName(1), ns, a.labels)
    ensures var m := ProgramAt(rng.stream, old(rng.used), nBlocks, irq, span); p == m.got && rng.used == m.next
  {
    hide InitsAt, LeafFrom, BlocksAt, Window, Asm.Valid, ProgramOk, SymProgram, ProgramLabels, FixedAll, Start, NamesUsed,
      Extends, SymSize, SymLeaf, LeafOk, BlocksDone, BlocksOk, SymBlocks, LabelsAt, Prologue, WordCount, InitOk;
    a := new Asm(0x20);
    ghost var ins := EmitStart(a, rng, irq);
    var _ := a.Emit(Jump(false, 0, false, Label(Name('L', 1))));
    ghost var s0 := a.listing;
    NoNames();
    ghost var f0 := EmitLeaf(a, rng, 0);
    ghost var f1 := EmitLeaf(a, rng, 1);
    ghost var f2 := EmitLeaf(a, rng, 2);
    ghost var l3, s3 := a.labels, a.listing;
    DefineLocal(a, 0);
    ghost var l4 := a.labels;
    ghost var bs;
    bs, ns := EmitBlocks(a, rng, span, 1, nBlocks);
    DoneFacts(Window(span), a, s3, bs, ns);
    var _ := a.Emit(Fixed(Halt));
    p := Program(ins, irq, [f0, f1, f2], bs, Window(span));
    BaseValue();
    PrologueIs(p);
    ProgramListing(p, ns, s0);
    ProgramLabelled(p, ns, s0, l4, a.labels);
    WindowRange(span);
    GenOk(p);
  }

  lemma PrologueIs(p: Program)
    ensures Prologue(p) == Start(p.inits, p.irq)
  {
  }

  lemma StartListing(ins: seq<Instr>, irq: bool)
    ensures var x := (([] + FixedAll(ins)) + [Fixed(SetR(false, 12, 0x1_0000))]) + [Fixed(SetR(false, 15, 0))];
      var y := if irq then (x + [Fixed(SetR(false, 14, 0xF00F_0000))]) + [Fixed(SetR(false, 13, 1)), Fixed(Store(3, false, 13, Base(14)))]
               else x;
      y == FixedAll(Start(ins, irq))
  {
    hide InitOk;
    var i12, i15, i14 := SetR(false, 12, 0x1_0000), SetR(false, 15, 0), SetR(false, 14, 0xF00F_0000);
    var i13, st := SetR(false, 13, 1), Store(3, false, 13, Base(14));
    var m := MaskSetup(irq);
    FixedOne(i12);
    FixedOne(i15);
    FixedOne(i14);
    assert FixedAll([i13, st]) == [Fixed(i13), Fixed(st)];
    Neutral(FixedAll(ins));
    FixedAllAppend(ins, [i12]);
    FixedAllAppend(ins + [i12], [i15]);
    var x := (ins + [i12]) + [i15];
    assert x + m == Start(ins, irq) by {
      Assoc(ins, [i12], [i15]);
      assert [i12] + [i15] == [i12, i15];
      Assoc(ins, [i12, i15], m);
    }
    if irq {
      FixedAllAppend(x, [i14]);
      FixedAllAppend(x + [i14], [i13, st]);
      Assoc(x, [i14], [i13, st]);
      assert [i14] + [i13, st] == m;
    } else {
      Neutral(x);
    }
  }

  lemma ProgramListing(p: Program, ns: seq<Name>, s0: seq<Sym>)
    requires |p.leaves| == 3 && |ns| == |p.blocks|
    requires s0 == FixedAll(Prologue(p)) + [Jump(false, 0, false, Label(Name('L', 1)))]
    ensures ((((s0 + SymLeaf(p.leaves[0])) + SymLeaf(p.leaves[1])) + SymLeaf(p.leaves[2])) + SymBlocks(p.blocks, ns)) + [Fixed(Halt)]
      == SymProgram(p, LocalName(1), ns)
  {
    hide FixedAll, Prologue, SymLeaf, SymBlocks;
    var j := [Jump(false, 0, false, Label(Name('L', 1)))];
    var x0, x1, x2 := SymLeaf(p.leaves[0]), SymLeaf(p.leaves[1]), SymLeaf(p.leaves[2]);
    var bs, h := SymBlocks(p.blocks, ns), [Fixed(Halt)];
    Assoc((s0 + x0) + x1, x2, bs);
    Assoc((s0 + x0) + x1, x2 + bs, h);
    Assoc(x2, bs, h);
    Assoc(s0 + x0, x1, x2 + (bs + h));
    Assoc(s0, x0, x1 + (x2 + (bs + h)));
    Assoc(FixedAll(Prologue(p)), j, x0 + (x1 + (x2 + (bs + h))));
  }

  lemma ProgramLabelled(p: Program, ns: seq<Name>, s0: seq<Sym>, l: Labels, labels: Labels)
    requires |p.leaves| == 3 && |ns| == |p.blocks| && Extends(l, labels)
    requires s0 == FixedAll(Prologue(p)) + [Jump(false, 0, false, Label(Name('L', 1)))]
    requires var s1 := s0 + SymLeaf(p.leaves[0]);
      var s2 := s1 + SymLeaf(p.leaves[1]);
      var s3 := s2 + SymLeaf(p.leaves[2]);
      && l == map[][LeafName(0) := BASE + 4 * SymSize(s0)][LeafName(1) := BASE + 4 * SymSize(s1)]
            [LeafName(2) := BASE + 4 * SymSize(s2)][LocalName(0 + 1) := BASE + 4 * SymSize(s3)]
      && LabelsAt(p.blocks, ns, BASE + 4 * SymSize(s3), labels)
    ensures ProgramLabels(p, LocalName(1), ns, labels)
  {
    hide FixedAll, Prologue, FlatLeaf, SymSize, LabelsAt, WordCount;
    var j := Jump(false, 0, false, Label(Name('L', 1)));
    FixedSize(Prologue(p));
    SizeShort(j, j);
    SizeAppend(FixedAll(Prologue(p)), [j]);
    FixedSize(FlatLeaf(p.leaves[0]));
    FixedSize(FlatLeaf(p.leaves[1]));
    FixedSize(FlatLeaf(p.leaves[2]));
    var s1 := s0 + SymLeaf(p.leaves[0]);
    var s2 := s1 + SymLeaf(p.leaves[1]);
    SizeAppend(s0, SymLeaf(p.leaves[0]));
    SizeAppend(s1, SymLeaf(p.leaves[1]));
    SizeAppend(s2, SymLeaf(p.leaves[2]));
  }

  lemma BaseValue()
    ensures BASE == 0x20
  {
  }

  lemma NoNames()
    ensures NamesUsed(map[], 0, 0)
  {
  }

  lemma GenOk(p: Program)
    requires (forall k :: 0 <= k < |p.inits| ==> InitOk(p.inits[k])) && WordCount(p.inits) <= 30
    requires |p.leaves| == 3 && LeafOk(p.leaves[0]) && LeafOk(p.leaves[1]) && LeafOk(p.leaves[2])
    requires BlocksOk(p.window, p.blocks) && DUMPED <= p.window <= WIDEST
    ensures ProgramOk(p)
  {
    hide WordCount, InitOk, LeafOk, BlockOk;
  }
}
