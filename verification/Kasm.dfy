/** The label-resolving assembler of tools/vsim/kasm.py. */
module Kasm {
  import opened Bits
  import opened Isa
  import opened Machine
  import opened Encoder
  import opened MemImage

  /** A label name such as L7 or F0. */
  datatype Name = Name(prefix: char, index: nat)

  datatype Target = Label(name: Name) | Address(a: int)

  /** What one encoder call emits; the last five depend on the address of a target. */
  datatype Sym =
    | Fixed(i: Instr)
    | Raw(ws: seq<u32>)
    | Jump(link: bool, cond: Cond, inv: bool, t: Target)
    | Branch(pred: WPred, inv: bool, rs1: Reg, rhs: Rhs, t: Target)
    | Lea(rd: Reg, t: Target)
    | LeaShort(rd: Reg, t: Target)
    | JumpAbs(link: bool, cond: Cond, inv: bool, t: Target)

  /** A word of the output: known, or computed from the address of its instruction. */
  datatype Slot = Known(w: u32) | Deferred(s: Sym)

  type Labels = map<Name, int>

  function AddressOf(t: Target, labels: Labels): Option<int> {
    match t
    case Label(n) => if n in labels then Some(labels[n]) else None
    case Address(a) => Some(a)
  }

  /** Two's complement in `2 * half` values; the assertion of `simm` is the None case. */
  function Simm(v: int, half: int): (r: Option<int>)
    requires half > 0
    ensures r.Some? <==> -half <= v < half
    ensures r.Some? ==> 0 <= r.value < 2 * half && Signed(r.value, half) == v
  {
    if v < -half || v >= half then None else if v < 0 then Some(v + 2 * half) else Some(v)
  }

  /** The instruction meant at address pc, once its target is known. */
  function Resolve(s: Sym, pc: int, labels: Labels): Option<Instr>
    requires !s.Raw?
  {
    match s
    case Fixed(i) => Some(i)
    case Jump(link, cond, inv, t) =>
      var a := AddressOf(t, labels);
      if a.None? then None
      else
        var d := Simm((a.value - pc) / 4, 0x2_0000);
        if d.None? then None else Some(Br(link, cond, inv, d.value))
    case Branch(pred, inv, rs1, rhs, t) =>
      var a := AddressOf(t, labels);
      if a.None? then None
      else
        var d := Simm((a.value - pc) / 4, 0x1000);
        if d.None? then None else Some(Fbr(pred, inv, rs1, rhs, d.value))
    case Lea(rd, t) =>
      var a := AddressOf(t, labels);
      if a.None? then None else Some(LeaPc(rd, Wrap32(a.value - pc)))
    case LeaShort(rd, t) =>
      var a := AddressOf(t, labels);
      if a.None? then None
      else
        var d := Simm(a.value - pc, 0x8000);
        if d.None? then None else Some(LeaPcS(rd, d.value))
    case JumpAbs(link, cond, inv, t) =>
      var a := AddressOf(t, labels);
      if a.None? then None else Some(BrAbs(link, cond, inv, Wrap32(a.value)))
  }

  /** Words emitted, known before any label is. */
  function SymWords(s: Sym): nat {
    match s
    case Fixed(i) => Words(i)
    case Raw(ws) => |ws|
    case Branch(_, _, _, rhs, _) => if rhs.Imm32? then 2 else 1
    case Lea(_, _) => 2
    case JumpAbs(_, _, _, _) => 2
    case _ => 1
  }

  function KnownWords(ws: seq<u32>): (r: seq<Slot>)
    ensures |r| == |ws| && forall k :: 0 <= k < |ws| ==> r[k] == Known(ws[k])
  {
    seq(|ws|, k requires 0 <= k < |ws| => Known(ws[k]))
  }

  function Slots(s: Sym): (r: seq<Slot>)
    ensures |r| == SymWords(s)
  {
    hide FirstWord, Encode, Words;
    match s
    case Fixed(i) => KnownWords(Encode(i))
    case Raw(ws) => KnownWords(ws)
    case Branch(_, _, _, rhs, _) => if rhs.Imm32? then [Deferred(s), Known(rhs.imm)] else [Deferred(s)]
    case Lea(rd, _) => [Known(FirstWord(LeaPc(rd, 0))), Deferred(s)]
    case JumpAbs(link, cond, inv, _) => [Known(FirstWord(BrAbs(link, cond, inv, 0))), Deferred(s)]
    case _ => [Deferred(s)]
  }

  /** A slot's word when its closure is called with address pc. */
  function Eval(slot: Slot, pc: int, labels: Labels): Option<u32> {
    match slot
    case Known(w) => Some(w)
    case Deferred(s) =>
      if s.Raw? then None
      else
        var i := Resolve(s, pc, labels);
        if i.None? then None
        else if s.Lea? || s.JumpAbs? then Some(SecondWord(i.value))
        else Some(FirstWord(i.value))
  }

  function AllSlots(ls: seq<Sym>): seq<Slot> {
    if ls == [] then [] else Slots(ls[0]) + AllSlots(ls[1..])
  }

  function SymSize(ls: seq<Sym>): nat {
    if ls == [] then 0 else SymWords(ls[0]) + SymSize(ls[1..])
  }

  function Starts(ls: seq<Sym>, base: int): seq<int>
    decreases |ls|
  {
    if ls == [] then [] else [base] + Starts(ls[1..], base + 4 * SymWords(ls[0]))
  }

  /** Address of the instruction that emitted word k. */
  function OwnStart(ls: seq<Sym>, base: int, k: nat): int
    requires k < SymSize(ls)
    decreases |ls|
  {
    if k < SymWords(ls[0]) then base else OwnStart(ls[1..], base + 4 * SymWords(ls[0]), k - SymWords(ls[0]))
  }

  /** What assembling means: every instruction resolved at its own address, encoded,
      and joined. */
  function SymEncode(s: Sym, pc: int, labels: Labels): Option<seq<u32>> {
    if s.Raw? then Some(s.ws)
    else
      var i := Resolve(s, pc, labels);
      if i.None? then None else Some(Encode(i.value))
  }

  function Assembled(ls: seq<Sym>, base: int, labels: Labels): Option<seq<u32>>
    decreases |ls|
  {
    if ls == [] then Some([])
    else
      var h := SymEncode(ls[0], base, labels);
      var t := Assembled(ls[1..], base + 4 * SymWords(ls[0]), labels);
      if h.None? || t.None? then None else Some(h.value + t.value)
  }

  // ---- appending

  lemma {:induction false} AppendSlots(xs: seq<Sym>, ys: seq<Sym>)
    ensures AllSlots(xs + ys) == AllSlots(xs) + AllSlots(ys) && SymSize(xs + ys) == SymSize(xs) + SymSize(ys)
    decreases |xs|
  {
    hide Slots, SymWords;
    if xs == [] {
      assert xs + ys == ys;
    } else {
      assert (xs + ys)[1..] == xs[1..] + ys;
      AppendSlots(xs[1..], ys);
    }
  }

  lemma {:induction false} AppendStarts(xs: seq<Sym>, ys: seq<Sym>, base: int)
    ensures Starts(xs + ys, base) == Starts(xs, base) + Starts(ys, base + 4 * SymSize(xs))
    decreases |xs|
  {
    hide SymWords;
    if xs == [] {
      assert xs + ys == ys;
    } else {
      assert (xs + ys)[1..] == xs[1..] + ys;
      AppendStarts(xs[1..], ys, base + 4 * SymWords(xs[0]));
    }
  }

  lemma {:induction false} SlotCount(ls: seq<Sym>)
    ensures |AllSlots(ls)| == SymSize(ls)
    decreases |ls|
  {
    hide Slots, SymWords;
    if ls != [] {
      SlotCount(ls[1..]);
    }
  }

  lemma {:induction false} StartsGrow(ls: seq<Sym>, base: int)
    ensures |Starts(ls, base)| == |ls|
    ensures forall k :: 0 <= k < |ls| ==> base <= Starts(ls, base)[k]
    ensures forall j, k :: 0 <= j <= k < |ls| ==> Starts(ls, base)[j] <= Starts(ls, base)[k]
    decreases |ls|
  {
    hide SymWords;
    if ls != [] {
      StartsGrow(ls[1..], base + 4 * SymWords(ls[0]));
    }
  }

  /** The greatest recorded start not above word k belongs to the instruction that
      emitted word k. */
  lemma {:induction false} LastStart(ls: seq<Sym>, base: int, k: nat, si: nat)
    requires k < SymSize(ls) && 1 <= si <= |Starts(ls, base)|
    requires Starts(ls, base)[si - 1] <= base + 4 * k
    requires si < |Starts(ls, base)| ==> Starts(ls, base)[si] > base + 4 * k
    ensures Starts(ls, base)[si - 1] == OwnStart(ls, base, k)
    decreases |ls|
  {
    hide SymWords;
    var w := SymWords(ls[0]);
    var rest := base + 4 * w;
    StartsGrow(ls[1..], rest);
    if k >= w {
      assert |ls| > 1;
      assert Starts(ls, base)[1] == rest;
      LastStart(ls[1..], rest, k - w, si - 1);
    }
  }

  // ---- one instruction: its slots, evaluated at its own address, are its encoding

  lemma SlotsEncode(s: Sym, pc: int, labels: Labels)
    ensures var e := SymEncode(s, pc, labels);
      if e.Some? then |e.value| == SymWords(s) && forall k :: 0 <= k < SymWords(s) ==> Eval(Slots(s)[k], pc, labels) == Some(e.value[k])
      else exists k :: 0 <= k < SymWords(s) && Eval(Slots(s)[k], pc, labels) == None
  {
    hide FirstWord, SecondWord, ThirdWord, Simm, Encode, Words, AddressOf;
    if !s.Raw? {
      var i := Resolve(s, pc, labels);
      if i.None? {
        var k := if s.Lea? || s.JumpAbs? then 1 else 0;
        assert Eval(Slots(s)[k], pc, labels) == None;
      } else {
        KeptWord(s, pc, labels);
        EncodeWords(i.value);
      }
    }
  }

  lemma EncodeWords(i: Instr)
    ensures |Encode(i)| >= 1 && Encode(i)[0] == FirstWord(i)
    ensures |Encode(i)| >= 2 ==> Encode(i)[1] == SecondWord(i)
  {
    hide FirstWord, SecondWord, ThirdWord;
  }

  /** The word that does not depend on the target. */
  lemma KeptWord(s: Sym, pc: int, labels: Labels)
    requires !s.Raw? && Resolve(s, pc, labels).Some?
    ensures var i := Resolve(s, pc, labels).value;
      && Words(i) == SymWords(s)
      && (s.Lea? ==> FirstWord(LeaPc(s.rd, 0)) == FirstWord(i))
      && (s.JumpAbs? ==> FirstWord(BrAbs(s.link, s.cond, s.inv, 0)) == FirstWord(i))
      && (s.Branch? && s.rhs.Imm32? ==> SecondWord(i) == s.rhs.imm)
  {
    hide Word, Simm, Pow2, Fit;
  }

  lemma {:induction false} SlotsAssemble(ls: seq<Sym>, base: int, labels: Labels, out: seq<u32>)
    requires |out| == SymSize(ls)
    requires forall k :: 0 <= k < SymSize(ls) ==> k < |AllSlots(ls)| && Eval(AllSlots(ls)[k], OwnStart(ls, base, k), labels) == Some(out[k])
    ensures Assembled(ls, base, labels) == Some(out)
    decreases |ls|
  {
    hide Slots, SymWords, SymEncode, Eval;
    if ls != [] {
      var w := SymWords(ls[0]);
      SlotCount(ls);
      SlotCount(ls[1..]);
      SlotsEncode(ls[0], base, labels);
      var e := SymEncode(ls[0], base, labels);
      forall k | 0 <= k < w
        ensures Eval(Slots(ls[0])[k], base, labels) == Some(out[k])
      {
        assert AllSlots(ls)[k] == Slots(ls[0])[k];
        assert OwnStart(ls, base, k) == base;
      }
      assert e.Some? && e.value == out[..w];
      forall k | 0 <= k < SymSize(ls[1..])
        ensures Eval(AllSlots(ls[1..])[k], OwnStart(ls[1..], base + 4 * w, k), labels) == Some(out[w..][k])
      {
        assert AllSlots(ls)[w + k] == AllSlots(ls[1..])[k];
        assert OwnStart(ls, base, w + k) == OwnStart(ls[1..], base + 4 * w, k);
      }
      SlotsAssemble(ls[1..], base + 4 * w, labels, out[w..]);
      assert out == out[..w] + out[w..];
    }
  }

  lemma {:induction false} SlotFails(ls: seq<Sym>, base: int, labels: Labels, k: nat)
    requires k < SymSize(ls) && k < |AllSlots(ls)| && Eval(AllSlots(ls)[k], OwnStart(ls, base, k), labels) == None
    ensures Assembled(ls, base, labels) == None
    decreases |ls|
  {
    hide Slots, SymWords, SymEncode, Eval;
    var w := SymWords(ls[0]);
    SlotsEncode(ls[0], base, labels);
    if k < w {
      assert AllSlots(ls)[k] == Slots(ls[0])[k];
    } else {
      assert AllSlots(ls)[k] == AllSlots(ls[1..])[k - w];
      SlotFails(ls[1..], base + 4 * w, labels, k - w);
    }
  }

  lemma OneSym(s: Sym, base: int)
    ensures AllSlots([s]) == Slots(s) && Starts([s], base) == [base] && SymSize([s]) == SymWords(s)
  {
    hide Slots, SymWords;
    assert [s][1..] == [];
  }

  lemma SizeShort(s: Sym, t: Sym)
    ensures SymSize([s]) == SymWords(s) && SymSize([s, t]) == SymWords(s) + SymWords(t)
  {
    hide SymWords;
    assert [s][1..] == [] && [t][1..] == [] && [s, t][1..] == [t];
    assert SymSize([t]) == SymWords(t);
  }

  lemma SizeAppend(xs: seq<Sym>, ys: seq<Sym>)
    ensures SymSize(xs + ys) == SymSize(xs) + SymSize(ys)
  {
    hide *;
    AppendSlots(xs, ys);
  }

  lemma FirstStart(ls: seq<Sym>, base: int)
    requires ls != []
    ensures |Starts(ls, base)| > 0 && Starts(ls, base)[0] == base
  {
    hide SymWords;
  }

  lemma SomeSym(ls: seq<Sym>)
    requires SymSize(ls) > 0
    ensures ls != []
  {
  }

  // ---- the assembler object

  class Asm {
    const base: int
    var words: seq<Slot>
    var labels: Labels
    var starts: seq<int>
    var data: map<int, u64>
    ghost var listing: seq<Sym>

    ghost predicate Valid()
      reads this
    {
      words == AllSlots(listing) && starts == Starts(listing, base) && Aligned(data)
    }

    constructor (base: int)
      ensures Valid() && this.base == base && listing == [] && labels == map[] && data == map[]
    {
      this.base := base;
      words, labels, starts, data, listing := [], map[], [], map[], [];
    }

    function Pc(): int
      reads this
    {
      base + 4 * |words|
    }

    /** False when the name is already taken. */
    method Define(name: Name) returns (ok: bool)
      requires Valid()
      modifies this`labels
      ensures Valid() && ok == (name !in old(labels))
      ensures labels == if ok then old(labels)[name := base + 4 * SymSize(listing)] else old(labels)
    {
      hide AllSlots, SymSize, Starts;
      SlotCount(listing);
      ok := name !in labels;
      if ok {
        labels := labels[name := Pc()];
      }
    }

    method Emit(s: Sym) returns (start: int)
      requires Valid()
      modifies this`words, this`starts, this`listing
      ensures Valid() && listing == old(listing) + [s] && start == base + 4 * SymSize(old(listing))
    {
      hide AllSlots, SymSize, Starts, Slots;
      SlotCount(listing);
      OneSym(s, base + 4 * SymSize(listing));
      AppendSlots(listing, [s]);
      AppendStarts(listing, [s], base);
      start := Pc();
      starts := starts + [start];
      words := words + Slots(s);
      listing := listing + [s];
    }

    /** Doubleword at an 8-aligned address; false when it is not aligned. */
    method Dword(addr: int, value: int) returns (ok: bool)
      requires Valid()
      modifies this`data
      ensures Valid() && ok == (addr % 8 == 0)
      ensures data == if ok then old(data)[addr := Wrap64(value)] else old(data)
    {
      ok := addr % 8 == 0;
      if ok {
        data := data[addr := Wrap64(value)];
      }
    }

    /** One sweep over the words, keeping the latest instruction start passed. */
    method Assemble() returns (r: Option<seq<u32>>)
      requires Valid()
      ensures r == Assembled(listing, base, labels)
    {
      hide AllSlots, SymSize, Starts, Slots, OwnStart, Eval, Assembled, SymWords;
      SlotCount(listing);
      StartsGrow(listing, base);
      var out: seq<u32> := [];
      var si, cur := 0, base;
      for i := 0 to |words|
        invariant |out| == i && 0 <= si <= |starts|
        invariant si > 0 ==> cur == starts[si - 1]
        invariant i > 0 ==> si > 0 && starts[si - 1] <= base + 4 * (i - 1)
        invariant i == 0 ==> si == 0
        invariant forall k :: 0 <= k < i ==> Eval(words[k], OwnStart(listing, base, k), labels) == Some(out[k])
      {
        var a := base + 4 * i;
        SomeSym(listing);
        FirstStart(listing, base);
        while si < |starts| && starts[si] <= a
          invariant 0 <= si <= |starts|
          invariant si > 0 ==> cur == starts[si - 1] <= a
          invariant i == 0 || si > 0
        {
          cur := starts[si];
          si := si + 1;
        }
        LastStart(listing, base, i, si);
        var w := Eval(words[i], cur, labels);
        if w.None? {
          SlotFails(listing, base, labels, i);
          return None;
        }
        out := out + [w.value];
      }
      SlotsAssemble(listing, base, labels, out);
      r := Some(out);
    }

    /** `write_mem`: the sparse image of code and data, or a failed assertion when data
        falls on code (None also when there is nothing at all). */
    method WriteMem() returns (r: Option<Image>)
      requires Valid()
      ensures var o := Assembled(listing, base, labels);
        r.None? <==> o.None? || (exists a :: a in data && Dw(a) in CodeDwords(base, |o.value|)) || (o.value == [] && data == map[])
      ensures r.Some? ==> var ws := Assembled(listing, base, labels).value;
        && r.value.Keys == CodeDwords(base, |ws|) + DataDwords(data)
        && (forall i :: 0 <= i < |ws| ==> Half(r.value, base + 4 * i) == ws[i])
        && (forall a :: a in data ==> Dw(a) in r.value && r.value[Dw(a)] == data[a])
    {
      hide Assembled, Dw, CodeDwords, Half, AllSlots, Starts;
      var ws := Assemble();
      if ws.None? {
        return None;
      }
      r := WriteSparse(base, ws.value, data);
    }

    /** `write_boot_mem`: the dense image, with data over code and the length in front. */
    method WriteBootMem() returns (r: Option<seq<nat>>, ghost mem: Image)
      requires Valid() && base >= 0 && forall a :: a in data ==> a >= 0
      ensures var o := Assembled(listing, base, labels);
        && (r.None? <==> o.None? || (o.value == [] && data == map[]))
        && (o.Some? ==>
          && mem.Keys == CodeDwords(base, |o.value|) + DataDwords(data) && (r.Some? ==> Dense(r.value, mem))
          && (forall a :: a in data ==> Dw(a) in mem && mem[Dw(a)] == data[a])
          && forall i :: 0 <= i < |o.value| && Dw(base + 4 * i) !in DataDwords(data) ==> Half(mem, base + 4 * i) == o.value[i])
    {
      hide Assembled, Dw, CodeDwords, Half, AllSlots, Starts, Dense;
      var ws := Assemble();
      if ws.None? {
        return None, map[];
      }
      r, mem := WriteDense(base, ws.value, data);
    }
  }
}
