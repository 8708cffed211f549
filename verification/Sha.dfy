/** SHA-256 as its drivers see it: padding, chaining of an abstract compression
    function, and the engine's registers. */
module Sha {
  import opened Bits

  type Bytes = seq<u8>

  function XorByte(a: u8, b: u8): u8 {
    Pow2Of8();
    OrXorBound(a, b, 8);
    Xor(a, b)
  }

  // ---- big-endian numbers

  function Be(x: nat, n: nat): (s: Bytes)
    ensures |s| == n
  {
    if n == 0 then [] else Be(x / 0x100, n - 1) + [x % 0x100]
  }

  function FromBe(s: Bytes): nat {
    if s == [] then 0 else 0x100 * FromBe(s[..|s| - 1]) + s[|s| - 1]
  }

  lemma {:induction false} BeRoundTrip(x: nat, n: nat)
    requires x < Pow2(8 * n)
    ensures FromBe(Be(x, n)) == x
    decreases n
  {
    if n != 0 {
      Pow2Add(8, 8 * (n - 1));
      Pow2Of8();
      BeRoundTrip(x / 0x100, n - 1);
      assert Be(x, n)[..n - 1] == Be(x / 0x100, n - 1);
    }
  }

  lemma {:induction false} FromBeRoundTrip(s: Bytes)
    ensures FromBe(s) < Pow2(8 * |s|) && Be(FromBe(s), |s|) == s
    decreases |s|
  {
    if s != [] {
      var n := |s| - 1;
      FromBeRoundTrip(s[..n]);
      Pow2Add(8, 8 * n);
      Pow2Of8();
      assert s == s[..n] + [s[n]];
    }
  }

  // ---- padding

  function Zeros(n: nat): (s: Bytes)
    ensures |s| == n && forall k :: 0 <= k < n ==> s[k] == 0
  {
    seq(n, _ => 0)
  }

  /** Zero bytes after the 0x80. */
  function Gap(len: nat): nat { (56 - (len + 1) % 64) % 64 }

  /** The bit length does not fit its eight bytes beyond this. */
  predicate Fits(len: nat) { 8 * len < U64 }

  /** The tail of a message of which prefix bytes have been hashed already. */
  function Padded(msg: Bytes, prefix: nat): Bytes {
    msg + [0x80] + Zeros(Gap(|msg|)) + Be(8 * (|msg| + prefix), 8)
  }

  /** Packing a bit length of 2^64 or more fails. */
  function Pad(msg: Bytes, prefix: nat): Option<Bytes> {
    if Fits(|msg| + prefix) then Some(Padded(msg, prefix)) else None
  }

  /** Section 5.1.1 of FIPS 180-4: as few zeros as make the length 56 modulo 64. */
  lemma GapLeast(len: nat, k: nat)
    ensures (len + 1 + Gap(len)) % 64 == 56
    ensures (len + 1 + k) % 64 == 56 ==> Gap(len) <= k
  {
    var q, r := (len + 1) / 64, (len + 1) % 64;
    assert len + 1 == r + q * 64;
    if r <= 56 {
      DivModUnique(q, 56, 64);
    } else {
      DivModUnique(q + 1, 56, 64);
    }
    if k < Gap(len) {
      if r + k < 64 {
        DivModUnique(q, r + k, 64);
      } else {
        DivModUnique(q + 1, r + k - 64, 64);
      }
    }
  }

  lemma PaddedWhole(msg: Bytes, prefix: nat)
    ensures |Padded(msg, prefix)| % 64 == 0 && |Padded(msg, prefix)| >= 64
  {
    hide Be, Zeros, Gap;
    GapLeast(|msg|, 0);
    assert |Padded(msg, prefix)| == |msg| + 1 + Gap(|msg|) + 8;
  }

  /** After one whole block, the padding is the tail of the padding of the whole. */
  lemma PaddedTail(block: Bytes, msg: Bytes)
    requires |block| == 64
    ensures Padded(block + msg, 0) == block + Padded(msg, 64)
  {
    assert Gap(|block + msg|) == Gap(|msg|);
    assert |block + msg| + 0 == |msg| + 64;
  }

  /** The message can be read back from its padded form. */
  function Unpadded(s: Bytes): Bytes
    requires |s| >= 8
  {
    var n := FromBe(s[|s| - 8..]) / 8;
    if n <= |s| then s[..n] else s
  }

  lemma PadRoundTrip(msg: Bytes)
    requires Pad(msg, 0).Some?
    ensures Unpadded(Pad(msg, 0).value) == msg
  {
    var s := Padded(msg, 0);
    assert s[|s| - 8..] == Be(8 * |msg|, 8);
    Pow2Of64();
    BeRoundTrip(8 * |msg|, 8);
  }

  // ---- chaining

  /** Initial value and compression function, both abstract. */
  datatype Core = Core(iv: Bytes, compress: (Bytes, Bytes) -> Bytes)

  ghost predicate Sound(c: Core) {
    |c.iv| == 32 && forall h, b :: |c.compress(h, b)| == 32
  }

  /** The 64-byte blocks of s, one after the other. */
  function Chain(c: Core, h: Bytes, s: Bytes): Bytes
    decreases |s|
  {
    if |s| < 64 then h else Chain(c, c.compress(h, s[..64]), s[64..])
  }

  function Hash(c: Core, msg: Bytes): Bytes { Chain(c, c.iv, Padded(msg, 0)) }

  lemma {:induction false} ChainSplit(c: Core, h: Bytes, s: Bytes, t: Bytes)
    requires |s| % 64 == 0
    ensures Chain(c, h, s + t) == Chain(c, Chain(c, h, s), t)
    decreases |s|
  {
    if s == [] {
      assert s + t == t;
    } else {
      assert (s + t)[..64] == s[..64] && (s + t)[64..] == s[64..] + t;
      ChainSplit(c, c.compress(h, s[..64]), s[64..], t);
    }
  }

  lemma ChainOne(c: Core, h: Bytes, b: Bytes)
    requires |b| == 64
    ensures Chain(c, h, b) == c.compress(h, b)
  {
    assert b[..64] == b && b[64..] == [];
  }

  // ---- the engine

  /** 64-bit registers hold eight message bytes each. */
  datatype Engine = Engine(h: seq<Bytes>, hin: seq<Bytes>, block: seq<Bytes>, done: bool)

  ghost predicate Shaped(e: Engine) {
    |e.h| == 4 && |e.hin| == 4 && |e.block| == 8 && EachEight(e.h) && EachEight(e.hin) && EachEight(e.block)
  }

  predicate EachEight(ws: seq<Bytes>) { forall k :: 0 <= k < |ws| ==> |ws[k]| == 8 }

  function Flat(ws: seq<Bytes>): Bytes {
    if ws == [] then [] else ws[0] + Flat(ws[1..])
  }

  /** Register words of a byte string. */
  function Words(s: Bytes): (ws: seq<Bytes>)
    requires |s| % 8 == 0
    ensures |ws| == |s| / 8 && EachEight(ws)
    decreases |s|
  {
    if s == [] then [] else [s[..8]] + Words(s[8..])
  }

  lemma {:induction false} FlatWords(s: Bytes)
    requires |s| % 8 == 0
    ensures Flat(Words(s)) == s
    decreases |s|
  {
    if s != [] {
      FlatWords(s[8..]);
      assert Words(s)[1..] == Words(s[8..]);
    }
  }

  lemma {:induction false} WordsFlat(ws: seq<Bytes>)
    requires EachEight(ws)
    ensures |Flat(ws)| == 8 * |ws| && Words(Flat(ws)) == ws
    decreases |ws|
  {
    if ws != [] {
      WordsFlat(ws[1..]);
      assert Flat(ws)[..8] == ws[0] && Flat(ws)[8..] == Flat(ws[1..]);
    }
  }

  lemma {:induction false} WordAt(s: Bytes, k: nat)
    requires |s| % 8 == 0 && 8 * k < |s|
    ensures Words(s)[k] == s[8 * k..8 * k + 8]
    decreases |s|
  {
    if k > 0 {
      WordAt(s[8..], k - 1);
    }
  }

  /** What a driver does: register writes, control writes, and digest words moved to and
      from memory slots.  Every control write is followed by a wait for BUSY to clear. */
  datatype Op = Block(i: nat, v: Bytes) | Hin(i: nat, v: Bytes) | Ctrl(bits: nat) | Save(i: nat, slot: nat) | Replay(i: nat, slot: nat)

  datatype Driver = Driver(e: Engine, slots: map<nat, Bytes>)

  /** INIT (1) wins over RESTORE (4); RESTORE then START (2) in one write; ZERO (8). */
  function Control(c: Core, e: Engine, bits: nat): Engine {
    var init, start, restore, zero := bits % 2 == 1, bits / 2 % 2 == 1, bits / 4 % 2 == 1, bits / 8 % 2 == 1;
    if zero then Engine(seq(4, _ => Zeros(8)), seq(4, _ => Zeros(8)), seq(8, _ => Zeros(8)), false)
    else
      var h := if init then c.iv else if restore then Flat(e.hin) else Flat(e.h);
      var h' := if start && !init then c.compress(h, Flat(e.block)) else h;
      if |h'| % 8 != 0 then e else e.(h := Words(h'), done := start && !init)
  }

  function Step(c: Core, d: Driver, op: Op): Driver {
    match op
    case Block(i, v) => if i < |d.e.block| then d.(e := d.e.(block := d.e.block[i := v])) else d
    case Hin(i, v) => if i < |d.e.hin| then d.(e := d.e.(hin := d.e.hin[i := v])) else d
    case Ctrl(bits) => d.(e := Control(c, d.e, bits))
    case Save(i, slot) => if i < |d.e.h| then d.(slots := d.slots[slot := d.e.h[i]]) else d
    case Replay(i, slot) =>
      if i < |d.e.hin| && slot in d.slots then d.(e := d.e.(hin := d.e.hin[i := d.slots[slot]])) else d
  }

  function Script(c: Core, d: Driver, ops: seq<Op>): Driver
    decreases |ops|
  {
    if ops == [] then d else Script(c, Step(c, d, ops[0]), ops[1..])
  }

  lemma {:induction false} ScriptSplit(c: Core, d: Driver, a: seq<Op>, b: seq<Op>)
    ensures Script(c, d, a + b) == Script(c, Script(c, d, a), b)
    decreases |a|
  {
    hide Step;
    if a == [] {
      assert a + b == b;
    } else {
      assert (a + b)[1..] == a[1..] + b;
      ScriptSplit(c, Step(c, d, a[0]), a[1..], b);
    }
  }

  function WriteBlock(b: Bytes): seq<Op>
    requires |b| == 64
  {
    seq(8, i requires 0 <= i < 8 => Block(i, b[8 * i..8 * i + 8]))
  }

  function SaveTo(base: nat): seq<Op> { seq(4, i requires 0 <= i < 4 => Save(i, base + i)) }

  function ReplayFrom(base: nat): seq<Op> { seq(4, i requires 0 <= i < 4 => Replay(i, base + i)) }

  function SlotAt(d: Driver, base: nat, i: nat): Option<Bytes> {
    if base + i in d.slots then Some(d.slots[base + i]) else None
  }

  /** The four slots from base hold the words of h. */
  ghost predicate Stored(d: Driver, base: nat, h: Bytes) {
    |h| == 32 && forall i :: 0 <= i < 4 ==> SlotAt(d, base, i) == Some(Words(h)[i])
  }

  /** Slots outside four of them are the same. */
  ghost predicate OtherSlots(d: Driver, d': Driver, base: nat) {
    forall k :: k in d.slots && !(base <= k < base + 4) ==> k in d'.slots && d'.slots[k] == d.slots[k]
  }

  lemma ScriptOne(c: Core, d: Driver, op: Op)
    ensures Script(c, d, [op]) == Step(c, d, op)
  {
    assert [op][1..] == [];
    assert Script(c, Step(c, d, op), []) == Step(c, d, op);
  }

  lemma {:induction false} ScriptLast(c: Core, d: Driver, ops: seq<Op>, n: nat)
    requires n < |ops|
    ensures Script(c, d, ops[..n + 1]) == Step(c, Script(c, d, ops[..n]), ops[n])
  {
    assert ops[..n + 1] == ops[..n] + [ops[n]];
    ScriptSplit(c, d, ops[..n], [ops[n]]);
    ScriptOne(c, Script(c, d, ops[..n]), ops[n]);
  }

  lemma {:induction false} Writing(c: Core, d: Driver, b: Bytes, n: nat)
    requires Shaped(d.e) && |b| == 64 && n <= 8
    ensures var d' := Script(c, d, WriteBlock(b)[..n]);
      && d' == d.(e := d.e.(block := d'.e.block)) && |d'.e.block| == 8
      && forall i :: 0 <= i < 8 ==> d'.e.block[i] == if i < n then b[8 * i..8 * i + 8] else d.e.block[i]
    decreases n
  {
    hide Script;
    if n == 0 {
      assert WriteBlock(b)[..0] == [];
      ScriptNone(c, d);
    } else {
      Writing(c, d, b, n - 1);
      ScriptLast(c, d, WriteBlock(b), n - 1);
    }
  }

  lemma ScriptNone(c: Core, d: Driver)
    ensures Script(c, d, []) == d
  {
  }

  /** After write_block the block registers hold b. */
  lemma Written(c: Core, d: Driver, b: Bytes)
    requires Shaped(d.e) && |b| == 64
    ensures Script(c, d, WriteBlock(b)) == d.(e := d.e.(block := Words(b)))
  {
    hide Script, Words;
    Writing(c, d, b, 8);
    assert WriteBlock(b)[..8] == WriteBlock(b);
    var d' := Script(c, d, WriteBlock(b));
    forall i | 0 <= i < 8
      ensures d'.e.block[i] == Words(b)[i]
    {
      WordAt(b, i);
    }
    assert d'.e.block == Words(b);
  }

  lemma {:induction false} Saving(c: Core, d: Driver, base: nat, n: nat)
    requires Shaped(d.e) && n <= 4
    ensures var d' := Script(c, d, SaveTo(base)[..n]);
      && d' == d.(slots := d'.slots) && OtherSlots(d, d', base)
      && forall i :: 0 <= i < n ==> SlotAt(d', base, i) == Some(d.e.h[i])
    decreases n
  {
    hide Script;
    if n == 0 {
      assert SaveTo(base)[..0] == [];
      ScriptNone(c, d);
    } else {
      Saving(c, d, base, n - 1);
      ScriptLast(c, d, SaveTo(base), n - 1);
      assert SaveTo(base)[n - 1] == Save(n - 1, base + (n - 1));
    }
  }

  /** After four SAVEs the slots hold the digest. */
  lemma Saved(c: Core, d: Driver, base: nat)
    requires Shaped(d.e)
    ensures var d' := Script(c, d, SaveTo(base));
      d' == d.(slots := d'.slots) && OtherSlots(d, d', base) && Stored(d', base, Flat(d.e.h))
  {
    hide Script;
    Saving(c, d, base, 4);
    assert SaveTo(base)[..4] == SaveTo(base);
    WordsFlat(d.e.h);
  }

  lemma {:induction false} Replaying(c: Core, d: Driver, base: nat, h: Bytes, n: nat)
    requires Shaped(d.e) && n <= 4 && Stored(d, base, h)
    ensures var d' := Script(c, d, ReplayFrom(base)[..n]);
      && d' == d.(e := d.e.(hin := d'.e.hin)) && |d'.e.hin| == 4
      && forall i :: 0 <= i < 4 ==> d'.e.hin[i] == if i < n then Words(h)[i] else d.e.hin[i]
    decreases n
  {
    hide Script;
    if n == 0 {
      assert ReplayFrom(base)[..0] == [];
      ScriptNone(c, d);
    } else {
      Replaying(c, d, base, h, n - 1);
      ScriptLast(c, d, ReplayFrom(base), n - 1);
      assert ReplayFrom(base)[n - 1] == Replay(n - 1, base + (n - 1));
      assert SlotAt(d, base, n - 1) == Some(Words(h)[n - 1]);
    }
  }

  /** After four REPLAYs the H staging registers hold what was saved. */
  lemma Replayed(c: Core, d: Driver, base: nat, h: Bytes)
    requires Shaped(d.e) && Stored(d, base, h)
    ensures Script(c, d, ReplayFrom(base)) == d.(e := d.e.(hin := Words(h)))
  {
    hide Script, Words;
    Replaying(c, d, base, h, 4);
    assert ReplayFrom(base)[..4] == ReplayFrom(base);
    assert Script(c, d, ReplayFrom(base)).e.hin == Words(h);
  }

  // ---- what each group of operations does to the hash state

  /** The hash state in the engine. */
  function State(d: Driver): Bytes { Flat(d.e.h) }

  lemma Controlled(c: Core, d: Driver, bits: nat)
    requires Sound(c) && Shaped(d.e) && bits in {1, 2, 4, 6}
    ensures var d' := Step(c, d, Ctrl(bits));
      && d' == d.(e := d.e.(h := d'.e.h, done := bits / 2 % 2 == 1)) && Shaped(d'.e)
      && State(d') == (if bits == 1 then c.iv else if bits == 2 then c.compress(State(d), Flat(d.e.block))
                       else if bits == 4 then Flat(d.e.hin) else c.compress(Flat(d.e.hin), Flat(d.e.block)))
  {
    hide Flat, Words;
    WordsFlat(d.e.h);
    WordsFlat(d.e.hin);
    FlatWords(c.iv);
    FlatWords(c.compress(State(d), Flat(d.e.block)));
    FlatWords(c.compress(Flat(d.e.hin), Flat(d.e.block)));
    FlatWords(Flat(d.e.hin));
  }

  /** INIT. */
  lemma Begins(c: Core, d: Driver)
    requires Sound(c) && Shaped(d.e)
    ensures var d' := Script(c, d, [Ctrl(1)]);
      Shaped(d'.e) && State(d') == c.iv && d'.slots == d.slots
  {
    hide Script, Flat;
    ScriptOne(c, d, Ctrl(1));
    Controlled(c, d, 1);
  }

  function FeedOps(b: Bytes): seq<Op>
    requires |b| == 64
  {
    WriteBlock(b) + [Ctrl(2)]
  }

  /** Write a block, START, wait. */
  lemma Feeds(c: Core, d: Driver, b: Bytes)
    requires Sound(c) && Shaped(d.e) && |b| == 64
    ensures var d' := Script(c, d, FeedOps(b));
      Shaped(d'.e) && State(d') == c.compress(State(d), b) && d'.slots == d.slots
  {
    hide Script, Flat, Words, WriteBlock;
    ScriptSplit(c, d, WriteBlock(b), [Ctrl(2)]);
    Written(c, d, b);
    FlatWords(b);
    var d1 := Script(c, d, WriteBlock(b));
    ScriptOne(c, d1, Ctrl(2));
    Controlled(c, d1, 2);
  }

  function ResumeOps(base: nat): seq<Op> { ReplayFrom(base) + [Ctrl(4)] }

  /** REPLAY the four words, RESTORE, wait. */
  lemma Resumes(c: Core, d: Driver, base: nat, h: Bytes)
    requires Sound(c) && Shaped(d.e) && Stored(d, base, h)
    ensures var d' := Script(c, d, ResumeOps(base));
      Shaped(d'.e) && State(d') == h && d'.slots == d.slots
  {
    hide Script, Flat, Words, ReplayFrom, Stored;
    assert |h| == 32 by { StoredSize(d, base, h); }
    ScriptSplit(c, d, ReplayFrom(base), [Ctrl(4)]);
    Replayed(c, d, base, h);
    FlatWords(h);
    var d1 := Script(c, d, ReplayFrom(base));
    ScriptOne(c, d1, Ctrl(4));
    Controlled(c, d1, 4);
  }

  lemma StoredSize(d: Driver, base: nat, h: Bytes)
    requires Stored(d, base, h)
    ensures |h| == 32
  {
  }

  function ResumeFeedOps(base: nat, b: Bytes): seq<Op>
    requires |b| == 64
  {
    ReplayFrom(base) + (WriteBlock(b) + [Ctrl(6)])
  }

  /** REPLAY, write a block, RESTORE|START in one write. */
  lemma ResumeFeeds(c: Core, d: Driver, base: nat, h: Bytes, b: Bytes)
    requires Sound(c) && Shaped(d.e) && Stored(d, base, h) && |b| == 64
    ensures var d' := Script(c, d, ResumeFeedOps(base, b));
      Shaped(d'.e) && State(d') == c.compress(h, b) && d'.slots == d.slots
  {
    hide Script, Flat, Words, ReplayFrom, WriteBlock, Stored;
    assert |h| == 32 by { StoredSize(d, base, h); }
    ScriptSplit(c, d, ReplayFrom(base), WriteBlock(b) + [Ctrl(6)]);
    Replayed(c, d, base, h);
    FlatWords(h);
    FlatWords(b);
    var d1 := Script(c, d, ReplayFrom(base));
    ScriptSplit(c, d1, WriteBlock(b), [Ctrl(6)]);
    Written(c, d1, b);
    var d2 := Script(c, d1, WriteBlock(b));
    ScriptOne(c, d2, Ctrl(6));
    Controlled(c, d2, 6);
  }

  function ReplayWriteOps(base: nat, b: Bytes): seq<Op>
    requires |b| == 64
  {
    ReplayFrom(base) + (WriteBlock(b) + ([Ctrl(4)] + [Ctrl(2)]))
  }

  /** REPLAY, write a block, RESTORE, wait, START: the separate writes of the same. */
  lemma ReplayWrites(c: Core, d: Driver, base: nat, h: Bytes, b: Bytes)
    requires Sound(c) && Shaped(d.e) && Stored(d, base, h) && |b| == 64
    ensures var d' := Script(c, d, ReplayWriteOps(base, b));
      Shaped(d'.e) && State(d') == c.compress(h, b) && d'.slots == d.slots
  {
    hide Script, Flat, Words, ReplayFrom, WriteBlock, Stored;
    assert |h| == 32 by { StoredSize(d, base, h); }
    ScriptSplit(c, d, ReplayFrom(base), WriteBlock(b) + ([Ctrl(4)] + [Ctrl(2)]));
    Replayed(c, d, base, h);
    FlatWords(h);
    FlatWords(b);
    var d1 := Script(c, d, ReplayFrom(base));
    ScriptSplit(c, d1, WriteBlock(b), [Ctrl(4)] + [Ctrl(2)]);
    Written(c, d1, b);
    var d2 := Script(c, d1, WriteBlock(b));
    ScriptSplit(c, d2, [Ctrl(4)], [Ctrl(2)]);
    ScriptOne(c, d2, Ctrl(4));
    Controlled(c, d2, 4);
    var d3 := Script(c, d2, [Ctrl(4)]);
    ScriptOne(c, d3, Ctrl(2));
    Controlled(c, d3, 2);
  }
}
