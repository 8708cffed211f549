/** AES counter mode over an abstract block cipher: the 128-bit big-endian counter, its
    32-bit variant, and the C loop that keeps it in two byte-swapped words. */
module Counter {
  import opened Bits
  import opened Sha

  const P128: int := 0x1_0000_0000_0000_0000_0000_0000_0000_0000

  lemma Powers()
    ensures Pow2(8 * 4) == U32 && Pow2(8 * 8) == U64 && Pow2(8 * 16) == P128
  {
    hide Pow2;
    Pow2Of64();
    Pow2Add(64, 64);
  }

  type Block = s: Bytes | |s| == 16 witness seq(16, _ => 0)

  function Plus1(x: int, m: int): nat
    requires m > 0
  {
    (x + 1) % m
  }

  /** Add one to the whole block, or to its last four bytes. */
  function Increment(c: Block, inc32: bool): Block {
    if inc32 then c[..12] + Be(Plus1(FromBe(c[12..]), U32), 4) else Be(Plus1(FromBe(c), P128), 16)
  }

  function Advance(c: Block, inc32: bool, n: nat): Block {
    if n == 0 then c else Increment(Advance(c, inc32, n - 1), inc32)
  }

  lemma Plus1Mod(x: int, n: int, m: int)
    requires m > 0
    ensures Plus1((x + n) % m, m) == (x + (n + 1)) % m < m
  {
    var q, r := (x + n) / m, (x + n) % m;
    var q2, r2 := (r + 1) / m, (r + 1) % m;
    assert x + n + 1 == r2 + (q + q2) * m;
    DivModUnique(q + q2, r2, m);
  }

  /** N increments add N modulo 2^128. */
  lemma {:induction false} AddsN(c: Block, n: nat)
    ensures FromBe(Advance(c, false, n)) == (FromBe(c) + n) % P128
    decreases n
  {
    hide Be, FromBe, Pow2, Plus1;
    Powers();
    if n == 0 {
      FromBeRoundTrip(c);
    } else {
      AddsN(c, n - 1);
      Plus1Mod(FromBe(c), n - 1, P128);
      BeRoundTrip(Plus1(FromBe(Advance(c, false, n - 1)), P128), 16);
    }
  }

  /** With INC32, N increments add N modulo 2^32 to the last four bytes and leave the
      first twelve alone. */
  lemma {:induction false} AddsN32(c: Block, n: nat)
    ensures Advance(c, true, n)[..12] == c[..12]
    ensures FromBe(Advance(c, true, n)[12..]) == (FromBe(c[12..]) + n) % U32
    decreases n
  {
    hide Be, FromBe, Pow2, Plus1;
    Powers();
    if n == 0 {
      FromBeRoundTrip(c[12..]);
    } else {
      AddsN32(c, n - 1);
      var d := Advance(c, true, n - 1);
      Plus1Mod(FromBe(c[12..]), n - 1, U32);
      BeRoundTrip(Plus1(FromBe(d[12..]), U32), 4);
      var e := d[..12] + Be(Plus1(FromBe(d[12..]), U32), 4);
      assert Advance(c, true, n) == e;
      assert e[..12] == d[..12] && e[12..] == Be(Plus1(FromBe(d[12..]), U32), 4);
    }
  }

  // ---- the stream

  function XorBlock(a: Block, b: Block): Block {
    seq(16, k requires 0 <= k < 16 => XorByte(a[k], b[k]))
  }

  lemma XorHalf(a: nat, b: nat)
    ensures Xor(0, b) == b && Xor(a, b) == 2 * Xor(a / 2, b / 2) + (a % 2 + b % 2) % 2
  {
    if a == 0 {
      assert Xor(0, b / 2) == b / 2;
    }
  }

  lemma {:induction false} XorTwice(a: nat, b: nat)
    ensures Xor(a, Xor(a, b)) == b
    decreases a
  {
    hide Xor;
    var x := Xor(a, b);
    XorHalf(a, b);
    XorHalf(a, x);
    if a != 0 {
      XorTwice(a / 2, b / 2);
      assert x / 2 == Xor(a / 2, b / 2) && x % 2 == (a % 2 + b % 2) % 2;
    }
  }

  /** Counter mode: block i is masked with the cipher of counter + i. */
  function Ctr(E: Block -> Block, c: Block, inc32: bool, data: seq<Block>): (out: seq<Block>)
    ensures |out| == |data|
    decreases |data|
  {
    if data == [] then [] else [XorBlock(E(c), data[0])] + Ctr(E, Increment(c, inc32), inc32, data[1..])
  }

  /** Decrypting is encrypting again from the same counter. */
  lemma {:induction false} CtrTwice(E: Block -> Block, c: Block, inc32: bool, data: seq<Block>)
    ensures Ctr(E, c, inc32, Ctr(E, c, inc32, data)) == data
    decreases |data|
  {
    hide Increment, Xor;
    if data != [] {
      var k, once := E(c), XorBlock(E(c), data[0]);
      forall i | 0 <= i < 16
        ensures XorBlock(k, once)[i] == data[0][i]
      {
        XorTwice(k[i], data[0][i]);
      }
      assert XorBlock(k, once) == data[0];
      var out := Ctr(E, c, inc32, data);
      assert out[1..] == Ctr(E, Increment(c, inc32), inc32, data[1..]);
      CtrTwice(E, Increment(c, inc32), inc32, data[1..]);
    }
  }

  /** Block i of the stream uses the counter i steps on. */
  lemma {:induction false} CtrAt(E: Block -> Block, c: Block, inc32: bool, data: seq<Block>, i: nat)
    requires i < |data|
    ensures Ctr(E, c, inc32, data)[i] == XorBlock(E(Advance(c, inc32, i)), data[i])
    decreases |data|
  {
    hide Increment, XorBlock;
    if i > 0 {
      CtrAt(E, Increment(c, inc32), inc32, data[1..], i - 1);
      AdvanceFirst(c, inc32, i - 1);
    }
  }

  lemma {:induction false} AdvanceFirst(c: Block, inc32: bool, n: nat)
    ensures Advance(Increment(c, inc32), inc32, n) == Advance(c, inc32, n + 1)
    decreases n
  {
    hide Increment;
    if n > 0 {
      AdvanceFirst(c, inc32, n - 1);
    } else {
      assert Advance(c, inc32, 1) == Increment(Advance(c, inc32, 0), inc32);
    }
  }

  // ---- two little-endian words

  function Le(x: nat, n: nat): (s: Bytes)
    ensures |s| == n
  {
    if n == 0 then [] else [x % 0x100] + Le(x / 0x100, n - 1)
  }

  function FromLe(s: Bytes): nat {
    if s == [] then 0 else s[0] + 0x100 * FromLe(s[1..])
  }

  lemma Times256(a: nat, p: nat)
    ensures a * (0x100 * p) == 0x100 * (a * p)
  {
  }

  lemma {:induction false} LeRoundTrip(s: Bytes)
    ensures FromLe(s) < Pow2(8 * |s|) && Le(FromLe(s), |s|) == s
    decreases |s|
  {
    if s != [] {
      hide Pow2;
      LeRoundTrip(s[1..]);
      Pow2Bytes(|s|);
      DivModUnique(FromLe(s[1..]), s[0], 0x100);
      assert s == [s[0]] + s[1..];
    } else {
      assert Pow2(0) == 1;
    }
  }

  lemma {:induction false} LeValue(x: nat, n: nat)
    requires x < Pow2(8 * n)
    ensures FromLe(Le(x, n)) == x
    decreases n
  {
    if n != 0 {
      Pow2Add(8, 8 * (n - 1));
      Pow2Of8();
      LeValue(x / 0x100, n - 1);
      assert Le(x, n)[1..] == Le(x / 0x100, n - 1);
    }
  }

  /** A register word of a byte string. */
  function Word(s: Bytes): u64
    requires |s| == 8
  {
    LeRoundTrip(s);
    Powers();
    FromLe(s)
  }

  /** __builtin_bswap64. */
  function Swap(x: u64): u64 {
    var s := Le(x, 8);
    FromBeRoundTrip(s);
    Powers();
    FromBe(s)
  }

  /** Swapping a word gives the big-endian value of its bytes. */
  lemma SwapWord(s: Bytes)
    requires |s| == 8
    ensures Swap(Word(s)) == FromBe(s)
  {
    hide Le, FromLe, FromBe;
    LeRoundTrip(s);
  }

  lemma SwapValue(x: u64)
    ensures Swap(x) == FromBe(Le(x, 8)) && Word(Be(x, 8)) == Swap(x)
  {
    hide FromLe, FromBe, Le, Be;
    Powers();
    LeIsReversed(x, 8);
    SwapReverse(x);
  }

  function Reversed(s: Bytes): (t: Bytes)
    ensures |t| == |s|
  {
    if s == [] then [] else Reversed(s[1..]) + [s[0]]
  }

  lemma {:induction false} LeIsReversed(x: nat, n: nat)
    ensures Be(x, n) == Reversed(Le(x, n))
    decreases n
  {
    if n != 0 {
      LeIsReversed(x / 0x100, n - 1);
      assert Le(x, n)[1..] == Le(x / 0x100, n - 1);
    }
  }

  lemma {:induction false} ReadReversed(s: Bytes)
    ensures FromLe(Reversed(s)) == FromBe(s)
    decreases |s|
  {
    if s != [] {
      ReversedEnds(s);
      var n := |s| - 1;
      ReadReversed(s[..n]);
      assert Reversed(s)[1..] == Reversed(s[..n]);
    }
  }

  lemma {:induction false} ReversedEnds(s: Bytes)
    requires s != []
    ensures Reversed(s) == [s[|s| - 1]] + Reversed(s[..|s| - 1])
    decreases |s|
  {
    var n := |s| - 1;
    if n > 0 {
      ReversedEnds(s[1..]);
      assert s[1..][..n - 1] == s[..n][1..];
    }
  }

  lemma SwapReverse(x: u64)
    ensures Word(Reversed(Le(x, 8))) == Swap(x)
  {
    hide Le, FromLe, FromBe, Reversed;
    ReadReversed(Le(x, 8));
  }

  lemma {:induction false} FromBeSplit(s: Bytes, t: Bytes)
    ensures FromBe(s + t) == FromBe(s) * Pow2(8 * |t|) + FromBe(t)
    decreases |t|
  {
    if t == [] {
      assert s + t == s;
    } else {
      var n := |t| - 1;
      assert (s + t)[..|s + t| - 1] == s + t[..n];
      hide Pow2;
      FromBeSplit(s, t[..n]);
      Pow2Bytes(|t|);
      Times256(FromBe(s), Pow2(8 * n));
    }
  }

  /** The two registers of a counter block. */
  function Low(c: Block): u64 { Word(c[..8]) }

  function High(c: Block): u64 { Word(c[8..]) }

  /** What the loop does to the high word: add one to its big-endian value. */
  function Bumped(x: u64): u64 { (Swap(x) + 1) % U64 }

  lemma Carries(a: nat, b: nat)
    requires a < U64 && b < U64
    ensures var x := (a * U64 + b + 1) % P128; var b' := (b + 1) % U64; var a' := if b' == 0 then (a + 1) % U64 else a;
      x == a' * U64 + b'
  {
    if b + 1 < U64 {
      DivModUnique(0, a * U64 + b + 1, P128);
    } else if a + 1 < U64 {
      DivModUnique(0, (a + 1) * U64, P128);
    } else {
      DivModUnique(1, 0, P128);
    }
  }

  lemma BlockFromHalves(d: Block, a: nat, b: nat)
    requires a < U64 && b < U64 && FromBe(d) == a * U64 + b
    ensures d[..8] == Be(a, 8) && d[8..] == Be(b, 8)
  {
    hide Be, FromBe, Pow2;
    var e := Be(a, 8) + Be(b, 8);
    Powers();
    BeRoundTrip(a, 8);
    BeRoundTrip(b, 8);
    FromBeSplit(Be(a, 8), Be(b, 8));
    FromBeRoundTrip(d);
    FromBeRoundTrip(e);
    assert d == e;
  }

  /** One turn of the C loop is one increment of the block, through every carry. */
  lemma Lockstep(c: Block)
    ensures var d := Increment(c, false); var be := Bumped(High(c));
      High(d) == Swap(be) && Low(d) == if be == 0 then Swap(Bumped(Low(c))) else Low(c)
  {
    hide Be, FromBe, FromLe, Le, Pow2, Swap, Word;
    var d := Increment(c, false);
    var a, b := FromBe(c[..8]), FromBe(c[8..]);
    Powers();
    FromBeRoundTrip(c[..8]);
    FromBeRoundTrip(c[8..]);
    assert c == c[..8] + c[8..];
    FromBeSplit(c[..8], c[8..]);
    SwapWord(c[..8]);
    SwapWord(c[8..]);
    Carries(a, b);
    var b' := (b + 1) % U64;
    var a' := if b' == 0 then (a + 1) % U64 else a;
    BeRoundTrip(Plus1(FromBe(c), P128), 16);
    BlockFromHalves(d, a', b');
    SwapValue(b');
    SwapValue(a');
    if b' != 0 {
      FromBeRoundTrip(c[..8]);
      assert Be(a, 8) == c[..8];
    }
  }

  /** A block out of two registers. */
  function Pair(lo: u64, hi: u64): Block { Le(lo, 8) + Le(hi, 8) }

  lemma PairHalves(lo: u64, hi: u64)
    ensures Low(Pair(lo, hi)) == lo && High(Pair(lo, hi)) == hi
  {
    hide Le, FromLe, Pow2;
    Powers();
    LeValue(lo, 8);
    LeValue(hi, 8);
    assert Pair(lo, hi)[..8] == Le(lo, 8) && Pair(lo, hi)[8..] == Le(hi, 8);
  }

  lemma HalvesPair(c: Block)
    ensures Pair(Low(c), High(c)) == c
  {
    hide Le, FromLe, Pow2;
    LeRoundTrip(c[..8]);
    LeRoundTrip(c[8..]);
  }

  function Xor64(a: u64, b: u64): u64 {
    Pow2Of64();
    OrXorBound(a, b, 64);
    Xor(a, b)
  }

  lemma {:induction false} XorSplit(a: nat, b: nat, x: nat, y: nat, n: nat)
    requires a < Pow2(n) && b < Pow2(n)
    ensures Xor(a + x * Pow2(n), b + y * Pow2(n)) == Xor(a, b) + Xor(x, y) * Pow2(n)
    decreases n
  {
    hide Xor;
    XorHalf(0, 0);
    if n > 0 {
      var p, z := Pow2(n - 1), Xor(x, y);
      assert Pow2(n) == 2 * p;
      hide Pow2;
      XorSplit(a / 2, b / 2, x, y, n - 1);
      Halves(a, x, p);
      Halves(b, y, p);
      Halves(0, z, p);
      XorHalf(a + x * (2 * p), b + y * (2 * p));
      XorHalf(a, b);
    }
  }

  lemma Halves(a: nat, x: nat, p: nat)
    ensures x * (2 * p) == 2 * (x * p)
    ensures (a + x * (2 * p)) / 2 == a / 2 + x * p && (a + x * (2 * p)) % 2 == a % 2
  {
    assert x * (2 * p) == 2 * (x * p);
  }

  /** Exclusive or of whole words is exclusive or of their bytes. */
  lemma {:induction false} XorLe(s: Bytes, t: Bytes)
    requires |s| == |t|
    ensures FromLe(seq(|s|, k requires 0 <= k < |s| => XorByte(s[k], t[k]))) == Xor(FromLe(s), FromLe(t))
    decreases |s|
  {
    hide XorByte, Xor;
    var r := seq(|s|, k requires 0 <= k < |s| => XorByte(s[k], t[k]));
    if s == [] {
      assert Xor(0, 0) == 0 by { XorZero(); }
    } else {
      XorLe(s[1..], t[1..]);
      assert r[1..] == seq(|s[1..]|, k requires 0 <= k < |s[1..]| => XorByte(s[1..][k], t[1..][k]));
      Pow2Of8();
      XorSplit(s[0], t[0], FromLe(s[1..]), FromLe(t[1..]), 8);
      XorByteIs(s[0], t[0]);
    }
  }

  lemma XorZero()
    ensures Xor(0, 0) == 0
  {
  }

  lemma XorByteIs(a: u8, b: u8)
    ensures XorByte(a, b) == Xor(a, b)
  {
  }

  lemma XorWords(a: Block, b: Block)
    ensures Low(XorBlock(a, b)) == Xor64(Low(a), Low(b)) && High(XorBlock(a, b)) == Xor64(High(a), High(b))
  {
    hide XorByte, FromLe, Xor;
    var x := XorBlock(a, b);
    XorLe(a[..8], b[..8]);
    XorLe(a[8..], b[8..]);
    assert x[..8] == seq(8, k requires 0 <= k < 8 => XorByte(a[..8][k], b[..8][k]));
    assert x[8..] == seq(8, k requires 0 <= k < 8 => XorByte(a[8..][k], b[8..][k]));
  }

  // ---- the loops

  function BlocksOf(w: seq<u64>): seq<Block>
    requires |w| % 2 == 0
    decreases |w|
  {
    if w == [] then [] else [Pair(w[0], w[1])] + BlocksOf(w[2..])
  }

  lemma {:induction false} BlocksAt(w: seq<u64>, k: nat)
    requires |w| % 2 == 0 && 2 * k < |w|
    ensures |BlocksOf(w)| == |w| / 2 && BlocksOf(w)[k] == Pair(w[2 * k], w[2 * k + 1])
    decreases |w|
  {
    hide Pair;
    if k > 0 {
      BlocksAt(w[2..], k - 1);
    } else if |w| > 2 {
      BlocksAt(w[2..], 0);
    }
  }

  lemma ZeroPair()
    ensures Pair(0, 0) == Zeros(16)
  {
    assert forall k: nat :: Le(0, k) == Zeros(k) by {
      forall k: nat
        ensures Le(0, k) == Zeros(k)
      {
        LeZero(k);
      }
    }
  }

  lemma {:induction false} LeZero(n: nat)
    ensures Le(0, n) == Zeros(n)
    decreases n
  {
    if n > 0 {
      LeZero(n - 1);
    }
  }

  /** The legacy loop: the counter kept in two byte-swapped words, each block enciphered
      and its words exclusive-or-ed into the buffer. */
  method SoftwareCtr(E: Block -> Block, buf: array<u64>) returns (lo: u64, hi: u64)
    requires buf.Length % 2 == 0
    modifies buf
    ensures var n := buf.Length / 2; Pair(lo, hi) == Advance(Zeros(16), false, n)
    ensures BlocksOf(buf[..]) == Ctr(E, Zeros(16), false, BlocksOf(old(buf[..])))
  {
    hide Increment, Swap, Word, XorBlock, Pair, Xor64;
    lo, hi := 0, 0;
    ghost var was := buf[..];
    var n := buf.Length / 2;
    var b := 0;
    ZeroPair();
    while b < n
      invariant 0 <= b <= n && Pair(lo, hi) == Advance(Zeros(16), false, b)
      invariant forall k :: 0 <= k < b ==> Pair(buf[2 * k], buf[2 * k + 1]) == Masked(E, was, k)
      invariant forall k :: 2 * b <= k < buf.Length ==> buf[k] == was[k]
    {
      ghost var c := Pair(lo, hi);
      var out := E(Pair(lo, hi));
      PairHalves(lo, hi);
      MaskedWords(E, was, b);
      buf[2 * b] := Xor64(buf[2 * b], Low(out));
      buf[2 * b + 1] := Xor64(buf[2 * b + 1], High(out));
      Lockstep(c);
      HalvesPair(Increment(c, false));
      var be := Bumped(hi);
      hi := Swap(be);
      if be == 0 {
        lo := Swap(Bumped(lo));
      }
      b := b + 1;
    }
    AllMasked(E, was, buf[..]);
  }

  function Masked(E: Block -> Block, w: seq<u64>, k: nat): Block
    requires 2 * k + 1 < |w|
  {
    XorBlock(E(Advance(Zeros(16), false, k)), Pair(w[2 * k], w[2 * k + 1]))
  }

  lemma {:induction false} XorCommutes(a: nat, b: nat)
    ensures Xor(a, b) == Xor(b, a)
    decreases a
  {
    hide Xor;
    XorHalf(a, b);
    XorHalf(b, a);
    if a != 0 {
      XorCommutes(a / 2, b / 2);
    } else {
      XorRightZero(b);
    }
  }

  lemma {:induction false} XorRightZero(b: nat)
    ensures Xor(b, 0) == b
    decreases b
  {
    hide Xor;
    XorHalf(b, 0);
    if b != 0 {
      XorRightZero(b / 2);
    } else {
      XorHalf(0, 0);
    }
  }

  lemma MaskedWords(E: Block -> Block, w: seq<u64>, k: nat)
    requires 2 * k + 1 < |w|
    ensures var out := E(Advance(Zeros(16), false, k));
      Pair(Xor64(w[2 * k], Low(out)), Xor64(w[2 * k + 1], High(out))) == Masked(E, w, k)
  {
    hide Advance, XorBlock, Pair, Word, Xor;
    var out, p := E(Advance(Zeros(16), false, k)), Pair(w[2 * k], w[2 * k + 1]);
    PairHalves(w[2 * k], w[2 * k + 1]);
    XorWords(out, p);
    XorCommutes(w[2 * k], Low(out));
    XorCommutes(w[2 * k + 1], High(out));
    HalvesPair(XorBlock(out, p));
  }

  lemma AllMasked(E: Block -> Block, was: seq<u64>, now: seq<u64>)
    requires |was| == |now| && |was| % 2 == 0
    requires forall k :: 0 <= k < |was| / 2 ==> Pair(now[2 * k], now[2 * k + 1]) == Masked(E, was, k)
    ensures BlocksOf(now) == Ctr(E, Zeros(16), false, BlocksOf(was))
  {
    hide Advance, XorBlock, Pair;
    var x, y := BlocksOf(now), Ctr(E, Zeros(16), false, BlocksOf(was));
    var n := |was| / 2;
    if n > 0 {
      BlocksAt(now, 0);
      BlocksAt(was, 0);
      forall k | 0 <= k < n
        ensures x[k] == y[k]
      {
        BlocksAt(now, k);
        BlocksAt(was, k);
        CtrAt(E, Zeros(16), false, BlocksOf(was), k);
      }
      assert x == y;
    }
  }

  /** The check after the hardware run: from zero, n < 65536 blocks leave the swapped
      16-bit n in the top of CTR1. */
  lemma CounterCheck(n: nat)
    requires n < 0x1_0000
    ensures High(Advance(Zeros(16), false, n)) == (n % 0x100 * 0x100 + n / 0x100) * 0x1_0000_0000_0000
  {
    hide Advance, Pow2;
    var d := Advance(Zeros(16), false, n);
    AddsN(Zeros(16), n);
    BeZero(16);
    Powers();
    BeRoundTrip(0, 16);
    BlockFromHalves(d, 0, n);
    assert d[8..] == Zeros(6) + [n / 0x100, n % 0x100] by { BeSmall(n); }
    LeTop(n / 0x100, n % 0x100);
  }

  lemma {:induction false} BeZero(n: nat)
    ensures Be(0, n) == Zeros(n)
    decreases n
  {
    if n > 0 {
      BeZero(n - 1);
    }
  }

  lemma BeSmall(n: nat)
    requires n < 0x1_0000
    ensures Be(n, 8) == Zeros(6) + [n / 0x100, n % 0x100]
  {
    BeZero(6);
    assert Be(n, 8) == Be(n / 0x100, 7) + [n % 0x100];
    assert Be(n / 0x100, 7) == Be(0, 6) + [n / 0x100];
  }

  lemma LeTop(x: u8, y: u8)
    ensures Word(Zeros(6) + [x, y]) == (y * 0x100 + x) * 0x1_0000_0000_0000
  {
    var s := [x, y];
    assert FromLe([y]) == y by { assert [y][1..] == []; }
    assert s[1..] == [y];
    assert FromLe(s) == x + 0x100 * y;
    LeShift(s, 6);
    Pow2Of8();
    Pow2Add(8, 8);
    Pow2Add(16, 16);
    Pow2Add(32, 16);
  }

  lemma {:induction false} LeShift(s: Bytes, n: nat)
    ensures FromLe(Zeros(n) + s) == FromLe(s) * Pow2(8 * n)
    decreases n
  {
    if n == 0 {
      assert Zeros(0) + s == s;
    } else {
      hide Pow2;
      assert (Zeros(n) + s)[1..] == Zeros(n - 1) + s;
      LeShift(s, n - 1);
      Pow2Bytes(n);
      Times256(FromLe(s), Pow2(8 * (n - 1)));
    }
  }
}
