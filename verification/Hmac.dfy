/** HMAC-SHA-256 from midstates (RFC 2104, section 2), on the engine and in the C
    helpers that fill one block. */
module Hmac {
  import opened Bits
  import opened Sha
  import opened Contexts

  function Xored(s: Bytes, p: u8): (t: Bytes)
    ensures |t| == |s|
  {
    seq(|s|, k requires 0 <= k < |s| => XorByte(s[k], p))
  }

  /** The key filled up to a block. */
  function KeyBlock(key: Bytes): (b: Bytes)
    requires |key| <= 64
    ensures |b| == 64
  {
    key + Zeros(64 - |key|)
  }

  function MidBlock(key: Bytes, pad: u8): (b: Bytes)
    requires |key| <= 64
    ensures |b| == 64
  {
    Xored(KeyBlock(key), pad)
  }

  const IPAD: u8 := 0x36
  const OPAD: u8 := 0x5C

  /** The definition. */
  function Mac(c: Core, key: Bytes, msg: Bytes): Bytes
    requires |key| <= 64
  {
    Hash(c, MidBlock(key, OPAD) + Hash(c, MidBlock(key, IPAD) + msg))
  }

  /** The state after the padded key block. */
  function Midstate(c: Core, key: Bytes, pad: u8): Bytes
    requires |key| <= 64
  {
    c.compress(c.iv, MidBlock(key, pad))
  }

  /** Hashing on from a midstate. */
  function From(c: Core, mid: Bytes, msg: Bytes): Bytes { Chain(c, mid, Padded(msg, 64)) }

  /** A key-block midstate followed by a 64-byte-offset padding is the whole hash. */
  lemma FromMidstate(c: Core, key: Bytes, pad: u8, msg: Bytes)
    requires |key| <= 64
    ensures From(c, Midstate(c, key, pad), msg) == Hash(c, MidBlock(key, pad) + msg)
  {
    var b := MidBlock(key, pad);
    PaddedTail(b, msg);
    ChainSplit(c, c.iv, b, Padded(msg, 64));
    ChainOne(c, c.iv, b);
  }

  /** HMAC from saved midstates is HMAC. */
  lemma MacFromMidstates(c: Core, key: Bytes, msg: Bytes)
    requires |key| <= 64
    ensures From(c, Midstate(c, key, OPAD), From(c, Midstate(c, key, IPAD), msg)) == Mac(c, key, msg)
  {
    FromMidstate(c, key, IPAD, msg);
    FromMidstate(c, key, OPAD, Hash(c, MidBlock(key, IPAD) + msg));
  }

  // ---- on the engine

  /** setkey: both midstates into eight slots. */
  function SetKey(key: Bytes, base: nat): seq<Op>
    requires |key| <= 64
  {
    ([Ctrl(1)] + FeedOps(MidBlock(key, IPAD)) + SaveTo(base))
    + ([Ctrl(1)] + FeedOps(MidBlock(key, OPAD)) + SaveTo(base + 4))
  }

  ghost predicate HasKey(c: Core, d: Driver, key: Bytes, base: nat)
    requires |key| <= 64
  {
    Stored(d, base, Midstate(c, key, IPAD)) && Stored(d, base + 4, Midstate(c, key, OPAD))
  }

  lemma MidToSlots(c: Core, d: Driver, key: Bytes, pad: u8, base: nat)
    requires Sound(c) && Shaped(d.e) && |key| <= 64
    ensures var d' := Script(c, d, [Ctrl(1)] + FeedOps(MidBlock(key, pad)) + SaveTo(base));
      Shaped(d'.e) && Stored(d', base, Midstate(c, key, pad)) && OtherSlots(d, d', base)
  {
    hide Script, FeedOps, SaveTo, Stored, Flat, MidBlock;
    var b := MidBlock(key, pad);
    ScriptSplit(c, d, [Ctrl(1)] + FeedOps(b), SaveTo(base));
    ScriptSplit(c, d, [Ctrl(1)], FeedOps(b));
    Begins(c, d);
    var d1 := Script(c, d, [Ctrl(1)]);
    Feeds(c, d1, b);
    Saved(c, Script(c, d1, FeedOps(b)), base);
  }

  lemma StillStored(d: Driver, d': Driver, base: nat, other: nat, h: Bytes)
    requires Stored(d, base, h) && OtherSlots(d, d', other) && (base + 4 <= other || other + 4 <= base)
    ensures Stored(d', base, h)
  {
    hide Words;
    forall i | 0 <= i < 4
      ensures SlotAt(d', base, i) == Some(Words(h)[i])
    {
      assert SlotAt(d, base, i) == Some(Words(h)[i]);
    }
  }

  /** Slots outside eight of them are the same. */
  ghost predicate OtherKeys(d: Driver, d': Driver, base: nat) {
    forall k :: k in d.slots && !(base <= k < base + 8) ==> k in d'.slots && d'.slots[k] == d.slots[k]
  }

  /** setkey leaves both midstates in the key's eight slots and touches no other. */
  lemma KeySet(c: Core, d: Driver, key: Bytes, base: nat)
    requires Sound(c) && Shaped(d.e) && |key| <= 64
    ensures var d' := Script(c, d, SetKey(key, base));
      Shaped(d'.e) && HasKey(c, d', key, base) && OtherKeys(d, d', base)
  {
    hide Script, FeedOps, SaveTo, Stored, OtherSlots, Midstate, MidBlock;
    var one := [Ctrl(1)] + FeedOps(MidBlock(key, IPAD)) + SaveTo(base);
    var two := [Ctrl(1)] + FeedOps(MidBlock(key, OPAD)) + SaveTo(base + 4);
    ScriptSplit(c, d, one, two);
    MidToSlots(c, d, key, IPAD, base);
    var d1 := Script(c, d, one);
    MidToSlots(c, d1, key, OPAD, base + 4);
    StillStored(d1, Script(c, d1, two), base, base + 4, Midstate(c, key, IPAD));
    BothOthers(d, d1, Script(c, d1, two), base);
  }

  lemma BothOthers(d: Driver, d1: Driver, d2: Driver, base: nat)
    requires OtherSlots(d, d1, base) && OtherSlots(d1, d2, base + 4)
    ensures OtherKeys(d, d2, base)
  {
  }

  lemma KeyKept(c: Core, d: Driver, d': Driver, key: Bytes, base: nat, other: nat)
    requires |key| <= 64 && HasKey(c, d, key, base) && OtherKeys(d, d', other) && (base + 8 <= other || other + 8 <= base)
    ensures HasKey(c, d', key, base)
  {
    hide Midstate, Words;
    forall i | 0 <= i < 4
      ensures SlotAt(d', base, i) == SlotAt(d, base, i) && SlotAt(d', base + 4, i) == SlotAt(d, base + 4, i)
    {
      assert SlotAt(d, base, i).Some? && SlotAt(d, base + 4, i).Some?;
    }
  }

  /** setkey for every key in turn, key k in slots 8k to 8k+7. */
  function SetKeys(keys: seq<Bytes>): seq<Op>
    requires forall k :: 0 <= k < |keys| ==> |keys[k]| <= 64
  {
    if keys == [] then [] else SetKeys(keys[..|keys| - 1]) + SetKey(keys[|keys| - 1], 8 * (|keys| - 1))
  }

  /** From any state of the engine and the slots, the set-up leaves every key in place. */
  lemma {:induction false} KeysSet(c: Core, d: Driver, keys: seq<Bytes>)
    requires Sound(c) && Shaped(d.e) && forall k :: 0 <= k < |keys| ==> |keys[k]| <= 64
    ensures var d' := Script(c, d, SetKeys(keys)); Shaped(d'.e) && AllKeys(c, d', keys)
    decreases |keys|
  {
    hide Script, SetKey, HasKey, OtherKeys;
    if keys == [] {
      ScriptNone(c, d);
    } else {
      var n := |keys| - 1;
      KeysSet(c, d, keys[..n]);
      var d1 := Script(c, d, SetKeys(keys[..n]));
      ScriptSplit(c, d, SetKeys(keys[..n]), SetKey(keys[n], 8 * n));
      KeySet(c, d1, keys[n], 8 * n);
      var d2 := Script(c, d1, SetKey(keys[n], 8 * n));
      forall k | 0 <= k < n
        ensures HasKey(c, d2, keys[k], 8 * k)
      {
        assert keys[..n][k] == keys[k];
        KeyKept(c, d1, d2, keys[k], 8 * k, 8 * n);
      }
    }
  }

  /** The further blocks of s, one START each. */
  function FeedAll(s: Bytes): seq<Op>
    decreases |s|
  {
    if |s| < 64 then [] else FeedOps(s[..64]) + FeedAll(s[64..])
  }

  lemma {:induction false} FedAll(c: Core, d: Driver, s: Bytes)
    requires Sound(c) && Shaped(d.e)
    ensures var d' := Script(c, d, FeedAll(s));
      Shaped(d'.e) && State(d') == Chain(c, State(d), s) && d'.slots == d.slots
    decreases |s|
  {
    hide Script, FeedOps, Flat;
    if |s| < 64 {
      ScriptNone(c, d);
    } else {
      var ops := FeedOps(s[..64]);
      ScriptSplit(c, d, ops, FeedAll(s[64..]));
      Feeds(c, d, s[..64]);
      FedAll(c, Script(c, d, ops), s[64..]);
    }
  }

  /** Hash a padded message on from the midstate in slots base..base+3: the first block
      with RESTORE|START, the others with START. */
  function Onward(s: Bytes, base: nat): seq<Op>
    requires |s| >= 64
  {
    ResumeFeedOps(base, s[..64]) + FeedAll(s[64..])
  }

  lemma Onwarded(c: Core, d: Driver, s: Bytes, base: nat, h: Bytes)
    requires Sound(c) && Shaped(d.e) && |s| >= 64 && Stored(d, base, h)
    ensures var d' := Script(c, d, Onward(s, base));
      Shaped(d'.e) && State(d') == Chain(c, h, s) && d'.slots == d.slots
  {
    hide Script, ResumeFeedOps, FeedAll, Flat;
    ScriptSplit(c, d, ResumeFeedOps(base, s[..64]), FeedAll(s[64..]));
    ResumeFeeds(c, d, base, h, s[..64]);
    FedAll(c, Script(c, d, ResumeFeedOps(base, s[..64])), s[64..]);
  }

  function InnerOps(msg: Bytes, base: nat): seq<Op> {
    PaddedWhole(msg, 64);
    Onward(Padded(msg, 64), base)
  }

  /** One MAC, the key's midstates untouched: the inner digest read back, then the outer
      hash over it. */
  lemma MacOnEngine(c: Core, d: Driver, key: Bytes, base: nat, msg: Bytes)
    requires Sound(c) && Shaped(d.e) && |key| <= 64 && HasKey(c, d, key, base)
    ensures var d1 := Script(c, d, InnerOps(msg, base));
      var d2 := Script(c, d1, InnerOps(State(d1), base + 4));
      && State(d1) == Hash(c, MidBlock(key, IPAD) + msg)
      && State(d2) == Mac(c, key, msg) && Shaped(d2.e) && d2.slots == d.slots
  {
    hide Script, Onward, Padded, Chain, Stored, Flat, Midstate, MidBlock, Hash;
    PaddedWhole(msg, 64);
    Onwarded(c, d, Padded(msg, 64), base, Midstate(c, key, IPAD));
    var d1 := Script(c, d, InnerOps(msg, base));
    FromMidstate(c, key, IPAD, msg);
    SlotsSame(d, d1, base + 4, Midstate(c, key, OPAD));
    var inner := State(d1);
    PaddedWhole(inner, 64);
    Onwarded(c, d1, Padded(inner, 64), base + 4, Midstate(c, key, OPAD));
    MacFromMidstates(c, key, msg);
  }

  /** A request: which key (its slots start at 8 * key) and the message. */
  datatype Request = Request(key: nat, msg: Bytes)

  function Answers(c: Core, d: Driver, rs: seq<Request>): seq<Bytes>
    decreases |rs|
  {
    if rs == [] then []
    else
      var d1 := Script(c, d, InnerOps(rs[0].msg, 8 * rs[0].key));
      var d2 := Script(c, d1, InnerOps(State(d1), 8 * rs[0].key + 4));
      [State(d2)] + Answers(c, d2, rs[1..])
  }

  ghost predicate AllKeys(c: Core, d: Driver, keys: seq<Bytes>) {
    forall k :: 0 <= k < |keys| ==> |keys[k]| <= 64 && HasKey(c, d, keys[k], 8 * k)
  }

  /** Keys interleaved in any order: every answer is the HMAC of its request. */
  lemma {:induction false} EveryMac(c: Core, d: Driver, keys: seq<Bytes>, rs: seq<Request>, i: nat)
    requires Sound(c) && Shaped(d.e) && AllKeys(c, d, keys) && i < |rs|
    requires forall k :: 0 <= k < |rs| ==> rs[k].key < |keys|
    ensures |Answers(c, d, rs)| == |rs| && Answers(c, d, rs)[i] == Mac(c, keys[rs[i].key], rs[i].msg)
    decreases |rs|
  {
    hide Script, InnerOps, Flat, Stored, Mac, Midstate;
    var r := rs[0];
    MacOnEngine(c, d, keys[r.key], 8 * r.key, r.msg);
    var d1 := Script(c, d, InnerOps(r.msg, 8 * r.key));
    var d2 := Script(c, d1, InnerOps(State(d1), 8 * r.key + 4));
    forall k | 0 <= k < |keys|
      ensures HasKey(c, d2, keys[k], 8 * k)
    {
      SlotsSame(d, d2, 8 * k, Midstate(c, keys[k], IPAD));
      SlotsSame(d, d2, 8 * k + 4, Midstate(c, keys[k], OPAD));
    }
    if |rs| > 1 {
      EveryMac(c, d2, keys, rs[1..], if i > 0 then i - 1 else 0);
    }
  }

  /** The whole script: set up any keys, then any requests under them in any order. */
  lemma KeysThenMacs(c: Core, d: Driver, keys: seq<Bytes>, rs: seq<Request>, i: nat)
    requires Sound(c) && Shaped(d.e) && i < |rs|
    requires forall k :: 0 <= k < |keys| ==> |keys[k]| <= 64
    requires forall k :: 0 <= k < |rs| ==> rs[k].key < |keys|
    ensures var answers := Answers(c, Script(c, d, SetKeys(keys)), rs);
      |answers| == |rs| && answers[i] == Mac(c, keys[rs[i].key], rs[i].msg)
  {
    hide Script, SetKeys, Answers, AllKeys, Mac;
    KeysSet(c, d, keys);
    EveryMac(c, Script(c, d, SetKeys(keys)), keys, rs, i);
  }

  // ---- the C helpers

  /** The block that the C code builds byte by byte: message, 0x80, zeros, bit length
      stored last. */
  function OneBlock(msg: Bytes, bits: nat): (b: Bytes)
    requires |msg| < 64
    ensures |b| == 64
  {
    (msg + [0x80] + Zeros(63 - |msg|))[..56] + Be(bits, 8)
  }

  /** One block is the whole padding exactly for messages of at most 55 bytes. */
  lemma OneBlockIsPadded(msg: Bytes, prefix: nat)
    requires |msg| < 64
    ensures OneBlock(msg, 8 * (|msg| + prefix)) == Padded(msg, prefix) <==> |msg| <= 55
  {
    hide Be;
    if |msg| <= 55 {
      assert Gap(|msg|) == 55 - |msg|;
      assert (msg + [0x80] + Zeros(63 - |msg|))[..56] == msg + [0x80] + Zeros(Gap(|msg|));
    } else {
      assert |Padded(msg, prefix)| == 128;
    }
  }

  /** Fills a block in place. */
  method BuildBlock(msg: Bytes, bits: nat, block: array<u8>)
    requires |msg| < 64 && block.Length == 64
    modifies block
    ensures block[..] == OneBlock(msg, bits)
  {
    hide Be;
    for i := 0 to 64
      invariant forall k :: 0 <= k < i ==> block[k] == 0
    {
      block[i] := 0;
    }
    for i := 0 to |msg|
      invariant forall k :: 0 <= k < 64 ==> block[k] == if k < i then msg[k] else 0
    {
      block[i] := msg[i];
    }
    block[|msg|] := 0x80;
    ghost var was := block[..];
    for i := 0 to 8
      invariant forall k :: 0 <= k < 64 ==> block[k] == if k >= 64 - i then Be(bits, 8)[k - 56] else was[k]
    {
      BeByte(bits, 8, i);
      block[63 - i] := bits / Pow2(8 * i) % 0x100;
    }
    assert was == msg + [0x80] + Zeros(63 - |msg|);
    assert block[..] == was[..56] + Be(bits, 8);
  }

  lemma {:induction false} BeByte(x: nat, n: nat, i: nat)
    requires i < n
    ensures Be(x, n)[n - 1 - i] == x / Pow2(8 * i) % 0x100
    decreases n
  {
    if i > 0 {
      BeByte(x / 0x100, n - 1, i - 1);
      Pow2Add(8, 8 * (i - 1));
      Pow2Of8();
      DivDiv(x, Pow2(8 * (i - 1)));
    }
  }

  lemma DivDiv(x: nat, p: nat)
    requires p > 0
    ensures x / 0x100 / p == x / (0x100 * p)
  {
    var q := x / 0x100 / p;
    var r := x - q * (0x100 * p);
    var a, b := x / 0x100, x / 0x100 % p;
    assert a == q * p + b;
    assert x == 0x100 * (q * p) + 0x100 * b + x % 0x100;
    assert 0x100 * (q * p) == q * (0x100 * p);
    DivModUnique(q, r, 0x100 * p);
  }

  /** sha256_one_block: INIT, one block, START. */
  lemma OneBlockHash(c: Core, msg: Bytes)
    requires |msg| <= 55
    ensures c.compress(c.iv, OneBlock(msg, 8 * |msg|)) == Hash(c, msg)
  {
    OneBlockIsPadded(msg, 0);
    ChainOne(c, c.iv, Padded(msg, 0));
  }

  // ---- the HMAC wrapper's registers

  /** The wrapper beside the engine: its key registers and the two cached midstates. */
  datatype Wrapper = Wrapper(d: Driver, key: seq<Bytes>, inner: Bytes, outer: Bytes)

  /** KEY_LOAD: both midstates of the 256-bit key; what it leaves in H is not specified. */
  function KeyLoad(c: Core, w: Wrapper, left: seq<Bytes>): Wrapper {
    var k := Flat(w.key);
    if |k| <= 64 then
      w.(d := w.d.(e := w.d.e.(h := left)), inner := Midstate(c, k, IPAD), outer := Midstate(c, k, OPAD))
    else w
  }

  /** START and FINAL: H is loaded from a midstate. */
  function Loaded(w: Wrapper, mid: Bytes): Wrapper
    requires |mid| == 32
  {
    w.(d := w.d.(e := w.d.e.(h := Words(mid))))
  }

  function Fed(c: Core, w: Wrapper, b: Bytes): Wrapper
    requires |b| == 64
  {
    w.(d := Script(c, w.d, FeedOps(b)))
  }

  /** hmac_sha256: a key of at most 32 bytes zero-padded to the key registers, KEY_LOAD,
      START, one inner block, the digest read back, FINAL, one outer block. */
  function CHmac(c: Core, w: Wrapper, left: seq<Bytes>, key: Bytes, msg: Bytes): Bytes
    requires |key| <= 32 && |msg| <= 55 && Sound(c)
  {
    FlatWords(key + Zeros(32 - |key|));
    var loaded := KeyLoad(c, w.(key := Words(key + Zeros(32 - |key|))), left);
    var first := Fed(c, Loaded(loaded, loaded.inner), OneBlock(msg, 512 + 8 * |msg|));
    var digest := State(first.d);
    if |digest| != 32 then []
    else State(Fed(c, Loaded(first, first.outer), OneBlock(digest, 768)).d)
  }

  lemma LoadedShaped(w: Wrapper, mid: Bytes, e: Engine)
    requires |mid| == 32 && Shaped(e) && w.d.e == e.(h := w.d.e.h)
    ensures Shaped(Loaded(w, mid).d.e) && State(Loaded(w, mid).d) == mid
  {
    FlatWords(mid);
  }

  /** The C helper agrees with the definition within its limits, whatever the registers
      held before. */
  lemma CHmacIsMac(c: Core, w: Wrapper, left: seq<Bytes>, key: Bytes, msg: Bytes)
    requires Sound(c) && Shaped(w.d.e) && |key| <= 32 && |msg| <= 55
    ensures CHmac(c, w, left, key, msg) == Mac(c, key, msg)
  {
    hide Script, FeedOps, Flat, Words, Shaped, Midstate, Padded, OneBlock, Hash;
    var k32 := key + Zeros(32 - |key|);
    FlatWords(k32);
    SamePadding(c, key);
    var loaded := KeyLoad(c, w.(key := Words(k32)), left);
    LoadedShaped(loaded, loaded.inner, w.d.e);
    var b1 := OneBlock(msg, 512 + 8 * |msg|);
    var start := Loaded(loaded, loaded.inner);
    Feeds(c, start.d, b1);
    var first := Fed(c, start, b1);
    OneBlockIsPadded(msg, 64);
    ChainOne(c, Midstate(c, key, IPAD), Padded(msg, 64));
    var digest := State(first.d);
    assert digest == From(c, Midstate(c, key, IPAD), msg);
    LoadedShaped(first, first.outer, first.d.e);
    var final := Loaded(first, first.outer);
    Feeds(c, final.d, OneBlock(digest, 768));
    OneBlockIsPadded(digest, 64);
    ChainOne(c, Midstate(c, key, OPAD), Padded(digest, 64));
    MacFromMidstates(c, key, msg);
  }

  lemma SamePadding(c: Core, key: Bytes)
    requires Sound(c) && |key| <= 32
    ensures var k32 := key + Zeros(32 - |key|);
      Midstate(c, k32, IPAD) == Midstate(c, key, IPAD) && Midstate(c, k32, OPAD) == Midstate(c, key, OPAD)
    ensures |Midstate(c, key, IPAD)| == |Midstate(c, key, OPAD)| == 32
  {
    assert KeyBlock(key + Zeros(32 - |key|)) == KeyBlock(key);
  }
}
