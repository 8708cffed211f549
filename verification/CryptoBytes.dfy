/** Byte by byte: padding, big-endian numbers, HMAC's key blocks and the counter's words. */
module CryptoBytes {
  import opened Bits
  import opened BitLaws
  import opened Machine
  import opened Sha
  import opened Hmac
  import opened Counter

  /** Byte k of an n-byte big-endian number. */
  lemma {:induction false} BeByte(x: nat, n: nat, k: nat)
    requires k < n
    ensures Be(x, n)[k] == x / Pow2(8 * (n - 1 - k)) % 0x100
    decreases n
  {
    if k == n - 1 {
      assert Pow2(0) == 1;
    } else {
      BeByte(x / 0x100, n - 1, k);
      Pow2Bytes(n - 1 - k);
      hide Pow2;
      NestedQuotient(x, Pow2(8 * (n - 2 - k)));
    }
  }

  lemma NestedQuotient(x: nat, p: nat)
    requires p > 0
    ensures x / 0x100 / p == x / (0x100 * p)
  {
    var q, r := Quotient(x / 0x100, p), x / 0x100 % p;
    assert q * (0x100 * p) == 0x100 * (q * p);
    DivModUnique(q, 0x100 * r + x % 0x100, 0x100 * p);
  }

  /** Every byte of the padded tail: the message, 0x80, zeros, and the length in bits of
      everything hashed, high byte first. */
  lemma PaddedByte(msg: Bytes, prefix: nat, k: nat)
    requires k < |Padded(msg, prefix)|
    ensures var n := |Padded(msg, prefix)|;
      n >= |msg| + 9
      && Padded(msg, prefix)[k]
         == if k < |msg| then msg[k] else if k == |msg| then 0x80 else if k < n - 8 then 0
            else 8 * (|msg| + prefix) / Pow2(8 * (n - 1 - k)) % 0x100
  {
    hide Be, Gap, Zeros, Pow2;
    var n := |Padded(msg, prefix)|;
    if k >= n - 8 {
      BeByte(8 * (|msg| + prefix), 8, k - (n - 8));
    }
  }

  /** s is the key filled with zeros to 64 bytes, each byte exclusive-or p. */
  predicate KeyPadded(s: Bytes, key: Bytes, p: u8) {
    |s| == 64 && forall k :: 0 <= k < 64 ==> s[k] == XorByte(if k < |key| then key[k] else 0, p)
  }

  /** RFC 2104, section 2, with ipad 0x36 and opad 0x5C. */
  lemma MacIs(c: Core, key: Bytes, msg: Bytes, inner: Bytes, outer: Bytes)
    requires |key| <= 64 && KeyPadded(inner, key, 0x36) && KeyPadded(outer, key, 0x5C)
    ensures Mac(c, key, msg) == Hash(c, outer + Hash(c, inner + msg))
  {
    hide Hash, XorByte;
    assert inner == MidBlock(key, IPAD);
    assert outer == MidBlock(key, OPAD);
  }

  /** The exclusive-or of bytes, bit by bit. */
  lemma XorByteBits(a: u8, b: u8, j: nat)
    ensures Bit(XorByte(a, b), j) == 1 <==> Bit(a, j) != Bit(b, j)
  {
    hide Bit;
    BitsOf(a, b, j);
  }

  /** The C code's 64-bit words are the machine's loads. */
  lemma {:induction false} LeIsLoad(s: Bytes, m: Mem, a: int)
    requires forall k :: 0 <= k < |s| ==> Peek(m, a + k) == s[k]
    ensures FromLe(s) == LoadLe(m, a, |s|)
    decreases |s|
  {
    hide Peek;
    if s != [] {
      assert Peek(m, a + 0) == s[0];
      forall k | 0 <= k < |s[1..]|
        ensures Peek(m, a + 1 + k) == s[1..][k]
      {
        assert Peek(m, a + (k + 1)) == s[k + 1];
      }
      LeIsLoad(s[1..], m, a + 1);
    }
  }
}
