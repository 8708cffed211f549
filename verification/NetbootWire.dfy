/** The loader's protocol as bytes on the wire: which byte of a header, a word or a reply is
    the low one. */
module NetbootWire {
  import opened Bits
  import opened Machine
  import opened Netboot

  /** The bytes are in memory from a on. */
  ghost predicate InMemory(s: seq<u8>, m: Mem, a: int) {
    forall k :: 0 <= k < |s| ==> Peek(m, a + k) == s[k]
  }

  /** rd_le32 is the machine's own 32-bit load. */
  lemma Le32IsLoad(s: seq<u8>, m: Mem, a: int)
    requires |s| >= 4 && InMemory(s, m, a)
    ensures Le32(s) == LoadLe(m, a, 4)
  {
    hide Peek;
    assert Peek(m, a + 0) == s[0] && Peek(m, a + 1) == s[1] && Peek(m, a + 2) == s[2] && Peek(m, a + 3) == s[3];
    assert LoadLe(m, a + 3, 1) == s[3] && LoadLe(m, a + 2, 2) == s[2] + 0x100 * LoadLe(m, a + 3, 1);
    assert LoadLe(m, a + 1, 3) == s[1] + 0x100 * LoadLe(m, a + 2, 2);
  }

  /** Byte k of x. */
  function ByteOf(x: nat, k: nat): u8 { x / Pow2(8 * k) % 0x100 }

  lemma BytePowers()
    ensures Pow2(0) == 1 && Pow2(8) == 0x100 && Pow2(16) == 0x1_0000 && Pow2(24) == 0x100_0000
  {
  }

  /** The eight bytes of send_ack: status, then checksum, each with its low byte first. */
  lemma ReplyBytes(status: u32, checksum: u32, k: nat)
    requires k < 4
    ensures |Reply(status, checksum)| == 8
    ensures Reply(status, checksum)[k] == ByteOf(status, k) && Reply(status, checksum)[4 + k] == ByteOf(checksum, k)
  {
    hide Pow2;
    BytePowers();
    assert k == 0 || k == 1 || k == 2 || k == 3;
  }

  /** "KNET", length and entry, low byte first. */
  function WireHeader(n: u32, entry: u32): seq<u8> {
    [0x4B, 0x4E, 0x45, 0x54,
     n % 0x100, n / 0x100 % 0x100, n / 0x1_0000 % 0x100, n / 0x100_0000 % 0x100,
     entry % 0x100, entry / 0x100 % 0x100, entry / 0x1_0000 % 0x100, entry / 0x100_0000 % 0x100]
  }

  lemma WireFields(n: u32, entry: u32, rest: seq<u8>)
    ensures var s := WireHeader(n, entry) + rest;
      |s| == 12 + |rest| && s[12..] == rest && Le32(s) == MAGIC && Le32(s[4..]) == n && Le32(s[8..]) == entry
  {
    Parts(n);
    Parts(entry);
  }

  lemma Parts(x: u32)
    ensures x % 0x100 + 0x100 * (x / 0x100 % 0x100) + 0x1_0000 * (x / 0x1_0000 % 0x100) + 0x100_0000 * (x / 0x100_0000 % 0x100) == x
  {
    var a, b, c := x / 0x100, x / 0x1_0000, x / 0x100_0000;
    assert x == x % 0x100 + 0x100 * a;
    assert a == a % 0x100 + 0x100 * b;
    assert b == b % 0x100 + 0x100 * c;
  }

  /** A header on the wire with a length below 16 MiB is accepted with exactly that length
      and entry, whatever was received before; with any other length it is refused with
      status 2. */
  lemma HeaderAccepted(q: Rx, n: u32, entry: u32)
    ensures var r := Feed(Accepted(q), WireHeader(n, entry));
      && r.len == n && r.entry == entry && r.staged == [] && r.ready == q.ready
      && if 0 < n < 0x100_0000 then r.phase == Image && r.replies == q.replies
         else r.phase == Done && r.replies == q.replies + [2, 0, 0, 0, 0, 0, 0, 0]
  {
    hide Le32, Feed, WireHeader;
    WireFields(n, entry, []);
    assert WireHeader(n, entry) + [] == WireHeader(n, entry);
    FeedOutcome(q, WireHeader(n, entry));
  }

  /** Any other four bytes in front are refused with status 1. */
  lemma MagicRefused(q: Rx, s: seq<u8>)
    requires |s| == 12 && s[..4] != [0x4B, 0x4E, 0x45, 0x54]
    ensures var r := Feed(Accepted(q), s);
      r.phase == Done && r.ready == q.ready && r.replies == q.replies + [1, 0, 0, 0, 0, 0, 0, 0]
  {
    hide Feed;
    FeedOutcome(q, s);
    MagicOnly(s);
  }

  lemma MagicOnly(s: seq<u8>)
    requires |s| >= 4
    ensures Le32(s) == MAGIC ==> s[..4] == [0x4B, 0x4E, 0x45, 0x54]
  {
  }

  /** A header and its image on the wire: staged, acknowledged with status 0 and the
      image's checksum, low byte first. */
  lemma ImageAccepted(q: Rx, entry: u32, image: seq<u8>)
    requires 0 < |image| < 0x100_0000
    ensures var r, c: int := Feed(Accepted(q), WireHeader(|image|, entry) + image), Checksum(image);
      && r.phase == Done && r.ready && r.len == |image| && r.entry == entry && r.staged == image
      && r.replies == q.replies + [0, 0, 0, 0, c % 0x100, c / 0x100 % 0x100, c / 0x1_0000 % 0x100, c / 0x100_0000 % 0x100]
  {
    hide Le32, Feed, WireHeader, Checksum, Reply;
    var s := WireHeader(|image|, entry) + image;
    WireFields(|image|, entry, image);
    FeedOutcome(q, s);
    Acknowledgement(Checksum(image));
    assert s[12..12 + |image|] == image;
  }

  lemma Acknowledgement(c: u32)
    ensures Reply(0, c) == [0, 0, 0, 0, c % 0x100, c / 0x100 % 0x100, c / 0x1_0000 % 0x100, c / 0x100_0000 % 0x100]
  {
  }

  /** The words in memory, added up without wrapping. */
  function WordsAdded(m: Mem, a: int, k: nat): nat {
    if k == 0 then 0 else WordsAdded(m, a, k - 1) + LoadLe(m, a + 4 * (k - 1), 4)
  }

  /** The checksum is the sum of the 32-bit words that the machine would load, modulo 2^32. */
  lemma ChecksumAdds(s: seq<u8>, m: Mem, a: int)
    requires InMemory(s, m, a)
    ensures Checksum(s) == WordsAdded(m, a, |s| / 4) % 0x1_0000_0000
  {
    SumAdds(s, m, a, |s| / 4);
  }

  lemma {:induction false} SumAdds(s: seq<u8>, m: Mem, a: int, k: nat)
    requires InMemory(s, m, a) && 4 * k <= |s|
    ensures WordSum(s, k) == WordsAdded(m, a, k) % U32
    decreases k
  {
    hide Le32, LoadLe, Peek;
    if k != 0 {
      var t := s[4 * k - 4..4 * k];
      SumAdds(s, m, a, k - 1);
      forall j | 0 <= j < |t|
        ensures Peek(m, a + 4 * (k - 1) + j) == t[j]
      {
        assert Peek(m, a + (4 * k - 4 + j)) == s[4 * k - 4 + j];
      }
      Le32IsLoad(t, m, a + 4 * (k - 1));
      AddedMod(WordsAdded(m, a, k - 1), Le32(t));
    }
  }

  lemma AddedMod(x: nat, y: nat)
    ensures (x % U32 + y) % U32 == (x + y) % U32
  {
  }
}
