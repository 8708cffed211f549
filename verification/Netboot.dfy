/** The network boot receiver: a byte stream cut into segments anywhere is staged,
    checked and acknowledged as if it had come in one piece. */
module Netboot {
  import opened Bits

  const MAGIC: int := 0x5445_4E4B
  const MAX_IMG: int := 0x100_0000

  datatype Phase = Header | Image | Done

  function Le32(b: seq<u8>): u32
    requires |b| >= 4
  {
    var p: int, q: int, r: int, t: int := b[0], b[1], b[2], b[3];
    p + 0x100 * q + 0x1_0000 * r + 0x100_0000 * t
  }

  function Bytes32(x: u32): (b: seq<u8>)
    ensures |b| == 4
  {
    [x % 0x100, x / 0x100 % 0x100, x / 0x1_0000 % 0x100, x / 0x100_0000]
  }

  lemma Bytes32RoundTrip(x: u32)
    ensures Le32(Bytes32(x)) == x
  {
    var a, b, c := x / 0x100, x / 0x1_0000, x / 0x100_0000;
    assert x == x % 0x100 + 0x100 * a;
    assert a == a % 0x100 + 0x100 * b;
    assert b == b % 0x100 + 0x100 * c;
  }

  // ---- checksum

  /** Sum mod 2^32 of the first k little-endian words. */
  function WordSum(s: seq<u8>, k: nat): u32
    requires 4 * k <= |s|
  {
    if k == 0 then 0 else (WordSum(s, k - 1) + Le32(s[4 * k - 4..4 * k])) % U32
  }

  lemma NextSum(s: seq<u8>, k: nat)
    ensures WordSum(s, 0) == 0
    ensures 4 * k + 4 <= |s| ==> WordSum(s, k + 1) == (WordSum(s, k) + Le32(s[4 * k..4 * k + 4])) % U32
  {
    hide Le32;
  }

  /** Only whole words count. */
  function Checksum(s: seq<u8>): u32 { WordSum(s, |s| / 4) }

  /** The same image but for one byte. */
  ghost predicate DifferAt(s: seq<u8>, t: seq<u8>, p: nat) {
    p < |s| == |t| && s[p] != t[p] && forall k :: 0 <= k < |s| && k != p ==> s[k] == t[k]
  }

  lemma {:induction false} SumBefore(s: seq<u8>, t: seq<u8>, p: nat, k: nat)
    requires DifferAt(s, t, p) && 4 * k <= |s|
    ensures WordSum(s, k) == WordSum(t, k) <==> 4 * k <= p
  {
    hide Le32;
    if k != 0 {
      SumBefore(s, t, p, k - 1);
      var x, y := s[4 * k - 4..4 * k], t[4 * k - 4..4 * k];
      if 4 * (k - 1) <= p < 4 * k {
        WordsDiffer(x, y, p - (4 * k - 4));
      } else {
        assert x == y;
      }
      ModAdd(WordSum(s, k - 1), WordSum(t, k - 1), Le32(x), Le32(y));
    }
  }

  lemma WordsDiffer(x: seq<u8>, y: seq<u8>, p: nat)
    requires |x| == |y| == 4 && DifferAt(x, y, p)
    ensures Le32(x) != Le32(y)
  {
  }

  lemma ModAdd(a: u32, b: u32, x: u32, y: u32)
    requires a == b || x == y
    ensures (a + x) % U32 == (b + y) % U32 <==> a == b && x == y
  {
  }

  /** A single wrong byte is always noticed in a whole word, and never in the last
      one to three bytes. */
  lemma OneByteDetected(s: seq<u8>, t: seq<u8>, p: nat)
    requires DifferAt(s, t, p)
    ensures Checksum(s) != Checksum(t) <==> p < |s| / 4 * 4
  {
    SumBefore(s, t, p, |s| / 4);
  }

  // ---- the receive state as a value

  /** hdr holds the header bytes so far, staged the image bytes so far. */
  datatype Rx = Rx(phase: Phase, hdr: seq<u8>, len: u32, entry: u32, staged: seq<u8>, replies: seq<u8>, ready: bool)

  /** Eight reply bytes. */
  function Reply(status: u32, checksum: u32): seq<u8> { Bytes32(status) + Bytes32(checksum) }

  /** After an accepted connection. */
  function Accepted(r: Rx): Rx { r.(phase := Header, hdr := [], len := 0, staged := []) }

  const FRESH := Rx(Header, [], 0, 0, [], [], false)

  function HeaderDone(r: Rx): Rx
    requires |r.hdr| == 12
  {
    if Le32(r.hdr) != MAGIC then r.(phase := Done, replies := r.replies + Reply(1, 0))
    else
      var n, e := Le32(r.hdr[4..]), Le32(r.hdr[8..]);
      var q := r.(len := n, entry := e, staged := []);
      if n == 0 || n >= MAX_IMG then q.(phase := Done, replies := r.replies + Reply(2, 0)) else q.(phase := Image)
  }

  function ImageDone(r: Rx): Rx {
    r.(phase := Done, replies := r.replies + Reply(0, Checksum(r.staged)), ready := true)
  }

  /** One byte of the stream. */
  function Feed1(r: Rx, b: u8): Rx {
    match r.phase
    case Header =>
      var q := r.(hdr := r.hdr + [b]);
      if |q.hdr| == 12 then HeaderDone(q) else q
    case Image =>
      var q := r.(staged := r.staged + [b]);
      if |q.staged| == q.len then ImageDone(q) else q
    case Done => r
  }

  function Feed(r: Rx, s: seq<u8>): Rx
    decreases |s|
  {
    if s == [] then r else Feed(Feed1(r, s[0]), s[1..])
  }

  predicate Valid(r: Rx) {
    match r.phase
    case Header => |r.hdr| < 12 && r.len == 0 && r.staged == []
    case Image => |r.hdr| == 12 && |r.staged| < r.len < MAX_IMG
    case Done => |r.hdr| == 12 && (r.staged == [] || |r.staged| == r.len < MAX_IMG)
  }

  lemma {:induction false} FeedValid(r: Rx, s: seq<u8>)
    requires Valid(r)
    ensures Valid(Feed(r, s))
    decreases |s|
  {
    hide Le32;
    if s != [] {
      FeedValid(Feed1(r, s[0]), s[1..]);
    }
  }

  /** A header does not make an image ready. */
  lemma {:induction false} ValidReady(r: Rx, s: seq<u8>)
    requires r.phase == Header && |r.hdr| + |s| <= 12 && |r.hdr| < 12
    ensures Feed(r, s).ready == r.ready
  {
    FeedHeader(r, s);
  }

  /** Where the stream is cut makes no difference. */
  lemma {:induction false} FeedConcat(r: Rx, s: seq<u8>, t: seq<u8>)
    ensures Feed(Feed(r, s), t) == Feed(r, s + t)
    decreases |s|
  {
    hide Feed1;
    if s == [] {
      assert s + t == t;
    } else {
      assert (s + t)[1..] == s[1..] + t;
      FeedConcat(Feed1(r, s[0]), s[1..], t);
    }
  }

  lemma {:induction false} FeedDone(r: Rx, s: seq<u8>)
    requires r.phase == Done
    ensures Feed(r, s) == r
    decreases |s|
  {
    if s != [] {
      FeedDone(r, s[1..]);
    }
  }

  /** Header bytes that do not complete the header. */
  lemma {:induction false} FeedHeader(r: Rx, s: seq<u8>)
    requires r.phase == Header && |r.hdr| + |s| <= 12 && |r.hdr| < 12
    ensures var q := r.(hdr := r.hdr + s); Feed(r, s) == if |q.hdr| == 12 then HeaderDone(q) else q
    decreases |s|
  {
    hide HeaderDone;
    if s == [] {
      assert r.hdr + s == r.hdr;
    } else {
      assert r.hdr + s == r.hdr + [s[0]] + s[1..];
      var q := Feed1(r, s[0]);
      if |s| > 1 {
        FeedHeader(q, s[1..]);
      } else {
        assert r.hdr + s == r.hdr + [s[0]];
        FeedNothing(q, s[1..]);
      }
    }
  }

  /** Image bytes up to the announced length. */
  lemma {:induction false} FeedImage(r: Rx, s: seq<u8>)
    requires r.phase == Image && |r.staged| + |s| <= r.len && |r.staged| < r.len
    ensures var q := r.(staged := r.staged + s); Feed(r, s) == if |q.staged| == q.len then ImageDone(q) else q
    decreases |s|
  {
    hide ImageDone;
    if s == [] {
      assert r.staged + s == r.staged;
    } else {
      assert r.staged + s == r.staged + [s[0]] + s[1..];
      var q := Feed1(r, s[0]);
      if |s| > 1 {
        FeedImage(q, s[1..]);
      } else {
        assert r.staged + s == r.staged + [s[0]];
        FeedNothing(q, s[1..]);
      }
    }
  }

  // ---- what the whole stream means

  function Min(a: int, b: int): int { if a < b then a else b }

  /** The header of a stream announces an image of acceptable size. */
  predicate GoodHeader(s: seq<u8>) {
    |s| >= 12 && Le32(s) == MAGIC && 0 < Le32(s[4..]) < MAX_IMG
  }

  /** The state after the whole stream of a connection accepted in state q, without
      reference to how it is processed. */
  function Outcome(q: Rx, s: seq<u8>): Rx {
    var r := Accepted(q);
    if |s| < 12 then r.(hdr := s)
    else if Le32(s) != MAGIC then r.(phase := Done, hdr := s[..12], replies := q.replies + Reply(1, 0))
    else
      var n, e := Le32(s[4..]), Le32(s[8..]);
      var t := r.(hdr := s[..12], len := n, entry := e);
      if !GoodHeader(s) then t.(phase := Done, replies := q.replies + Reply(2, 0))
      else if |s| - 12 < n then t.(phase := Image, staged := s[12..])
      else
        var image := s[12..12 + n];
        t.(phase := Done, staged := image, replies := q.replies + Reply(0, Checksum(image)), ready := true)
  }

  lemma FieldOfHeader(s: seq<u8>, k: nat)
    requires |s| >= 12 && k <= 8
    ensures Le32(s[..12][k..]) == Le32(s[k..])
  {
  }

  /** On a new connection staged is exactly the stream after the 12 header bytes, up to the
      announced length, and the reply carries its checksum. */
  lemma FeedOutcome(q: Rx, s: seq<u8>)
    ensures Feed(Accepted(q), s) == Outcome(q, s)
  {
    hide Le32, Feed1, Feed, Checksum, Reply;
    var start := Accepted(q);
    if |s| < 12 {
      FeedHeader(start, s);
      Neutral(s);
    } else {
      var h, t := s[..12], s[12..];
      assert s == h + t;
      FeedConcat(start, h, t);
      FeedHeader(start, h);
      Neutral(h);
      FieldOfHeader(s, 0);
      assert s[0..] == s && h[0..] == h;
      FieldOfHeader(s, 4);
      FieldOfHeader(s, 8);
      var r := Feed(start, h);
      if !GoodHeader(s) {
        FeedDone(r, t);
      } else {
        var n := Le32(s[4..]);
        var m := Min(n, |t|);
        var u, v := t[..m], t[m..];
        assert t == u + v && u == s[12..12 + m];
        FeedConcat(r, u, v);
        FeedImage(r, u);
        Neutral(u);
        if m == n {
          FeedDone(Feed(r, u), v);
        } else {
          FeedNothing(Feed(r, u), v);
        }
      }
    }
  }

  lemma FeedNothing(r: Rx, s: seq<u8>)
    requires s == []
    ensures Feed(r, s) == r
  {
  }

  // ---- histories: connections and bytes in any order

  /** What reaches the loader.  Its state is global, so the bytes may come from any open
      connection. */
  datatype Event = Connect | Byte(b: u8)

  /** The receive state and the whole staging area, which no connection clears. */
  datatype Loader = Loader(rx: Rx, area: seq<u8>)

  function Apply(l: Loader, e: Event): Loader {
    match e
    case Connect => l.(rx := Accepted(l.rx))
    case Byte(b) =>
      var k := |l.rx.staged|;
      Loader(Feed1(l.rx, b), if l.rx.phase == Image && k < |l.area| then l.area[k := b] else l.area)
  }

  function History(l: Loader, es: seq<Event>): Loader
    decreases |es|
  {
    if es == [] then l else Apply(History(l, es[..|es| - 1]), es[|es| - 1])
  }

  function BytesOf(s: seq<u8>): (es: seq<Event>)
    ensures |es| == |s| && forall k :: 0 <= k < |s| ==> es[k] == Byte(s[k])
  {
    seq(|s|, k requires 0 <= k < |s| => Byte(s[k]))
  }

  lemma HistoryLast(l: Loader, es: seq<Event>, e: Event)
    ensures History(l, es + [e]) == Apply(History(l, es), e)
  {
    assert (es + [e])[..|es|] == es;
  }

  lemma HistoryNone(l: Loader, es: seq<Event>)
    requires es == []
    ensures History(l, es) == l
  {
  }

  lemma {:induction false} HistoryAdd(l: Loader, a: seq<Event>, b: seq<Event>)
    ensures History(l, a + b) == History(History(l, a), b)
    decreases |b|
  {
    hide Apply;
    if b == [] {
      assert a + b == a;
    } else {
      var n := |b| - 1;
      assert (a + b)[..|a| + n] == a + b[..n];
      HistoryAdd(l, a, b[..n]);
    }
  }

  /** Bytes alone do to the receive state what Feed says. */
  lemma {:induction false} BytesFeed(l: Loader, s: seq<u8>)
    ensures History(l, BytesOf(s)).rx == Feed(l.rx, s)
    decreases |s|
  {
    hide Feed1;
    if s != [] {
      var n := |s| - 1;
      assert BytesOf(s)[..n] == BytesOf(s[..n]);
      BytesFeed(l, s[..n]);
      assert s == s[..n] + [s[n]];
      FeedConcat(l.rx, s[..n], [s[n]]);
      assert Feed(Feed1(Feed(l.rx, s[..n]), s[n]), [s[n]][1..]) == Feed1(Feed(l.rx, s[..n]), s[n]);
    }
  }

  ghost predicate Consistent(l: Loader) {
    |l.area| == MAX_IMG && Valid(l.rx) && l.rx.staged == l.area[..|l.rx.staged|]
  }

  lemma ApplyConsistent(l: Loader, e: Event)
    requires Consistent(l)
    ensures Consistent(Apply(l, e))
  {
    hide Le32, Reply, Checksum;
  }

  /** In every history the offset stays inside the image being received and inside the
      staging area, whose prefix is what has been received. */
  lemma {:induction false} OffsetBound(l: Loader, es: seq<Event>)
    requires Consistent(l)
    ensures var r := History(l, es);
      && |r.area| == MAX_IMG && |r.rx.staged| < MAX_IMG && r.rx.staged == r.area[..|r.rx.staged|]
      && (r.rx.phase == Image ==> |r.rx.staged| < r.rx.len < MAX_IMG)
    ensures Consistent(History(l, es))
    decreases |es|
  {
    hide Apply;
    if es != [] {
      OffsetBound(l, es[..|es| - 1]);
      ApplyConsistent(History(l, es[..|es| - 1]), es[|es| - 1]);
    }
  }

  // ---- connection by connection

  /** The streams between connections; the first holds what comes before any. */
  function Streams(es: seq<Event>): (ts: seq<seq<u8>>)
    ensures |ts| >= 1
    decreases |es|
  {
    if es == [] then [[]]
    else
      var ts := Streams(es[..|es| - 1]);
      match es[|es| - 1]
      case Connect => ts + [[]]
      case Byte(b) => ts[|ts| - 1 := ts[|ts| - 1] + [b]]
  }

  /** The stream writes its image bytes over the start of the staging area. */
  function Painted(area: seq<u8>, s: seq<u8>): seq<u8>
    requires |area| == MAX_IMG
  {
    if GoodHeader(s) then
      var m := Min(Le32(s[4..]), |s| - 12);
      s[12..12 + m] + area[m..]
    else area
  }

  /** A connection's bytes from state l on. */
  function Connected(l: Loader, s: seq<u8>): Loader { History(l.(rx := Accepted(l.rx)), BytesOf(s)) }

  lemma {:induction false} ConnectedIs(l: Loader, s: seq<u8>)
    requires |l.area| == MAX_IMG
    ensures Connected(l, s) == Loader(Outcome(l.rx, s), Painted(l.area, s))
    decreases |s|
  {
    hide Le32, Reply, Checksum, Feed, Feed1, Apply;
    var start := l.(rx := Accepted(l.rx));
    BytesFeed(start, s);
    FeedOutcome(l.rx, s);
    if s == [] {
      HistoryNone(start, BytesOf(s));
    } else {
      var n := |s| - 1;
      assert BytesOf(s)[..n] == BytesOf(s[..n]);
      ConnectedIs(l, s[..n]);
      FeedOutcome(l.rx, s[..n]);
      PaintedNext(l, s);
    }
  }

  lemma PaintedNext(l: Loader, s: seq<u8>)
    requires |l.area| == MAX_IMG && s != []
    ensures var n := |s| - 1;
      Apply(Loader(Outcome(l.rx, s[..n]), Painted(l.area, s[..n])), Byte(s[n])).area == Painted(l.area, s)
  {
    hide Reply, Checksum, Feed1, Le32;
    var n := |s| - 1;
    if n < 12 {
      assert [] + l.area[0..] == l.area;
    } else if GoodHeader(s) {
      PaintedImage(l, s);
    } else {
      SamePrefix(s, n);
    }
  }

  lemma PaintedImage(l: Loader, s: seq<u8>)
    requires |l.area| == MAX_IMG && |s| > 12 && GoodHeader(s)
    ensures var n := |s| - 1;
      Apply(Loader(Outcome(l.rx, s[..n]), Painted(l.area, s[..n])), Byte(s[n])).area == Painted(l.area, s)
  {
    hide Reply, Checksum, Feed1, Le32;
    var n, k := |s| - 1, Le32(s[4..]);
    SamePrefix(s, n);
    assert s[..n][12..] == s[12..n];
    if n - 12 < k {
      Overwrite(s[12..n], s[n], l.area);
      assert s[12..n] + [s[n]] == s[12..n + 1];
    } else {
      assert s[..n][12..12 + k] == s[12..12 + k];
    }
  }

  lemma Overwrite(x: seq<u8>, b: u8, area: seq<u8>)
    requires |x| < |area|
    ensures (x + area[|x|..])[|x| := b] == x + [b] + area[|x| + 1..]
  {
  }

  lemma SamePrefix(s: seq<u8>, n: nat)
    requires 12 <= n <= |s|
    ensures Le32(s[..n]) == Le32(s) && Le32(s[..n][4..]) == Le32(s[4..]) && Le32(s[..n][8..]) == Le32(s[8..])
    ensures s[..n][..12] == s[..12]
  {
  }

  /** From a state that ignores bytes, connection by connection. */
  function After(l: Loader, ts: seq<seq<u8>>): Loader
    requires |ts| >= 1
    decreases |ts|
  {
    if |ts| == 1 then l else Connected(After(l, ts[..|ts| - 1]), ts[|ts| - 1])
  }

  lemma AfterConnect(l: Loader, ts: seq<seq<u8>>)
    requires |ts| >= 1
    ensures After(l, ts + [[]]) == Apply(After(l, ts), Connect)
  {
    var us := ts + [[]];
    assert us[..|us| - 1] == ts;
    HistoryNone(Apply(After(l, ts), Connect), BytesOf([]));
  }

  lemma AfterByte(l: Loader, ts: seq<seq<u8>>, b: u8)
    requires |ts| > 1
    ensures var k := |ts| - 1; After(l, ts[k := ts[k] + [b]]) == Apply(After(l, ts), Byte(b))
  {
    hide Apply;
    var k := |ts| - 1;
    var us := ts[k := ts[k] + [b]];
    assert us[..k] == ts[..k];
    var p := After(l, ts[..k]);
    assert BytesOf(ts[k] + [b]) == BytesOf(ts[k]) + [Byte(b)];
    HistoryLast(p.(rx := Accepted(p.rx)), BytesOf(ts[k]), Byte(b));
  }

  lemma {:induction false} HistoryIsAfter(l: Loader, es: seq<Event>)
    requires l.rx.phase == Done
    ensures History(l, es) == After(l, Streams(es))
    decreases |es|
  {
    hide Connected;
    if es != [] {
      var n := |es| - 1;
      var ts := Streams(es[..n]);
      HistoryIsAfter(l, es[..n]);
      match es[n] {
        case Connect =>
          AfterConnect(l, ts);
        case Byte(b) =>
          if |ts| > 1 {
            AfterByte(l, ts, b);
          }
      }
    }
  }

  // ---- what is launched

  /** An image has just been acknowledged: it is staged whole. */
  ghost predicate Acknowledged(l: Loader) {
    l.rx.phase == Done && l.rx.ready && 0 < |l.rx.staged| == l.rx.len
  }

  /** The launch would run this image at this entry. */
  predicate Launches(l: Loader, entry: u32, image: seq<u8>) {
    && l.rx.entry == entry && l.rx.len == |image| <= |l.area|
    && l.area[..|image|] == image
  }

  /** The stream carries a whole image. */
  predicate Completes(s: seq<u8>) { GoodHeader(s) && |s| >= 12 + Le32(s[4..]) }

  /** No connection after the first stream carries a whole image. */
  predicate Incomplete(ts: seq<seq<u8>>) { forall k :: 1 <= k < |ts| ==> !Completes(ts[k]) }

  /** The stream announces this length and entry again. */
  predicate Repeats(s: seq<u8>, entry: u32, n: nat) {
    |s| >= 12 && Le32(s) == MAGIC && Le32(s[4..]) == n && Le32(s[8..]) == entry
  }

  /** Image byte p is in this stream. */
  predicate Carries(s: seq<u8>, p: nat) { GoodHeader(s) && p < Le32(s[4..]) && 12 + p < |s| }

  /** Byte p of the staging area: that of the last stream that carries it, else b. */
  function LastByte(ts: seq<seq<u8>>, p: nat, b: u8): u8 {
    if ts == [] then b
    else
      var s := ts[|ts| - 1];
      if Carries(s, p) then s[12 + p] else LastByte(ts[..|ts| - 1], p, b)
  }

  /** Nothing was connected since, or the last connection repeats length and entry and
      every image byte that was sent again was sent last with its own value. */
  predicate Harmless(ts: seq<seq<u8>>, entry: u32, image: seq<u8>) {
    ts == [] || (Repeats(ts[|ts| - 1], entry, |image|) && forall p :: 0 <= p < |image| ==> LastByte(ts, p, image[p]) == image[p])
  }

  lemma PaintedByte(area: seq<u8>, s: seq<u8>, p: nat)
    requires |area| == MAX_IMG && p < MAX_IMG
    ensures |Painted(area, s)| == MAX_IMG
    ensures Painted(area, s)[p] == if Carries(s, p) then s[12 + p] else area[p]
  {
    hide Le32;
  }

  lemma {:induction false} AreaAfter(l: Loader, ts: seq<seq<u8>>, p: nat)
    requires |l.area| == MAX_IMG && |ts| >= 1 && p < MAX_IMG
    ensures var r := After(l, ts); |r.area| == MAX_IMG && r.area[p] == LastByte(ts[1..], p, l.area[p])
    decreases |ts|
  {
    hide Connected, Painted, Carries;
    if |ts| > 1 {
      var n := |ts| - 1;
      AreaAfter(l, ts[..n], p);
      var q := After(l, ts[..n]);
      ConnectedIs(q, ts[n]);
      PaintedByte(q.area, ts[n], p);
      assert ts[1..][..n - 1] == ts[..n][1..] && ts[1..][n - 1] == ts[n];
    }
  }

  lemma {:induction false} StillReady(l: Loader, ts: seq<seq<u8>>)
    requires |l.area| == MAX_IMG && l.rx.ready && |ts| >= 1
    ensures After(l, ts).rx.ready
    decreases |ts|
  {
    hide Connected;
    if |ts| > 1 {
      var n := |ts| - 1;
      StillReady(l, ts[..n]);
      AreaAfter(l, ts[..n], 0);
      ConnectedIs(After(l, ts[..n]), ts[n]);
    }
  }

  /** The exact condition.  After an acknowledged image, whatever connections follow that
      carry no whole image, the loader still launches that image if and only if they are
      harmless. */
  lemma LaunchExact(l: Loader, es: seq<Event>)
    requires Consistent(l) && Acknowledged(l) && Incomplete(Streams(es))
    ensures var r := History(l, es);
      && r.rx.ready
      && (Launches(r, l.rx.entry, l.rx.staged) <==> Harmless(Streams(es)[1..], l.rx.entry, l.rx.staged))
  {
    hide Le32, Streams, Connected, LastByte, Checksum, Reply, Painted;
    var ts, r, image := Streams(es), History(l, es), l.rx.staged;
    HistoryIsAfter(l, es);
    StillReady(l, ts);
    var n := |ts| - 1;
    AreaAfter(l, ts, 0);
    assert r.area[..|image|] == image <==> forall p :: 0 <= p < |image| ==> LastByte(ts[1..], p, image[p]) == image[p] by {
      SameImage(l, ts);
    }
    if n > 0 {
      AreaAfter(l, ts[..n], 0);
      ConnectedIs(After(l, ts[..n]), ts[n]);
      assert ts[1..][n - 1] == ts[n];
    }
  }

  lemma SameImage(l: Loader, ts: seq<seq<u8>>)
    requires Consistent(l) && Acknowledged(l) && |ts| >= 1
    ensures var r, image := After(l, ts), l.rx.staged;
      |r.area| == MAX_IMG && (r.area[..|image|] == image
      <==> forall p :: 0 <= p < |image| ==> LastByte(ts[1..], p, image[p]) == image[p])
  {
    hide After, LastByte;
    var r, image := After(l, ts), l.rx.staged;
    AreaAfter(l, ts, 0);
    forall p | 0 <= p < |image|
      ensures r.area[p] == LastByte(ts[1..], p, image[p])
    {
      AreaAfter(l, ts, p);
    }
  }

  /** The event finishes an image. */
  predicate Finishes(l: Loader, e: Event) {
    e.Byte? && l.rx.phase == Image && |l.rx.staged| + 1 == l.rx.len
  }

  /** A loader that has just started. */
  predicate Started(l: Loader) { l.rx == FRESH && |l.area| == MAX_IMG }

  /** In every history: an image is ready exactly when some prefix ends with its
      acknowledgement; the longest such prefix has k events, and no connection after it
      carries a whole image. */
  lemma {:induction false} LastImage(l: Loader, es: seq<Event>) returns (k: nat)
    requires Started(l)
    ensures k <= |es|
    ensures History(l, es).rx.ready ==> Acknowledged(History(l, es[..k])) && Incomplete(Streams(es[k..]))
    ensures !History(l, es).rx.ready ==> forall j :: 0 <= j <= |es| ==> !History(l, es[..j]).rx.ready
    decreases |es|
  {
    hide Apply, Streams, Le32, Checksum, Reply;
    if es == [] {
      k := 0;
      assert es[..0] == es;
    } else {
      var n := |es| - 1;
      var e, before := es[n], History(l, es[..n]);
      OffsetBound(l, es[..n]);
      assert es[..|es|] == es;
      ApplyReady(before, e);
      if Finishes(before, e) {
        k := |es|;
        assert es[k..] == [];
        NoStreams();
      } else {
        k := LastImage(l, es[..n]);
        assert es[..n][..k] == es[..k];
        if before.rx.ready {
          assert es[k..] == es[..n][k..] + [e];
          StillIncomplete(History(l, es[..k]), es[..n][k..], e, before) by {
            assert es[..n] == es[..k] + es[..n][k..];
            HistoryAdd(l, es[..k], es[..n][k..]);
            OffsetBound(l, es[..k]);
          }
        } else {
          forall j | 0 <= j <= |es|
            ensures !History(l, es[..j]).rx.ready
          {
            if j <= n {
              assert es[..n][..j] == es[..j];
            }
          }
        }
      }
    }
  }

  lemma NoStreams()
    ensures Incomplete(Streams([]))
  {
  }

  lemma ApplyReady(l: Loader, e: Event)
    requires Consistent(l)
    ensures Apply(l, e).rx.ready == (l.rx.ready || Finishes(l, e))
    ensures Finishes(l, e) ==> Acknowledged(Apply(l, e))
  {
    hide Le32, Checksum, Reply;
  }

  /** An event that finishes no image completes no stream. */
  lemma StillIncomplete(l: Loader, es: seq<Event>, e: Event, before: Loader)
    requires Consistent(l) && Acknowledged(l) && Incomplete(Streams(es)) && before == History(l, es) && !Finishes(before, e)
    ensures Incomplete(Streams(es + [e]))
  {
    hide Le32, Checksum, Reply, Apply, Connected, Painted, After;
    var ts := Streams(es);
    var n := |ts| - 1;
    assert (es + [e])[..|es|] == es;
    HistoryIsAfter(l, es);
    match e {
      case Connect =>
      case Byte(b) =>
        if n > 0 {
          AreaAfter(l, ts[..n], 0);
          LastConnection(l, ts);
          NotCompleted(After(l, ts[..n]).rx, ts[n], b);
        }
    }
  }

  lemma LastConnection(l: Loader, ts: seq<seq<u8>>)
    requires |l.area| == MAX_IMG && |ts| > 1
    ensures After(l, ts).rx == Outcome(After(l, ts[..|ts| - 1]).rx, ts[|ts| - 1])
  {
    hide Connected, Painted, Outcome;
    AreaAfter(l, ts[..|ts| - 1], 0);
    ConnectedIs(After(l, ts[..|ts| - 1]), ts[|ts| - 1]);
  }

  lemma NotCompleted(q: Rx, t: seq<u8>, b: u8)
    requires !Completes(t)
    requires var r := Outcome(q, t); !(r.phase == Image && |r.staged| + 1 == r.len)
    ensures !Completes(t + [b])
  {
    hide Le32, Checksum, Reply;
    if |t| >= 12 {
      assert (t + [b])[..|t|] == t;
      SamePrefix(t + [b], |t|);
    }
  }

  /** For every history from the start: what a launch would run, compared with the image
      acknowledged last. */
  lemma LaunchIsLastImage(l: Loader, es: seq<Event>) returns (k: nat)
    requires Started(l) && History(l, es).rx.ready
    ensures k <= |es| && Acknowledged(History(l, es[..k])) && Incomplete(Streams(es[k..]))
    ensures var a := History(l, es[..k]).rx;
      Launches(History(l, es), a.entry, a.staged) <==> Harmless(Streams(es[k..])[1..], a.entry, a.staged)
  {
    hide Streams, Harmless, Launches, Incomplete, Acknowledged, History;
    k := LastImage(l, es);
    OffsetBound(l, es[..k]) by {
      assert Consistent(l);
    }
    LaunchExact(History(l, es[..k]), es[k..]);
    assert es == es[..k] + es[k..];
    HistoryAdd(l, es[..k], es[k..]);
  }

  /** With no connection after the acknowledgement the launch is right. */
  lemma {:induction false} QuietLaunch(l: Loader, es: seq<Event>)
    requires Consistent(l) && Acknowledged(l) && forall k :: 0 <= k < |es| ==> es[k].Byte?
    ensures |Streams(es)| == 1 && Launches(History(l, es), l.rx.entry, l.rx.staged)
    decreases |es|
  {
    hide Le32, Checksum, Reply, History;
    OneStream(es);
    LaunchExact(l, es);
  }

  lemma {:induction false} OneStream(es: seq<Event>)
    requires forall k :: 0 <= k < |es| ==> es[k].Byte?
    ensures |Streams(es)| == 1
    decreases |es|
  {
    if es != [] {
      OneStream(es[..|es| - 1]);
    }
  }

  /** The length passed to the trampoline: rounded up to dwords in 32 bits. */
  function Rounded(len: u32): u32 { (len + 7) % U32 / 8 * 8 }

  /** A header that announces n bytes and entry 0. */
  function HeaderFor(n: u32): seq<u8> { Bytes32(MAGIC) + Bytes32(n) + Bytes32(0) }

  /** Ready images that are lost: a connection that only announces an empty or too long
      image is refused, but leaves its length behind.  The greatest length is rounded up
      to 0, the greatest multiple of 8 to itself. */
  lemma LostImage(l: Loader, n: u32)
    requires Consistent(l) && Acknowledged(l) && (n == 0 || n >= MAX_IMG)
    ensures var es := [Connect] + BytesOf(HeaderFor(n)); var r := History(l, es);
      && r.rx.ready && r.rx.phase == Done && r.rx.len == n && Streams(es)[1..] == [HeaderFor(n)]
      && !Launches(r, l.rx.entry, l.rx.staged)
    ensures Rounded(0xFFFF_FFFF) == 0 && Rounded(0xFFFF_FFF8) == 0xFFFF_FFF8
  {
    hide Checksum, Reply, Feed1, Feed, HeaderFor, Outcome, Painted, Streams;
    var h := HeaderFor(n);
    var es := [Connect] + BytesOf(h);
    var c := Apply(l, Connect);
    HistoryAdd(l, [Connect], BytesOf(h));
    HistoryLast(l, [], Connect);
    assert [] + [Connect] == [Connect];
    HistoryNone(l, []);
    ConnectedIs(l, h);
    Refused(l.rx, n);
    StreamOf(h);
  }

  lemma Refused(q: Rx, n: u32)
    requires n == 0 || n >= MAX_IMG
    ensures var r := Outcome(q, HeaderFor(n)); r.phase == Done && r.len == n && r.ready == q.ready
  {
    hide Checksum, Reply, HeaderFor, Le32;
    HeaderFields(n);
  }

  lemma HeaderFields(n: u32)
    ensures var h := HeaderFor(n); |h| == 12 && Le32(h) == MAGIC && Le32(h[4..]) == n && Le32(h[8..]) == 0
  {
    hide Le32, Bytes32;
    var h := HeaderFor(n);
    FourBytes(h, Bytes32(MAGIC));
    FourBytes(h[4..], Bytes32(n));
    FourBytes(h[8..], Bytes32(0));
    Bytes32RoundTrip(MAGIC);
    Bytes32RoundTrip(n);
    Bytes32RoundTrip(0);
  }

  lemma FourBytes(s: seq<u8>, t: seq<u8>)
    requires |s| >= 4 && |t| == 4 && s[..4] == t
    ensures Le32(s) == Le32(t)
  {
    assert forall k :: 0 <= k < 4 ==> s[k] == s[..4][k];
  }

  /** A connection that announces the same image again and breaks off: what would be
      launched is torn, its first bytes new and the others old. */
  lemma TornImage(l: Loader, s: seq<u8>)
    requires Consistent(l) && Acknowledged(l) && Repeats(s, l.rx.entry, |l.rx.staged|) && 12 < |s| < 12 + |l.rx.staged|
    ensures var r, n := History(l, [Connect] + BytesOf(s)), |s| - 12;
      && r.rx.ready && r.rx.entry == l.rx.entry && r.rx.len == |l.rx.staged| && |r.area| == MAX_IMG
      && r.area[..|l.rx.staged|] == s[12..] + l.rx.staged[n..]
      && (Launches(r, l.rx.entry, l.rx.staged) <==> s[12..] == l.rx.staged[..n])
  {
    hide Checksum, Reply, Feed1, Feed, Le32, Outcome, Painted;
    var image, n := l.rx.staged, |s| - 12;
    HistoryAdd(l, [Connect], BytesOf(s));
    HistoryLast(l, [], Connect);
    assert [] + [Connect] == [Connect];
    HistoryNone(l, []);
    ConnectedIs(l, s);
    Broken(l, s);
    SplicedIs(l.area, s[12..], image);
  }

  /** A good header with too few bytes behind it. */
  lemma Broken(l: Loader, s: seq<u8>)
    requires |l.area| == MAX_IMG && GoodHeader(s) && |s| < 12 + Le32(s[4..])
    ensures var r := Outcome(l.rx, s); r.ready == l.rx.ready && r.len == Le32(s[4..]) && r.entry == Le32(s[8..])
    ensures Painted(l.area, s) == s[12..] + l.area[|s| - 12..]
  {
    hide Checksum, Reply, Le32;
  }

  lemma SplicedIs(area: seq<u8>, x: seq<u8>, image: seq<u8>)
    requires |x| <= |image| <= |area| && area[..|image|] == image
    ensures var r := x + area[|x|..]; |r| == |area| && r[..|image|] == x + image[|x|..]
    ensures x + image[|x|..] == image <==> x == image[..|x|]
  {
    assert image == image[..|x|] + image[|x|..];
    if x + image[|x|..] == image {
      assert x == (x + image[|x|..])[..|x|];
    }
  }

  lemma {:induction false} StreamOf(s: seq<u8>)
    ensures Streams([Connect] + BytesOf(s)) == [[], s]
    decreases |s|
  {
    var es := [Connect] + BytesOf(s);
    if s == [] {
      assert es == [Connect] && es[..0] == [];
    } else {
      var n := |s| - 1;
      assert es[..n + 1] == [Connect] + BytesOf(s[..n]) && es[n + 1] == Byte(s[n]);
      StreamOf(s[..n]);
      assert s == s[..n] + [s[n]];
    }
  }

  // ---- bytes while the loader is in one phase

  lemma NoBytes(l: Loader)
    ensures History(l, BytesOf([])) == l
  {
  }

  lemma MoreBytes(l: Loader, s: seq<u8>, t: seq<u8>)
    ensures History(l, BytesOf(s + t)) == History(History(l, BytesOf(s)), BytesOf(t))
  {
    hide History;
    assert BytesOf(s + t) == BytesOf(s) + BytesOf(t);
    HistoryAdd(l, BytesOf(s), BytesOf(t));
  }

  lemma {:induction false} IgnoredBytes(l: Loader, s: seq<u8>)
    requires l.rx.phase == Done
    ensures History(l, BytesOf(s)) == l
    decreases |s|
  {
    if s != [] {
      var n := |s| - 1;
      assert BytesOf(s)[..n] == BytesOf(s[..n]);
      IgnoredBytes(l, s[..n]);
    }
  }

  /** Header bytes leave the staging area alone. */
  lemma {:induction false} HeaderArea(l: Loader, s: seq<u8>)
    requires l.rx.phase == Header && |l.rx.hdr| + |s| <= 12 && |l.rx.hdr| < 12
    ensures History(l, BytesOf(s)).area == l.area
    decreases |s|
  {
    hide HeaderDone;
    if s != [] {
      var n := |s| - 1;
      assert BytesOf(s)[..n] == BytesOf(s[..n]);
      HeaderArea(l, s[..n]);
      BytesFeed(l, s[..n]);
      FeedHeader(l.rx, s[..n]);
    }
  }

  /** Image bytes go behind those already staged. */
  lemma {:induction false} ImageArea(l: Loader, s: seq<u8>)
    requires Consistent(l) && l.rx.phase == Image && |l.rx.staged| + |s| <= l.rx.len
    ensures var k := |l.rx.staged|; History(l, BytesOf(s)).area == l.area[..k] + s + l.area[k + |s|..]
    decreases |s|
  {
    hide ImageDone, Feed, Feed1;
    var k := |l.rx.staged|;
    if s == [] {
      NoBytes(l);
      assert l.area == l.area[..k] + [] + l.area[k..];
    } else {
      var n := |s| - 1;
      assert BytesOf(s)[..n] == BytesOf(s[..n]);
      ImageArea(l, s[..n]);
      BytesFeed(l, s[..n]);
      FeedImage(l.rx, s[..n]);
      InsertOne(l.area, k, s[..n], s[n]);
      assert s == s[..n] + [s[n]];
    }
  }

  lemma InsertOne(area: seq<u8>, k: nat, x: seq<u8>, b: u8)
    requires k + |x| < |area|
    ensures (area[..k] + x + area[k + |x|..])[k + |x| := b] == area[..k] + (x + [b]) + area[k + |x| + 1..]
  {
  }

  /** Image bytes, all they do. */
  lemma ImageBytes(l: Loader, s: seq<u8>)
    requires Consistent(l) && l.rx.phase == Image && |l.rx.staged| + |s| <= l.rx.len && |l.rx.staged| < l.rx.len
    ensures var k := |l.rx.staged|; var q := l.rx.(staged := l.rx.staged + s);
      && Feed(l.rx, s) == (if |q.staged| == q.len then ImageDone(q) else q)
      && History(l, BytesOf(s)) == Loader(Feed(l.rx, s), l.area[..k] + s + l.area[k + |s|..])
  {
    hide ImageDone, Feed, History, BytesOf;
    ImageArea(l, s);
    BytesFeed(l, s);
    FeedImage(l.rx, s);
  }

  /** Header bytes, all they do. */
  lemma HeaderBytes(l: Loader, s: seq<u8>)
    requires l.rx.phase == Header && |l.rx.hdr| + |s| <= 12 && |l.rx.hdr| < 12
    ensures var q := l.rx.(hdr := l.rx.hdr + s);
      && Feed(l.rx, s) == (if |q.hdr| == 12 then HeaderDone(q) else q) && Feed(l.rx, s).ready == l.rx.ready
      && History(l, BytesOf(s)) == Loader(Feed(l.rx, s), l.area)
  {
    hide HeaderDone, Feed, History, BytesOf;
    HeaderArea(l, s);
    BytesFeed(l, s);
    FeedHeader(l.rx, s);
    ValidReady(l.rx, s);
  }

  // ---- the receiver itself

  /** The loader's receive state: a 12-byte header buffer and the staging area, both
      filled in place. */
  class Receiver {
    var phase: Phase
    const hdr: array<u8>
    var have: nat
    var len: u32
    var entry: u32
    const stage: array<u8>
    var offset: nat
    var replies: seq<u8>
    var ready: bool

    ghost predicate Sound()
      reads this, hdr, stage
    {
      && hdr.Length == 12 && stage.Length == MAX_IMG && hdr != stage
      && have <= 12 && offset < MAX_IMG && Valid(Value())
    }

    ghost function Value(): Rx
      reads this, hdr, stage
      requires hdr.Length == 12 && stage.Length == MAX_IMG && have <= 12 && offset <= MAX_IMG
    {
      Rx(phase, hdr[..have], len, entry, stage[..offset], replies, ready)
    }

    /** With the staging area, which outlives connections. */
    ghost function Whole(): Loader
      reads this, hdr, stage
      requires hdr.Length == 12 && stage.Length == MAX_IMG && have <= 12 && offset <= MAX_IMG
    {
      Loader(Value(), stage[..])
    }

    constructor ()
      ensures Sound() && Started(Whole()) && fresh(hdr) && fresh(stage)
    {
      phase, have, len, entry, offset, replies, ready := Header, 0, 0, 0, 0, [], false;
      hdr := new u8[12];
      stage := new u8[MAX_IMG];
    }

    /** Sum of the little-endian words of the staged image. */
    method ImageChecksum(n: u32) returns (sum: u32)
      requires n <= stage.Length
      ensures sum == Checksum(stage[..n])
    {
      hide Le32, WordSum;
      ghost var s := stage[..n];
      sum := 0;
      var i := 0;
      NextSum(s, 0);
      while i + 4 <= n
        invariant 0 <= i <= n && i % 4 == 0 && sum == WordSum(s, i / 4) && s == stage[..n]
      {
        NextSum(s, i / 4);
        assert s[i..i + 4] == stage[i..i + 4];
        sum := (sum + Le32(stage[i..i + 4])) % U32;
        i := i + 4;
      }
    }

    method SendAck(status: u32, checksum: u32)
      modifies this`replies
      ensures replies == old(replies) + Reply(status, checksum)
    {
      replies := replies + Reply(status, checksum);
    }

    /** The header is complete: check it, and start on the image or refuse. */
    method JudgeHeader()
      requires hdr.Length == 12 && stage.Length == MAX_IMG && hdr != stage && phase == Header && have == 12 && offset <= MAX_IMG
      modifies this`phase, this`len, this`entry, this`offset, this`replies
      ensures offset <= MAX_IMG && (offset == 0 || offset == old(offset)) && Value() == HeaderDone(old(Value()))
    {
      hide Le32, Reply;
      assert hdr[..] == hdr[..12];
      if Le32(hdr[..]) != MAGIC {
        SendAck(1, 0);
        phase := Done;
      } else {
        assert hdr[4..] == hdr[..12][4..] && hdr[8..] == hdr[..12][8..];
        len, entry, offset := Le32(hdr[4..]), Le32(hdr[8..]), 0;
        if len == 0 || len >= MAX_IMG {
          SendAck(2, 0);
          phase := Done;
        } else {
          phase := Image;
        }
      }
    }

    /** Takes what the header still needs from src[at..]. */
    method TakeHeader(src: seq<u8>, at: nat) returns (next: nat)
      requires Sound() && phase == Header && at < |src|
      modifies this, hdr
      ensures Sound() && at < next <= |src| && ready == old(ready) && stage[..] == old(stage[..])
      ensures Whole() == History(old(Whole()), BytesOf(src[at..next]))
    {
      hide Le32, Feed, HeaderDone, Feed1, History, BytesOf;
      ghost var l := Whole();
      var take := Min(|src| - at, 12 - have);
      next := at + take;
      ghost var part := src[at..next];
      forall k | 0 <= k < take {
        hdr[have + k] := src[at + k];
      }
      have := have + take;
      assert hdr[..have] == l.rx.hdr + part;
      HeaderBytes(l, part);
      FeedValid(l.rx, part);
      if have == 12 {
        JudgeHeader();
      }
    }

    /** The image is complete: acknowledge it. */
    method AckImage()
      requires hdr.Length == 12 && stage.Length == MAX_IMG && hdr != stage && have <= 12 && offset == len < MAX_IMG && phase == Image
      modifies this`phase, this`ready, this`replies
      ensures Value() == ImageDone(old(Value()))
    {
      hide Checksum, Reply;
      var sum := ImageChecksum(len);
      SendAck(0, sum);
      phase := Done;
      ready := true;
    }

    /** memcpy behind what is staged. */
    method CopyIn(src: seq<u8>, at: nat, take: nat)
      requires offset + take <= stage.Length && at + take <= |src|
      modifies stage
      ensures stage[..] == old(stage[..offset]) + src[at..at + take] + old(stage[offset + take..])
    {
      forall k | 0 <= k < take {
        stage[offset + k] := src[at + k];
      }
    }

    /** Takes what the image still needs from src[at..]. */
    method TakeImage(src: seq<u8>, at: nat) returns (next: nat)
      requires Sound() && phase == Image && at < |src|
      modifies this, stage
      ensures Sound() && at < next <= |src| && hdr[..] == old(hdr[..])
      ensures Whole() == History(old(Whole()), BytesOf(src[at..next]))
    {
      hide Le32, Feed, Feed1, History, ImageDone, BytesOf;
      ghost var l, area := Whole(), stage[..];
      assert stage[..offset] == area[..offset];
      var take := Min(|src| - at, len - offset);
      next := at + take;
      ghost var part := src[at..next];
      CopyIn(src, at, take);
      offset := offset + take;
      assert stage[..] == area[..|l.rx.staged|] + part + area[|l.rx.staged| + take..];
      assert stage[..offset] == l.rx.staged + part;
      ImageBytes(l, part);
      FeedValid(l.rx, part);
      if offset == len {
        AckImage();
      }
    }

    /** Advances the receive state by a whole segment. */
    method Consume(src: seq<u8>)
      requires Sound()
      modifies this, hdr, stage
      ensures Sound() && Whole() == History(old(Whole()), BytesOf(src))
    {
      hide Feed, Feed1, Valid, History, BytesOf;
      var at := 0;
      assert src[..0] == [];
      NoBytes(Whole());
      while at < |src| && phase != Done
        invariant at <= |src| && Sound() && Whole() == History(old(Whole()), BytesOf(src[..at]))
        decreases |src| - at
      {
        var next;
        if phase == Header {
          next := TakeHeader(src, at);
        } else {
          next := TakeImage(src, at);
        }
        assert src[..next] == src[..at] + src[at..next];
        MoreBytes(old(Whole()), src[..at], src[at..next]);
        at := next;
      }
      if phase == Done {
        IgnoredBytes(Whole(), src[at..]);
      } else {
        assert src[at..] == [];
        NoBytes(Whole());
      }
      assert src == src[..at] + src[at..];
      MoreBytes(old(Whole()), src[..at], src[at..]);
    }

    /** One TCP delivery: a chain of buffers. */
    method Receive(chain: seq<seq<u8>>)
      requires Sound()
      modifies this, hdr, stage
      ensures Sound() && Whole() == History(old(Whole()), BytesOf(Joined(chain)))
      ensures Value() == Feed(old(Value()), Joined(chain))
    {
      hide Feed, Feed1, Valid, History, BytesOf;
      NoBytes(Whole());
      for i := 0 to |chain|
        invariant Sound() && Whole() == History(old(Whole()), BytesOf(Joined(chain[..i])))
      {
        Consume(chain[i]);
        assert chain[..i + 1][..i] == chain[..i];
        MoreBytes(old(Whole()), Joined(chain[..i]), chain[i]);
      }
      assert chain[..|chain|] == chain;
      BytesFeed(old(Whole()), Joined(chain));
    }

    /** A new connection: the receive state starts over, the ready flag stays. */
    method Accept()
      requires Sound()
      modifies this
      ensures Sound() && Whole() == Apply(old(Whole()), Connect)
    {
      phase, have, offset, len := Header, 0, 0, 0;
    }
  }

  function Joined(chain: seq<seq<u8>>): seq<u8> {
    if chain == [] then [] else Joined(chain[..|chain| - 1]) + chain[|chain| - 1]
  }

  /** Two ways of cutting the same stream end in the same state. */
  lemma CutAnywhere(r: Rx, a: seq<seq<u8>>, b: seq<seq<u8>>)
    requires Joined(a) == Joined(b)
    ensures FeedAll(r, a) == FeedAll(r, b) == Feed(r, Joined(a))
  {
    FeedAllJoined(r, a);
    FeedAllJoined(r, b);
  }

  /** Segment by segment. */
  function FeedAll(r: Rx, chain: seq<seq<u8>>): Rx {
    if chain == [] then r else Feed(FeedAll(r, chain[..|chain| - 1]), chain[|chain| - 1])
  }

  lemma {:induction false} FeedAllJoined(r: Rx, chain: seq<seq<u8>>)
    ensures FeedAll(r, chain) == Feed(r, Joined(chain))
    decreases |chain|
  {
    hide Feed, Feed1;
    if chain == [] {
      FeedNothing(r, []);
    } else {
      var n := |chain| - 1;
      FeedAllJoined(r, chain[..n]);
      FeedConcat(r, Joined(chain[..n]), chain[n]);
    }
  }
}
