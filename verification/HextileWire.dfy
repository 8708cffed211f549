/** What a server writes: tiles, rectangles and colour maps as bytes, with the weights of
    section 7.7.4 of RFC 6143, and that the viewer shows what was written. */
module HextileWire {
  import opened Bits
  import opened Screen
  import opened Hextile
  import opened Viewer

  // ---- one subrectangle

  /** Colour if present, then x and y in one byte, then w - 1 and h - 1. */
  function Record(q: Sub, coloured: bool): seq<u8>
    requires InTile(q)
  {
    (if coloured then q.pix else []) + [16 * q.x + q.y, 16 * (q.w - 1) + (q.h - 1)]
  }

  predicate InTile(q: Sub) { q.x < 16 && q.y < 16 && 1 <= q.w <= 16 && 1 <= q.h <= 16 }

  lemma RecordParses(q: Sub, coloured: bool, bpp: nat, fg: seq<u8>)
    requires InTile(q) && |q.pix| == bpp
    ensures |Record(q, coloured)| == SubSize(coloured, bpp)
    ensures SubAt(Record(q, coloured), coloured, bpp, fg) == Sub(q.x, q.y, q.w, q.h, if coloured then q.pix else fg)
  {
    Nibbles(q.x, q.y);
    Nibbles(q.w - 1, q.h - 1);
    var r := Record(q, coloured);
    assert coloured ==> r[..bpp] == q.pix;
  }

  lemma Nibbles(a: nat, b: nat)
    requires a < 16 && b < 16
    ensures (16 * a + b) / 16 == a && (16 * a + b) % 16 == b
  {
  }

  function Records(subs: seq<Sub>, coloured: bool): seq<u8>
    requires forall k :: 0 <= k < |subs| ==> InTile(subs[k])
  {
    if subs == [] then [] else Records(subs[..|subs| - 1], coloured) + Record(subs[|subs| - 1], coloured)
  }

  /** The subrectangles as they are drawn: uncoloured ones in the foreground. */
  function Drawn(subs: seq<Sub>, coloured: bool, fg: seq<u8>): (r: seq<Sub>)
    ensures |r| == |subs|
  {
    seq(|subs|, k requires 0 <= k < |subs| => if coloured then subs[k] else subs[k].(pix := fg))
  }

  lemma DrawnLast(subs: seq<Sub>, coloured: bool, fg: seq<u8>)
    requires subs != []
    ensures var n := |subs| - 1;
      Drawn(subs, coloured, fg) == Drawn(subs[..n], coloured, fg) + [if coloured then subs[n] else subs[n].(pix := fg)]
  {
  }

  lemma LastRecord(head: seq<u8>, r: seq<u8>, tail: seq<u8>)
    ensures var data := (head + r) + tail;
      data == head + (r + tail) && |data| >= |head| + |r| && data[|head|..|head| + |r|] == r
  {
  }

  lemma {:induction false} RecordsParse(subs: seq<Sub>, coloured: bool, bpp: nat, fg: seq<u8>, tail: seq<u8>)
    requires forall k :: 0 <= k < |subs| ==> InTile(subs[k]) && |subs[k].pix| == bpp
    ensures |Records(subs, coloured)| == Times(|subs|, SubSize(coloured, bpp))
    ensures SubsOf(Records(subs, coloured) + tail, |subs|, coloured, bpp, fg) == Drawn(subs, coloured, fg)
    decreases |subs|
  {
    hide Record, SubAt, SubSize, Drawn;
    if subs == [] {
      assert Drawn(subs, coloured, fg) == [];
    } else {
      var n := |subs| - 1;
      var init, q := subs[..n], subs[n];
      var r := Record(q, coloured);
      RecordParses(q, coloured, bpp, fg);
      RecordsParse(init, coloured, bpp, fg, r + tail);
      LastRecord(Records(init, coloured), r, tail);
      DrawnLast(subs, coloured, fg);
    }
  }

  // ---- one tile

  /** What a server may write for a tile: raw pixels, or optional colours and
      subrectangles, which carry their own colours or not. */
  datatype Written =
    | WRaw(data: seq<u8>)
    | WTile(bg: Option<seq<u8>>, fg: Option<seq<u8>>, subs: Option<(seq<Sub>, bool)>)

  /** The written form fits tiles of so many pixels of so many bytes. */
  ghost predicate Proper(t: Written, bpp: nat, area: nat)
    requires Depth(bpp)
  {
    match t
    case WRaw(data) => |data| == Bytes(area, bpp)
    case WTile(bg, fg, subs) =>
      && (bg.Some? ==> |bg.value| == bpp) && (fg.Some? ==> |fg.value| == bpp)
      && (subs.Some? ==> |subs.value.0| < 0x100 && SubsProper(subs.value.0, bpp))
  }

  ghost predicate SubsProper(subs: seq<Sub>, bpp: nat) {
    forall k :: 0 <= k < |subs| ==> InTile(subs[k]) && |subs[k].pix| == bpp
  }

  function Optional(pix: Option<seq<u8>>): seq<u8> { if pix.Some? then pix.value else [] }

  /** Raw is 1, background 2, foreground 4, subrectangles 8, coloured 16. */
  ghost function Bytestream(t: Written, bpp: nat, area: nat): seq<u8>
    requires Depth(bpp) && Proper(t, bpp, area)
  {
    match t
    case WRaw(data) => [1] + data
    case WTile(bg, fg, None) =>
      [(if bg.Some? then 2 else 0) + (if fg.Some? then 4 else 0)] + Optional(bg) + Optional(fg)
    case WTile(bg, fg, Some((subs, coloured))) =>
      [(if bg.Some? then 2 else 0) + (if fg.Some? then 4 else 0) + 8 + (if coloured then 16 else 0)]
      + Optional(bg) + Optional(fg) + [|subs|] + Records(subs, coloured)
  }

  /** Background and foreground after the tile: its own, or those handed down. */
  function Ground(t: Written, bg: seq<u8>): seq<u8> { if t.WTile? && t.bg.Some? then t.bg.value else bg }

  function Front(t: Written, fg: seq<u8>): seq<u8> { if t.WTile? && t.fg.Some? then t.fg.value else fg }

  /** The tile that was meant. */
  function Meant(t: Written, bg: seq<u8>, fg: seq<u8>): Tile {
    match t
    case WRaw(data) => Raw(data)
    case WTile(_, _, None) => Painted(Ground(t, bg), [])
    case WTile(_, _, Some((subs, coloured))) => Painted(Ground(t, bg), Drawn(subs, coloured, Front(t, fg)))
  }

  lemma Weights(b: bool, f: bool, s: bool, c: bool)
    ensures var x := (if b then 2 else 0) + (if f then 4 else 0) + (if s then 8 else 0) + (if c then 16 else 0);
      x < 0x100 && !Bit(x, RAW) && Bit(x, BG) == b && Bit(x, FG) == f && Bit(x, SUBS) == s && Bit(x, COLOURED) == c
  {
  }

  lemma RawParses(data: seq<u8>, bpp: nat, area: nat, bg: seq<u8>, fg: seq<u8>, tail: seq<u8>)
    requires Depth(bpp) && |data| == Bytes(area, bpp)
    ensures ParseTile([1] + data + tail, bpp, area, bg, fg) == Some(Parsed(Raw(data), bg, fg, 1 + |data|))
  {
    hide Bytes;
    var s := [1] + data + tail;
    assert Bit(1, RAW);
    assert s[1..1 + |data|] == data;
  }

  /** The bytes behind the first of a tile without subrectangles. */
  lemma PlainParses(bg: Option<seq<u8>>, fg: Option<seq<u8>>, bpp: nat, bg0: seq<u8>, fg0: seq<u8>, tail: seq<u8>, x: u8)
    requires Depth(bpp) && (bg.Some? ==> |bg.value| == bpp) && (fg.Some? ==> |fg.value| == bpp)
    requires Bit(x, BG) == bg.Some? && Bit(x, FG) == fg.Some? && !Bit(x, SUBS)
    ensures var b, f := if bg.Some? then bg.value else bg0, if fg.Some? then fg.value else fg0;
      ParsePainted(x, Optional(bg) + Optional(fg) + tail, bpp, bg0, fg0)
      == Some(Parsed(Painted(b, []), b, f, 1 + |Optional(bg)| + |Optional(fg)|))
  {
    hide Bit, ParsePainted;
    TwoParts(Optional(bg), Optional(fg), tail);
    var o := |Optional(bg)|;
    PlainFrom(x, Optional(bg) + Optional(fg) + tail, bpp, bg0, fg0, o, o + |Optional(fg)|);
  }

  lemma PlainFrom(x: u8, s: seq<u8>, bpp: nat, bg0: seq<u8>, fg0: seq<u8>, o1: nat, o2: nat)
    requires Depth(bpp) && !Bit(x, SUBS) && o1 == (if Bit(x, BG) then bpp else 0) && o2 == o1 + (if Bit(x, FG) then bpp else 0)
    requires |s| >= o2
    ensures var b, f := if Bit(x, BG) then s[..o1] else bg0, if Bit(x, FG) then s[o1..o2] else fg0;
      ParsePainted(x, s, bpp, bg0, fg0) == Some(Parsed(Painted(b, []), b, f, 1 + o2))
  {
    hide Bit;
  }

  lemma TwoParts(a: seq<u8>, b: seq<u8>, c: seq<u8>)
    ensures var s := a + b + c;
      |s| == |a| + |b| + |c| && s[..|a|] == a && s[|a|..|a| + |b|] == b && s[|a| + |b|..] == c
  {
  }

  lemma PaintedFrom(x: u8, s: seq<u8>, bpp: nat, bg0: seq<u8>, fg0: seq<u8>, o1: nat, o2: nat, cnt: nat, need: nat)
    requires Depth(bpp) && Bit(x, SUBS) && o1 == (if Bit(x, BG) then bpp else 0) && o2 == o1 + (if Bit(x, FG) then bpp else 0)
    requires |s| >= o2 + 1 + need && s[o2] == cnt && need == Times(cnt, SubSize(Bit(x, COLOURED), bpp))
    ensures var b, f := if Bit(x, BG) then s[..o1] else bg0, if Bit(x, FG) then s[o1..o2] else fg0;
      ParsePainted(x, s, bpp, bg0, fg0)
      == Some(Parsed(Painted(b, SubsOf(s[o2 + 1..o2 + 1 + need], cnt, Bit(x, COLOURED), bpp, f)), b, f, 2 + o2 + need))
  {
    hide Bit, SubsOf, Times, SubSize;
  }

  lemma SubsParse(bg: Option<seq<u8>>, fg: Option<seq<u8>>, subs: seq<Sub>, coloured: bool, bpp: nat,
                  bg0: seq<u8>, fg0: seq<u8>, tail: seq<u8>, x: u8)
    requires Depth(bpp) && (bg.Some? ==> |bg.value| == bpp) && (fg.Some? ==> |fg.value| == bpp)
    requires |subs| < 0x100 && SubsProper(subs, bpp)
    requires Bit(x, BG) == bg.Some? && Bit(x, FG) == fg.Some? && Bit(x, SUBS) && Bit(x, COLOURED) == coloured
    ensures var b, f, r := if bg.Some? then bg.value else bg0, if fg.Some? then fg.value else fg0, Records(subs, coloured);
      ParsePainted(x, Optional(bg) + Optional(fg) + ([|subs|] + r + tail), bpp, bg0, fg0)
      == Some(Parsed(Painted(b, Drawn(subs, coloured, f)), b, f, 2 + |Optional(bg)| + |Optional(fg)| + |r|))
  {
    hide Bit, Records, Drawn, SubsOf, Times, InTile, ParsePainted, SubSize;
    var f, r := if fg.Some? then fg.value else fg0, Records(subs, coloured);
    var rest := [|subs|] + r + tail;
    TwoParts(Optional(bg), Optional(fg), rest);
    CountAt(Optional(bg) + Optional(fg), |subs|, r, tail);
    RecordsParse(subs, coloured, bpp, f, []);
    Neutral(r);
    var o := |Optional(bg)|;
    PaintedFrom(x, Optional(bg) + Optional(fg) + rest, bpp, bg0, fg0, o, o + |Optional(fg)|, |subs|, |r|);
  }

  lemma CountAt(head: seq<u8>, cnt: u8, r: seq<u8>, tail: seq<u8>)
    ensures var s, o := head + ([cnt] + r + tail), |head|;
      |s| == o + 1 + |r| + |tail| && s[o] == cnt && s[o + 1..o + 1 + |r|] == r
  {
  }

  /** A tile as written parses to the tile that was meant, whatever follows it. */
  lemma TileParses(t: Written, bpp: nat, area: nat, bg: seq<u8>, fg: seq<u8>, tail: seq<u8>)
    requires Depth(bpp) && Proper(t, bpp, area)
    ensures var s := Bytestream(t, bpp, area);
      ParseTile(s + tail, bpp, area, bg, fg) == Some(Parsed(Meant(t, bg, fg), Ground(t, bg), Front(t, fg), |s|))
  {
    hide Records, Drawn, ParsePainted, InTile, Bit;
    var s := Bytestream(t, bpp, area);
    match t {
      case WRaw(data) =>
        RawParses(data, bpp, area, bg, fg, tail);
      case WTile(b, f, None) =>
        Weights(b.Some?, f.Some?, false, false);
        var x := (if b.Some? then 2 else 0) + (if f.Some? then 4 else 0);
        assert (s + tail)[1..] == Optional(b) + Optional(f) + tail;
        PlainParses(b, f, bpp, bg, fg, tail, x);
      case WTile(b, f, Some((subs, coloured))) =>
        Weights(b.Some?, f.Some?, true, coloured);
        var x := (if b.Some? then 2 else 0) + (if f.Some? then 4 else 0) + 8 + (if coloured then 16 else 0);
        assert (s + tail)[1..] == Optional(b) + Optional(f) + ([|subs|] + Records(subs, coloured) + tail);
        SubsParse(b, f, subs, coloured, bpp, bg, fg, tail, x);
    }
  }

  // ---- a rectangle of tiles

  ghost predicate AllProper(ts: seq<Written>, bpp: nat, boxes: seq<Box>)
    requires Depth(bpp)
  {
    |ts| == |boxes| && forall k :: 0 <= k < |boxes| ==> Proper(ts[k], bpp, Area(boxes[k].w, boxes[k].h))
  }

  ghost function Stream(ts: seq<Written>, bpp: nat, boxes: seq<Box>): seq<u8>
    requires Depth(bpp) && AllProper(ts, bpp, boxes)
    decreases |ts|
  {
    if ts == [] then []
    else Bytestream(ts[0], bpp, Area(boxes[0].w, boxes[0].h)) + Stream(ts[1..], bpp, boxes[1..])
  }

  /** The tiles that were meant; colours are handed on from tile to tile. */
  function AllMeant(ts: seq<Written>, bg: seq<u8>, fg: seq<u8>): (r: seq<Tile>)
    ensures |r| == |ts|
    decreases |ts|
  {
    if ts == [] then [] else [Meant(ts[0], bg, fg)] + AllMeant(ts[1..], Ground(ts[0], bg), Front(ts[0], fg))
  }

  lemma {:induction false} StreamParses(ts: seq<Written>, bpp: nat, boxes: seq<Box>, bg: seq<u8>, fg: seq<u8>, tail: seq<u8>)
    requires Depth(bpp) && AllProper(ts, bpp, boxes)
    ensures var s := Stream(ts, bpp, boxes);
      Tiles(s + tail, bpp, boxes, bg, fg) == Some((AllMeant(ts, bg, fg), |s|))
    decreases |ts|
  {
    hide ParseTile, Meant, Ground, Front, Area, Bytestream, Proper;
    if ts != [] {
      var area := Area(boxes[0].w, boxes[0].h);
      var head, rest := Bytestream(ts[0], bpp, area), Stream(ts[1..], bpp, boxes[1..]);
      TileParses(ts[0], bpp, area, bg, fg, rest + tail);
      StreamParses(ts[1..], bpp, boxes[1..], Ground(ts[0], bg), Front(ts[0], fg), tail);
      assert (head + rest) + tail == head + (rest + tail);
      assert (head + (rest + tail))[|head|..] == rest + tail;
    }
  }

  /** The subrectangles of every written tile lie inside their tile. */
  ghost predicate Placed(ts: seq<Written>, boxes: seq<Box>) {
    |ts| == |boxes| && forall k :: 0 <= k < |boxes| ==> TilePlaced(ts[k], boxes[k])
  }

  ghost predicate TilePlaced(t: Written, box: Box) {
    t.WTile? && t.subs.Some? ==> forall j :: 0 <= j < |t.subs.value.0| ==> SubInside(box, t.subs.value.0[j])
  }

  lemma MeantInside(t: Written, box: Box, bg: seq<u8>, fg: seq<u8>)
    requires TilePlaced(t, box)
    ensures Inside(box, Meant(t, bg, fg))
  {
  }

  lemma {:induction false} AllMeantInside(ts: seq<Written>, boxes: seq<Box>, bg: seq<u8>, fg: seq<u8>)
    requires Placed(ts, boxes)
    ensures AllInside(boxes, AllMeant(ts, bg, fg))
    decreases |ts|
  {
    hide TilePlaced, Inside, Meant, Ground, Front;
    if ts != [] {
      MeantInside(ts[0], boxes[0], bg, fg);
      AllMeantInside(ts[1..], boxes[1..], Ground(ts[0], bg), Front(ts[0], fg));
      var r := AllMeant(ts[1..], Ground(ts[0], bg), Front(ts[0], fg));
      forall k | 0 <= k < |boxes|
        ensures Inside(boxes[k], AllMeant(ts, bg, fg)[k])
      {
        if k > 0 {
          assert boxes[1..][k - 1] == boxes[k] && r[k - 1] == AllMeant(ts, bg, fg)[k];
        }
      }
    }
  }

  /** A tile of the grid of sixteen by sixteen over b, cut off at its right and lower edge. */
  predicate OnGrid(b: Box, t: Box) {
    && b.x <= t.x < b.x + b.w && b.y <= t.y < b.y + b.h && (t.x - b.x) % 16 == 0 && (t.y - b.y) % 16 == 0
    && t.w == (if b.x + b.w - t.x < 16 then b.x + b.w - t.x else 16)
    && t.h == (if b.y + b.h - t.y < 16 then b.y + b.h - t.y else 16)
  }

  /** Reading order: line by line, each from left to right. */
  predicate Earlier(t: Box, u: Box) { t.y < u.y || (t.y == u.y && t.x < u.x) }

  lemma {:induction false} RowInOrder(x: nat, y: nat, rw: nat, th: nat)
    ensures var ts := RowBoxes(x, y, rw, th);
      forall k :: 0 <= k < |ts| ==> 16 * k < rw && ts[k] == Box(x + 16 * k, y, Min(16, rw - 16 * k), th)
    decreases rw
  {
    if rw > 16 {
      RowInOrder(x + 16, y, rw - 16, th);
    }
  }

  /** The tiles come in reading order of that grid. */
  lemma {:induction false} TilesInOrder(b: Box)
    ensures forall k :: 0 <= k < |Boxes(b)| ==> OnGrid(b, Boxes(b)[k])
    ensures forall k, l :: 0 <= k < l < |Boxes(b)| ==> Earlier(Boxes(b)[k], Boxes(b)[l])
    decreases b.h
  {
    hide RowBoxes, OnGrid, Earlier;
    if b.h != 0 {
      var m := Min(16, b.h);
      var row, c := RowBoxes(b.x, b.y, b.w, m), Box(b.x, b.y + m, b.w, b.h - m);
      RowInOrder(b.x, b.y, b.w, m);
      TilesInOrder(c);
      Joined(row, Boxes(c));
      forall k | 0 <= k < |Boxes(b)|
        ensures OnGrid(b, Boxes(b)[k])
      {
        GridDown(b, Boxes(b)[k], k);
      }
      forall k, l | 0 <= k < l < |Boxes(b)|
        ensures Earlier(Boxes(b)[k], Boxes(b)[l])
      {
        if k < |row| {
          if l >= |row| {
            assert OnGrid(c, Boxes(c)[l - |row|]);
          }
          GridRow(b, c, Boxes(b)[k], Boxes(b)[l], k, l);
        } else {
          assert Earlier(Boxes(c)[k - |row|], Boxes(c)[l - |row|]);
        }
      }
    }
  }

  /** A tile of the first row, or one of the rows below it, is on the grid. */
  lemma GridDown(b: Box, t: Box, k: nat)
    requires b.h != 0
    requires var m := Min(16, b.h);
      || (16 * k < b.w && t == Box(b.x + 16 * k, b.y, Min(16, b.w - 16 * k), m))
      || OnGrid(Box(b.x, b.y + m, b.w, b.h - m), t)
    ensures OnGrid(b, t)
  {
  }

  /** The first row is earlier than the others, and in order itself. */
  lemma GridRow(b: Box, c: Box, t: Box, u: Box, k: nat, l: nat)
    requires t.x == b.x + 16 * k && t.y == b.y && k < l && c.y > b.y
    requires (u.x == b.x + 16 * l && u.y == b.y) || OnGrid(c, u)
    ensures Earlier(t, u)
  {
  }

  /** Inside b the tiles, outside the old picture. */
  ghost predicate Shows(fb': seq<u8>, fb: seq<u8>, g: Geometry, b: Box, tiles: seq<Tile>) {
    && Full(fb, g) && Full(fb', g) && AllSized(tiles, g.bpp, Boxes(b))
    && (forall px: nat, py: nat, k: nat :: px < g.w && py < g.h && Holder(Boxes(b), px, py, k) ==>
          Pixel(fb', g, px, py) == TilePixel(Boxes(b)[k], tiles[k], g.bpp, px, py))
    && (forall px: nat, py: nat :: px < g.w && py < g.h && !InBox(b, px, py) ==> Pixel(fb', g, px, py) == Pixel(fb, g, px, py))
  }

  lemma {:induction false} NoBoxes(b: Box)
    requires b.w == 0 || b.h == 0
    ensures Boxes(b) == []
    decreases b.h
  {
    if b.h != 0 {
      NoBoxes(b.(y := b.y + Min(16, b.h), h := b.h - Min(16, b.h)));
    }
  }

  lemma KeepsFull(fb: seq<u8>, g: Geometry, b: Box, tiles: seq<Tile>)
    requires Full(fb, g) && OnScreen(g, b) && AllSized(tiles, g.bpp, Boxes(b)) && AllInside(Boxes(b), tiles)
    ensures Full(PaintAll(fb, g, Boxes(b), tiles), g)
  {
    hide Full, AllInside, Boxes, Sized, PaintTile;
    if g.w == 0 || g.h == 0 {
      NoBoxes(b);
    } else {
      var k := RectanglePixel(fb, g, b, tiles, 0, 0);
    }
  }

  lemma ShownAll(fb: seq<u8>, g: Geometry, b: Box, tiles: seq<Tile>)
    requires Full(fb, g) && OnScreen(g, b) && AllSized(tiles, g.bpp, Boxes(b)) && AllInside(Boxes(b), tiles)
    ensures Shows(PaintAll(fb, g, Boxes(b), tiles), fb, g, b, tiles) && Full(PaintAll(fb, g, Boxes(b), tiles), g)
  {
    assert Depth(g.bpp);
    hide Full, Pixel, PaintAll, TilePixel, Boxes, AllInside, Sized, Area;
    var fb' := PaintAll(fb, g, Boxes(b), tiles);
    KeepsFull(fb, g, b, tiles);
    forall px: nat, py: nat, k: nat | px < g.w && py < g.h && Holder(Boxes(b), px, py, k)
      ensures Pixel(fb', g, px, py) == TilePixel(Boxes(b)[k], tiles[k], g.bpp, px, py)
    {
      var i := RectanglePixel(fb, g, b, tiles, px, py);
      var j := Partition(b, px, py);
    }
    forall px: nat, py: nat | px < g.w && py < g.h && !InBox(b, px, py)
      ensures Pixel(fb', g, px, py) == Pixel(fb, g, px, py)
    {
      var i := RectanglePixel(fb, g, b, tiles, px, py);
    }
  }

  /** From the bytes written to the pixels shown: draw what a server wrote for rectangle
      b, with anything behind it.  Exactly its bytes are read, every pixel of b shows the
      tile that was meant there, every other pixel is as it was. */
  method DrawWritten(v: RfbClient, b: Box, ghost ts: seq<Written>, ghost tail: seq<u8>) returns (ok: bool, n: nat)
    requires v.Ready() && Full(v.fb, v.g) && OnScreen(v.g, b)
    requires AllProper(ts, v.g.bpp, Boxes(b)) && Placed(ts, Boxes(b))
    requires v.input == Stream(ts, v.g.bpp, Boxes(b)) + tail
    modifies v`fb, v`input
    ensures ok && n == |Stream(ts, v.g.bpp, Boxes(b))| && v.input == tail
    ensures Shows(v.fb, old(v.fb), v.g, b, AllMeant(ts, Black(v.g.bpp), Black(v.g.bpp)))
  {
    hide Tiles, AllMeant, AllProper, Placed, PaintAll, Boxes, AllSized, Shows, AllInside, Full, OnScreen, Stream;
    ghost var fb, z, s := v.fb, Black(v.g.bpp), Stream(ts, v.g.bpp, Boxes(b));
    StreamParses(ts, v.g.bpp, Boxes(b), z, z, tail);
    AllMeantInside(ts, Boxes(b), z, z);
    assert (s + tail)[|s|..] == tail;
    ok, n := v.DrawHextile(b);
    ShownAll(fb, v.g, b, AllMeant(ts, z, z));
  }

  // ---- rectangle headers and colour maps

  /** A 16-bit number with its high byte first. */
  function Word16(x: u16): seq<u8> { [x / 0x100, x % 0x100] }

  predicate Short(b: Box) { b.x < 0x1_0000 && b.y < 0x1_0000 && b.w < 0x1_0000 && b.h < 0x1_0000 }

  /** x, y, width, height, and an encoding below 2^16. */
  function RectHeader(b: Box, enc: nat): seq<u8>
    requires Short(b) && enc < 0x1_0000
  {
    Word16(b.x) + Word16(b.y) + Word16(b.w) + Word16(b.h) + [0, 0] + Word16(enc)
  }

  lemma HeaderFields(b: Box, enc: nat, tail: seq<u8>)
    requires Short(b) && enc < 0x1_0000
    ensures var s := RectHeader(b, enc) + tail;
      && |s| == 12 + |tail| && s[12..] == tail
      && Box(Be16(s, 0), Be16(s, 2), Be16(s, 4), Be16(s, 6)) == b && 0x1_0000 * Be16(s, 8) + Be16(s, 10) == enc
  {
  }

  /** A raw rectangle as written is copied to its box; what follows is left. */
  lemma RawRectangle(fb: seq<u8>, g: Geometry, b: Box, data: seq<u8>, tail: seq<u8>)
    requires Depth(g.bpp) && Short(b) && |data| == Bytes(Area(b.w, b.h), g.bpp)
    ensures Rectangle(fb, g, RectHeader(b, 0) + data + tail) == Some((RawBytes(fb, g, b, data), tail))
  {
    hide Bytes, Area, RawBytes, RectHeader, Be16;
    var s := RectHeader(b, 0) + data + tail;
    assert s == RectHeader(b, 0) + (data + tail);
    HeaderFields(b, 0, data + tail);
    assert s[12..12 + |data|] == data by { assert s[12..][..|data|] == data; }
    assert s[12 + |data|..] == tail by { assert s[12..][|data|..] == tail; }
  }

  /** A Hextile rectangle as written is drawn tile by tile; what follows is left. */
  lemma HextileRectangle(fb: seq<u8>, g: Geometry, b: Box, ts: seq<Written>, tail: seq<u8>)
    requires Depth(g.bpp) && Short(b) && AllProper(ts, g.bpp, Boxes(b))
    ensures var z := Black(g.bpp);
      && AllSized(AllMeant(ts, z, z), g.bpp, Boxes(b))
      && Rectangle(fb, g, RectHeader(b, 5) + Stream(ts, g.bpp, Boxes(b)) + tail)
         == Some((PaintAll(fb, g, Boxes(b), AllMeant(ts, z, z)), tail))
  {
    hide RectHeader, Be16, Stream, AllMeant, PaintAll, Boxes, AllProper, AllSized, Tiles;
    var z, body := Black(g.bpp), Stream(ts, g.bpp, Boxes(b));
    var s := RectHeader(b, 5) + body + tail;
    assert s == RectHeader(b, 5) + (body + tail);
    HeaderFields(b, 5, body + tail);
    StreamParses(ts, g.bpp, Boxes(b), z, z, tail);
    TilesOfRest(body + tail, g.bpp, b);
    assert (body + tail)[|body|..] == tail;
  }

  datatype Rgb = Rgb(r: u16, g: u16, b: u16)

  function MapEntries(cs: seq<Rgb>): seq<u8> {
    if cs == [] then []
    else MapEntries(cs[..|cs| - 1]) + (Word16(cs[|cs| - 1].r) + Word16(cs[|cs| - 1].g) + Word16(cs[|cs| - 1].b))
  }

  /** A padding byte, the first index, the number of entries, and the entries. */
  function MapMessage(first: nat, cs: seq<Rgb>): seq<u8>
    requires first < 0x1_0000 && |cs| < 0x1_0000
  {
    [0] + Word16(first) + Word16(|cs|) + MapEntries(cs)
  }

  lemma {:induction false} EntryBytes(cs: seq<Rgb>, i: nat)
    requires i < |cs|
    ensures |MapEntries(cs)| == 6 * |cs| && 6 * i + 6 <= 6 * |cs|
    ensures var e := MapEntries(cs);
      e[6 * i] == cs[i].r / 0x100 && e[6 * i + 2] == cs[i].g / 0x100 && e[6 * i + 4] == cs[i].b / 0x100
    decreases |cs|
  {
    var n := |cs| - 1;
    if n > 0 {
      EntryBytes(cs[..n], if i < n then i else 0);
    }
  }

  /** Each colour as written is the high bytes of its red, green and blue. */
  lemma ColourWritten(first: nat, cs: seq<Rgb>, tail: seq<u8>, i: nat)
    requires first < 0x1_0000 && |cs| < 0x1_0000 && i < |cs|
    ensures var s := MapMessage(first, cs) + tail;
      && |s| == 5 + 6 * |cs| + |tail| && Be16(s, 1) == first && Be16(s, 3) == |cs|
      && Colour(s, i) == [cs[i].r / 0x100, cs[i].g / 0x100, cs[i].b / 0x100]
  {
    hide MapEntries;
    EntryBytes(cs, i);
    var e := MapEntries(cs);
    MessageBytes(first, |cs|, e, tail, 6 * i);
    MessageBytes(first, |cs|, e, tail, 6 * i + 2);
    MessageBytes(first, |cs|, e, tail, 6 * i + 4);
  }

  lemma MessageBytes(first: u16, n: u16, e: seq<u8>, tail: seq<u8>, k: nat)
    requires k < |e|
    ensures var s := [0] + Word16(first) + Word16(n) + e + tail;
      |s| == 5 + |e| + |tail| && Be16(s, 1) == first && Be16(s, 3) == n && s[5 + k] == e[k]
  {
  }
}
