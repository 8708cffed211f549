/** The viewer's Hextile decoder (section 7.7.4 of RFC 6143): what it draws, told
    pixel by pixel, and that it reads exactly what it says it read. */
module Hextile {
  import opened Bits
  import opened Screen

  /** A subrectangle inside its tile. */
  datatype Sub = Sub(x: nat, y: nat, w: nat, h: nat, pix: seq<u8>)

  /** A tile's content: raw pixels, or a background with subrectangles drawn over it. */
  datatype Tile = Raw(data: seq<u8>) | Painted(bg: seq<u8>, subs: seq<Sub>)

  /** A decoded tile, the background and foreground it hands on, the bytes it took. */
  datatype Parsed = Parsed(tile: Tile, bg: seq<u8>, fg: seq<u8>, used: nat)

  predicate Bit(x: u8, weight: nat)
    requires weight > 0
  {
    x / weight % 2 == 1
  }

  const RAW := 1
  const BG := 2
  const FG := 4
  const SUBS := 8
  const COLOURED := 16

  /** One subrectangle record: colour if present, then x and y, then w-1 and h-1. */
  function SubAt(p: seq<u8>, coloured: bool, bpp: nat, fg: seq<u8>): Sub
    requires |p| == (if coloured then bpp else 0) + 2
  {
    var xy, wh := p[|p| - 2], p[|p| - 1];
    Sub(xy / 16, xy % 16, wh / 16 + 1, wh % 16 + 1, if coloured then p[..bpp] else fg)
  }

  function SubSize(coloured: bool, bpp: nat): nat { (if coloured then bpp else 0) + 2 }

  /** cnt * each. */
  function Times(cnt: nat, each: nat): nat {
    if cnt == 0 then 0 else Times(cnt - 1, each) + each
  }

  function SubsOf(data: seq<u8>, cnt: nat, coloured: bool, bpp: nat, fg: seq<u8>): seq<Sub>
    requires |data| >= Times(cnt, SubSize(coloured, bpp))
  {
    var each := SubSize(coloured, bpp);
    if cnt == 0 then []
    else SubsOf(data, cnt - 1, coloured, bpp, fg)
         + [SubAt(data[Times(cnt - 1, each)..Times(cnt, each)], coloured, bpp, fg)]
  }

  /** A tile that is not raw, after its first byte. */
  function ParsePainted(sub: u8, s: seq<u8>, bpp: nat, bg: seq<u8>, fg: seq<u8>): Option<Parsed>
    requires Depth(bpp)
  {
    var o1 := if Bit(sub, BG) then bpp else 0;
    var o2 := o1 + (if Bit(sub, FG) then bpp else 0);
    if |s| < o2 then None
    else
      var bg' := if Bit(sub, BG) then s[..o1] else bg;
      var fg' := if Bit(sub, FG) then s[o1..o2] else fg;
      if !Bit(sub, SUBS) then Some(Parsed(Painted(bg', []), bg', fg', 1 + o2))
      else if |s| < o2 + 1 then None
      else
        var need := Times(s[o2], SubSize(Bit(sub, COLOURED), bpp));
        if |s| < o2 + 1 + need then None
        else Some(Parsed(Painted(bg', SubsOf(s[o2 + 1..o2 + 1 + need], s[o2], Bit(sub, COLOURED), bpp, fg')),
                         bg', fg', 2 + o2 + need))
  }

  /** The encoded form of one tile at the head of s; None when s ends too early. */
  function ParseTile(s: seq<u8>, bpp: nat, area: nat, bg: seq<u8>, fg: seq<u8>): Option<Parsed>
    requires Depth(bpp)
  {
    if |s| == 0 then None
    else if Bit(s[0], RAW) then
      var need := Bytes(area, bpp);
      if |s| < 1 + need then None else Some(Parsed(Raw(s[1..1 + need]), bg, fg, 1 + need))
    else ParsePainted(s[0], s[1..], bpp, bg, fg)
  }

  // ---- the tiles of a rectangle

  function RowBoxes(x: nat, y: nat, rw: nat, th: nat): seq<Box>
    decreases rw
  {
    if rw == 0 then [] else [Box(x, y, Min(16, rw), th)] + RowBoxes(x + Min(16, rw), y, rw - Min(16, rw), th)
  }

  function Boxes(b: Box): seq<Box>
    decreases b.h
  {
    if b.h == 0 then []
    else RowBoxes(b.x, b.y, b.w, Min(16, b.h)) + Boxes(b.(y := b.y + Min(16, b.h), h := b.h - Min(16, b.h)))
  }

  function Tiles(s: seq<u8>, bpp: nat, boxes: seq<Box>, bg: seq<u8>, fg: seq<u8>): Option<(seq<Tile>, nat)>
    requires Depth(bpp)
    decreases |boxes|
  {
    if boxes == [] then Some(([], 0))
    else match ParseTile(s, bpp, Area(boxes[0].w, boxes[0].h), bg, fg)
      case None => None
      case Some(p) =>
        if p.used > |s| then None
        else match Tiles(s[p.used..], bpp, boxes[1..], p.bg, p.fg)
          case None => None
          case Some(r) => Some(([p.tile] + r.0, p.used + r.1))
  }

  // ---- drawing

  predicate Sized(t: Tile, bpp: nat, area: nat)
    requires Depth(bpp)
  {
    match t
    case Raw(data) => |data| == Bytes(area, bpp)
    case Painted(bg, subs) => |bg| == bpp && forall k :: 0 <= k < |subs| ==> |subs[k].pix| == bpp
  }

  function SubBox(t: Box, q: Sub): Box { Box(t.x + q.x, t.y + q.y, q.w, q.h) }

  function PaintSubs(fb: seq<u8>, g: Geometry, t: Box, subs: seq<Sub>): seq<u8>
    requires Depth(g.bpp) && forall k :: 0 <= k < |subs| ==> |subs[k].pix| == g.bpp
  {
    if subs == [] then fb
    else
      var n := |subs| - 1;
      FillBytes(PaintSubs(fb, g, t, subs[..n]), g, SubBox(t, subs[n]), subs[n].pix)
  }

  function PaintTile(fb: seq<u8>, g: Geometry, t: Box, tile: Tile): seq<u8>
    requires Depth(g.bpp) && Sized(tile, g.bpp, Area(t.w, t.h))
  {
    match tile
    case Raw(data) => RawBytes(fb, g, t, data)
    case Painted(bg, subs) => PaintSubs(FillBytes(fb, g, t, bg), g, t, subs)
  }

  ghost predicate AllSized(tiles: seq<Tile>, bpp: nat, boxes: seq<Box>)
    requires Depth(bpp)
  {
    |tiles| == |boxes| && forall k :: 0 <= k < |boxes| ==> Sized(tiles[k], bpp, Area(boxes[k].w, boxes[k].h))
  }

  ghost function PaintAll(fb: seq<u8>, g: Geometry, boxes: seq<Box>, tiles: seq<Tile>): seq<u8>
    requires Depth(g.bpp) && AllSized(tiles, g.bpp, boxes)
    decreases |boxes|
  {
    if boxes == [] then fb else PaintAll(PaintTile(fb, g, boxes[0], tiles[0]), g, boxes[1..], tiles[1..])
  }

  // ---- what a tile looks like

  /** The last subrectangle over (dx, dy) of the tile, or else the background. */
  function Covering(bg: seq<u8>, subs: seq<Sub>, dx: int, dy: int): seq<u8> {
    if subs == [] then bg
    else
      var q := subs[|subs| - 1];
      if q.x <= dx < q.x + q.w && q.y <= dy < q.y + q.h then q.pix
      else Covering(bg, subs[..|subs| - 1], dx, dy)
  }

  function TilePixel(t: Box, tile: Tile, bpp: nat, px: nat, py: nat): seq<u8>
    requires Depth(bpp) && Sized(tile, bpp, Area(t.w, t.h)) && InBox(t, px, py)
  {
    match tile
    case Raw(data) => RawAt(data, bpp, t, px, py)
    case Painted(bg, subs) => Covering(bg, subs, px - t.x, py - t.y)
  }

  predicate SubInside(t: Box, q: Sub) { q.x + q.w <= t.w && q.y + q.h <= t.h }

  ghost predicate Inside(t: Box, tile: Tile) {
    tile.Painted? ==> forall k :: 0 <= k < |tile.subs| ==> SubInside(t, tile.subs[k])
  }

  lemma {:induction false} SubsPixel(fb: seq<u8>, g: Geometry, t: Box, bg: seq<u8>, subs: seq<Sub>, px: nat, py: nat)
    requires Full(fb, g) && OnScreen(g, t) && |bg| == g.bpp && forall k :: 0 <= k < |subs| ==> |subs[k].pix| == g.bpp
    requires forall k :: 0 <= k < |subs| ==> SubInside(t, subs[k])
    requires px < g.w && py < g.h && (InBox(t, px, py) ==> Pixel(fb, g, px, py) == bg)
    ensures var fb' := PaintSubs(fb, g, t, subs);
      && Full(fb', g)
      && Pixel(fb', g, px, py)
         == if InBox(t, px, py) then Covering(bg, subs, px - t.x, py - t.y) else Pixel(fb, g, px, py)
    decreases |subs|
  {
    hide Pixel, FillBytes, Area;
    if subs != [] {
      var n := |subs| - 1;
      SubsPixel(fb, g, t, bg, subs[..n], px, py);
      FillPixel(PaintSubs(fb, g, t, subs[..n]), g, SubBox(t, subs[n]), subs[n].pix, px, py);
    }
  }

  /** One tile: its own pixels as described, every other pixel untouched. */
  lemma PaintPixel(fb: seq<u8>, g: Geometry, t: Box, tile: Tile, px: nat, py: nat)
    requires Full(fb, g) && OnScreen(g, t) && Sized(tile, g.bpp, Area(t.w, t.h)) && Inside(t, tile) && px < g.w && py < g.h
    ensures var fb' := PaintTile(fb, g, t, tile);
      && Full(fb', g)
      && Pixel(fb', g, px, py) == if InBox(t, px, py) then TilePixel(t, tile, g.bpp, px, py) else Pixel(fb, g, px, py)
  {
    hide Pixel, FillBytes, RawBytes, RawAt, Covering, Area;
    match tile {
      case Raw(data) => RawPixel(fb, g, t, data, px, py);
      case Painted(bg, subs) =>
        FillPixel(fb, g, t, bg, px, py);
        SubsPixel(FillBytes(fb, g, t, bg), g, t, bg, subs, px, py);
    }
  }

  // ---- the tiles partition the rectangle

  /** The boxes that contain a point. */
  ghost predicate Holder(boxes: seq<Box>, px: int, py: int, k: int) {
    0 <= k < |boxes| && InBox(boxes[k], px, py)
  }

  lemma {:induction false} RowPartition(x: nat, y: nat, rw: nat, th: nat, px: int, py: int) returns (k: int)
    ensures InBox(Box(x, y, rw, th), px, py) <==> Holder(RowBoxes(x, y, rw, th), px, py, k)
    ensures forall j :: Holder(RowBoxes(x, y, rw, th), px, py, j) ==> j == k
    ensures forall j :: 0 <= j < |RowBoxes(x, y, rw, th)| ==> Within(RowBoxes(x, y, rw, th)[j], Box(x, y, rw, th))
    decreases rw
  {
    k := -1;
    if rw != 0 {
      var m := Min(16, rw);
      var rest := RowBoxes(x + m, y, rw - m, th);
      var boxes := RowBoxes(x, y, rw, th);
      var i := RowPartition(x + m, y, rw - m, th, px, py);
      assert boxes == [Box(x, y, m, th)] + rest;
      assert forall j :: 0 < j < |boxes| ==> boxes[j] == rest[j - 1];
      k := if InBox(boxes[0], px, py) then 0 else i + 1;
      forall j | Holder(boxes, px, py, j)
        ensures j == k
      {
        assert j == 0 || Holder(rest, px, py, j - 1);
      }
    }
  }

  predicate Within(a: Box, b: Box) {
    b.x <= a.x && a.x + a.w <= b.x + b.w && b.y <= a.y && a.y + a.h <= b.y + b.h && a.w <= 16 && a.h <= b.h
  }

  /** Every pixel of the rectangle is in exactly one tile, every other pixel in none. */
  lemma {:induction false} Partition(b: Box, px: int, py: int) returns (k: int)
    ensures InBox(b, px, py) <==> Holder(Boxes(b), px, py, k)
    ensures forall j :: Holder(Boxes(b), px, py, j) ==> j == k
    ensures forall j :: 0 <= j < |Boxes(b)| ==> Within(Boxes(b)[j], b)
    decreases b.h
  {
    hide RowBoxes;
    k := -1;
    if b.h != 0 {
      var m := Min(16, b.h);
      var row := RowBoxes(b.x, b.y, b.w, m);
      var c := b.(y := b.y + m, h := b.h - m);
      var i := RowPartition(b.x, b.y, b.w, m, px, py);
      var j := Partition(c, px, py);
      var boxes := Boxes(b);
      assert boxes == row + Boxes(c);
      k := if InBox(Box(b.x, b.y, b.w, m), px, py) then i else |row| + j;
      Joined(row, Boxes(c));
      forall l | Holder(boxes, px, py, l)
        ensures l == k
      {
        assert if l < |row| then Holder(row, px, py, l) else Holder(Boxes(c), px, py, l - |row|);
      }
    }
  }

  lemma Joined(a: seq<Box>, b: seq<Box>)
    ensures forall j :: 0 <= j < |a + b| ==> (a + b)[j] == if j < |a| then a[j] else b[j - |a|]
  {
  }

  ghost predicate AllInside(boxes: seq<Box>, tiles: seq<Tile>) {
    |boxes| == |tiles| && forall k :: 0 <= k < |boxes| ==> Inside(boxes[k], tiles[k])
  }

  lemma {:induction false} AllPixel(fb: seq<u8>, g: Geometry, boxes: seq<Box>, tiles: seq<Tile>, px: nat, py: nat, k: int)
    requires Full(fb, g) && AllSized(tiles, g.bpp, boxes) && AllInside(boxes, tiles) && px < g.w && py < g.h
    requires forall j :: 0 <= j < |boxes| ==> OnScreen(g, boxes[j])
    requires forall j :: Holder(boxes, px, py, j) ==> j == k
    ensures var fb' := PaintAll(fb, g, boxes, tiles);
      && Full(fb', g)
      && Pixel(fb', g, px, py)
         == if Holder(boxes, px, py, k) then TilePixel(boxes[k], tiles[k], g.bpp, px, py) else Pixel(fb, g, px, py)
    decreases |boxes|
  {
    hide Pixel, PaintTile, TilePixel, Area, Inside, Sized;
    if boxes != [] {
      PaintPixel(fb, g, boxes[0], tiles[0], px, py);
      var rest := boxes[1..];
      forall j | Holder(rest, px, py, j)
        ensures j == k - 1
      {
        assert Holder(boxes, px, py, j + 1);
      }
      assert InBox(boxes[0], px, py) <==> Holder(boxes, px, py, 0);
      AllPixel(PaintTile(fb, g, boxes[0], tiles[0]), g, rest, tiles[1..], px, py, k - 1);
    }
  }

  /** A decoded rectangle on the screen, its subrectangles inside their tiles: every pixel
      of it shows its tile's content, every other pixel is untouched, the framebuffer
      keeps its size. */
  lemma RectanglePixel(fb: seq<u8>, g: Geometry, b: Box, tiles: seq<Tile>, px: nat, py: nat) returns (k: int)
    requires Full(fb, g) && OnScreen(g, b) && AllSized(tiles, g.bpp, Boxes(b)) && AllInside(Boxes(b), tiles)
    requires px < g.w && py < g.h
    ensures InBox(b, px, py) <==> Holder(Boxes(b), px, py, k)
    ensures var fb' := PaintAll(fb, g, Boxes(b), tiles);
      && Full(fb', g)
      && Pixel(fb', g, px, py)
         == if InBox(b, px, py) then TilePixel(Boxes(b)[k], tiles[k], g.bpp, px, py) else Pixel(fb, g, px, py)
  {
    hide Pixel, PaintAll, TilePixel, Boxes, Inside, Sized;
    k := Partition(b, px, py);
    AllPixel(fb, g, Boxes(b), tiles, px, py, k);
  }

  // ---- parsing

  lemma {:induction false} SubsSized(data: seq<u8>, cnt: nat, coloured: bool, bpp: nat, fg: seq<u8>)
    requires |data| >= Times(cnt, SubSize(coloured, bpp)) && |fg| == bpp
    ensures var subs := SubsOf(data, cnt, coloured, bpp, fg);
      |subs| == cnt && forall k :: 0 <= k < cnt ==> |subs[k].pix| == bpp
    decreases cnt
  {
    if cnt != 0 {
      SubsSized(data, cnt - 1, coloured, bpp, fg);
    }
  }

  lemma ParsedSized(s: seq<u8>, bpp: nat, area: nat, bg: seq<u8>, fg: seq<u8>)
    requires Depth(bpp) && |bg| == |fg| == bpp && ParseTile(s, bpp, area, bg, fg).Some?
    ensures var p := ParseTile(s, bpp, area, bg, fg).value;
      && Sized(p.tile, bpp, area) && |p.bg| == |p.fg| == bpp && 1 <= p.used <= |s|
  {
    hide SubsOf, Times, Bytes, Bit;
    if !Bit(s[0], RAW) {
      PaintedSized(s[0], s[1..], bpp, bg, fg);
    }
  }

  lemma PaintedSized(sub: u8, s: seq<u8>, bpp: nat, bg: seq<u8>, fg: seq<u8>)
    requires Depth(bpp) && |bg| == |fg| == bpp && ParsePainted(sub, s, bpp, bg, fg).Some?
    ensures var p := ParsePainted(sub, s, bpp, bg, fg).value;
      && p.tile.Painted? && Sized(p.tile, bpp, 0) && |p.bg| == |p.fg| == bpp && 1 <= p.used <= 1 + |s|
  {
    hide SubsOf, Times, Bit;
    var p := ParsePainted(sub, s, bpp, bg, fg).value;
    if Bit(sub, SUBS) {
      var o2 := (if Bit(sub, BG) then bpp else 0) + (if Bit(sub, FG) then bpp else 0);
      var need := Times(s[o2], SubSize(Bit(sub, COLOURED), bpp));
      SubsSized(s[o2 + 1..o2 + 1 + need], s[o2], Bit(sub, COLOURED), bpp, p.fg);
    }
  }

  lemma {:induction false} TilesSized(s: seq<u8>, bpp: nat, boxes: seq<Box>, bg: seq<u8>, fg: seq<u8>)
    requires Depth(bpp) && |bg| == |fg| == bpp && Tiles(s, bpp, boxes, bg, fg).Some?
    ensures var r := Tiles(s, bpp, boxes, bg, fg).value; AllSized(r.0, bpp, boxes) && r.1 <= |s|
    decreases |boxes|
  {
    hide ParseTile, Sized, Area;
    if boxes != [] {
      ParsedSized(s, bpp, Area(boxes[0].w, boxes[0].h), bg, fg);
      var p := ParseTile(s, bpp, Area(boxes[0].w, boxes[0].h), bg, fg).value;
      TilesSized(s[p.used..], bpp, boxes[1..], p.bg, p.fg);
    }
  }

  // ---- the decoder, drawing as it reads

  /** Framebuffer and unread input after the remaining tiles; None when the input ends. */
  ghost function Work(fb: seq<u8>, g: Geometry, s: seq<u8>, boxes: seq<Box>, bg: seq<u8>, fg: seq<u8>): Option<(seq<u8>, seq<u8>)>
    requires Depth(g.bpp) && |bg| == |fg| == g.bpp
    decreases |boxes|
  {
    if boxes == [] then Some((fb, s))
    else match ParseTile(s, g.bpp, Area(boxes[0].w, boxes[0].h), bg, fg)
      case None => None
      case Some(p) =>
        ParsedSized(s, g.bpp, Area(boxes[0].w, boxes[0].h), bg, fg);
        Work(PaintTile(fb, g, boxes[0], p.tile), g, s[p.used..], boxes[1..], p.bg, p.fg)
  }

  /** Drawing while reading is reading everything and then drawing. */
  lemma {:induction false} WorkIs(fb: seq<u8>, g: Geometry, s: seq<u8>, boxes: seq<Box>, bg: seq<u8>, fg: seq<u8>)
    requires Depth(g.bpp) && |bg| == |fg| == g.bpp
    ensures var r := Tiles(s, g.bpp, boxes, bg, fg);
      && (r.Some? ==> AllSized(r.value.0, g.bpp, boxes) && r.value.1 <= |s|)
      && Work(fb, g, s, boxes, bg, fg)
         == if r.None? then None else Some((PaintAll(fb, g, boxes, r.value.0), s[r.value.1..]))
    decreases |boxes|
  {
    hide ParseTile, PaintTile, Sized, Area;
    if Tiles(s, g.bpp, boxes, bg, fg).Some? {
      TilesSized(s, g.bpp, boxes, bg, fg);
    }
    if boxes != [] && ParseTile(s, g.bpp, Area(boxes[0].w, boxes[0].h), bg, fg).Some? {
      ParsedSized(s, g.bpp, Area(boxes[0].w, boxes[0].h), bg, fg);
      var p := ParseTile(s, g.bpp, Area(boxes[0].w, boxes[0].h), bg, fg).value;
      WorkIs(PaintTile(fb, g, boxes[0], p.tile), g, s[p.used..], boxes[1..], p.bg, p.fg);
    }
  }
}
