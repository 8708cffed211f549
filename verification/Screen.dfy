/** The viewer's framebuffer: a byte array written in slices, read as pixels. */
module Screen {
  import opened Bits

  /** Width and height in pixels, bytes per pixel (colour map or RGB565). */
  datatype Geometry = Geometry(w: nat, h: nat, bpp: nat)

  predicate Depth(bpp: nat) { bpp == 1 || bpp == 2 }

  datatype Box = Box(x: nat, y: nat, w: nat, h: nat)

  predicate InBox(b: Box, px: int, py: int) {
    b.x <= px < b.x + b.w && b.y <= py < b.y + b.h
  }

  predicate OnScreen(g: Geometry, b: Box) { b.x + b.w <= g.w && b.y + b.h <= g.h }

  function Min(a: int, b: int): int { if a < b then a else b }

  /** y * w: the pixels in y rows of w. */
  function Area(w: nat, y: nat): nat { y * w }

  /** n * bpp: the bytes in n pixels. */
  function Bytes(n: nat, bpp: nat): nat
    requires Depth(bpp)
  {
    if bpp == 1 then n else 2 * n
  }

  /** Slice assignment of |data| bytes at o; past the end it appends. */
  function SliceAssign(fb: seq<u8>, o: nat, data: seq<u8>): seq<u8> {
    fb[..Min(o, |fb|)] + data + fb[Min(o + |data|, |fb|)..]
  }

  function Repeat(pix: seq<u8>, n: nat): (r: seq<u8>)
    requires Depth(|pix|)
    ensures |r| == Bytes(n, |pix|)
  {
    if n == 0 then [] else Repeat(pix, n - 1) + pix
  }

  /** Byte offset of the pixel at (x, y). */
  function At(g: Geometry, x: nat, y: nat): nat
    requires Depth(g.bpp)
  {
    Bytes(Area(g.w, y) + x, g.bpp)
  }

  /** Row by row, top to bottom. */
  function FillBytes(fb: seq<u8>, g: Geometry, b: Box, pix: seq<u8>): seq<u8>
    requires Depth(g.bpp) && |pix| == g.bpp
    decreases b.h
  {
    if b.h == 0 then fb
    else SliceAssign(FillBytes(fb, g, b.(h := b.h - 1), pix), At(g, b.x, b.y + b.h - 1), Repeat(pix, b.w))
  }

  /** Row r of a block of rows of w pixels. */
  function RowBytes(data: seq<u8>, w: nat, bpp: nat, r: nat): seq<u8>
    requires Depth(bpp)
  {
    data[Min(Bytes(Area(w, r), bpp), |data|)..Min(Bytes(Area(w, r) + w, bpp), |data|)]
  }

  function RawRows(fb: seq<u8>, g: Geometry, b: Box, data: seq<u8>): seq<u8>
    requires Depth(g.bpp)
    decreases b.h
  {
    if b.h == 0 then fb
    else SliceAssign(RawRows(fb, g, b.(h := b.h - 1), data), At(g, b.x, b.y + b.h - 1), RowBytes(data, b.w, g.bpp, b.h - 1))
  }

  /** A rectangle as wide as the screen is copied in one piece. */
  function RawBytes(fb: seq<u8>, g: Geometry, b: Box, data: seq<u8>): seq<u8>
    requires Depth(g.bpp)
  {
    if b.x == 0 && b.w == g.w then SliceAssign(fb, At(g, 0, b.y), data) else RawRows(fb, g, b, data)
  }

  // ---- pixels

  predicate Full(fb: seq<u8>, g: Geometry) { Depth(g.bpp) && |fb| == Bytes(Area(g.w, g.h), g.bpp) }

  /** Pixel number p of a run of pixels. */
  function Pix(s: seq<u8>, bpp: nat, p: nat): seq<u8>
    requires Depth(bpp) && Bytes(p + 1, bpp) <= |s|
  {
    if bpp == 1 then [s[p]] else [s[2 * p], s[2 * p + 1]]
  }

  lemma AreaAdd(w: nat, y: nat, h: nat)
    ensures Area(w, y + h) == Area(w, y) + Area(w, h) && Area(w, 1) == w
  {
  }

  /** Rows do not overlap and lie inside the area. */
  lemma RowsApart(w: nat, y: nat, y': nat)
    ensures y < y' ==> Area(w, y) + w <= Area(w, y')
    ensures y' < y ==> Area(w, y') + w <= Area(w, y)
  {
    hide Area;
    if y < y' {
      AreaAdd(w, y, 1);
      AreaAdd(w, y + 1, y' - y - 1);
    } else if y' < y {
      AreaAdd(w, y', 1);
      AreaAdd(w, y' + 1, y - y' - 1);
    }
  }

  function Pixel(fb: seq<u8>, g: Geometry, x: nat, y: nat): seq<u8>
    requires Full(fb, g) && x < g.w && y < g.h
  {
    RowsApart(g.w, y, g.h);
    Pix(fb, g.bpp, Area(g.w, y) + x)
  }

  /** Pixels lie row by row, each in its bpp bytes. */
  lemma PixelBytes(fb: seq<u8>, g: Geometry, x: nat, y: nat)
    requires Full(fb, g) && x < g.w && y < g.h
    ensures 0 <= (y * g.w + x) * g.bpp && (y * g.w + x) * g.bpp + g.bpp <= |fb|
    ensures Pixel(fb, g, x, y) == fb[(y * g.w + x) * g.bpp..(y * g.w + x) * g.bpp + g.bpp]
  {
    RowsApart(g.w, y, g.h);
    var p := Area(g.w, y) + x;
    assert p * g.bpp == Bytes(p, g.bpp);
  }

  lemma AssignByte(fb: seq<u8>, o: nat, row: seq<u8>, t: nat)
    requires o + |row| <= |fb| && t < |fb|
    ensures |SliceAssign(fb, o, row)| == |fb|
    ensures SliceAssign(fb, o, row)[t] == if o <= t < o + |row| then row[t - o] else fb[t]
  {
  }

  /** Writing k pixels from pixel q on. */
  lemma AssignPixels(fb: seq<u8>, bpp: nat, q: nat, k: nat, row: seq<u8>, p: nat)
    requires Depth(bpp) && |row| == Bytes(k, bpp) && Bytes(q + k, bpp) <= |fb| && Bytes(p + 1, bpp) <= |fb|
    ensures var fb' := SliceAssign(fb, Bytes(q, bpp), row);
      |fb'| == |fb| && Pix(fb', bpp, p) == if q <= p < q + k then Pix(row, bpp, p - q) else Pix(fb, bpp, p)
  {
    hide SliceAssign;
    AssignByte(fb, Bytes(q, bpp), row, Bytes(p, bpp));
    AssignByte(fb, Bytes(q, bpp), row, Bytes(p + 1, bpp) - 1);
  }

  lemma {:induction false} RepeatPixel(pix: seq<u8>, n: nat, p: nat)
    requires Depth(|pix|) && p < n
    ensures Pix(Repeat(pix, n), |pix|, p) == pix
    decreases n
  {
    if p < n - 1 {
      RepeatPixel(pix, n - 1, p);
    }
  }

  /** Overwriting part of row r changes exactly those pixels. */
  lemma AssignRow(fb: seq<u8>, g: Geometry, x: nat, k: nat, r: nat, row: seq<u8>, px: nat, py: nat)
    requires Full(fb, g) && x + k <= g.w && r < g.h && |row| == Bytes(k, g.bpp) && px < g.w && py < g.h
    ensures var fb' := SliceAssign(fb, At(g, x, r), row);
      && Full(fb', g)
      && Pixel(fb', g, px, py) == if py == r && x <= px < x + k then Pix(row, g.bpp, px - x) else Pixel(fb, g, px, py)
  {
    hide SliceAssign, Pix, Area;
    RowsApart(g.w, py, g.h);
    RowsApart(g.w, py, r);
    RowsApart(g.w, r, g.h);
    AssignPixels(fb, g.bpp, Area(g.w, r) + x, k, row, Area(g.w, py) + px);
  }

  /** Filling a box on the screen sets exactly its pixels and keeps the size. */
  lemma {:induction false} FillPixel(fb: seq<u8>, g: Geometry, b: Box, pix: seq<u8>, px: nat, py: nat)
    requires Full(fb, g) && OnScreen(g, b) && |pix| == g.bpp && px < g.w && py < g.h
    ensures var fb' := FillBytes(fb, g, b, pix);
      Full(fb', g) && Pixel(fb', g, px, py) == if InBox(b, px, py) then pix else Pixel(fb, g, px, py)
    decreases b.h
  {
    hide SliceAssign, Pixel, Pix, At, Area;
    if b.h != 0 {
      var c := b.(h := b.h - 1);
      FillPixel(fb, g, c, pix, px, py);
      var r := b.y + b.h - 1;
      AssignRow(FillBytes(fb, g, c, pix), g, b.x, b.w, r, Repeat(pix, b.w), px, py);
      if py == r && b.x <= px < b.x + b.w {
        RepeatPixel(pix, b.w, px - b.x);
      }
    }
  }

  /** Pixel i of row r of a block of rows of w pixels each. */
  lemma RowPixel(data: seq<u8>, w: nat, h: nat, bpp: nat, r: nat, i: nat)
    requires Depth(bpp) && |data| == Bytes(Area(w, h), bpp) && r < h && i <= w
    ensures |RowBytes(data, w, bpp, r)| == Bytes(w, bpp)
    ensures i < w ==> Bytes(Area(w, r) + i + 1, bpp) <= |data|
    ensures i < w ==> Pix(RowBytes(data, w, bpp, r), bpp, i) == Pix(data, bpp, Area(w, r) + i)
  {
    hide Area;
    RowsApart(w, r, h);
  }

  /** The pixel that raw data gives to (px, py) of a box. */
  function RawAt(data: seq<u8>, bpp: nat, b: Box, px: nat, py: nat): seq<u8>
    requires Depth(bpp) && |data| == Bytes(Area(b.w, b.h), bpp) && InBox(b, px, py)
  {
    RowsApart(b.w, py - b.y, b.h);
    Pix(data, bpp, Area(b.w, py - b.y) + (px - b.x))
  }

  /** A raw rectangle, its first h rows done, sets exactly their pixels. */
  lemma {:induction false} RowsPixel(fb: seq<u8>, g: Geometry, b: Box, h: nat, data: seq<u8>, px: nat, py: nat)
    requires Full(fb, g) && OnScreen(g, b) && |data| == Bytes(Area(b.w, b.h), g.bpp) && h <= b.h && px < g.w && py < g.h
    ensures var fb' := RawRows(fb, g, b.(h := h), data);
      && Full(fb', g)
      && Pixel(fb', g, px, py)
         == if InBox(b.(h := h), px, py) then RawAt(data, g.bpp, b, px, py) else Pixel(fb, g, px, py)
    decreases h
  {
    hide SliceAssign, Pixel, Pix, At, RowBytes, Area;
    if h != 0 {
      RowsPixel(fb, g, b, h - 1, data, px, py);
      RowPixel(data, b.w, b.h, g.bpp, h - 1, b.w);
      AssignRow(RawRows(fb, g, b.(h := h - 1), data), g, b.x, b.w, b.y + h - 1, RowBytes(data, b.w, g.bpp, h - 1), px, py);
      if py == b.y + h - 1 && b.x <= px < b.x + b.w {
        RowPixel(data, b.w, b.h, g.bpp, h - 1, px - b.x);
      }
    }
  }

  /** The one-piece copy of a full-width rectangle means the same. */
  lemma WidePixel(fb: seq<u8>, g: Geometry, b: Box, data: seq<u8>, px: nat, py: nat)
    requires Full(fb, g) && OnScreen(g, b) && |data| == Bytes(Area(b.w, b.h), g.bpp) && px < g.w && py < g.h
    requires b.x == 0 && b.w == g.w
    ensures var fb' := SliceAssign(fb, At(g, 0, b.y), data);
      && Full(fb', g)
      && Pixel(fb', g, px, py) == if InBox(b, px, py) then RawAt(data, g.bpp, b, px, py) else Pixel(fb, g, px, py)
  {
    hide SliceAssign, Pix, Area;
    var rest := g.h - b.y - b.h;
    AreaAdd(g.w, b.y, b.h);
    AreaAdd(g.w, b.y + b.h, rest);
    RowsApart(g.w, py, g.h);
    RowsApart(g.w, py, b.y);
    RowsApart(g.w, py, b.y + b.h);
    AssignPixels(fb, g.bpp, Area(g.w, b.y), Area(b.w, b.h), data, Area(g.w, py) + px);
    if InBox(b, px, py) {
      AreaAdd(g.w, b.y, py - b.y);
    }
  }

  /** Raw pixels land where they belong, and nowhere else. */
  lemma RawPixel(fb: seq<u8>, g: Geometry, b: Box, data: seq<u8>, px: nat, py: nat)
    requires Full(fb, g) && OnScreen(g, b) && |data| == Bytes(Area(b.w, b.h), g.bpp) && px < g.w && py < g.h
    ensures var fb' := RawBytes(fb, g, b, data);
      && Full(fb', g)
      && Pixel(fb', g, px, py) == if InBox(b, px, py) then RawAt(data, g.bpp, b, px, py) else Pixel(fb, g, px, py)
  {
    hide SliceAssign, Pixel, Pix, RawRows, Area, At, RawAt;
    if b.x == 0 && b.w == g.w {
      WidePixel(fb, g, b, data, px, py);
    } else {
      RowsPixel(fb, g, b, b.h, data, px, py);
    }
  }

  // ---- boxes that leave the screen

  lemma AssignSize(fb: seq<u8>, o: nat, row: seq<u8>)
    ensures |SliceAssign(fb, o, row)| >= |fb|
    ensures |SliceAssign(fb, o, row)| == |fb| <==> row == [] || o + |row| <= |fb|
  {
  }

  /** Filling keeps the framebuffer's size exactly when the box is empty or its last row
      ends inside it; otherwise the framebuffer grows. */
  lemma {:induction false} FillSize(fb: seq<u8>, g: Geometry, b: Box, pix: seq<u8>)
    requires Depth(g.bpp) && |pix| == g.bpp
    ensures |FillBytes(fb, g, b, pix)| >= |fb|
    ensures |FillBytes(fb, g, b, pix)| == |fb|
      <==> b.w == 0 || b.h == 0 || At(g, b.x + b.w, b.y + b.h - 1) <= |fb|
    decreases b.h
  {
    hide SliceAssign, Area, Repeat;
    if b.h != 0 {
      var c := b.(h := b.h - 1);
      FillSize(fb, g, c, pix);
      AssignSize(FillBytes(fb, g, c, pix), At(g, b.x, b.y + b.h - 1), Repeat(pix, b.w));
      if c.h != 0 {
        RowsApart(g.w, b.y + c.h - 1, b.y + b.h - 1);
      }
    }
  }

  /** A box over the right edge paints the start of the next row instead. */
  lemma FillWraps()
    ensures var g := Geometry(2, 2, 1); var fb := [0, 0, 0, 0];
      FillBytes(fb, g, Box(1, 0, 2, 1), [7]) == [0, 7, 7, 0] && !InBox(Box(1, 0, 2, 1), 0, 1)
  {
    var fb: seq<u8> := [0, 0, 0, 0];
    var g := Geometry(2, 2, 1);
    assert Repeat([7], 2) == [7, 7];
    assert SliceAssign(fb, 1, [7, 7]) == [0, 7, 7, 0];
    assert FillBytes(fb, g, Box(1, 0, 2, 0), [7]) == fb;
  }

  /** A fill of this box, whatever the colour and whatever was on the screen, stays inside
      it: the framebuffer keeps its size and no pixel outside the box changes. */
  ghost predicate StaysInside(g: Geometry, b: Box)
    requires Depth(g.bpp)
  {
    forall fb: seq<u8>, pix: seq<u8> :: Full(fb, g) && |pix| == g.bpp ==> InsideOnly(fb, FillBytes(fb, g, b, pix), g, b)
  }

  ghost predicate InsideOnly(fb: seq<u8>, fb': seq<u8>, g: Geometry, b: Box)
    requires Full(fb, g)
  {
    && Full(fb', g)
    && forall px: nat, py: nat :: px < g.w && py < g.h && !InBox(b, px, py) ==> Pixel(fb', g, px, py) == Pixel(fb, g, px, py)
  }

  /** The exact condition: the box is empty or lies on the screen. */
  lemma FillExact(g: Geometry, b: Box)
    requires Depth(g.bpp)
    ensures StaysInside(g, b) <==> b.w == 0 || b.h == 0 || OnScreen(g, b)
  {
    hide FillBytes, Full, Pixel;
    if b.w == 0 || b.h == 0 || OnScreen(g, b) {
      forall fb: seq<u8>, pix: seq<u8> | Full(fb, g) && |pix| == g.bpp
        ensures InsideOnly(fb, FillBytes(fb, g, b, pix), g, b)
      {
        FillInside(fb, g, b, pix);
      }
    } else {
      var fb, pix := Repeat(Dots(g.bpp, 0), Area(g.w, g.h)), Dots(g.bpp, 1);
      assert Full(fb, g) by { BlankFull(g); }
      var fb' := FillBytes(fb, g, b, pix);
      assert Dots(g.bpp, 0)[0] != pix[0];
      if InsideOnly(fb, fb', g, b) {
        var px, py := FillOutside(fb, g, b, pix);
        BlankPixel(g, px, py);
      }
    }
  }

  /** A pixel of equal bytes. */
  function Dots(bpp: nat, v: u8): (pix: seq<u8>)
    ensures |pix| == bpp
  {
    seq(bpp, _ => v)
  }

  lemma BlankFull(g: Geometry)
    requires Depth(g.bpp)
    ensures Full(Repeat(Dots(g.bpp, 0), Area(g.w, g.h)), g)
  {
  }

  lemma BlankPixel(g: Geometry, px: nat, py: nat)
    requires Depth(g.bpp) && px < g.w && py < g.h
    ensures var fb := Repeat(Dots(g.bpp, 0), Area(g.w, g.h)); Full(fb, g) && Pixel(fb, g, px, py) == Dots(g.bpp, 0)
  {
    hide Pix, Area;
    RowsApart(g.w, py, g.h);
    RepeatPixel(Dots(g.bpp, 0), Area(g.w, g.h), Area(g.w, py) + px);
  }

  lemma FillInside(fb: seq<u8>, g: Geometry, b: Box, pix: seq<u8>)
    requires Full(fb, g) && |pix| == g.bpp && (b.w == 0 || b.h == 0 || OnScreen(g, b))
    ensures InsideOnly(fb, FillBytes(fb, g, b, pix), g, b)
  {
    hide FillBytes, Pixel, Area;
    if b.w == 0 || b.h == 0 {
      FillNothing(fb, g, b, pix);
    } else {
      FillSize(fb, g, b, pix);
      RowsApart(g.w, b.y + b.h - 1, g.h);
      forall px: nat, py: nat | px < g.w && py < g.h && !InBox(b, px, py)
        ensures Pixel(FillBytes(fb, g, b, pix), g, px, py) == Pixel(fb, g, px, py)
      {
        FillPixel(fb, g, b, pix, px, py);
      }
    }
  }

  /** The last pixel of a box that leaves the screen to the right is in a later row. */
  lemma FillOutside(fb: seq<u8>, g: Geometry, b: Box, pix: seq<u8>) returns (px: nat, py: nat)
    requires Full(fb, g) && |pix| == g.bpp && b.w != 0 && b.h != 0 && !OnScreen(g, b)
    requires Full(FillBytes(fb, g, b, pix), g)
    ensures px < g.w && py < g.h && !InBox(b, px, py) && Pixel(FillBytes(fb, g, b, pix), g, px, py) == pix
  {
    hide SliceAssign, Pix, Area;
    var r, c := b.y + b.h - 1, b.(h := b.h - 1);
    var before := FillBytes(fb, g, c, pix);
    FillSize(fb, g, b, pix);
    FillSize(fb, g, c, pix);
    AssignSize(before, At(g, b.x, r), Repeat(pix, b.w));
    RowsApart(g.w, g.h, r);
    assert r < g.h;
    var q := Area(g.w, r) + b.x + b.w - 1;
    px, py := Locate(g, q, r);
    AssignPixels(before, g.bpp, Area(g.w, r) + b.x, b.w, Repeat(pix, b.w), q);
    RepeatPixel(pix, b.w, b.w - 1);
  }

  /** The place on the screen of pixel number q, behind row r. */
  lemma Locate(g: Geometry, q: nat, r: nat) returns (px: nat, py: nat)
    requires Area(g.w, r) + g.w <= q < Area(g.w, g.h)
    ensures r < py < g.h && px < g.w && Area(g.w, py) + px == q
  {
    assert g.w > 0;
    px, py := q % g.w, q / g.w;
    assert Area(g.w, py) + px == q;
    if py <= r {
      RowsApart(g.w, py, r);
    }
    if py >= g.h {
      RowsApart(g.w, g.h, py);
    }
  }

  lemma {:induction false} FillNothing(fb: seq<u8>, g: Geometry, b: Box, pix: seq<u8>)
    requires Depth(g.bpp) && |pix| == g.bpp && (b.w == 0 || b.h == 0)
    ensures FillBytes(fb, g, b, pix) == fb
    decreases b.h
  {
    hide Area;
    if b.h != 0 {
      FillNothing(fb, g, b.(h := b.h - 1), pix);
    }
  }
}
