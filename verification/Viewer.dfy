/** The viewer's client object: reads the server's stream, draws into its framebuffer
    in place, and hands complete frames to the user interface. */
module Viewer {
  import opened Bits
  import opened Screen
  import opened Hextile

  function Black(bpp: nat): seq<u8>
    requires Depth(bpp)
  {
    if bpp == 1 then [0] else [0, 0]
  }

  function Be16(s: seq<u8>, k: nat): nat
    requires k + 1 < |s|
  {
    var hi: int, lo: int := s[k], s[k + 1];
    0x100 * hi + lo
  }

  class RfbClient {
    const g: Geometry
    var fb: seq<u8>
    var input: seq<u8>                             // sent by the server, not read yet
    var palette: seq<seq<u8>>                      // colour map: index to RGB
    var frame: Option<(seq<u8>, seq<seq<u8>>)>     // latest complete frame and its palette
    var serial: nat                                // complete updates so far
    var received: nat                              // bytes of complete updates

    ghost predicate Ready()
      reads this
    {
      Depth(g.bpp) && |palette| == 256
    }

    constructor (w: nat, h: nat, bpp: nat, stream: seq<u8>)
      requires Depth(bpp)
      ensures Ready() && g == Geometry(w, h, bpp) && Full(fb, g) && input == stream
    {
      g, input, frame, serial, received := Geometry(w, h, bpp), stream, None, 0, 0;
      palette := seq(256, _ => [0, 0, 0]);
      fb := seq(Bytes(Area(w, h), bpp), _ => 0);
    }

    /** Exactly n bytes, or an error when the connection ends first. */
    method Recv(n: nat) returns (ok: bool, data: seq<u8>)
      modifies this`input
      ensures ok == (n <= |old(input)|)
      ensures ok ==> data == old(input)[..n] && input == old(input)[n..]
    {
      ok, data := n <= |input|, [];
      if ok {
        data, input := input[..n], input[n..];
      }
    }

    method Fill(b: Box, pix: seq<u8>)
      requires Ready() && |pix| == g.bpp
      modifies this`fb
      ensures fb == FillBytes(old(fb), g, b, pix)
    {
      hide SliceAssign, Repeat;
      var row := Repeat(pix, b.w);
      var k := 0;
      while k < b.h
        invariant k <= b.h && fb == FillBytes(old(fb), g, b.(h := k), pix)
      {
        fb := SliceAssign(fb, At(g, b.x, b.y + k), row);
        k := k + 1;
      }
    }

    method RawRect(b: Box, data: seq<u8>)
      requires Ready()
      modifies this`fb
      ensures fb == RawBytes(old(fb), g, b, data)
    {
      hide SliceAssign, RowBytes;
      if b.x == 0 && b.w == g.w {
        fb := SliceAssign(fb, At(g, 0, b.y), data);
        return;
      }
      var k := 0;
      while k < b.h
        invariant k <= b.h && fb == RawRows(old(fb), g, b.(h := k), data)
      {
        fb := SliceAssign(fb, At(g, b.x, b.y + k), RowBytes(data, b.w, g.bpp, k));
        k := k + 1;
      }
    }

    /** Subrectangles from their records. */
    method DrawSubs(t: Box, data: seq<u8>, cnt: nat, coloured: bool, fg: seq<u8>)
      requires Ready() && |fg| == g.bpp && |data| == Times(cnt, SubSize(coloured, g.bpp))
      modifies this`fb
      ensures var subs := SubsOf(data, cnt, coloured, g.bpp, fg);
        (forall k :: 0 <= k < |subs| ==> |subs[k].pix| == g.bpp) && fb == PaintSubs(old(fb), g, t, subs)
    {
      hide FillBytes, SubsOf, Times;
      var each := SubSize(coloured, g.bpp);
      ghost var subs := SubsOf(data, cnt, coloured, g.bpp, fg);
      SubsSized(data, cnt, coloured, g.bpp, fg);
      var i := 0;
      NoSubs(fb, g, t);
      while i < cnt
        invariant i <= cnt && fb == PaintSubs(old(fb), g, t, subs[..i])
      {
        SubsEntry(data, cnt, coloured, g.bpp, fg, i);
        var q := SubAt(data[Times(i, each)..Times(i + 1, each)], coloured, g.bpp, fg);
        Fill(SubBox(t, q), q.pix);
        assert subs[..i + 1][..i] == subs[..i];
        i := i + 1;
      }
      assert subs[..cnt] == subs;
    }

    /** The optional background and foreground of a tile. */
    method Colours(sub: u8, bg: seq<u8>, fg: seq<u8>) returns (ok: bool, n: nat, bg': seq<u8>, fg': seq<u8>)
      requires Ready() && |bg| == |fg| == g.bpp
      modifies this`input
      ensures var o := if Bit(sub, BG) then g.bpp else 0; var s := old(input);
        && n == o + (if Bit(sub, FG) then g.bpp else 0) && ok == (n <= |s|)
        && (ok ==>
          && input == s[n..] && bg' == (if Bit(sub, BG) then s[..o] else bg)
          && fg' == (if Bit(sub, FG) then s[o..n] else fg))
    {
      hide Bit;
      bg', fg', ok := bg, fg, true;
      n := (if Bit(sub, BG) then g.bpp else 0) + (if Bit(sub, FG) then g.bpp else 0);
      if Bit(sub, BG) {
        ok, bg' := Recv(g.bpp);
      }
      if ok && Bit(sub, FG) {
        ok, fg' := Recv(g.bpp);
      }
    }

    /** The subrectangle count and records. */
    method ReadSubs(t: Box, coloured: bool, fg: seq<u8>) returns (ok: bool, n: nat)
      requires Ready() && |fg| == g.bpp
      modifies this`fb, this`input
      ensures var s := old(input); var each := SubSize(coloured, g.bpp);
        && ok == (|s| > 0 && 1 + Times(s[0], each) <= |s|)
        && (ok ==>
          && n == 1 + Times(s[0], each) && input == s[n..]
          && var subs := SubsOf(s[1..n], s[0], coloured, g.bpp, fg);
             (forall k :: 0 <= k < |subs| ==> |subs[k].pix| == g.bpp) && fb == PaintSubs(old(fb), g, t, subs))
    {
      hide FillBytes, SubsOf, PaintSubs, Times;
      ghost var s := input;
      n := 0;
      var head, data;
      ok, head := Recv(1);
      if !ok { return; }
      var need := Times(head[0], SubSize(coloured, g.bpp));
      ok, data := Recv(need);
      if !ok { return; }
      n := 1 + need;
      TakeDrop(s, 1, need);
      DrawSubs(t, data, head[0], coloured, fg);
    }

    /** A tile that is not raw, after its first byte. */
    method DrawPainted(t: Box, sub: u8, bg: seq<u8>, fg: seq<u8>) returns (ok: bool, n: nat, bg': seq<u8>, fg': seq<u8>)
      requires Ready() && |bg| == |fg| == g.bpp
      modifies this`fb, this`input
      ensures var r := ParsePainted(sub, old(input), g.bpp, bg, fg);
        && ok == r.Some?
        && (ok ==>
          && n + 1 == r.value.used && n <= |old(input)| && input == old(input)[n..] && bg' == r.value.bg && fg' == r.value.fg
          && Sized(r.value.tile, g.bpp, Area(t.w, t.h)) && fb == PaintTile(old(fb), g, t, r.value.tile))
    {
      hide FillBytes, SubsOf, PaintSubs, Times, Bit, Area;
      ghost var s := input;
      ok, n, bg', fg' := Colours(sub, bg, fg);
      if !ok { return; }
      Fill(t, bg');
      if Bit(sub, SUBS) {
        ghost var o2 := n;
        var k;
        ok, k := ReadSubs(t, Bit(sub, COLOURED), fg');
        if !ok { return; }
        TakeDrop(s, o2, k);
        assert s[o2..][1..k] == s[o2 + 1..o2 + k];
        n := n + k;
      } else {
        NoSubs(fb, g, t);
      }
    }

    /** One tile: what the loop body of the decoder does. */
    method DrawTile(t: Box, bg: seq<u8>, fg: seq<u8>) returns (ok: bool, n: nat, bg': seq<u8>, fg': seq<u8>)
      requires Ready() && |bg| == |fg| == g.bpp
      modifies this`fb, this`input
      ensures var r := ParseTile(old(input), g.bpp, Area(t.w, t.h), bg, fg);
        && ok == r.Some?
        && (ok ==>
          && n == r.value.used && n <= |old(input)| && input == old(input)[n..] && bg' == r.value.bg && fg' == r.value.fg
          && Sized(r.value.tile, g.bpp, Area(t.w, t.h)) && fb == PaintTile(old(fb), g, t, r.value.tile))
    {
      hide FillBytes, RawBytes, PaintSubs, ParsePainted, Bit, Area;
      ghost var s := input;
      bg', fg', n := bg, fg, 0;
      var head, data;
      ok, head := Recv(1);
      if !ok { return; }
      assert head[0] == s[0] && input == s[1..];
      if Bit(head[0], RAW) {
        var need := Bytes(Area(t.w, t.h), g.bpp);
        ok, data := Recv(need);
        if !ok { return; }
        TakeDrop(s, 1, need);
        n := 1 + need;
        RawRect(t, data);
      } else {
        ok, n, bg', fg' := DrawPainted(t, head[0], bg, fg);
        n := n + 1;
      }
    }

    /** One row of tiles, from column tx on. */
    method DrawRow(b: Box, ty: nat, th: nat, bg: seq<u8>, fg: seq<u8>, ghost below: seq<Box>)
        returns (ok: bool, n: nat, bg': seq<u8>, fg': seq<u8>)
      requires Ready() && |bg| == |fg| == g.bpp
      modifies this`fb, this`input
      ensures |bg'| == |fg'| == g.bpp && (ok ==> n + |input| == |old(input)|)
      ensures var all := RowBoxes(b.x, ty, b.w, th) + below;
        Work(old(fb), g, old(input), all, bg, fg) == if ok then Work(fb, g, input, below, bg', fg') else None
    {
      hide ParseTile, PaintTile, Sized, Area, Work;
      bg', fg', n, ok := bg, fg, 0, true;
      var tx := b.x;
      while tx < b.x + b.w
        invariant b.x <= tx && |bg'| == |fg'| == g.bpp && n + |input| == |old(input)|
        invariant var w := if tx < b.x + b.w then b.x + b.w - tx else 0;
          Work(old(fb), g, old(input), RowBoxes(b.x, ty, b.w, th) + below, bg, fg)
          == Work(fb, g, input, RowBoxes(Min(tx, b.x + b.w), ty, w, th) + below, bg', fg')
      {
        ghost var w := b.x + b.w - tx;
        var t := Box(tx, ty, Min(16, b.x + b.w - tx), th);
        RowHead(tx, ty, w, th, below);
        WorkStep(fb, g, input, t, RowBoxes(tx + t.w, ty, w - t.w, th) + below, bg', fg');
        var k;
        ok, k, bg', fg' := DrawTile(t, bg', fg');
        if !ok { bg', fg' := bg, fg; return; }
        n := n + k;
        tx := tx + 16;
      }
      RowEnd(b.x + b.w, ty, th, below);
    }

    /** The decoder: tiles left to right, top to bottom. */
    method DrawHextile(b: Box) returns (ok: bool, n: nat)
      requires Ready()
      modifies this`fb, this`input
      ensures var z := Black(g.bpp); var r := Tiles(old(input), g.bpp, Boxes(b), z, z);
        && ok == r.Some?
        && (ok ==>
          && n == r.value.1 <= |old(input)| && input == old(input)[n..]
          && AllSized(r.value.0, g.bpp, Boxes(b)) && fb == PaintAll(old(fb), g, Boxes(b), r.value.0))
    {
      hide ParseTile, PaintTile, PaintAll, Tiles, Sized, Area, Work, AllSized;
      var bg, fg := Black(g.bpp), Black(g.bpp);
      n, ok := 0, true;
      var ty := b.y;
      ghost var z := Black(g.bpp);
      WorkIs(fb, g, input, Boxes(b), z, z);
      while ty < b.y + b.h
        invariant b.y <= ty && |bg| == |fg| == g.bpp && n + |input| == |old(input)|
        invariant var h := if ty < b.y + b.h then b.y + b.h - ty else 0;
          Work(old(fb), g, old(input), Boxes(b), z, z)
          == Work(fb, g, input, Boxes(Box(b.x, Min(ty, b.y + b.h), b.w, h)), bg, fg)
      {
        var th := Min(16, b.y + b.h - ty);
        var k;
        ok, k, bg, fg := DrawRow(b, ty, th, bg, fg, Boxes(Box(b.x, ty + th, b.w, b.y + b.h - ty - th)));
        if !ok { return; }
        n := n + k;
        ty := ty + 16;
      }
      WorkDone(fb, g, input, bg, fg);
    }

    /** A rectangle: 12 bytes of header, then its pixels.  n counts all of it. */
    method DrawRectangle() returns (ok: bool, n: nat)
      requires Ready()
      modifies this`fb, this`input
      ensures var r := Rectangle(old(fb), g, old(input));
        && ok == r.Some? && (ok ==> fb == r.value.0 && input == r.value.1 && n + |input| == |old(input)|)
    {
      hide Tiles, PaintAll, RawBytes, Area, Boxes, AllSized;
      ghost var s := input;
      var head, data;
      n := 0;
      ok, head := Recv(12);
      if !ok { return; }
      var b := Box(Be16(head, 0), Be16(head, 2), Be16(head, 4), Be16(head, 6));
      var enc := 0x1_0000 * Be16(head, 8) + Be16(head, 10);
      HeadFields(s);
      TilesOfRest(s[12..], g.bpp, b);
      if enc == 0 {
        ok, data := Recv(Bytes(Area(b.w, b.h), g.bpp));
        if !ok { return; }
        n := 12 + |data|;
        TakeDrop(s, 12, |data|);
        RawRect(b, data);
      } else if enc == 5 {
        var k;
        ok, k := DrawHextile(b);
        n := 12 + k;
      } else {
        ok := false;
      }
    }

    /** A FramebufferUpdate after its type byte: all rectangles are drawn, and only then is
        the frame handed over and counted, with every byte of the message. */
    method Update() returns (ok: bool)
      requires Ready()
      modifies this
      ensures Ready() && palette == old(palette)
      ensures var s := old(input);
        var r := if |s| < 3 then None else Rectangles(old(fb), g, s[3..], Be16(s, 1));
        && ok == r.Some?
        && (ok ==> fb == r.value.0 && input == r.value.1 && frame == Some((fb, palette)) && serial == old(serial) + 1
                   && received == old(received) + 1 + |s| - |input|)
        && (!ok ==> frame == old(frame) && serial == old(serial) && received == old(received))
    {
      hide Rectangle;
      var head;
      ok, head := Recv(3);
      if !ok { return; }
      var count, total, i := Be16(head, 1), 4, 0;
      while i < count
        invariant i <= count && total >= 4 && total + |input| == 1 + |old(input)| && Ready() && palette == old(palette)
        invariant frame == old(frame) && serial == old(serial) && received == old(received)
        invariant Rectangles(old(fb), g, old(input)[3..], count) == Rectangles(fb, g, input, count - i)
      {
        var n;
        ok, n := DrawRectangle();
        if !ok { return; }
        total := total + n;
        i := i + 1;
      }
      frame, serial, received := Some((fb, palette)), serial + 1, received + total;
    }

    /** SetColourMapEntries after its type byte: the high byte of each component; entries
        past 255 are read and ignored. */
    method ColourMap() returns (ok: bool)
      requires Ready()
      modifies this`input, this`palette
      ensures Ready()
      ensures var s := old(input);
        && ok == (|s| >= 5 && |s| >= 5 + Times(Be16(s, 3), 6))
        && (!ok ==> palette == old(palette))
        && (ok ==>
          var first, n := Be16(s, 1), Be16(s, 3);
          && input == s[5 + Times(n, 6)..]
          && forall j :: 0 <= j < 256 ==>
            palette[j] == if first <= j < first + n then Colour(s, j - first) else old(palette)[j])
    {
      hide Times;
      ghost var s := input;
      var head, ent;
      ok, head := Recv(5);
      if !ok { return; }
      var first, n := Be16(head, 1), Be16(head, 3);
      ok, ent := Recv(Times(n, 6));
      if !ok { return; }
      TakeDrop(s, 5, |ent|);
      assert Be16(head, 1) == Be16(s, 1) && Be16(head, 3) == Be16(s, 3);
      var pal := palette;
      var i := 0;
      while i < n
        invariant i <= n && |pal| == 256 && Ready() && palette == old(palette) && input == s[5 + |ent|..]
        invariant forall j :: 0 <= j < 256 ==>
          pal[j] == if first <= j < first + i then Colour(s, j - first) else palette[j]
      {
        EntryFits(i, n);
        if first + i < 256 {
          pal := pal[first + i := [ent[6 * i], ent[6 * i + 2], ent[6 * i + 4]]];
          assert ent == s[5..5 + |ent|];
        }
        i := i + 1;
      }
      palette := pal;
    }
  }

  lemma {:induction false} EntryFits(i: nat, n: nat)
    requires i < n
    ensures 6 * i + 6 <= Times(n, 6)
    decreases n
  {
    if i < n - 1 {
      EntryFits(i, n - 1);
    } else if n > 1 {
      EntryFits(i - 1, n - 1);
    }
  }

  /** Entry i of a colour map message: the high bytes of red, green and blue. */
  function Colour(s: seq<u8>, i: nat): seq<u8> {
    if 5 + 6 * i + 4 < |s| then [s[5 + 6 * i], s[5 + 6 * i + 2], s[5 + 6 * i + 4]] else []
  }

  /** n rectangles, one after the other. */
  ghost function Rectangles(fb: seq<u8>, g: Geometry, s: seq<u8>, n: nat): Option<(seq<u8>, seq<u8>)>
    requires Depth(g.bpp)
    decreases n
  {
    if n == 0 then Some((fb, s))
    else match Rectangle(fb, g, s)
      case None => None
      case Some(r) => Rectangles(r.0, g, r.1, n - 1)
  }

  /** Framebuffer and unread input after one rectangle; None when the input ends or the
      encoding is neither raw (0) nor Hextile (5). */
  ghost function Rectangle(fb: seq<u8>, g: Geometry, s: seq<u8>): Option<(seq<u8>, seq<u8>)>
    requires Depth(g.bpp)
  {
    if |s| < 12 then None
    else
      var b := Box(Be16(s, 0), Be16(s, 2), Be16(s, 4), Be16(s, 6));
      var enc, z := 0x1_0000 * Be16(s, 8) + Be16(s, 10), Black(g.bpp);
      if enc == 0 then
        var need := Bytes(Area(b.w, b.h), g.bpp);
        if |s| < 12 + need then None else Some((RawBytes(fb, g, b, s[12..12 + need]), s[12 + need..]))
      else if enc == 5 then
        TilesOfRest(s[12..], g.bpp, b);
        match Tiles(s[12..], g.bpp, Boxes(b), z, z)
        case None => None
        case Some(r) => Some((PaintAll(fb, g, Boxes(b), r.0), s[12..][r.1..]))
      else None
  }

  lemma TilesOfRest(s: seq<u8>, bpp: nat, b: Box)
    requires Depth(bpp)
    ensures var r := Tiles(s, bpp, Boxes(b), Black(bpp), Black(bpp));
      r.Some? ==> AllSized(r.value.0, bpp, Boxes(b)) && r.value.1 <= |s|
  {
    hide Tiles, AllSized;
    if Tiles(s, bpp, Boxes(b), Black(bpp), Black(bpp)).Some? {
      TilesSized(s, bpp, Boxes(b), Black(bpp), Black(bpp));
    }
  }

  lemma HeadFields(s: seq<u8>)
    requires |s| >= 12
    ensures forall k :: 0 <= k <= 10 ==> Be16(s[..12], k) == Be16(s, k)
  {
  }

  lemma RowHead(x: nat, y: nat, w: nat, th: nat, below: seq<Box>)
    requires w > 0
    ensures RowBoxes(x, y, w, th) + below
      == [Box(x, y, Min(16, w), th)] + (RowBoxes(x + Min(16, w), y, w - Min(16, w), th) + below)
  {
  }

  lemma RowEnd(x: nat, y: nat, th: nat, below: seq<Box>)
    ensures RowBoxes(x, y, 0, th) + below == below
  {
  }

  lemma WorkStep(fb: seq<u8>, g: Geometry, s: seq<u8>, t: Box, rest: seq<Box>, bg: seq<u8>, fg: seq<u8>)
    requires Depth(g.bpp) && |bg| == |fg| == g.bpp
    ensures var p := ParseTile(s, g.bpp, Area(t.w, t.h), bg, fg);
      && (p.Some? ==>
        && Sized(p.value.tile, g.bpp, Area(t.w, t.h)) && |p.value.bg| == |p.value.fg| == g.bpp && p.value.used <= |s|)
      && Work(fb, g, s, [t] + rest, bg, fg)
         == if p.None? then None
            else Work(PaintTile(fb, g, t, p.value.tile), g, s[p.value.used..], rest, p.value.bg, p.value.fg)
  {
    hide ParseTile, PaintTile, Sized, Area;
    assert ([t] + rest)[1..] == rest;
    if ParseTile(s, g.bpp, Area(t.w, t.h), bg, fg).Some? {
      ParsedSized(s, g.bpp, Area(t.w, t.h), bg, fg);
    }
  }

  lemma WorkDone(fb: seq<u8>, g: Geometry, s: seq<u8>, bg: seq<u8>, fg: seq<u8>)
    requires Depth(g.bpp) && |bg| == |fg| == g.bpp
    ensures Work(fb, g, s, [], bg, fg) == Some((fb, s))
  {
  }

  lemma TakeDrop(s: seq<u8>, a: nat, n: nat)
    requires a + n <= |s|
    ensures s[a..][..n] == s[a..a + n] && s[a..][n..] == s[a + n..]
  {
  }

  lemma {:induction false} SubsEntry(data: seq<u8>, cnt: nat, coloured: bool, bpp: nat, fg: seq<u8>, i: nat)
    requires |data| >= Times(cnt, SubSize(coloured, bpp)) && i < cnt
    ensures var each := SubSize(coloured, bpp);
      && Times(i, each) + each == Times(i + 1, each) <= |data| && |SubsOf(data, cnt, coloured, bpp, fg)| == cnt
      && SubsOf(data, cnt, coloured, bpp, fg)[i] == SubAt(data[Times(i, each)..Times(i + 1, each)], coloured, bpp, fg)
    decreases cnt
  {
    hide SubAt;
    if i < cnt - 1 {
      SubsEntry(data, cnt - 1, coloured, bpp, fg, i);
    } else if cnt > 1 {
      SubsEntry(data, cnt - 1, coloured, bpp, fg, 0);
    }
  }

  lemma NoSubs(fb: seq<u8>, g: Geometry, t: Box)
    requires Depth(g.bpp)
    ensures PaintSubs(fb, g, t, []) == fb
  {
  }
}
