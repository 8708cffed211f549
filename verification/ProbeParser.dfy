/** The host's parser of probe output, and that it undoes the dump routine. */
module ProbeParser {
  import opened Bits
  import opened Machine
  import opened Monitor
  import opened Fetch
  import opened Uart
  import opened Dump

  /** Characters by code point. */
  type Text = seq<nat>

  /** Line boundaries and white space as the host language sees them. */
  predicate IsBreak(c: nat) { 10 <= c <= 13 || 28 <= c <= 30 || c == 0x85 || c == 0x2028 || c == 0x2029 }

  predicate IsSpace(c: nat) {
    9 <= c <= 13 || 28 <= c <= 32 || c == 0x85 || c == 0xA0 || c == 0x1680 || 0x2000 <= c <= 0x200A || c == 0x2028
    || c == 0x2029 || c == 0x202F || c == 0x205F || c == 0x3000
  }

  /** Position of the first line boundary, or the length. */
  function FirstBreak(t: Text): (n: nat)
    ensures n <= |t| && (n < |t| ==> IsBreak(t[n])) && forall k :: 0 <= k < n ==> !IsBreak(t[k])
  {
    if t == [] || IsBreak(t[0]) then 0 else 1 + FirstBreak(t[1..])
  }

  /** A carriage return and line feed count as one boundary. */
  function AfterBreak(t: Text, n: nat): nat
    requires n < |t|
  {
    if t[n] == 13 && n + 1 < |t| && t[n + 1] == 10 then n + 2 else n + 1
  }

  function Lines(t: Text): seq<Text>
    decreases |t|
  {
    if t == [] then []
    else
      var n := FirstBreak(t);
      if n == |t| then [t] else [t[..n]] + Lines(t[AfterBreak(t, n)..])
  }

  function StripLeft(t: Text): Text {
    if t != [] && IsSpace(t[0]) then StripLeft(t[1..]) else t
  }

  function StripRight(t: Text): Text {
    if t != [] && IsSpace(t[|t| - 1]) then StripRight(t[..|t| - 1]) else t
  }

  function Strip(t: Text): Text { StripRight(StripLeft(t)) }

  predicate IsHex(c: nat) { 0x30 <= c <= 0x39 || 0x41 <= c <= 0x46 || 0x61 <= c <= 0x66 }

  function HexValue(c: nat): nat
    requires IsHex(c)
  {
    if c <= 0x39 then c - 0x30 else if c <= 0x46 then c - 0x37 else c - 0x57
  }

  predicate AllHex(t: Text) { forall k :: 0 <= k < |t| ==> IsHex(t[k]) }

  function Number(t: Text): nat
    requires AllHex(t)
  {
    if t == [] then 0 else 16 * Number(t[..|t| - 1]) + HexValue(t[|t| - 1])
  }

  /** The fields of a line of exactly 176 hexadecimal digits; other lines are ignored. */
  function RowOf(line: Text): Option<seq<nat>> {
    var s := Strip(line);
    if |s| == 176 && AllHex(s) then Some(Slices(s)) else None
  }

  function Slices(s: Text): (r: seq<nat>)
    requires AllHex(s) && |s| % 16 == 0
    ensures |r| == |s| / 16
    decreases |s|
  {
    if s == [] then [] else [Number(s[..16])] + Slices(s[16..])
  }

  function Rows(lines: seq<Text>): seq<seq<nat>> {
    if lines == [] then []
    else
      var rest := Rows(lines[..|lines| - 1]);
      match RowOf(lines[|lines| - 1])
      case None => rest
      case Some(r) => rest + [r]
  }

  /** The parser. */
  method Parse(text: Text) returns (rows: seq<seq<nat>>)
    ensures rows == Rows(Lines(text))
  {
    var lines := Lines(text);
    rows := [];
    for i := 0 to |lines|
      invariant rows == Rows(lines[..i])
    {
      assert lines[..i + 1][..i] == lines[..i];
      var s := Strip(lines[i]);
      if |s| == 176 && AllHex(s) {
        rows := rows + [Slices(s)];
      }
    }
    assert lines[..|lines|] == lines;
  }

  // ---- digits

  /** The digits as characters: capitals are printed, both cases are read. */
  lemma DigitText(d: nat)
    requires d < 16
    ensures HexChar(d) == "0123456789ABCDEF"[d] as int
    ensures IsHex(HexChar(d)) && HexValue("0123456789ABCDEF"[d] as int) == d
    ensures IsHex("0123456789abcdef"[d] as int) && HexValue("0123456789abcdef"[d] as int) == d
  {
  }

  lemma {:induction false} HexDigits(e: nat, n: nat)
    ensures AllHex(Hex(e, n))
    decreases n
  {
    if n > 0 {
      HexDigits(e / 16, n - 1);
    }
  }

  /** Sixteen digits are enough for 64 bits. */
  lemma {:induction false} HexRoundTrip(e: nat, n: nat)
    requires e < Pow2(4 * n)
    ensures AllHex(Hex(e, n)) && Number(Hex(e, n)) == e
    decreases n
  {
    HexDigits(e, n);
    if n > 0 {
      Pow2Add(4, 4 * (n - 1));
      Pow2Of8();
      HexRoundTrip(e / 16, n - 1);
      assert Hex(e, n)[..n - 1] == Hex(e / 16, n - 1);
    }
  }

  lemma {:induction false} FieldsParse(v: seq<u64>)
    ensures |Fields(v)| == 16 * |v| && AllHex(Fields(v)) && Slices(Fields(v)) == v
    decreases |v|
  {
    hide Hex, Number, Pow2;
    if v != [] {
      var n := |v| - 1;
      FieldsParse(v[..n]);
      HexDigits(v[n], 16);
      Pow2Of64();
      HexRoundTrip(v[n], 16);
      SlicesAppend(Fields(v[..n]), Hex(v[n], 16));
      assert v == v[..n] + [v[n]];
    }
  }

  lemma {:induction false} SlicesAppend(s: Text, t: Text)
    requires AllHex(s) && AllHex(t) && |s| % 16 == 0 && |t| == 16
    ensures AllHex(s + t) && Slices(s + t) == Slices(s) + [Number(t)]
    decreases |s|
  {
    hide Number;
    if s == [] {
      assert s + t == t && t[..16] == t && t[16..] == [];
    } else {
      assert (s + t)[..16] == s[..16] && (s + t)[16..] == s[16..] + t;
      SlicesAppend(s[16..], t);
    }
  }

  lemma {:induction false} FieldsJoin(id: u64, v: seq<u64>)
    ensures Hex(id, 16) + Fields(v) == Fields([id] + v)
    decreases |v|
  {
    hide Hex;
    if v == [] {
      assert [id] + v == [id] && [id][..0] == [];
    } else {
      var n := |v| - 1;
      FieldsJoin(id, v[..n]);
      assert ([id] + v)[..n + 1] == [id] + v[..n];
    }
  }

  // ---- lines

  lemma HexPlain(c: nat)
    requires IsHex(c)
    ensures !IsSpace(c) && !IsBreak(c)
  {
  }

  lemma StripHex(s: Text)
    requires AllHex(s)
    ensures Strip(s) == s
  {
    if s != [] {
      HexPlain(s[0]);
      HexPlain(s[|s| - 1]);
    }
  }

  /** The first line of a text that starts with digits and a boundary. */
  lemma {:induction false} BreakAt(s: Text, t: Text)
    requires AllHex(s) && t != [] && IsBreak(t[0])
    ensures FirstBreak(s + t) == |s|
    decreases |s|
  {
    if s == [] {
      assert s + t == t;
    } else {
      HexPlain(s[0]);
      assert (s + t)[1..] == s[1..] + t;
      BreakAt(s[1..], t);
    }
  }

  predicate Ending(e: Text) { e == [13, 10] || e == [10] }

  lemma FirstLine(s: Text, e: Text, rest: Text)
    requires AllHex(s) && Ending(e)
    ensures Lines(s + e + rest) == [s] + Lines(rest)
  {
    var t := s + e + rest;
    assert t == s + (e + rest);
    BreakAt(s, e + rest);
    assert t[..|s|] == s && t[|s|..] == e + rest;
    assert t[|s| + |e|..] == rest;
    assert t[|s|] == e[0] && (|e| == 2 ==> t[|s| + 1] == e[1]);
  }

  /** What one dump prints, with the line ending kept or translated. */
  function Printed(id: u64, v: seq<u64>, e: Text): Text { Hex(id, 16) + Fields(v) + e }

  datatype Record = Record(id: u64, v: seq<u64>)

  function AllPrinted(ds: seq<Record>, e: Text): Text {
    if ds == [] then [] else Printed(ds[0].id, ds[0].v, e) + AllPrinted(ds[1..], e)
  }

  function RowsOf(ds: seq<Record>): seq<seq<nat>> {
    if ds == [] then [] else [[ds[0].id] + ds[0].v] + RowsOf(ds[1..])
  }

  lemma {:induction false} RowsFirst(line: Text, lines: seq<Text>)
    ensures Rows([line] + lines) == (if RowOf(line).Some? then [RowOf(line).value] else []) + Rows(lines)
    decreases |lines|
  {
    hide RowOf;
    var n := |lines|;
    assert ([line] + lines)[..n] == if n == 0 then [] else [line] + lines[..n - 1];
    if n == 0 {
      assert Rows([]) == [];
    } else {
      RowsFirst(line, lines[..n - 1]);
    }
  }

  /** Printing any number of dumps and parsing the output gives back every id and counter,
      in order, whether the line endings arrive as CR LF or translated to LF. */
  lemma {:induction false} ParsePrinted(ds: seq<Record>, e: Text)
    requires Ending(e) && forall k :: 0 <= k < |ds| ==> |ds[k].v| == 10
    ensures Rows(Lines(AllPrinted(ds, e))) == RowsOf(ds)
    decreases |ds|
  {
    hide Fields, Hex, Slices, Strip;
    if ds != [] {
      var d := ds[0];
      var w := [d.id] + d.v;
      FieldsJoin(d.id, d.v);
      FieldsParse(w);
      StripHex(Fields(w));
      FirstLine(Fields(w), e, AllPrinted(ds[1..], e));
      RowsFirst(Fields(w), Lines(AllPrinted(ds[1..], e)));
      ParsePrinted(ds[1..], e);
    }
  }

  /** The bytes sent since `before` parse to one row, the wanted one. */
  predicate GivesBack(before: seq<u8>, after: seq<u8>, want: seq<nat>) {
    |before| <= |after| && Rows(Lines(after[|before|..])) == [want]
  }

  function Values(dev: Device, io: seq<Io>, id: u64): seq<nat> {
    assert |ADDRS| == 10;
    [id] + Counters(dev, io, 10)
  }

  /** The routine and the parser undo each other: what a run of dump sends parses to the
      id and the ten counters. */
  lemma DumpParses(m: Setup, a: int, k: Kit, c: Cfg, ra: int, id: u64) returns (t: nat)
    requires Loaded(m, k) && PrintCode(m.code, a, k) && SnapCode(m.code, a) && Called(m, c, ra) && c.s.pc == a
    requires c.s.r[3] == id && m.b.top - m.b.depth <= c.s.sp - 16
    ensures var d := Run(m, c, t);
      && d.ok && d.s.st == Running && d.s.pc == ra && d.s.sp == c.s.sp + 8
      && GivesBack(Sent(c.s.io), Sent(d.s.io), Values(m.dev, c.s.io, id))
  {
    hide Run, PrintCode, SnapCode, Loaded, Called, Sent, Lines, Rows, Hex, Fields;
    t := Dumps(m, a, k, c, ra, id);
    var v := Counters(m.dev, c.s.io, 10);
    var d := Record(id, v);
    ParsePrinted([d], [0x0D, 0x0A]);
    var l := Line(id, v);
    assert AllPrinted([], [0x0D, 0x0A]) == [];
    assert [d][1..] == [];
    assert AllPrinted([d], [0x0D, 0x0A]) == l by { Neutral(l); }
    assert RowsOf([d]) == [[id] + v] + RowsOf([d][1..]);
    assert RowsOf([d]) == [[id] + v];
    assert (Sent(c.s.io) + l)[|Sent(c.s.io)|..] == l;
  }

  /** The same with every instruction fetched from memory. */
  lemma DumpParsesFromMemory(m: Setup, a: int, k: Kit, c: Cfg, ra: int, id: u64, lo: int, hi: int) returns (t: nat)
    requires Loaded(m, k) && PrintCode(m.code, a, k) && SnapCode(m.code, a) && Called(m, c, ra) && c.s.pc == a
    requires c.s.r[3] == id && m.b.top - m.b.depth <= c.s.sp - 16
    requires Holds(c.s.mem, m.code, lo, hi) && Safe(m.b, lo, hi)
    ensures var d := MemRun(m.dev, c.s, t);
      d.st == Running && d.pc == ra && GivesBack(Sent(c.s.io), Sent(d.io), Values(m.dev, c.s.io, id))
  {
    hide Run, MemRun, Loaded, PrintCode, SnapCode, Called, GivesBack, Values, Sent, Holds, Safe, Counters, Line, MostlySame;
    t := DumpParses(m, a, k, c, ra, id);
    RunFromMemory(m, c, t, lo, hi);
  }
}
