/** Memory images of doublewords, as kasm writes them. */
module MemImage {
  import opened Bits

  type Image = map<int, u64>
  type Pair = (u32, u32)

  function Dw(a: int): int { a / 8 }
  predicate High(a: int) { a % 8 >= 4 }

  lemma WordParts(a: int)
    ensures 8 * Dw(a) + (if High(a) then 4 else 0) <= a < 8 * Dw(a) + (if High(a) then 8 else 4)
    ensures a % 4 == a - 8 * Dw(a) - (if High(a) then 4 else 0)
  {
    var q, r := a / 8, a % 8;
    assert a == 8 * q + r;
    if r >= 4 {
      Mod4(2 * q + 1, r - 4);
    } else {
      Mod4(2 * q, r);
    }
  }

  lemma Mod4(q: int, r: int)
    requires 0 <= r < 4
    ensures (4 * q + r) % 4 == r
  {
  }

  lemma SameWord(a: int, b: int)
    requires a % 4 == b % 4
    ensures Dw(a) == Dw(b) && High(a) == High(b) <==> a == b
  {
    hide Dw, High;
    WordParts(a);
    WordParts(b);
  }

  lemma SameDword(a: int, b: int)
    requires a % 8 == 0 && b % 8 == 0
    ensures Dw(a) == Dw(b) <==> a == b
  {
  }

  /** The word at byte address a. */
  function Half(image: Image, a: int): u32 {
    var d: int := if Dw(a) in image then image[Dw(a)] else 0;
    if High(a) then d / U32 else d % U32
  }

  /** Doubleword numbers that hold the n words from address base. */
  function CodeDwords(base: int, n: nat): set<int> {
    if n == 0 then {} else CodeDwords(base, n - 1) + {Dw(base + 4 * (n - 1))}
  }

  lemma {:induction false} InCode(base: int, n: nat, i: nat)
    requires i < n
    ensures Dw(base + 4 * i) in CodeDwords(base, n)
  {
    hide Dw;
    if i < n - 1 {
      InCode(base, n - 1, i);
    }
  }

  // ---- code words into pairs of halves

  function Put(p: map<int, Pair>, a: int, w: u32): map<int, Pair> {
    var v: Pair := if Dw(a) in p then p[Dw(a)] else (0, 0);
    p[Dw(a) := if High(a) then (v.0, w) else (w, v.1)]
  }

  function Pairs(base: int, ws: seq<u32>): map<int, Pair> {
    if ws == [] then map[] else Put(Pairs(base, ws[..|ws| - 1]), base + 4 * (|ws| - 1), ws[|ws| - 1])
  }

  method LayOut(base: int, ws: seq<u32>) returns (p: map<int, Pair>)
    ensures p == Pairs(base, ws)
  {
    p := map[];
    for i := 0 to |ws|
      invariant p == Pairs(base, ws[..i])
    {
      assert ws[..i + 1][..i] == ws[..i];
      p := Put(p, base + 4 * i, ws[i]);
    }
    assert ws[..|ws|] == ws;
  }

  lemma {:induction false} PairsKeys(base: int, ws: seq<u32>)
    ensures Pairs(base, ws).Keys == CodeDwords(base, |ws|)
  {
    hide Dw, High;
    if ws != [] {
      PairsKeys(base, ws[..|ws| - 1]);
    }
  }

  function Side(p: map<int, Pair>, a: int): u32 {
    var v: Pair := if Dw(a) in p then p[Dw(a)] else (0, 0);
    if High(a) then v.1 else v.0
  }

  lemma PutSide(p: map<int, Pair>, a: int, w: u32, b: int)
    requires a % 4 == b % 4
    ensures Side(Put(p, a, w), b) == if a == b then w else Side(p, b)
  {
    hide Dw, High;
    SameWord(a, b);
  }

  lemma {:induction false} PairsSide(base: int, ws: seq<u32>, i: nat)
    requires i < |ws|
    ensures Side(Pairs(base, ws), base + 4 * i) == ws[i]
  {
    hide Side, Put;
    var k := |ws| - 1;
    PutSide(Pairs(base, ws[..k]), base + 4 * k, ws[k], base + 4 * i);
    if i < k {
      PairsSide(base, ws[..k], i);
    }
  }

  function Joined(p: map<int, Pair>): Image {
    map k | k in p :: p[k].0 + p[k].1 * U32
  }

  lemma JoinedHalf(p: map<int, Pair>, a: int)
    requires Dw(a) in p
    ensures Half(Joined(p), a) == Side(p, a)
  {
    hide Dw, High;
    var v := p[Dw(a)];
    DivModUnique(v.1, v.0, U32);
  }

  // ---- with data

  function DataDwords(data: map<int, u64>): set<int> {
    set a | a in data :: Dw(a)
  }

  predicate Aligned(data: map<int, u64>) {
    forall a :: a in data ==> a % 8 == 0
  }

  method Pick(s: set<int>) returns (a: int)
    requires s != {}
    ensures a in s
  {
    if forall x :: x !in s {
      NoElements(s);
    }
    a :| a in s;
  }

  lemma NoElements(s: set<int>)
    requires forall x :: x !in s
    ensures s == {}
  {
    var e: set<int> := {};
    assert forall x :: x in s <==> x in e;
  }

  /** Data over an image; None when a data doubleword is there already. */
  method Overlay(code: Image, data: map<int, u64>) returns (r: Option<Image>)
    requires Aligned(data)
    ensures r.None? <==> exists a :: a in data && Dw(a) in code
    ensures r.Some? ==>
      && r.value.Keys == code.Keys + DataDwords(data)
      && (forall k :: k in code ==> r.value[k] == code[k])
      && (forall a :: a in data ==> Dw(a) in r.value && r.value[Dw(a)] == data[a])
  {
    hide Dw;
    var mem := code;
    var todo := data.Keys;
    while todo != {}
      invariant todo <= data.Keys
      invariant mem.Keys == code.Keys + (set a | a in data && a !in todo :: Dw(a))
      invariant forall a :: a in data && a !in todo ==> Dw(a) in mem && mem[Dw(a)] == data[a] && Dw(a) !in code
      invariant forall k :: k in code ==> mem[k] == code[k]
      decreases todo
    {
      var a := Pick(todo);
      forall b | b in data && b !in todo
        ensures Dw(b) != Dw(a)
      {
        SameDword(a, b);
      }
      if Dw(a) in mem {
        return None;
      }
      mem := mem[Dw(a) := data[a]];
      todo := todo - {a};
    }
    r := Some(mem);
  }

  /** `write_mem`: code and data side by side; None when a data doubleword is a code
      doubleword, or when there is nothing to write. */
  method WriteSparse(base: int, ws: seq<u32>, data: map<int, u64>) returns (r: Option<Image>)
    requires Aligned(data)
    ensures r.None? <==> (exists a :: a in data && Dw(a) in CodeDwords(base, |ws|)) || (ws == [] && data == map[])
    ensures r.Some? ==>
      && r.value.Keys == CodeDwords(base, |ws|) + DataDwords(data)
      && (forall i :: 0 <= i < |ws| ==> Half(r.value, base + 4 * i) == ws[i])
      && (forall a :: a in data ==> Dw(a) in r.value && r.value[Dw(a)] == data[a])
  {
    hide Dw, Pairs, CodeDwords, Half;
    var p := LayOut(base, ws);
    PairsKeys(base, ws);
    var code := Joined(p);
    assert code.Keys == CodeDwords(base, |ws|);
    r := Overlay(code, data);
    if r.Some? {
      var mem := r.value;
      forall i | 0 <= i < |ws|
        ensures Half(mem, base + 4 * i) == ws[i]
      {
        InCode(base, |ws|, i);
        JoinedHalf(p, base + 4 * i);
        PairsSide(base, ws, i);
        SameHalf(code, mem, base + 4 * i);
      }
      if |mem| == 0 {
        assert mem.Keys == {};
        Nothing(base, ws, data);
        r := None;
      } else if ws == [] {
        NoCode(base);
      }
    }
  }

  lemma SameHalf(x: Image, y: Image, a: int)
    requires Dw(a) in x && Dw(a) in y && x[Dw(a)] == y[Dw(a)]
    ensures Half(x, a) == Half(y, a)
  {
    hide Dw, High;
  }

  lemma NoCode(base: int)
    ensures CodeDwords(base, 0) == {}
  {
  }

  lemma Nothing(base: int, ws: seq<u32>, data: map<int, u64>)
    requires CodeDwords(base, |ws|) == {} && forall a :: a !in data
    ensures ws == [] && data == map[]
  {
    hide Dw;
    NoElements(data.Keys);
  }

  // ---- the dense boot image

  method Largest(s: set<int>) returns (m: int)
    requires s != {}
    ensures m in s && forall k :: k in s ==> k <= m
  {
    m := Pick(s);
    var todo := s - {m};
    while todo != {}
      invariant todo <= s && m in s && forall k :: k in s && k !in todo ==> k <= m
      decreases todo
    {
      var k := Pick(todo);
      if k > m {
        m := k;
      }
      todo := todo - {k};
    }
  }

  /** Data over an image, whatever was there. */
  method Cover(code: Image, data: map<int, u64>) returns (r: Image)
    requires Aligned(data)
    ensures r.Keys == code.Keys + DataDwords(data)
    ensures forall k :: k in code && k !in DataDwords(data) ==> r[k] == code[k]
    ensures forall a :: a in data ==> Dw(a) in r && r[Dw(a)] == data[a]
  {
    hide Dw;
    r := code;
    var todo := data.Keys;
    while todo != {}
      invariant todo <= data.Keys
      invariant r.Keys == code.Keys + (set a | a in data && a !in todo :: Dw(a))
      invariant forall a :: a in data && a !in todo ==> Dw(a) in r && r[Dw(a)] == data[a]
      invariant forall k :: k in code && k !in DataDwords(data) ==> r[k] == code[k]
      decreases todo
    {
      var a := Pick(todo);
      forall b | b in data && b !in todo
        ensures Dw(b) != Dw(a)
      {
        SameDword(a, b);
      }
      r := r[Dw(a) := data[a]];
      todo := todo - {a};
    }
  }

  /** A file of consecutive doublewords from 0 to the last of mem, the first replaced by
      the file's length in bytes, the gaps zero. */
  ghost predicate Dense(f: seq<nat>, mem: Image) {
    && |f| - 1 in mem && (forall k :: k in mem ==> 0 <= k < |f|) && f[0] == 8 * |f|
    && forall k :: 0 < k < |f| ==> f[k] == if k in mem then mem[k] else 0
  }

  /** `write_boot_mem`: data silently replaces code. */
  method WriteDense(base: nat, ws: seq<u32>, data: map<int, u64>) returns (r: Option<seq<nat>>, ghost mem: Image)
    requires Aligned(data) && forall a :: a in data ==> a >= 0
    ensures r.None? <==> ws == [] && data == map[]
    ensures r.Some? ==> Dense(r.value, mem)
    ensures mem.Keys == CodeDwords(base, |ws|) + DataDwords(data)
    ensures forall a :: a in data ==> Dw(a) in mem && mem[Dw(a)] == data[a]
    ensures forall i :: 0 <= i < |ws| && Dw(base + 4 * i) !in DataDwords(data) ==> Half(mem, base + 4 * i) == ws[i]
  {
    hide Dw, Pairs, CodeDwords, Half, High;
    var p := LayOut(base, ws);
    PairsKeys(base, ws);
    var dw := Cover(Joined(p), data);
    mem := dw;
    assert dw.Keys == CodeDwords(base, |ws|) + DataDwords(data);
    forall i | 0 <= i < |ws| && Dw(base + 4 * i) !in DataDwords(data)
      ensures Half(dw, base + 4 * i) == ws[i]
    {
      InCode(base, |ws|, i);
      JoinedHalf(p, base + 4 * i);
      PairsSide(base, ws, i);
      SameHalf(Joined(p), dw, base + 4 * i);
    }
    if ws == [] && data == map[] {
      return None, mem;
    }
    if ws != [] {
      InCode(base, |ws|, 0);
    } else {
      var a := Pick(data.Keys);
      assert Dw(a) in dw;
    }
    Used(base, ws, data);
    var f := Spread(dw);
    r := Some(f);
  }

  method Spread(dw: Image) returns (f: seq<nat>)
    requires dw.Keys != {} && forall k :: k in dw ==> k >= 0
    ensures Dense(f, dw)
  {
    var last := Largest(dw.Keys);
    f := seq(last + 1, k requires 0 <= k => if k == 0 then 8 * (last + 1) else if k in dw then dw[k] else 0);
  }

  lemma Used(base: nat, ws: seq<u32>, data: map<int, u64>)
    requires forall a :: a in data ==> a >= 0
    ensures forall k :: k in CodeDwords(base, |ws|) + DataDwords(data) ==> k >= 0
  {
    CodeAbove(base, |ws|);
  }

  lemma {:induction false} CodeAbove(base: nat, n: nat)
    ensures forall k :: k in CodeDwords(base, n) ==> k >= 0
  {
    if n > 0 {
      CodeAbove(base, n - 1);
    }
  }
}
