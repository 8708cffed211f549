/** Sattolo's shuffle: swapping each entry with an earlier one turns the identity
    into one single cycle, whichever earlier entries are chosen. */
module Cycles {
  import opened Bits

  /** Follow the entries t times from x. */
  function Walk(b: seq<int>, x: int, t: nat): int
    decreases t
  {
    if t == 0 then x
    else
      var y := Walk(b, x, t - 1);
      if 0 <= y < |b| then b[y] else y
  }

  ghost predicate Reaches(b: seq<int>, x: int, y: int) {
    exists t :: 0 <= t < |b| && Walk(b, x, t) == y
  }

  /** From any entry, n steps visit every entry exactly once and come back. */
  ghost predicate SingleCycle(b: seq<int>) {
    var n := |b|;
    && (forall x :: 0 <= x < n ==> 0 <= b[x] < n)
    && (forall x :: 0 <= x < n ==> Walk(b, x, n) == x)
    && (forall x, y :: 0 <= x < n && 0 <= y < n ==> Reaches(b, x, y))
    && (forall x, s, t :: 0 <= x < n && 0 <= s < t < n ==> Walk(b, x, s) != Walk(b, x, t))
  }

  function Swapped(b: seq<int>, i: int, j: int): seq<int>
    requires 0 <= i < |b| && 0 <= j < |b|
  {
    b[i := b[j]][j := b[i]]
  }

  /** The shuffle for i = n-1 down to 1, with the j's that were drawn. */
  function Shuffled(b: seq<int>, i: nat, js: seq<nat>): seq<int>
    requires i < |b| && |js| == i && forall k :: 0 <= k < i ==> js[k] <= k
    decreases i
  {
    if i == 0 then b else Shuffled(Swapped(b, i, js[i - 1]), i - 1, js[..i - 1])
  }

  function Identity(n: nat): seq<int> { seq(n, k => k) }

  // ---- cycle decomposition

  function After(c: seq<int>, t: int): int
    requires 0 <= t < |c|
  {
    if t + 1 < |c| then c[t + 1] else c[0]
  }

  /** A cycle of the buffer, listed in walking order. */
  ghost predicate IsCycle(b: seq<int>, c: seq<int>) {
    |c| > 0 && forall t :: 0 <= t < |c| ==> 0 <= c[t] < |b| && b[c[t]] == After(c, t)
  }

  /** Cycle k starts at entry k; own and pos locate every entry in its cycle. */
  datatype Parts = Parts(cs: seq<seq<int>>, own: seq<int>, pos: seq<int>)

  ghost predicate Located(p: Parts) {
    && |p.own| == |p.pos|
    && (forall x :: 0 <= x < |p.own| ==>
          0 <= p.own[x] < |p.cs| && 0 <= p.pos[x] < |p.cs[p.own[x]]| && p.cs[p.own[x]][p.pos[x]] == x)
    && (forall k, t :: 0 <= k < |p.cs| && 0 <= t < |p.cs[k]| ==>
          && 0 <= p.cs[k][t] < |p.own|
          && p.own[p.cs[k][t]] == k && p.pos[p.cs[k][t]] == t)
  }

  ghost predicate Decomposed(b: seq<int>, p: Parts) {
    && |p.own| == |b| && Located(p) && Total(p.cs) == |b|
    && forall k :: 0 <= k < |p.cs| ==> IsCycle(b, p.cs[k]) && p.cs[k][0] == k
  }

  function Total(cs: seq<seq<int>>): nat {
    if cs == [] then 0 else |cs[|cs| - 1]| + Total(cs[..|cs| - 1])
  }

  lemma {:induction false} TotalUpdate(cs: seq<seq<int>>, j: nat, c: seq<int>)
    requires j < |cs|
    ensures Total(cs[j := c]) == Total(cs) - |cs[j]| + |c|
  {
    var i := |cs| - 1;
    if j == i {
      assert cs[j := c][..i] == cs[..i];
    } else {
      assert cs[j := c][..i] == cs[..i][j := c];
      TotalUpdate(cs[..i], j, c);
    }
  }

  lemma {:induction false} TotalSingles(n: nat)
    ensures Total(seq(n, k => [k])) == n
  {
    if n != 0 {
      assert seq(n, k => [k])[..n - 1] == seq(n - 1, k => [k]);
      TotalSingles(n - 1);
    }
  }

  lemma Start(n: nat)
    ensures Decomposed(Identity(n), Parts(seq(n, k => [k]), Identity(n), seq(n, k => 0)))
  {
    TotalSingles(n);
  }

  /** The cycles of i and j after their entries are swapped. */
  function Spliced(ci: seq<int>, cj: seq<int>): seq<int>
    requires |ci| > 0 && |cj| > 0
  {
    [cj[0]] + ci[1..] + [ci[0]] + cj[1..]
  }

  function Merged(p: Parts, j: nat): Parts
    requires |p.cs| > 0 && j < |p.cs| - 1 && |p.own| == |p.pos|
    requires forall k :: 0 <= k < |p.cs| ==> |p.cs[k]| > 0
  {
    var i := |p.cs| - 1;
    Parts(p.cs[..i][j := Spliced(p.cs[i], p.cs[j])],
          seq(|p.own|, x requires 0 <= x < |p.own| => if p.own[x] == i then j else p.own[x]),
          seq(|p.own|, x requires 0 <= x < |p.own| =>
            if p.own[x] == i then (if p.pos[x] == 0 then |p.cs[i]| else p.pos[x])
            else if p.own[x] == j && p.pos[x] != 0 then p.pos[x] + |p.cs[i]|
            else p.pos[x]))
  }

  lemma MergeLocated(p: Parts, j: nat)
    requires Located(p) && |p.cs| > 0 && j < |p.cs| - 1
    requires forall k :: 0 <= k < |p.cs| ==> |p.cs[k]| > 0
    ensures Located(Merged(p, j))
  {
    hide Total, Walk;
    var q := Merged(p, j);
    var i := |p.cs| - 1;
    var ci, cj := p.cs[i], p.cs[j];
    assert forall k :: 0 <= k < i && k != j ==> q.cs[k] == p.cs[k];
    assert q.cs[j] == Spliced(ci, cj);
    forall k, t | 0 <= k < |q.cs| && 0 <= t < |q.cs[k]|
      ensures 0 <= q.cs[k][t] < |q.own| && q.own[q.cs[k][t]] == k && q.pos[q.cs[k][t]] == t
    {
      if k == j {
        SplicedAt(ci, cj, t);
      }
    }
    forall x | 0 <= x < |q.own|
      ensures 0 <= q.own[x] < |q.cs| && 0 <= q.pos[x] < |q.cs[q.own[x]]| && q.cs[q.own[x]][q.pos[x]] == x
    {
      if q.own[x] == j {
        SplicedAt(ci, cj, q.pos[x]);
      }
    }
  }

  lemma SplicedAt(ci: seq<int>, cj: seq<int>, t: nat)
    requires |ci| > 0 && |cj| > 0 && t < |ci| + |cj|
    ensures |Spliced(ci, cj)| == |ci| + |cj|
    ensures Spliced(ci, cj)[t]
      == if t == 0 then cj[0] else if t < |ci| then ci[t] else if t == |ci| then ci[0] else cj[t - |ci|]
  {
  }

  lemma SpliceCycle(b: seq<int>, ci: seq<int>, cj: seq<int>)
    requires IsCycle(b, ci) && IsCycle(b, cj) && ci[0] != cj[0]
    requires forall t :: 0 < t < |ci| ==> ci[t] != ci[0] && ci[t] != cj[0]
    requires forall t :: 0 < t < |cj| ==> cj[t] != ci[0] && cj[t] != cj[0]
    ensures IsCycle(Swapped(b, ci[0], cj[0]), Spliced(ci, cj))
  {
    hide Spliced;
    var c, d := Spliced(ci, cj), Swapped(b, ci[0], cj[0]);
    SplicedAt(ci, cj, 0);
    forall t | 0 <= t < |c|
      ensures 0 <= c[t] < |d| && d[c[t]] == After(c, t)
    {
      SplicedAt(ci, cj, t);
      if t + 1 < |c| {
        SplicedAt(ci, cj, t + 1);
      }
      if t == 0 {
        assert b[ci[0]] == After(ci, 0);
        assert c[1] == b[ci[0]];
      } else if t < |ci| {
        assert d[c[t]] == b[ci[t]];
      } else if t == |ci| {
        assert d[c[t]] == b[cj[0]];
      } else {
        assert d[c[t]] == b[cj[t - |ci|]];
      }
    }
  }

  /** One swap with an earlier entry joins two cycles. */
  lemma Merge(b: seq<int>, p: Parts, j: nat) returns (q: Parts)
    requires Decomposed(b, p) && 0 < |p.cs| <= |b| && j < |p.cs| - 1
    ensures Decomposed(Swapped(b, |p.cs| - 1, j), q) && |q.cs| == |p.cs| - 1
  {
    hide Walk, Total, Spliced, After;
    var i := |p.cs| - 1;
    var d := Swapped(b, i, j);
    var ci, cj := p.cs[i], p.cs[j];
    q := Merged(p, j);
    MergeLocated(p, j);
    assert |Spliced(ci, cj)| == |ci| + |cj| && Spliced(ci, cj)[0] == j by { SplicedAt(ci, cj, 0); }
    assert Total(p.cs) == |ci| + Total(p.cs[..i]) by { TotalLast(p.cs); }
    TotalUpdate(p.cs[..i], j, Spliced(ci, cj));
    forall k | 0 <= k < i
      ensures IsCycle(d, q.cs[k]) && q.cs[k][0] == k
    {
      if k == j {
        Apart(p, i, j);
        Apart(p, j, i);
        SpliceCycle(b, ci, cj);
      } else {
        Apart(p, k, i);
        Apart(p, k, j);
      }
    }
  }

  lemma TotalLast(cs: seq<seq<int>>)
    requires cs != []
    ensures Total(cs) == |cs[|cs| - 1]| + Total(cs[..|cs| - 1])
  {
  }

  /** Different cycles share no entry, and a cycle visits its start once. */
  lemma Apart(p: Parts, k: nat, l: nat)
    requires Located(p) && k < |p.cs| && l < |p.cs| && k != l && |p.cs[l]| > 0 && p.cs[l][0] == l
    requires |p.cs[k]| > 0 && p.cs[k][0] == k
    ensures forall t :: 0 <= t < |p.cs[k]| ==> p.cs[k][t] != l
    ensures forall t :: 0 < t < |p.cs[k]| ==> p.cs[k][t] != k
  {
    forall t | 0 <= t < |p.cs[k]|
      ensures p.cs[k][t] != l && (t > 0 ==> p.cs[k][t] != k)
    {
      assert p.own[p.cs[k][t]] == k && p.pos[p.cs[k][t]] == t;
      assert p.own[p.cs[l][0]] == l && p.pos[p.cs[k][0]] == 0;
    }
  }

  // ---- one cycle left

  lemma {:induction false} WalkCycle(b: seq<int>, c: seq<int>, s: nat, t: nat)
    requires IsCycle(b, c) && s < |c|
    ensures Walk(b, c[s], t) == c[(s + t) % |c|]
    decreases t
  {
    hide IsCycle, Walk;
    CycleStep(b, c, s);
    if t == 0 {
      Small(s, |c|);
      WalkNone(b, c[s]);
    } else {
      WalkCycle(b, c, s, t - 1);
      Wrap(s + t - 1, |c|);
      CycleStep(b, c, (s + t - 1) % |c|);
      WalkNext(b, c[s], t);
    }
  }

  lemma CycleStep(b: seq<int>, c: seq<int>, u: nat)
    requires IsCycle(b, c) && u < |c|
    ensures 0 <= c[u] < |b| && b[c[u]] == After(c, u)
  {
  }

  lemma WalkNext(b: seq<int>, x: int, t: nat)
    requires t > 0 && 0 <= Walk(b, x, t - 1) < |b|
    ensures Walk(b, x, t) == b[Walk(b, x, t - 1)]
  {
  }

  lemma Small(a: nat, n: nat)
    requires a < n
    ensures a % n == a
  {
  }

  lemma Wrap(a: nat, n: nat)
    requires n > 0
    ensures 0 <= a % n < n
    ensures (a + 1) % n == if a % n + 1 < n then a % n + 1 else 0
  {
    var q, r := a / n, a % n;
    assert a == q * n + r;
    if r + 1 < n {
      DivModUnique(q, r + 1, n);
    } else {
      assert a + 1 == (q + 1) * n;
      DivModUnique(q + 1, 0, n);
    }
  }

  /** Where the walk from x is after t steps, in a single cycle c. */
  lemma WalkAt(b: seq<int>, p: Parts, x: int, t: nat) returns (u: nat)
    requires Decomposed(b, p) && |p.cs| == 1 && 0 <= x < |b| && t <= |b|
    ensures |p.cs[0]| == |b| && 0 <= p.pos[x] < |b|
    ensures u == if p.pos[x] + t < |b| then p.pos[x] + t else p.pos[x] + t - |b|
    ensures u < |b| && Walk(b, x, t) == p.cs[0][u] && p.pos[p.cs[0][u]] == u
  {
    hide Walk, Total, After;
    TotalLast(p.cs);
    assert Total([]) == 0 by { TotalNone(); }
    assert p.own[x] == 0 && p.cs[0][p.pos[x]] == x;
    WalkCycle(b, p.cs[0], p.pos[x], t);
    Around(p.pos[x] + t, |b|);
    u := if p.pos[x] + t < |b| then p.pos[x] + t else p.pos[x] + t - |b|;
  }

  lemma TotalNone()
    ensures Total([]) == 0
  {
  }

  lemma OneCycle(b: seq<int>, p: Parts)
    requires Decomposed(b, p) && |p.cs| == 1
    ensures SingleCycle(b)
  {
    hide Walk, Decomposed;
    var n := |b|;
    forall x | 0 <= x < n
      ensures 0 <= b[x] < n
    {
      var u := WalkAt(b, p, x, 0);
      assert Walk(b, x, 0) == x by { WalkNone(b, x); }
      InRange(b, p, u);
    }
    forall x | 0 <= x < n
      ensures Walk(b, x, n) == x
    {
      var u := WalkAt(b, p, x, n);
      var v := WalkAt(b, p, x, 0);
      assert Walk(b, x, 0) == x by { WalkNone(b, x); }
    }
    forall x, y | 0 <= x < n && 0 <= y < n
      ensures Reaches(b, x, y)
    {
      var v := WalkAt(b, p, y, 0);
      assert Walk(b, y, 0) == y by { WalkNone(b, y); }
      var i := WalkAt(b, p, x, 0);
      var t := if i <= v then v - i else v - i + n;
      var u := WalkAt(b, p, x, t);
      assert Walk(b, x, t) == y;
    }
    forall x, s, t | 0 <= x < n && 0 <= s < t < n
      ensures Walk(b, x, s) != Walk(b, x, t)
    {
      var u := WalkAt(b, p, x, s);
      var v := WalkAt(b, p, x, t);
    }
  }

  lemma InRange(b: seq<int>, p: Parts, u: nat)
    requires Decomposed(b, p) && |p.cs| == 1 && u < |p.cs[0]|
    ensures 0 <= p.cs[0][u] < |b| && 0 <= b[p.cs[0][u]] < |b|
  {
    hide Walk, Total;
    var c := p.cs[0];
    assert b[c[u]] == After(c, u);
  }

  lemma WalkNone(b: seq<int>, x: int)
    ensures Walk(b, x, 0) == x
  {
  }

  lemma Around(a: nat, n: nat)
    requires a < 2 * n
    ensures a % n == if a < n then a else a - n
  {
    if a < n {
      Small(a, n);
    } else {
      DivModUnique(1, a - n, n);
    }
  }

  /** Whatever earlier entries are drawn, the shuffle joins all cycles into one. */
  lemma {:induction false} ShuffleIsOneCycle(b: seq<int>, p: Parts, i: nat, js: seq<nat>)
    requires Decomposed(b, p) && |p.cs| == i + 1 && i < |b| && |js| == i
    requires forall k :: 0 <= k < i ==> js[k] <= k
    ensures SingleCycle(Shuffled(b, i, js))
    decreases i
  {
    hide SingleCycle, Located, Total;
    if i == 0 {
      OneCycle(b, p);
    } else {
      var q := Merge(b, p, js[i - 1]);
      ShuffleIsOneCycle(Swapped(b, i, js[i - 1]), q, i - 1, js[..i - 1]);
    }
  }

  /** Sattolo: every choice of j's (each below its i) gives a single n-cycle. */
  lemma Sattolo(n: nat, js: seq<nat>)
    requires n >= 1 && |js| == n - 1 && forall k :: 0 <= k < n - 1 ==> js[k] <= k
    ensures SingleCycle(Shuffled(Identity(n), n - 1, js))
  {
    hide SingleCycle;
    Start(n);
    ShuffleIsOneCycle(Identity(n), Parts(seq(n, k => [k]), Identity(n), seq(n, k => 0)), n - 1, js);
  }

  // ---- what a chase adds up

  /** Sum of the entries visited by the first t steps. */
  function WalkSum(b: seq<int>, x: int, t: nat): int {
    if t == 0 then 0 else WalkSum(b, x, t - 1) + Walk(b, x, t)
  }

  function Sum(w: seq<int>): int {
    if w == [] then 0 else Sum(w[..|w| - 1]) + w[|w| - 1]
  }

  function Without(w: seq<int>, p: nat): (v: seq<int>)
    requires p < |w|
    ensures |v| == |w| - 1
    ensures forall k :: 0 <= k < |v| ==> v[k] == w[if k < p then k else k + 1]
  {
    w[..p] + w[p + 1..]
  }

  lemma {:induction false} SumWithout(w: seq<int>, p: nat)
    requires p < |w|
    ensures Sum(w) == Sum(Without(w, p)) + w[p]
    decreases |w|
  {
    var e := |w| - 1;
    if p == e {
      assert Without(w, p) == w[..e];
    } else {
      var v := Without(w, p);
      assert v[..|v| - 1] == Without(w[..e], p);
      SumWithout(w[..e], p);
    }
  }

  /** Distinct numbers that are exactly 0, ..., n-1. */
  ghost predicate Permutation(w: seq<int>) {
    && (forall k :: 0 <= k < |w| ==> 0 <= w[k] < |w|)
    && (forall y :: 0 <= y < |w| ==> y in w)
    && (forall k, l :: 0 <= k < l < |w| ==> w[k] != w[l])
  }

  lemma WithoutLast(w: seq<int>, p: nat)
    requires Permutation(w) && p < |w| && w[p] == |w| - 1
    ensures Permutation(Without(w, p))
  {
    hide Without;
    var v := Without(w, p);
    forall y | 0 <= y < |v|
      ensures y in v
    {
      assert y in w;
      var k :| 0 <= k < |w| && w[k] == y;
      assert v[if k < p then k else k - 1] == y;
    }
    forall k | 0 <= k < |v|
      ensures 0 <= v[k] < |v|
    {
      var i := if k < p then k else k + 1;
      assert v[k] == w[i] && w[i] != w[p];
    }
  }

  lemma {:induction false} PermutationSum(w: seq<int>)
    requires Permutation(w)
    ensures 2 * Sum(w) == |w| * (|w| - 1)
    decreases |w|
  {
    hide Without, Permutation;
    var n := |w|;
    if n != 0 {
      assert n - 1 in w by { Covers(w, n - 1); }
      var p :| 0 <= p < n && w[p] == n - 1;
      WithoutLast(w, p);
      SumWithout(w, p);
      PermutationSum(Without(w, p));
      assert n * (n - 1) == (n - 1) * (n - 2) + 2 * (n - 1);
    }
  }

  lemma Covers(w: seq<int>, y: int)
    requires Permutation(w) && 0 <= y < |w|
    ensures y in w
  {
  }

  lemma {:induction false} WalkInRange(b: seq<int>, x: int, t: nat)
    requires 0 <= x < |b| && forall k :: 0 <= k < |b| ==> 0 <= b[k] < |b|
    ensures 0 <= Walk(b, x, t) < |b|
    decreases t
  {
    if t != 0 {
      WalkInRange(b, x, t - 1);
    }
  }

  /** The entries visited, the start included. */
  function Visited(b: seq<int>, x: int, t: nat): (w: seq<int>)
    ensures |w| == t && forall k :: 0 <= k < t ==> w[k] == Walk(b, x, k)
  {
    if t == 0 then [] else Visited(b, x, t - 1) + [Walk(b, x, t - 1)]
  }

  lemma SumSnoc(w: seq<int>, y: int)
    ensures Sum([]) == 0 && Sum(w + [y]) == Sum(w) + y
  {
    assert (w + [y])[..|w|] == w;
  }

  /** The last step of the sum and of the list. */
  lemma LastStep(b: seq<int>, x: int, t: nat)
    ensures t == 0 ==> WalkSum(b, x, t) == 0 && Visited(b, x, t) == []
    ensures t > 0 ==> WalkSum(b, x, t) == WalkSum(b, x, t - 1) + Walk(b, x, t)
    ensures t > 0 ==> Visited(b, x, t) == Visited(b, x, t - 1) + [Walk(b, x, t - 1)]
  {
    hide Walk;
  }

  lemma {:induction false} SumOfWalk(b: seq<int>, x: int, t: nat)
    ensures WalkSum(b, x, t) + x == Sum(Visited(b, x, t)) + Walk(b, x, t)
  {
    hide *;
    LastStep(b, x, t);
    if t == 0 {
      WalkNone(b, x);
      SumSnoc([], 0);
    } else {
      SumSnoc(Visited(b, x, t - 1), Walk(b, x, t - 1));
      SumOfWalk(b, x, t - 1);
    }
  }

  /** A full turn of a single cycle adds up to 0 + 1 + ... + (n-1). */
  lemma FullTurnSum(b: seq<int>, x: int)
    requires SingleCycle(b) && 0 <= x < |b|
    ensures 2 * WalkSum(b, x, |b|) == |b| * (|b| - 1)
  {
    hide Walk, WalkSum, Sum, Visited;
    var w := Visited(b, x, |b|);
    forall k | 0 <= k < |b|
      ensures 0 <= w[k] < |b|
    {
      WalkInRange(b, x, k);
    }
    forall y | 0 <= y < |b|
      ensures y in w
    {
      assert Reaches(b, x, y);
      var t :| 0 <= t < |b| && Walk(b, x, t) == y;
      assert w[t] == y;
    }
    PermutationSum(w);
    SumOfWalk(b, x, |b|);
  }
}
