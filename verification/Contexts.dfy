/** Many hashes at once on one engine, their states saved and restored in any order. */
module Contexts {
  import opened Bits
  import opened Sha

  // ---- any interleaving of contexts

  /** What a driver may do next for context c; its state is kept in slots 4c to 4c+3.
      ReplayWrite restores with the next block written before the RESTORE. */
  datatype Act = Begin(c: nat) | Feed(c: nat) | Put(c: nat) | Resume(c: nat) | ResumeFeed(c: nat)
    | ReplayWrite(c: nat)

  /** Blocks hashed so far, blocks at the last save, and whose state is in the engine. */
  datatype Plan = Plan(fed: seq<nat>, saved: seq<Option<nat>>, current: Option<nat>)

  function Blocks(msg: Bytes): nat { |Padded(msg, 0)| / 64 }

  function BlockOf(msg: Bytes, k: nat): (b: Bytes)
    requires k < Blocks(msg)
    ensures |b| == 64
  {
    Padded(msg, 0)[64 * k..64 * k + 64]
  }

  /** A context may go on only if its state is in the engine, or saved and up to date. */
  predicate Legal(msgs: seq<Bytes>, p: Plan, a: Act) {
    && |p.fed| == |p.saved| == |msgs| && a.c < |msgs|
    && match a
       case Begin(_) => true
       case Feed(c) => p.current == Some(c) && p.fed[c] < Blocks(msgs[c])
       case Put(c) => p.current == Some(c)
       case Resume(c) => p.saved[c] == Some(p.fed[c])
       case ResumeFeed(c) => p.saved[c] == Some(p.fed[c]) && p.fed[c] < Blocks(msgs[c])
       case ReplayWrite(c) => p.saved[c] == Some(p.fed[c]) && p.fed[c] < Blocks(msgs[c])
  }

  function Next(msgs: seq<Bytes>, p: Plan, a: Act): Plan
    requires Legal(msgs, p, a)
  {
    match a
    case Begin(c) => p.(fed := p.fed[c := 0], current := Some(c))
    case Feed(c) => p.(fed := p.fed[c := p.fed[c] + 1])
    case Put(c) => p.(saved := p.saved[c := Some(p.fed[c])])
    case Resume(c) => p.(current := Some(c))
    case ResumeFeed(c) => p.(fed := p.fed[c := p.fed[c] + 1], current := Some(c))
    case ReplayWrite(c) => p.(fed := p.fed[c := p.fed[c] + 1], current := Some(c))
  }

  function OpsOf(msgs: seq<Bytes>, p: Plan, a: Act): seq<Op>
    requires Legal(msgs, p, a)
  {
    match a
    case Begin(_) => [Ctrl(1)]
    case Feed(c) => FeedOps(BlockOf(msgs[c], p.fed[c]))
    case Put(c) => SaveTo(4 * c)
    case Resume(c) => ResumeOps(4 * c)
    case ResumeFeed(c) => ResumeFeedOps(4 * c, BlockOf(msgs[c], p.fed[c]))
    case ReplayWrite(c) => ReplayWriteOps(4 * c, BlockOf(msgs[c], p.fed[c]))
  }

  predicate AllLegal(msgs: seq<Bytes>, p: Plan, acts: seq<Act>)
    decreases |acts|
  {
    acts == [] || (Legal(msgs, p, acts[0]) && AllLegal(msgs, Next(msgs, p, acts[0]), acts[1..]))
  }

  function Finish(msgs: seq<Bytes>, p: Plan, acts: seq<Act>): Plan
    requires AllLegal(msgs, p, acts)
    decreases |acts|
  {
    if acts == [] then p else Finish(msgs, Next(msgs, p, acts[0]), acts[1..])
  }

  function Program(msgs: seq<Bytes>, p: Plan, acts: seq<Act>): seq<Op>
    requires AllLegal(msgs, p, acts)
    decreases |acts|
  {
    if acts == [] then [] else OpsOf(msgs, p, acts[0]) + Program(msgs, Next(msgs, p, acts[0]), acts[1..])
  }

  /** The hash state of a message after its first k blocks. */
  function Partial(c: Core, msg: Bytes, k: nat): Bytes
    requires k <= Blocks(msg)
  {
    Chain(c, c.iv, Padded(msg, 0)[..64 * k])
  }

  lemma PartialNext(c: Core, msg: Bytes, k: nat)
    requires k < Blocks(msg)
    ensures Partial(c, msg, k + 1) == c.compress(Partial(c, msg, k), BlockOf(msg, k))
  {
    hide Padded;
    var s := Padded(msg, 0);
    assert s[..64 * (k + 1)] == s[..64 * k] + s[64 * k..64 * k + 64];
    ChainSplit(c, c.iv, s[..64 * k], s[64 * k..64 * k + 64]);
    ChainOne(c, Partial(c, msg, k), BlockOf(msg, k));
  }

  lemma PartialZero(c: Core, msg: Bytes)
    ensures Partial(c, msg, 0) == c.iv
  {
  }

  lemma PartialWhole(c: Core, msg: Bytes)
    ensures Partial(c, msg, Blocks(msg)) == Hash(c, msg)
  {
    PaddedWhole(msg, 0);
    assert Padded(msg, 0)[..64 * Blocks(msg)] == Padded(msg, 0);
  }

  ghost predicate Tracked(c: Core, msgs: seq<Bytes>, p: Plan, d: Driver) {
    && Shaped(d.e) && |p.fed| == |p.saved| == |msgs|
    && (forall k :: 0 <= k < |msgs| ==> p.fed[k] <= Blocks(msgs[k]))
    && (p.current.Some? ==> p.current.value < |msgs| && State(d) == Partial(c, msgs[p.current.value], p.fed[p.current.value]))
    && forall k :: 0 <= k < |msgs| && p.saved[k].Some? ==>
         p.saved[k].value <= Blocks(msgs[k]) && Stored(d, 4 * k, Partial(c, msgs[k], p.saved[k].value))
  }

  lemma SlotsKept(d: Driver, d': Driver, msgs: seq<Bytes>, c: nat, k: nat, h: Bytes)
    requires Stored(d, 4 * k, h) && OtherSlots(d, d', 4 * c) && k != c
    ensures Stored(d', 4 * k, h)
  {
    hide Words;
    forall i | 0 <= i < 4
      ensures SlotAt(d', 4 * k, i) == Some(Words(h)[i])
    {
      assert SlotAt(d, 4 * k, i) == Some(Words(h)[i]);
    }
  }

  lemma SlotsSame(d: Driver, d': Driver, base: nat, h: Bytes)
    requires Stored(d, base, h) && d'.slots == d.slots
    ensures Stored(d', base, h)
  {
    hide Words;
    forall i | 0 <= i < 4
      ensures SlotAt(d', base, i) == Some(Words(h)[i])
    {
      assert SlotAt(d, base, i) == Some(Words(h)[i]);
    }
  }

  /** The engine's state after an action that leaves the slots alone. */
  lemma ActState(c: Core, msgs: seq<Bytes>, p: Plan, d: Driver, a: Act)
    requires Sound(c) && Tracked(c, msgs, p, d) && Legal(msgs, p, a) && !a.Put?
    ensures var d', q := Script(c, d, OpsOf(msgs, p, a)), Next(msgs, p, a);
      Shaped(d'.e) && d'.slots == d.slots && q.fed[a.c] <= Blocks(msgs[a.c]) && State(d') == Partial(c, msgs[a.c], q.fed[a.c])
  {
    hide Script, Blocks, BlockOf, Partial, Stored, State, FeedOps, ResumeOps, ResumeFeedOps, ReplayWriteOps;
    var k := p.fed[a.c];
    match a {
      case Begin(_) => Begins(c, d); PartialZero(c, msgs[a.c]);
      case Feed(_) => Feeds(c, d, BlockOf(msgs[a.c], k)); PartialNext(c, msgs[a.c], k);
      case Resume(_) => Resumes(c, d, 4 * a.c, Partial(c, msgs[a.c], k));
      case ResumeFeed(_) =>
        ResumeFeeds(c, d, 4 * a.c, Partial(c, msgs[a.c], k), BlockOf(msgs[a.c], k));
        PartialNext(c, msgs[a.c], k);
      case ReplayWrite(_) =>
        ReplayWrites(c, d, 4 * a.c, Partial(c, msgs[a.c], k), BlockOf(msgs[a.c], k));
        PartialNext(c, msgs[a.c], k);
    }
  }

  lemma Acted(c: Core, msgs: seq<Bytes>, p: Plan, d: Driver, a: Act)
    requires Sound(c) && Tracked(c, msgs, p, d) && Legal(msgs, p, a)
    ensures Tracked(c, msgs, Next(msgs, p, a), Script(c, d, OpsOf(msgs, p, a)))
  {
    hide Script, Blocks, BlockOf, Partial, Stored, FeedOps, ResumeOps, ResumeFeedOps, ReplayWriteOps, Flat;
    var d', q := Script(c, d, OpsOf(msgs, p, a)), Next(msgs, p, a);
    if a.Put? {
      Saved(c, d, 4 * a.c);
      forall k | 0 <= k < |msgs| && q.saved[k].Some?
        ensures Stored(d', 4 * k, Partial(c, msgs[k], q.saved[k].value))
      {
        if k != a.c {
          SlotsKept(d, d', msgs, a.c, k, Partial(c, msgs[k], q.saved[k].value));
        }
      }
    } else {
      ActState(c, msgs, p, d, a);
      forall k | 0 <= k < |msgs| && q.saved[k].Some?
        ensures Stored(d', 4 * k, Partial(c, msgs[k], q.saved[k].value))
      {
        SlotsSame(d, d', 4 * k, Partial(c, msgs[k], q.saved[k].value));
      }
    }
  }

  lemma {:induction false} AllActed(c: Core, msgs: seq<Bytes>, p: Plan, d: Driver, acts: seq<Act>)
    requires Sound(c) && Tracked(c, msgs, p, d) && AllLegal(msgs, p, acts)
    ensures Tracked(c, msgs, Finish(msgs, p, acts), Script(c, d, Program(msgs, p, acts)))
    decreases |acts|
  {
    hide Script, Tracked, Legal, Next, OpsOf;
    if acts == [] {
      ScriptNone(c, d);
    } else {
      var ops := OpsOf(msgs, p, acts[0]);
      Acted(c, msgs, p, d, acts[0]);
      AllActed(c, msgs, Next(msgs, p, acts[0]), Script(c, d, ops), acts[1..]);
      ScriptSplit(c, d, ops, Program(msgs, Next(msgs, p, acts[0]), acts[1..]));
    }
  }

  function NothingYet(n: nat): Plan { Plan(seq(n, _ => 0), seq(n, _ => None), None) }

  /** Any number of messages, any legal order of beginning, feeding, saving and resuming
      their hashes, separate or combined: a context whose blocks have all been fed and
      whose state is in the engine shows the one-shot hash of its message. */
  lemma EveryDigest(c: Core, msgs: seq<Bytes>, d: Driver, acts: seq<Act>, k: nat)
    requires Sound(c) && Shaped(d.e) && k < |msgs| && AllLegal(msgs, NothingYet(|msgs|), acts)
    requires var p := Finish(msgs, NothingYet(|msgs|), acts);
      |p.fed| == |msgs| && p.current == Some(k) && p.fed[k] == Blocks(msgs[k])
    ensures State(Script(c, d, Program(msgs, NothingYet(|msgs|), acts))) == Hash(c, msgs[k])
  {
    hide Script, AllLegal, Finish, Program, Blocks, Partial;
    AllActed(c, msgs, NothingYet(|msgs|), d, acts);
    PartialWhole(c, msgs[k]);
  }
}
