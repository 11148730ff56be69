/** A region's counters count only while the region is open on the thread: what they come to then, and
    exactly when they still recover what ran. */
module Gating {
  import opened Collections
  import opened Cfg
  import opened Grouping
  import opened LoopTree
  import opened Plan
  import opened Placement
  import R = Regions

  // ---- The events of a region along a run ------------------------------------------

  /** The timing events inserted for a region: one start event, at the head of block `begin` and before
      every counter there, and `closes(b)` end events at the end of each block `b`. */
  datatype Extent = Extent(begin: Block, closes: Block -> nat)

  ghost function Starts(ex: Extent, b: Block): nat {
    if b == ex.begin then 1 else 0
  }

  /** How often the region is open on arrival at step `i` of the run, if it is closed at the start. */
  ghost function DepthAt(ex: Extent, w: seq<Block>, i: nat): nat
    requires i <= |w|
  {
    if i == 0 then 0
    else R.Minus(DepthAt(ex, w, i - 1) + Starts(ex, w[i - 1]), ex.closes(w[i - 1]))
  }

  /** The region is open when the counters of step `i` are met. */
  ghost predicate OpenAt(ex: Extent, w: seq<Block>, i: nat)
    requires i < |w|
  {
    0 < DepthAt(ex, w, i) + Starts(ex, w[i])
  }

  /** The block a counter's increment is placed in. */
  ghost function Place(pr: Program, c: Counter): Block
    requires InTree(pr, c)
  {
    match c
    case Anchor(bs) => bs[0]
    case Hoist(top, _) => pr.pre[top]
    case Dynamic(k, _) => pr.pre[k]
  }

  /** By how much the counter is advanced at step `i`. */
  ghost function Amount(pr: Program, c: Counter, i: nat): nat {
    if c.Dynamic? then pr.btc(c.loop, i) + 1 else 1
  }

  /** The increments a counter is given at step `i` and later, whether or not they count. */
  ghost function Offered(pr: Program, w: seq<Block>, c: Counter, i: nat): nat
    requires InTree(pr, c) && i <= |w|
    decreases |w| - i
  {
    if i == |w| then 0
    else (if w[i] == Place(pr, c) then Amount(pr, c, i) else 0) + Offered(pr, w, c, i + 1)
  }

  /** Those of them that come while the region is open. */
  ghost function Gained(pr: Program, ex: Extent, w: seq<Block>, c: Counter, i: nat): nat
    requires InTree(pr, c) && i <= |w|
    decreases |w| - i
  {
    if i == |w| then 0
    else (if w[i] == Place(pr, c) && OpenAt(ex, w, i) then Amount(pr, c, i) else 0) + Gained(pr, ex, w, c, i + 1)
  }

  /** Whenever the run passes the counter's block, the region is open. */
  ghost predicate AlwaysOpen(pr: Program, ex: Extent, w: seq<Block>, c: Counter)
    requires InTree(pr, c)
  {
    forall i :: 0 <= i < |w| && w[i] == Place(pr, c) ==> OpenAt(ex, w, i)
  }

  /** Every counter that has blocks only counts while the region is open. */
  ghost predicate OpenWhereCounted(pr: Program, ex: Extent, w: seq<Block>, cs: seq<Counter>) {
    forall c :: c in cs && BlocksOf(c) != [] ==> InTree(pr, c) && AlwaysOpen(pr, ex, w, c)
  }

  /** What the product of gated counters and mixes adds up to. */
  ghost function RecoveredOpen(pr: Program, ex: Extent, w: seq<Block>, cs: seq<Counter>, cost: Block -> nat): nat
    requires forall c :: c in cs ==> InTree(pr, c)
  {
    if cs == [] then 0
    else Gained(pr, ex, w, cs[0], 0) * Mix(cs[0], cost) + RecoveredOpen(pr, ex, w, cs[1..], cost)
  }

  // ---- Gated and ungated values ----------------------------------------------------

  lemma {:induction false} OfferedTimes(pr: Program, w: seq<Block>, c: Counter, i: nat)
    requires InTree(pr, c) && i <= |w|
    ensures Offered(pr, w, c, i) ==
      if c.Dynamic? then Advanced(w, i, Place(pr, c), c.loop, pr.btc) else Times(w[i..], Place(pr, c))
    decreases |w| - i
  {
    if i == |w| {
      assert w[i..] == [];
      NoTimes(Place(pr, c));
    } else {
      OfferedTimes(pr, w, c, i + 1);
      TimesCons(w[i..], Place(pr, c));
      assert w[i..][1..] == w[i + 1..];
    }
  }

  /** A counter that is never switched off reads its value. */
  lemma OfferedIsValue(pr: Program, w: seq<Block>, c: Counter)
    requires InTree(pr, c)
    ensures Offered(pr, w, c, 0) == Value(pr, w, c)
  {
    OfferedTimes(pr, w, c, 0);
    assert w[0..] == w;
  }

  lemma {:induction false} GainedAtMost(pr: Program, ex: Extent, w: seq<Block>, c: Counter, i: nat)
    requires InTree(pr, c) && i <= |w|
    ensures Gained(pr, ex, w, c, i) <= Offered(pr, w, c, i)
    ensures Gained(pr, ex, w, c, i) == Offered(pr, w, c, i) <==>
      forall j :: i <= j < |w| && w[j] == Place(pr, c) ==> OpenAt(ex, w, j)
    decreases |w| - i
  {
    hide OpenAt, Place;
    if i < |w| {
      GainedAtMost(pr, ex, w, c, i + 1);
      assert 0 < Amount(pr, c, i);
    }
  }

  /** The gated counter reads at most its value, and all of it exactly if it counts only while the
      region is open. */
  lemma GainedIsValue(pr: Program, ex: Extent, w: seq<Block>, c: Counter)
    requires InTree(pr, c)
    ensures Gained(pr, ex, w, c, 0) <= Value(pr, w, c)
    ensures Gained(pr, ex, w, c, 0) == Value(pr, w, c) <==> AlwaysOpen(pr, ex, w, c)
  {
    GainedAtMost(pr, ex, w, c, 0);
    OfferedIsValue(pr, w, c);
  }

  // ---- Mixes -----------------------------------------------------------------------

  ghost predicate Positive(l: seq<Block>, cost: Block -> nat) {
    forall b :: b in l ==> 0 < cost(b)
  }

  lemma CostPositive(l: seq<Block>, cost: Block -> nat)
    requires l != [] && Positive(l, cost)
    ensures 0 < Cost(l, cost)
  {
  }

  lemma {:induction false} PartsPositive(t: Tree, tr: Trees, ps: seq<Part>, top: nat, cost: Block -> nat)
    requires WellFormed(t) && PartsOk(t, tr, ps, top) && PartBlocks(ps) != [] && Positive(PartBlocks(ps), cost)
    ensures 0 < PartsCost(ps, cost)
  {
    var p := ps[0];
    assert PartOk(t, tr, p, top);
    if p.blocks != [] {
      assert Positive(p.blocks, cost);
      CostPositive(p.blocks, cost);
      ScalePositive(t, tr, p.loop);
      ProductPositive(p.scale, Cost(p.blocks, cost));
    } else {
      PartsPositive(t, tr, ps[1..], top, cost);
    }
  }

  lemma ProductPositive(a: nat, b: nat)
    requires 0 < a && 0 < b
    ensures 0 < a * b
  {
  }

  lemma {:induction false} ScalePositive(t: Tree, tr: Trees, k: nat)
    requires WellFormed(t) && k < |t| && t[k].scale != 0
    ensures 0 < ChainScale(t, tr, k)
    decreases k
  {
    if Chained(t, tr, k) {
      ScalePositive(t, tr, t[k].parent);
      ProductPositive(t[k].scale, ChainScale(t, tr, t[k].parent));
    }
  }

  /** A well-placed counter with blocks that all weigh something has a mix. */
  lemma MixPositive(t: Tree, tr: Trees, c: Counter, cost: Block -> nat)
    requires WellFormed(t) && CounterOk(t, tr, c) && BlocksOf(c) != [] && Positive(BlocksOf(c), cost)
    ensures 0 < Mix(c, cost)
  {
    match c
    case Anchor(bs) => CostPositive(bs, cost);
    case Hoist(top, ps) => PartsPositive(t, tr, ps, top, cost);
    case Dynamic(_, bs) => CostPositive(bs, cost);
  }

  lemma {:induction false} NoParts(ps: seq<Part>, cost: Block -> nat)
    requires PartBlocks(ps) == []
    ensures PartsCost(ps, cost) == 0
  {
    if ps != [] {
      assert ps[0].blocks == [];
      NoParts(ps[1..], cost);
    }
  }

  lemma NoMix(c: Counter, cost: Block -> nat)
    requires BlocksOf(c) == []
    ensures Mix(c, cost) == 0
  {
    if c.Hoist? {
      NoParts(c.parts, cost);
    }
  }

  // ---- The exact condition ---------------------------------------------------------

  /** One counter: what it contributes is right if and only if it has no blocks or counts only while the
      region is open. */
  lemma ContributesIffOpen(pr: Program, tr: Trees, ex: Extent, w: seq<Block>, c: Counter, cost: Block -> nat)
    requires WellFormed(pr.t) && CounterOk(pr.t, tr, c) && InTree(pr, c)
    ensures var a, b := Gained(pr, ex, w, c, 0) * Mix(c, cost), Value(pr, w, c) * Mix(c, cost);
      && a <= b && (BlocksOf(c) == [] || AlwaysOpen(pr, ex, w, c) ==> a == b)
      && (Positive(BlocksOf(c), cost) && a == b ==> BlocksOf(c) == [] || AlwaysOpen(pr, ex, w, c))
  {
    GainedIsValue(pr, ex, w, c);
    if BlocksOf(c) == [] {
      NoMix(c, cost);
    } else if Positive(BlocksOf(c), cost) {
      MixPositive(pr.t, tr, c, cost);
    }
    hide Gained, Value, Mix, AlwaysOpen, CounterOk, WellFormed;
    Ordered(Gained(pr, ex, w, c, 0), Value(pr, w, c), Mix(c, cost));
  }

  lemma Ordered(a: nat, b: nat, m: nat)
    requires a <= b
    ensures a * m <= b * m && (0 < m && a * m == b * m ==> a == b)
  {
    assert b * m == a * m + (b - a) * m;
  }

  lemma {:induction false} AllContribute(pr: Program, tr: Trees, ex: Extent, w: seq<Block>, cs: seq<Counter>,
                                         cost: Block -> nat)
    requires WellFormed(pr.t) && CountersOk(pr.t, tr, cs) && forall c :: c in cs ==> InTree(pr, c)
    ensures RecoveredOpen(pr, ex, w, cs, cost) <= Recovered(pr, w, cs, cost)
    ensures OpenWhereCounted(pr, ex, w, cs) ==> RecoveredOpen(pr, ex, w, cs, cost) == Recovered(pr, w, cs, cost)
    ensures Positive(AllBlocks(cs), cost) && RecoveredOpen(pr, ex, w, cs, cost) == Recovered(pr, w, cs, cost) ==>
        OpenWhereCounted(pr, ex, w, cs)
  {
    hide Gained, Value, Mix, AlwaysOpen, CounterOk, WellFormed, InTree, BlocksOf;
    if cs != [] {
      assert cs == [cs[0]] + cs[1..];
      assert CounterOk(pr.t, tr, cs[0]);
      ContributesIffOpen(pr, tr, ex, w, cs[0], cost);
      AllContribute(pr, tr, ex, w, cs[1..], cost);
      assert AllBlocks(cs) == BlocksOf(cs[0]) + AllBlocks(cs[1..]);
    }
  }

  /** The claim of the tool, as the code keeps it: in a run that meets the hypotheses the counters recover
      at most what ran of the region's blocks, and, whatever the blocks weigh, all of it if and only if
      every counter that has blocks counts only while the region is open. */
  ghost predicate RightIffOpen(pr: Program, ex: Extent, w: seq<Block>, cs: seq<Counter>, l: seq<Block>,
                               cost: Block -> nat) {
    && (forall c :: c in cs ==> InTree(pr, c))
    && RecoveredOpen(pr, ex, w, cs, cost) <= Stepwise(w, l, cost)
    && (OpenWhereCounted(pr, ex, w, cs) ==> RecoveredOpen(pr, ex, w, cs, cost) == Stepwise(w, l, cost))
    && (Positive(l, cost) && RecoveredOpen(pr, ex, w, cs, cost) == Stepwise(w, l, cost) ==>
          OpenWhereCounted(pr, ex, w, cs))
  }

  lemma RecoversIffOpen(pr: Program, tr: Trees, ex: Extent, w: seq<Block>, cs: seq<Counter>, l: seq<Block>,
                        cost: Block -> nat)
    requires Meets(pr, tr, l, w) && WellFormed(pr.t)
    requires CountersOk(pr.t, tr, cs) && multiset(AllBlocks(cs)) == multiset(l) && NoDup(l)
    ensures RightIffOpen(pr, ex, w, cs, l, cost)
  {
    hide LaidOut, Steady, TripCounts, Run, CountersOk, NoDup, WellFormed, Stepwise, RecoveredOpen, Recovered, AllBlocks;
    RecoversWhatRan(pr, tr, w, cs, l, cost);
    AllContribute(pr, tr, ex, w, cs, cost);
    forall b ensures b in AllBlocks(cs) <==> b in l {
      assert b in multiset(AllBlocks(cs)) <==> b in multiset(l);
    }
  }

  /** The counters of a region, for every program with this loop tree, every complete run that meets the
      hypotheses, every placing of the region's events and every mix. */
  ghost predicate Exact(t: Tree, tr: Trees, cs: seq<Counter>, l: seq<Block>) {
    forall pr: Program, ex, w, cost :: pr.t == t && Meets(pr, tr, l, w) ==> RightIffOpen(pr, ex, w, cs, l, cost)
  }

  lemma PlacedIsExact(t: Tree, tr: Trees, cs: seq<Counter>, l: seq<Block>)
    requires WellFormed(t) && CountersOk(t, tr, cs) && multiset(AllBlocks(cs)) == multiset(l) && NoDup(l)
    ensures Exact(t, tr, cs, l)
  {
    hide Meets, WellFormed, CountersOk, NoDup, RightIffOpen;
    forall pr: Program, ex, w, cost: Block -> nat | pr.t == t && Meets(pr, tr, l, w)
      ensures RightIffOpen(pr, ex, w, cs, l, cost)
    {
      RecoversIffOpen(pr, tr, ex, w, cs, l, cost);
    }
  }
}
