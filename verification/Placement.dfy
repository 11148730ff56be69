/** Cheap counters times static mixes equal what really ran: the increments offered to the counters of a
    region come, for every complete run of the function, to the exact weight of the blocks executed.
    Which of them count is the subject of `Gating`. */
module Placement {
  import opened Collections
  import opened Cfg
  import opened Grouping
  import opened LoopTree
  import opened Plan

  // ---- What a counter reads and what is recorded for it --------------------

  /** `pre[k]` is the block made by splitting the edge into loop `k`; `btc(k, i)` is the
      backedge-taken count that the expanded expression yields in `pre[k]` at step `i` of the run. */
  datatype Program = Program(g: Graph, t: Tree, pre: seq<Block>, btc: (nat, nat) -> nat)

  /** The increments made at step `i` and later by a counter that adds `btc + 1` in block `p`. */
  ghost function Advanced(w: seq<Block>, i: nat, p: Block, k: nat, btc: (nat, nat) -> nat): nat
    requires i <= |w|
    decreases |w| - i
  {
    if i == |w| then 0
    else (if w[i] == p then btc(k, i) + 1 else 0) + Advanced(w, i + 1, p, k, btc)
  }

  ghost predicate InTree(pr: Program, c: Counter) {
    match c
    case Anchor(bs) => bs != []
    case Hoist(top, _) => top < |pr.pre|
    case Dynamic(k, _) => k < |pr.pre|
  }

  /** What a counter is offered in run `w`, and reads afterwards if counting is on throughout. */
  ghost function Value(pr: Program, w: seq<Block>, c: Counter): nat
    requires InTree(pr, c)
  {
    match c
    case Anchor(bs) => Times(w, bs[0])
    case Hoist(top, _) => Times(w, pr.pre[top])
    case Dynamic(k, _) => Advanced(w, 0, pr.pre[k], k, pr.btc)
  }

  /** One field of the instruction mix of a list of blocks. */
  ghost function Cost(l: seq<Block>, cost: Block -> nat): nat {
    if l == [] then 0 else cost(l[0]) + Cost(l[1..], cost)
  }

  function One(b: Block): nat {
    1
  }

  ghost function PartsCost(ps: seq<Part>, cost: Block -> nat): nat {
    if ps == [] then 0 else ps[0].scale * Cost(ps[0].blocks, cost) + PartsCost(ps[1..], cost)
  }

  /** The mix recorded for a counter: `recordTagBlocks` adds each block's mix times its scale. */
  ghost function Mix(c: Counter, cost: Block -> nat): nat {
    match c
    case Anchor(bs) => Cost(bs, cost)
    case Hoist(_, ps) => PartsCost(ps, cost)
    case Dynamic(_, bs) => Cost(bs, cost)
  }

  /** What the offline product of counters and mixes adds up to. */
  ghost function Recovered(pr: Program, w: seq<Block>, cs: seq<Counter>, cost: Block -> nat): nat
    requires forall c :: c in cs ==> InTree(pr, c)
  {
    if cs == [] then 0 else Value(pr, w, cs[0]) * Mix(cs[0], cost) + Recovered(pr, w, cs[1..], cost)
  }

  /** What run `w` really executed of the listed blocks. */
  ghost function Executed(w: seq<Block>, l: seq<Block>, cost: Block -> nat): nat {
    if l == [] then 0 else Times(w, l[0]) * cost(l[0]) + Executed(w, l[1..], cost)
  }

  /** The same, accumulated step by step along the run. */
  ghost function Stepwise(w: seq<Block>, l: seq<Block>, cost: Block -> nat): nat {
    if w == [] then 0 else (if w[0] in l then cost(w[0]) else 0) + Stepwise(w[1..], l, cost)
  }

  // ---- Hypotheses ----------------------------------------------------------

  /** Natural loops, each entered only through its own split block. */
  ghost predicate NaturalLoop(pr: Program, k: nat)
    requires k < |pr.t| == |pr.pre| && pr.t[k].parent < |pr.t|
  {
    var n, h, p := pr.t[k], pr.t[k].header, pr.pre[k];
    && h !in pr.g.entries && p != h && (p, h) in pr.g.edges
    && (forall x :: (x, h) in pr.g.edges ==> x == p || Dom(pr.g, h, x))
    && (forall b :: b in n.unique ==> Dom(pr.g, h, b))
    && (n.parent != 0 ==> Dom(pr.g, pr.t[n.parent].header, h) && pr.t[n.parent].header != h)
  }

  ghost predicate LaidOut(pr: Program) {
    && WellFormed(pr.t) && |pr.pre| == |pr.t|
    && forall k :: 0 < k < |pr.t| ==> NaturalLoop(pr, k)
  }

  /** How often `h` runs before `p` is met again. */
  ghost function Until(s: seq<Block>, p: Block, h: Block): nat {
    if s == [] || s[0] == p then 0 else (if s[0] == h then 1 else 0) + Until(s[1..], p, h)
  }

  /** Every entry into a loop runs its header as often as the trip count says. */
  ghost predicate TripCounts(pr: Program, w: seq<Block>)
    requires |pr.pre| == |pr.t|
  {
    forall k, i :: 0 < k < |pr.t| && 0 <= i < |w| && w[i] == pr.pre[k] ==>
      && (pr.t[k].scale != 0 ==> Until(w[i + 1..], pr.pre[k], pr.t[k].header) == pr.t[k].scale)
      && (pr.t[k].scale == 0 && pr.t[k].computable ==>
            Until(w[i + 1..], pr.pre[k], pr.t[k].header) == pr.btc(k, i) + 1)
  }

  /** No iteration skips a block or a child loop that always follows its header, and no cycle
      bypasses one of two control-equivalent blocks of a nesting level. */
  ghost predicate Steady(pr: Program, tr: Trees, l: seq<Block>)
    requires LaidOut(pr)
  {
    && (forall k :: 0 < k < |pr.t| && Chained(pr.t, tr, k) ==>
          Tied(pr.g, pr.t[pr.t[k].parent].header, pr.pre[k]))
    && (forall k, b :: 0 < k < |pr.t| && b in pr.t[k].unique && b in l && tr.pdom(b, pr.t[k].header) ==>
          Tied(pr.g, pr.t[k].header, b))
    && (forall b, x :: b in l && x in l && tr.Joins(b, x) && SameHome(pr.t, b, x) ==> Tied(pr.g, b, x))
  }

  // ---- Trip counts ---------------------------------------------------------

  lemma UntilCons(b: Block, s: seq<Block>, p: Block, h: Block)
    ensures Until([b] + s, p, h) == if b == p then 0 else (if b == h then 1 else 0) + Until(s, p, h)
  {
    assert ([b] + s)[1..] == s;
  }

  ghost function Entries(s: seq<Block>, p: Block, h: Block): nat {
    if s == [] then 0 else (if s[0] == p then Until(s[1..], p, h) else 0) + Entries(s[1..], p, h)
  }

  lemma {:induction false} TimesCons(s: seq<Block>, b: Block)
    requires s != []
    ensures Times(s, b) == (if s[0] == b then 1 else 0) + Times(s[1..], b)
  {
    assert s == [s[0]] + s[1..];
  }

  lemma NoTimes(b: Block)
    ensures Times([], b) == 0
  {
  }

  /** The header's runs are shared out over the entries into the loop. */
  lemma {:induction false} TimesByEntry(s: seq<Block>, p: Block, h: Block)
    requires p != h
    ensures Times(s, h) == Until(s, p, h) + Entries(s, p, h)
  {
    if s != [] {
      TimesCons(s, h);
      TimesByEntry(s[1..], p, h);
    }
  }

  lemma {:induction false} ConstantEntries(s: seq<Block>, p: Block, h: Block, n: nat)
    requires forall i :: 0 <= i < |s| && s[i] == p ==> Until(s[i + 1..], p, h) == n
    ensures Entries(s, p, h) == n * Times(s, p)
  {
    hide Until, Times;
    if s == [] {
      assert Times(s, p) == 0 by { NoTimes(p); }
    } else {
      TimesCons(s, p);
      var r := s[1..];
      forall i | 0 <= i < |r| && r[i] == p ensures Until(r[i + 1..], p, h) == n {
        assert s[i + 1] == p && r[i + 1..] == s[i + 1 + 1..];
      }
      ConstantEntries(r, p, h, n);
      assert s[0] == p ==> Until(s[0 + 1..], p, h) == n;
      OneMore(n, Times(r, p));
    }
  }

  lemma OneMore(n: nat, m: nat)
    ensures n * (1 + m) == n + n * m
  {
  }

  lemma {:induction false} DynamicEntries(w: seq<Block>, i: nat, p: Block, h: Block, k: nat, btc: (nat, nat) -> nat)
    requires i <= |w|
    requires forall m :: 0 <= m < |w| && w[m] == p ==> Until(w[m + 1..], p, h) == btc(k, m) + 1
    ensures Entries(w[i..], p, h) == Advanced(w, i, p, k, btc)
    decreases |w| - i
  {
    if i < |w| {
      assert w[i..][1..] == w[i + 1..];
      DynamicEntries(w, i + 1, p, h, k, btc);
    }
  }

  /** A walk from the entry meets the split block before the header. */
  lemma NoneBeforeEntry(s: seq<Block>, p: Block, h: Block)
    requires h in s ==> p in s && FirstAt(s, p) < FirstAt(s, h)
    ensures Until(s, p, h) == 0
  {
    UntilZero(s, p, h, if p in s then FirstAt(s, p) else |s|);
  }

  lemma {:induction false} UntilZero(s: seq<Block>, p: Block, h: Block, n: nat)
    requires n <= |s| && (n < |s| ==> s[n] == p) && forall i :: 0 <= i < n ==> s[i] != h
    ensures Until(s, p, h) == 0
  {
    if n != 0 {
      UntilZero(s[1..], p, h, n - 1);
    }
  }

  /** A walk's first arrival at a header comes from its split block. */
  lemma ArrivesFromEntry(pr: Program, k: nat, w: seq<Block>, i: nat)
    requires LaidOut(pr) && 0 < k < |pr.t| && FromEntry(pr.g, w)
    requires i < |w| && w[i] == pr.t[k].header && forall m :: 0 <= m < i ==> w[m] != pr.t[k].header
    ensures 0 < i && w[i - 1] == pr.pre[k]
  {
    assert NaturalLoop(pr, k);
    assert StepAt(pr.g, w, i);
    if w[i - 1] != pr.pre[k] {
      var j := DomBefore(pr.g, pr.t[k].header, w[i - 1], w, i - 1);
    }
  }

  lemma HeaderTimes(pr: Program, k: nat, w: seq<Block>)
    requires LaidOut(pr) && 0 < k < |pr.t| && FromEntry(pr.g, w)
    ensures Times(w, pr.t[k].header) == Entries(w, pr.pre[k], pr.t[k].header)
  {
    assert NaturalLoop(pr, k);
    var h, p := pr.t[k].header, pr.pre[k];
    if h in w {
      ArrivesFromEntry(pr, k, w, FirstAt(w, h));
    }
    NoneBeforeEntry(w, p, h);
    TimesByEntry(w, p, h);
  }

  /** With a constant trip count the header runs that many times per entry. */
  lemma StaticTrips(pr: Program, k: nat, w: seq<Block>)
    requires LaidOut(pr) && 0 < k < |pr.t| && FromEntry(pr.g, w) && TripCounts(pr, w) && pr.t[k].scale != 0
    ensures Times(w, pr.t[k].header) == pr.t[k].scale * Times(w, pr.pre[k])
  {
    HeaderTimes(pr, k, w);
    ConstantEntries(w, pr.pre[k], pr.t[k].header, pr.t[k].scale);
  }

  lemma DynamicTrips(pr: Program, k: nat, w: seq<Block>)
    requires LaidOut(pr) && 0 < k < |pr.t| && FromEntry(pr.g, w) && TripCounts(pr, w)
    requires pr.t[k].scale == 0 && pr.t[k].computable
    ensures Times(w, pr.t[k].header) == Advanced(w, 0, pr.pre[k], k, pr.btc)
  {
    HeaderTimes(pr, k, w);
    DynamicEntries(w, 0, pr.pre[k], pr.t[k].header, k, pr.btc);
    assert w[0..] == w;
  }

  // ---- Chains --------------------------------------------------------------

  /** The parent's header dominates the split block of a child loop. */
  lemma ParentDominatesEntry(pr: Program, k: nat)
    requires LaidOut(pr) && 0 < k < |pr.t| && pr.t[k].parent != 0
    ensures Dom(pr.g, pr.t[pr.t[k].parent].header, pr.pre[k])
  {
    assert NaturalLoop(pr, k);
    var h, c, p := pr.t[pr.t[k].parent].header, pr.t[k].header, pr.pre[k];
    forall q | FromEntry(pr.g, q) && q[|q| - 1] == p ensures h in q {
      var r := q + [c];
      forall i | 0 < i < |r| ensures StepAt(pr.g, r, i) {
        if i < |q| { assert StepAt(pr.g, q, i); }
      }
      assert FromEntry(pr.g, r) && r[|r| - 1] == c;
      assert h in r;
    }
  }

  /** When the child's header always follows the parent's header, so does its split block. */
  lemma EntryPostDominates(pr: Program, k: nat)
    requires LaidOut(pr) && 0 < k < |pr.t| && pr.t[k].parent != 0
    requires PDom(pr.g, pr.t[k].header, pr.t[pr.t[k].parent].header)
    requires Reachable(pr.g, pr.t[pr.t[k].parent].header)
    ensures PDom(pr.g, pr.pre[k], pr.t[pr.t[k].parent].header)
  {
    assert NaturalLoop(pr, k);
    var g, h, c := pr.g, pr.t[pr.t[k].parent].header, pr.t[k].header;
    forall q | ToExit(g, q) && q[0] == h ensures pr.pre[k] in q {
      var a := ArriveBefore(g, h, c);
      var i := FirstAt(q, c);
      SubWalk(g, q, 0, i + 1);
      Join(g, a, q[..i + 1]);
      var r := a + q[..i + 1][1..];
      assert i != 0 && forall m :: 0 <= m < |r| - 1 ==> r[m] != c;
      ArrivesFromEntry(pr, k, r, |r| - 1);
      assert r[|r| - 2] == q[i - 1];
    }
  }

  lemma ChainFacts(pr: Program, tr: Trees, k: nat, l: seq<Block>)
    requires LaidOut(pr) && tr.Faithful(pr.g) && Steady(pr, tr, l)
    requires 0 < k < |pr.t| && Chained(pr.t, tr, k)
    ensures 0 < pr.t[k].parent < k
    ensures PDom(pr.g, pr.t[k].header, pr.t[pr.t[k].parent].header)
    ensures Tied(pr.g, pr.t[pr.t[k].parent].header, pr.pre[k])
  {
  }

  lemma PrefixReaches(g: Graph, w: seq<Block>, b: Block)
    requires FromEntry(g, w) && b in w
    ensures Reachable(g, b)
  {
    var i := FirstAt(w, b);
    SubWalk(g, w, 0, i + 1);
    assert FromEntry(g, w[..i + 1]) && w[..i + 1][i] == b;
  }

  /** A chained loop is entered once per run of its parent's header. */
  lemma EntryTimes(pr: Program, tr: Trees, k: nat, w: seq<Block>, l: seq<Block>)
    requires LaidOut(pr) && tr.Faithful(pr.g) && Steady(pr, tr, l) && Run(pr.g, w)
    requires 0 < k < |pr.t| && Chained(pr.t, tr, k)
    ensures Times(w, pr.pre[k]) == Times(w, pr.t[pr.t[k].parent].header)
  {
    Shape(pr);
    hide LaidOut, Steady, Chained, PDom, Dom, Tied, Walk, Reachable;
    ChainFacts(pr, tr, k, l);
    var h, p := pr.t[pr.t[k].parent].header, pr.pre[k];
    ParentDominatesEntry(pr, k);
    if h in w {
      PrefixReaches(pr.g, w, h);
      EntryPostDominates(pr, k);
      EqualTimes(pr.g, h, p, w);
    } else if p in w {
      var j := DomBefore(pr.g, h, p, w, FirstAt(w, p));
    }
  }

  lemma ProductOfTrips(a: nat, b: nat, n: nat, x: nat)
    requires x == b * n
    ensures a * x == (a * b) * n
  {
  }

  /** The header of a loop of a set runs as often as the set's product of trip counts, per entry
      into the set's outermost loop. */
  lemma {:induction false} ChainTimes(pr: Program, tr: Trees, k: nat, w: seq<Block>, l: seq<Block>)
    requires LaidOut(pr) && tr.Faithful(pr.g) && Steady(pr, tr, l) && Run(pr.g, w) && TripCounts(pr, w)
    requires 0 < k < |pr.t| && pr.t[k].scale != 0
    ensures Times(w, pr.t[k].header) == ChainScale(pr.t, tr, k) * Times(w, pr.pre[ChainTop(pr.t, tr, k)])
  {
    hide Steady, TripCounts, Times, Walk;
    StaticTrips(pr, k, w);
    if Chained(pr.t, tr, k) {
      var p := pr.t[k].parent;
      ChainFacts(pr, tr, k, l);
      ChainTimes(pr, tr, p, w, l);
      EntryTimes(pr, tr, k, w, l);
      ProductOfTrips(pr.t[k].scale, ChainScale(pr.t, tr, p), Times(w, pr.pre[ChainTop(pr.t, tr, p)]),
                     Times(w, pr.pre[k]));
    }
  }

  /** A block that post-dominates its loop's header runs as often as the header. */
  lemma BlockTimes(pr: Program, tr: Trees, k: nat, b: Block, w: seq<Block>, l: seq<Block>)
    requires LaidOut(pr) && tr.Faithful(pr.g) && Steady(pr, tr, l) && Run(pr.g, w)
    requires 0 < k < |pr.t| && b in pr.t[k].unique && b in l && tr.pdom(b, pr.t[k].header)
    ensures Times(w, b) == Times(w, pr.t[k].header)
  {
    assert NaturalLoop(pr, k);
    EqualTimes(pr.g, pr.t[k].header, b, w);
  }

  lemma Shape(pr: Program)
    requires LaidOut(pr)
    ensures WellFormed(pr.t) && |pr.pre| == |pr.t|
  {
  }

  // ---- Sums ----------------------------------------------------------------

  lemma {:induction false} ExecutedConcat(w: seq<Block>, a: seq<Block>, b: seq<Block>, cost: Block -> nat)
    ensures Executed(w, a + b, cost) == Executed(w, a, cost) + Executed(w, b, cost)
  {
    if a == [] {
      assert a + b == b;
    } else {
      assert (a + b)[1..] == a[1..] + b;
      ExecutedConcat(w, a[1..], b, cost);
    }
  }

  /** Blocks that all run `n` times. */
  lemma {:induction false} ExecutedEqually(w: seq<Block>, l: seq<Block>, cost: Block -> nat, n: nat)
    requires forall b :: b in l ==> Times(w, b) == n
    ensures Executed(w, l, cost) == n * Cost(l, cost)
  {
    hide Times;
    if l != [] {
      assert l == [l[0]] + l[1..];
      ExecutedEqually(w, l[1..], cost, n);
      Distribute(n, cost(l[0]), Cost(l[1..], cost));
    }
  }

  lemma Distribute(n: nat, a: nat, b: nat)
    ensures n * (a + b) == n * a + n * b
  {
  }

  /** Parts whose blocks run their scale times `n`. */
  lemma {:induction false} ExecutedScaled(w: seq<Block>, ps: seq<Part>, n: nat, cost: Block -> nat)
    requires forall p, b :: p in ps && b in p.blocks ==> Times(w, b) == p.scale * n
    ensures Executed(w, PartBlocks(ps), cost) == n * PartsCost(ps, cost)
  {
    hide Times;
    if ps != [] {
      var p := ps[0];
      assert p in ps && PartBlocks(ps) == p.blocks + PartBlocks(ps[1..]);
      ExecutedEqually(w, p.blocks, cost, p.scale * n);
      ExecutedConcat(w, p.blocks, PartBlocks(ps[1..]), cost);
      ExecutedScaled(w, ps[1..], n, cost);
      Regroup(n, p.scale, Cost(p.blocks, cost), PartsCost(ps[1..], cost));
    }
  }

  lemma {:induction false} InPart(ps: seq<Part>, p: Part, b: Block)
    requires p in ps && b in p.blocks
    ensures b in PartBlocks(ps)
  {
    assert ps == [ps[0]] + ps[1..];
    if p != ps[0] {
      InPart(ps[1..], p, b);
    }
  }

  lemma ExecutedParts(pr: Program, tr: Trees, w: seq<Block>, ps: seq<Part>, top: nat, l: seq<Block>, cost: Block -> nat)
    requires LaidOut(pr) && tr.Faithful(pr.g) && Steady(pr, tr, l) && Run(pr.g, w) && TripCounts(pr, w)
    requires PartsOk(pr.t, tr, ps, top) && top < |pr.t|
    requires forall b :: b in PartBlocks(ps) ==> b in l
    ensures Executed(w, PartBlocks(ps), cost) == Times(w, pr.pre[top]) * PartsCost(ps, cost)
  {
    Shape(pr);
    hide LaidOut, Steady, TripCounts, Times, Run, PartOk;
    forall p, b | p in ps && b in p.blocks ensures Times(w, b) == p.scale * Times(w, pr.pre[top]) {
      assert PartOk(pr.t, tr, p, top);
      forall x | x in p.blocks ensures x in l { InPart(ps, p, x); }
      PartTimes(pr, tr, w, p, top, l);
    }
    ExecutedScaled(w, ps, Times(w, pr.pre[top]), cost);
  }

  lemma Regroup(n: nat, s: nat, c: nat, r: nat)
    ensures (s * n) * c + n * r == n * (s * c + r)
  {
  }

  lemma PartTimes(pr: Program, tr: Trees, w: seq<Block>, p: Part, top: nat, l: seq<Block>)
    requires LaidOut(pr) && tr.Faithful(pr.g) && Steady(pr, tr, l) && Run(pr.g, w) && TripCounts(pr, w)
    requires PartOk(pr.t, tr, p, top) && top < |pr.t| && forall b :: b in p.blocks ==> b in l
    ensures forall b :: b in p.blocks ==> Times(w, b) == p.scale * Times(w, pr.pre[top])
  {
    hide Steady, TripCounts, Times, Run;
    forall b | b in p.blocks ensures Times(w, b) == p.scale * Times(w, pr.pre[top]) {
      BlockTimes(pr, tr, p.loop, b, w, l);
      ChainTimes(pr, tr, p.loop, w, l);
    }
  }

  /** One counter: what it is offered times its recorded mix is the weight of its blocks' executions. */
  lemma CounterExact(pr: Program, tr: Trees, w: seq<Block>, c: Counter, l: seq<Block>, cost: Block -> nat)
    requires LaidOut(pr) && tr.Faithful(pr.g) && Steady(pr, tr, l) && Run(pr.g, w) && TripCounts(pr, w)
    requires CounterOk(pr.t, tr, c) && InTree(pr, c) && forall b :: b in BlocksOf(c) ==> b in l
    ensures Value(pr, w, c) * Mix(c, cost) == Executed(w, BlocksOf(c), cost)
  {
    match c
    case Anchor(bs) =>
      AnchorTimes(pr, tr, w, bs, l);
      ExecutedEqually(w, bs, cost, Times(w, bs[0]));
    case Hoist(top, ps) =>
      ExecutedParts(pr, tr, w, ps, top, l, cost);
    case Dynamic(k, bs) =>
      DynamicTimes(pr, tr, w, k, bs, l);
      ExecutedEqually(w, bs, cost, Advanced(w, 0, pr.pre[k], k, pr.btc));
  }

  lemma AnchorTimes(pr: Program, tr: Trees, w: seq<Block>, bs: seq<Block>, l: seq<Block>)
    requires LaidOut(pr) && tr.Faithful(pr.g) && Steady(pr, tr, l) && Run(pr.g, w)
    requires CounterOk(pr.t, tr, Anchor(bs)) && forall b :: b in bs ==> b in l
    ensures forall b :: b in bs ==> Times(w, b) == Times(w, bs[0])
  {
    assert bs == [bs[0]] + bs[1..];
    forall b | b in bs[1..] ensures Times(w, b) == Times(w, bs[0]) {
      assert tr.Joins(bs[0], b) && SameHome(pr.t, bs[0], b) && b in bs && bs[0] in l;
      EqualTimes(pr.g, bs[0], b, w);
    }
  }

  lemma DynamicTimes(pr: Program, tr: Trees, w: seq<Block>, k: nat, bs: seq<Block>, l: seq<Block>)
    requires LaidOut(pr) && tr.Faithful(pr.g) && Steady(pr, tr, l) && Run(pr.g, w) && TripCounts(pr, w)
    requires CounterOk(pr.t, tr, Dynamic(k, bs)) && forall b :: b in bs ==> b in l
    ensures forall b :: b in bs ==> Times(w, b) == Advanced(w, 0, pr.pre[k], k, pr.btc)
  {
    hide Steady, TripCounts, Times, Walk;
    forall b | b in bs ensures Times(w, b) == Advanced(w, 0, pr.pre[k], k, pr.btc) {
      BlockTimes(pr, tr, k, b, w, l);
      DynamicTrips(pr, k, w);
    }
  }

  lemma {:induction false} CountersExact(pr: Program, tr: Trees, w: seq<Block>, cs: seq<Counter>, l: seq<Block>,
                                         cost: Block -> nat)
    requires LaidOut(pr) && tr.Faithful(pr.g) && Steady(pr, tr, l) && Run(pr.g, w) && TripCounts(pr, w)
    requires CountersOk(pr.t, tr, cs) && forall b :: b in AllBlocks(cs) ==> b in l
    ensures forall c :: c in cs ==> InTree(pr, c)
    ensures Recovered(pr, w, cs, cost) == Executed(w, AllBlocks(cs), cost)
  {
    hide LaidOut, Steady, TripCounts, Times, Run, Mix, Value;
    Shape(pr);
    if cs != [] {
      var c := cs[0];
      assert CounterOk(pr.t, tr, c);
      assert cs == [c] + cs[1..] && AllBlocks(cs) == BlocksOf(c) + AllBlocks(cs[1..]);
      CountersExact(pr, tr, w, cs[1..], l, cost);
      CounterExact(pr, tr, w, c, l, cost);
      ExecutedConcat(w, BlocksOf(c), AllBlocks(cs[1..]), cost);
    }
  }

  // ---- The order of the list does not matter --------------------------------

  lemma {:induction false} ExecutedPermutes(w: seq<Block>, a: seq<Block>, b: seq<Block>, cost: Block -> nat)
    requires multiset(a) == multiset(b)
    ensures Executed(w, a, cost) == Executed(w, b, cost)
  {
    hide Times;
    assert |multiset(a)| == |a| && |multiset(b)| == |b|;
    if a != [] {
      var x := a[0];
      assert a == [x] + a[1..];
      assert x in multiset(b);
      var i := FirstAt(b, x);
      assert b == b[..i] + [x] + b[i + 1..];
      var m := b[..i] + b[i + 1..];
      assert multiset(a[1..]) == multiset(a) - multiset{x} && multiset(m) == multiset(b) - multiset{x};
      ExecutedPermutes(w, a[1..], m, cost);
      ExecutedMiddle(w, b[..i], x, b[i + 1..], cost);
    }
  }

  lemma ExecutedMiddle(w: seq<Block>, a: seq<Block>, x: Block, b: seq<Block>, cost: Block -> nat)
    ensures Executed(w, a + [x] + b, cost) == Times(w, x) * cost(x) + Executed(w, a + b, cost)
  {
    hide Times;
    ExecutedConcat(w, a, b, cost);
    ExecutedConcat(w, a + [x], b, cost);
    ExecutedConcat(w, a, [x], cost);
    assert [x][1..] == [];
  }

  lemma {:induction false} StepwiseIsExecuted(w: seq<Block>, l: seq<Block>, cost: Block -> nat)
    requires NoDup(l)
    ensures Stepwise(w, l, cost) == Executed(w, l, cost)
  {
    if w == [] {
      NothingExecuted(l, cost);
    } else {
      StepwiseIsExecuted(w[1..], l, cost);
      ExecutedStep(w, l, cost);
    }
  }

  lemma {:induction false} NothingExecuted(l: seq<Block>, cost: Block -> nat)
    ensures Executed([], l, cost) == 0
  {
    if l != [] {
      NothingExecuted(l[1..], cost);
      NoTimes(l[0]);
    }
  }

  lemma {:induction false} ExecutedStep(w: seq<Block>, l: seq<Block>, cost: Block -> nat)
    requires w != [] && NoDup(l)
    ensures Executed(w, l, cost) == (if w[0] in l then cost(w[0]) else 0) + Executed(w[1..], l, cost)
  {
    hide Times;
    if l != [] {
      assert l == [l[0]] + l[1..];
      TimesCons(w, l[0]);
      ExecutedStep(w, l[1..], cost);
      OneMoreTime(Times(w[1..], l[0]), cost(l[0]));
    }
  }

  lemma OneMoreTime(n: nat, c: nat)
    ensures (1 + n) * c == c + n * c
  {
  }

  /** Whatever counters a region is given by steps that keep them well placed and share out exactly the
      region's blocks, the sum of increments offered times recorded mix is the sum, step by step along any
      complete run, of the mixes of the region's blocks executed. */
  lemma RecoversWhatRan(pr: Program, tr: Trees, w: seq<Block>, cs: seq<Counter>, l: seq<Block>, cost: Block -> nat)
    requires LaidOut(pr) && tr.Faithful(pr.g) && Steady(pr, tr, l) && Run(pr.g, w) && TripCounts(pr, w)
    requires CountersOk(pr.t, tr, cs) && multiset(AllBlocks(cs)) == multiset(l) && NoDup(l)
    ensures forall c :: c in cs ==> InTree(pr, c)
    ensures Recovered(pr, w, cs, cost) == Stepwise(w, l, cost)
  {
    hide LaidOut, Steady, TripCounts, Run, CountersOk;
    forall b | b in AllBlocks(cs) ensures b in l {
      assert b in multiset(l);
    }
    CountersExact(pr, tr, w, cs, l, cost);
    ExecutedPermutes(w, AllBlocks(cs), l, cost);
    StepwiseIsExecuted(w, l, cost);
  }

  ghost predicate Meets(pr: Program, tr: Trees, l: seq<Block>, w: seq<Block>) {
    LaidOut(pr) && tr.Faithful(pr.g) && Steady(pr, tr, l) && Run(pr.g, w) && TripCounts(pr, w)
  }

  ghost predicate Recovers(pr: Program, w: seq<Block>, cs: seq<Counter>, l: seq<Block>, cost: Block -> nat) {
    (forall c :: c in cs ==> InTree(pr, c)) && Recovered(pr, w, cs, cost) == Stepwise(w, l, cost)
  }

  /** What the counters of a region are offered is exact: for every program with this loop tree and every
      complete run that meets the hypotheses, it recovers what ran of the region's blocks. */
  ghost predicate Exact(t: Tree, tr: Trees, cs: seq<Counter>, l: seq<Block>) {
    forall pr: Program, w, cost :: pr.t == t && Meets(pr, tr, l, w) ==> Recovers(pr, w, cs, l, cost)
  }

  lemma PlacedIsExact(t: Tree, tr: Trees, cs: seq<Counter>, l: seq<Block>)
    requires WellFormed(t) && CountersOk(t, tr, cs) && multiset(AllBlocks(cs)) == multiset(l) && NoDup(l)
    ensures Exact(t, tr, cs, l)
  {
    hide LaidOut, Steady, TripCounts, Run, CountersOk, NoDup;
    forall pr: Program, w, cost: Block -> nat | pr.t == t && Meets(pr, tr, l, w)
      ensures Recovers(pr, w, cs, l, cost)
    {
      RecoversWhatRan(pr, tr, w, cs, l, cost);
    }
  }

  // ---- When one counter is right for a group --------------------------------

  /** The counter at the first block of the group recovers, in every complete run and whatever the
      blocks weigh, what ran of the group. */
  ghost predicate AnchorRight(g: Graph, bs: seq<Block>)
    requires bs != []
  {
    forall w, cost :: Run(g, w) ==> Times(w, bs[0]) * Cost(bs, cost) == Executed(w, bs, cost)
  }

  function Only(x: Block): Block -> nat {
    b => if b == x then 1 else 0
  }

  ghost function Copies(bs: seq<Block>, x: Block): nat {
    if bs == [] then 0 else (if bs[0] == x then 1 else 0) + Copies(bs[1..], x)
  }

  lemma {:induction false} OnlyOne(w: seq<Block>, bs: seq<Block>, x: Block)
    ensures Cost(bs, Only(x)) == Copies(bs, x)
    ensures Executed(w, bs, Only(x)) == Times(w, x) * Copies(bs, x)
    ensures x in bs ==> 0 < Copies(bs, x)
  {
    hide Times;
    if bs != [] {
      OnlyOne(w, bs[1..], x);
      assert bs == [bs[0]] + bs[1..];
      if bs[0] == x {
        OneMore(Times(w, x), Copies(bs[1..], x));
      }
    }
  }

  lemma Cancel(a: nat, b: nat, m: nat)
    requires a * m == b * m && 0 < m
    ensures a == b
  {
  }

  /** One counter at the anchor is right for a group that the pass forms if and only if no cycle
      passes the anchor without every other block of the group, or the other way round. */
  lemma AnchorRightIffTied(g: Graph, tr: Trees, bs: seq<Block>)
    requires bs != [] && tr.Faithful(g) && Reachable(g, bs[0]) && Exiting(g, bs[0])
    requires forall x :: x in bs[1..] ==> tr.Joins(bs[0], x)
    ensures AnchorRight(g, bs) <==> forall x :: x in bs ==> Tied(g, bs[0], x)
  {
    assert bs == [bs[0]] + bs[1..];
    forall x | x in bs && x != bs[0] ensures SameTimes(g, bs[0], x) <==> Tied(g, bs[0], x) {
      SameTimesIffTied(g, bs[0], x);
    }
    hide Run, Times, Tied, Dom, PDom, Walk, Reachable, Exiting;
    if AnchorRight(g, bs) {
      forall x | x in bs ensures Tied(g, bs[0], x) {
        forall w | Run(g, w) ensures Times(w, bs[0]) == Times(w, x) {
          OnlyOne(w, bs, x);
          assert Times(w, bs[0]) * Cost(bs, Only(x)) == Executed(w, bs, Only(x));
          Cancel(Times(w, bs[0]), Times(w, x), Copies(bs, x));
        }
        if x == bs[0] { TiedSelf(g, x); }
      }
    } else {
      var w, cost :| Run(g, w) && Times(w, bs[0]) * Cost(bs, cost) != Executed(w, bs, cost);
      if forall x :: x in bs ==> Tied(g, bs[0], x) {
        forall x | x in bs ensures Times(w, x) == Times(w, bs[0]) {
          assert x != bs[0] ==> SameTimes(g, bs[0], x);
        }
        ExecutedEqually(w, bs, cost, Times(w, bs[0]));
      }
    }
  }

  lemma TiedSelf(g: Graph, x: Block)
    ensures Tied(g, x, x)
  {
  }
}
