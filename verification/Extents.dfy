/** Where a region is open: the events that the pass inserts for it, against the markers in the code.
    A region gets one start event, in the earliest block of its list, but an end event at every end
    marker; and counters are moved to blocks in front of loops. */
module Extents {
  import opened Collections
  import opened Cfg
  import opened Grouping
  import opened LoopTree
  import opened Plan
  import opened Placement
  import opened Gating
  import B = Bounds
  import R = Regions

  type Group = R.Group

  /** The function's blocks and edges as a graph. */
  ghost predicate Graphs(f: R.Func, g: Graph) {
    && R.WellFormed(f) && g.entries == {f.entry}
    && forall a, b :: (a, b) in g.edges <==> a in f.blocks && b in f.succ[a]
  }

  // ---- End events ------------------------------------------------------------------

  /** The end events that block `b` has for the group: one for each end marker that closes an entry. */
  ghost function Closed(f: R.Func, open: (Block, Group) -> nat, id: Group, b: Block): nat
    requires b in f.marks
  {
    var n, m := R.Inside(f, open, b, id), R.Ends(f.marks[b], id);
    if m < n then m else n
  }

  /** `ex` has the region's end events, at least in the blocks that can run. */
  ghost predicate HasEnds(f: R.Func, open: (Block, Group) -> nat, id: Group, ex: Extent, g: Graph) {
    forall b :: b in f.marks && Reachable(g, b) ==> ex.closes(b) == Closed(f, open, id, b)
  }

  ghost function EndsAt(ends: set<R.Closing>, b: Block, region: nat, n: nat): set<R.Closing> {
    set c | c in ends && c.block == b && c.region == region && c.at < n
  }

  /** How many end events for the region stand in block `b`. */
  ghost function EndEvents(ends: set<R.Closing>, b: Block, region: nat): nat {
    |set c | c in ends && c.block == b && c.region == region|
  }

  lemma ClosingHere(f: R.Func, open: (Block, Group) -> nat, groups: seq<R.Entry>, visited: set<Block>, base: nat,
                    ends: set<R.Closing>, id: Group, b: Block, n: nat)
    requires R.WellFormed(f) && R.EndsRight(f, open, groups, visited, base, ends) && R.Has(groups, id)
    requires b in visited && b in f.blocks && n < |f.marks[b]|
    ensures R.Closing(b, n, base + R.IndexOf(groups, id)) in ends <==>
      f.marks[b][n] == R.End(id) && R.Ends(f.marks[b][..n], id) < R.Inside(f, open, b, id)
  {
    var c, h := R.Closing(b, n, base + R.IndexOf(groups, id)), f.marks[b][n].group;
    if c in ends {
      assert R.IndexOf(groups, h) == R.IndexOf(groups, id);
    }
  }

  lemma EndsNext(ends: set<R.Closing>, b: Block, r: nat, n: nat)
    ensures |EndsAt(ends, b, r, n + 1)| == |EndsAt(ends, b, r, n)| + if R.Closing(b, n, r) in ends then 1 else 0
  {
    var c := R.Closing(b, n, r);
    assert EndsAt(ends, b, r, n + 1) == EndsAt(ends, b, r, n) + (if c in ends then {c} else {});
  }

  lemma {:induction false} CountEnds(f: R.Func, open: (Block, Group) -> nat, groups: seq<R.Entry>, visited: set<Block>,
                                     base: nat, ends: set<R.Closing>, id: Group, b: Block, n: nat)
    requires R.WellFormed(f) && R.EndsRight(f, open, groups, visited, base, ends) && R.Has(groups, id)
    requires b in visited && b in f.blocks && n <= |f.marks[b]|
    ensures var i, m := R.Inside(f, open, b, id), R.Ends(f.marks[b][..n], id);
      |EndsAt(ends, b, base + R.IndexOf(groups, id), n)| == if m < i then m else i
  {
    var ms, r := f.marks[b], base + R.IndexOf(groups, id);
    hide R.EndsRight, R.Has, R.Inside;
    if n == 0 {
      assert EndsAt(ends, b, r, 0) == {};
    } else {
      CountEnds(f, open, groups, visited, base, ends, id, b, n - 1);
      ClosingHere(f, open, groups, visited, base, ends, id, b, n - 1);
      EndsNext(ends, b, r, n - 1);
      hide EndsAt;
      assert ms[..n][..n - 1] == ms[..n - 1];
    }
  }

  lemma EndsInBlock(f: R.Func, open: (Block, Group) -> nat, groups: seq<R.Entry>, visited: set<Block>, base: nat,
                    ends: set<R.Closing>, b: Block, r: nat)
    requires R.WellFormed(f) && R.EndsRight(f, open, groups, visited, base, ends) && b in f.blocks
    ensures EndsAt(ends, b, r, |f.marks[b]|) == set c | c in ends && c.block == b && c.region == r
  {
    forall c | c in ends && c.block == b ensures c.at < |f.marks[b]| {
    }
    hide R.EndsRight;
  }

  /** Region discovery leaves in each block it has visited as many end events for a region as there are end
      markers that close an entry of its group. */
  lemma EndEventsClose(f: R.Func, open: (Block, Group) -> nat, groups: seq<R.Entry>, visited: set<Block>, base: nat,
                       ends: set<R.Closing>, id: Group, b: Block)
    requires R.WellFormed(f) && R.EndsRight(f, open, groups, visited, base, ends) && R.Has(groups, id)
    requires b in visited && b in f.blocks
    ensures EndEvents(ends, b, base + R.IndexOf(groups, id)) == Closed(f, open, id, b)
  {
    hide R.EndsRight, R.Has, R.Inside, R.Ends, EndsAt;
    CountEnds(f, open, groups, visited, base, ends, id, b, |f.marks[b]|);
    EndsInBlock(f, open, groups, visited, base, ends, b, base + R.IndexOf(groups, id));
    assert f.marks[b][..|f.marks[b]|] == f.marks[b];
  }

  // ---- Markers and events along a walk ---------------------------------------------

  /** Along a walk the labels say how often the group is open by the markers. */
  lemma LabelNext(f: R.Func, open: (Block, Group) -> nat, id: Group, g: Graph, w: seq<Block>, i: nat)
    requires Graphs(f, g) && R.Labels(f, open) && FromEntry(g, w) && i < |w|
    ensures w[i] in f.blocks && Reachable(g, w[i]) && open(w[0], id) == 0
    ensures i + 1 < |w| ==> open(w[i + 1], id) == R.Inside(f, open, w[i], id) - Closed(f, open, id, w[i])
  {
    SubWalk(g, w, 0, i + 1);
    assert FromEntry(g, w[..i + 1]) && w[..i + 1][i] == w[i];
    if i + 1 < |w| {
      assert StepAt(g, w, i + 1);
    } else if 0 < i {
      assert StepAt(g, w, i);
    }
  }

  /** If the start event stands at a begin marker, the region is never open where its markers leave it
      closed, and never more deeply than they say. */
  lemma {:induction false} DepthBelowLabel(f: R.Func, open: (Block, Group) -> nat, id: Group, g: Graph, ex: Extent,
                                           w: seq<Block>, i: nat)
    requires Graphs(f, g) && R.Labels(f, open) && FromEntry(g, w) && i < |w| && HasEnds(f, open, id, ex, g)
    requires ex.begin in f.marks && 0 < R.Begins(f.marks[ex.begin], id)
    ensures w[i] in f.blocks && DepthAt(ex, w, i) <= open(w[i], id)
    ensures OpenAt(ex, w, i) ==> 0 < R.Inside(f, open, w[i], id)
  {
    LabelNext(f, open, id, g, w, i);
    if 0 < i {
      LabelNext(f, open, id, g, w, i - 1);
      DepthBelowLabel(f, open, id, g, ex, w, i - 1);
      hide Graphs, R.Labels, FromEntry, R.Begins, R.Ends, Reachable;
    }
  }

  /** The group's only begin marker is in block `begin`. */
  ghost predicate SoleBegin(f: R.Func, g: Graph, id: Group, begin: Block) {
    forall b :: b in f.marks && Reachable(g, b) ==> R.Begins(f.marks[b], id) == if b == begin then 1 else 0
  }

  /** With one begin marker, and the start event there, the region is open exactly as its markers say. */
  lemma {:induction false} DepthIsLabel(f: R.Func, open: (Block, Group) -> nat, id: Group, g: Graph, ex: Extent,
                                        w: seq<Block>, i: nat)
    requires Graphs(f, g) && R.Labels(f, open) && FromEntry(g, w) && i < |w| && HasEnds(f, open, id, ex, g)
    requires SoleBegin(f, g, id, ex.begin)
    ensures w[i] in f.blocks && DepthAt(ex, w, i) == open(w[i], id)
    ensures OpenAt(ex, w, i) <==> 0 < R.Inside(f, open, w[i], id)
  {
    LabelNext(f, open, id, g, w, i);
    if 0 < i {
      LabelNext(f, open, id, g, w, i - 1);
      DepthIsLabel(f, open, id, g, ex, w, i - 1);
      hide Graphs, R.Labels, FromEntry, R.Begins, R.Ends, Reachable;
    }
  }

  // ---- One begin marker ------------------------------------------------------------

  /** A region of the program: its labels, its events, its list of blocks, and split blocks without markers. */
  ghost predicate Marked(f: R.Func, open: (Block, Group) -> nat, id: Group, pr: Program, ex: Extent, l: seq<Block>) {
    && Graphs(f, pr.g) && R.Labels(f, open) && HasEnds(f, open, id, ex, pr.g)
    && ex.begin in f.marks && 0 < R.Begins(f.marks[ex.begin], id)
    && (forall b :: b in l ==> b in f.marks && 0 < R.Inside(f, open, b, id))
    && (forall k :: 0 < k < |pr.pre| ==> pr.pre[k] in f.marks && f.marks[pr.pre[k]] == [])
  }

  /** In front of a loop a group is open as deeply as on entry to the loop's header. */
  lemma InFrontOfLoop(f: R.Func, open: (Block, Group) -> nat, id: Group, pr: Program, ex: Extent, l: seq<Block>, k: nat)
    requires Marked(f, open, id, pr, ex, l) && LaidOut(pr) && 0 < k < |pr.t|
    ensures pr.pre[k] in f.marks && R.Inside(f, open, pr.pre[k], id) == open(pr.t[k].header, id)
  {
    assert NaturalLoop(pr, k);
    assert (pr.pre[k], pr.t[k].header) in pr.g.edges;
  }

  /** The loop in front of which a counter is placed. */
  function LoopOf(c: Counter): nat {
    match c
    case Anchor(_) => 0
    case Hoist(top, _) => top
    case Dynamic(k, _) => k
  }

  /** Some run that meets the hypotheses enters the loop. */
  ghost predicate Entered(pr: Program, tr: Trees, l: seq<Block>, k: nat) {
    k < |pr.pre| && exists w :: Meets(pr, tr, l, w) && pr.pre[k] in w
  }

  /** The region's counters recover what the run executed of its blocks, whatever the blocks weigh. */
  ghost predicate RunRight(pr: Program, ex: Extent, w: seq<Block>, cs: seq<Counter>, l: seq<Block>) {
    && (forall c :: c in cs ==> InTree(pr, c))
    && forall cost :: RecoveredOpen(pr, ex, w, cs, cost) == Stepwise(w, l, cost)
  }

  ghost predicate AllRight(pr: Program, tr: Trees, ex: Extent, cs: seq<Counter>, l: seq<Block>) {
    forall w :: Meets(pr, tr, l, w) ==> RunRight(pr, ex, w, cs, l)
  }

  /** The region is open on entry to the header of the loop in front of which `c` is placed. */
  ghost predicate HeaderOpen(open: (Block, Group) -> nat, id: Group, pr: Program, c: Counter) {
    LoopOf(c) < |pr.t| && 0 < open(pr.t[LoopOf(c)].header, id)
  }

  lemma CounterOpen(f: R.Func, open: (Block, Group) -> nat, id: Group, pr: Program, tr: Trees, ex: Extent,
                    l: seq<Block>, w: seq<Block>, c: Counter)
    requires Marked(f, open, id, pr, ex, l) && SoleBegin(f, pr.g, id, ex.begin) && LaidOut(pr) && FromEntry(pr.g, w)
    requires CounterOk(pr.t, tr, c) && InTree(pr, c) && forall b :: b in BlocksOf(c) ==> b in l
    ensures AlwaysOpen(pr, ex, w, c) <==> c.Anchor? || Place(pr, c) !in w || HeaderOpen(open, id, pr, c)
  {
    var p := Place(pr, c);
    forall i | 0 <= i < |w| ensures OpenAt(ex, w, i) <==> w[i] in f.marks && 0 < R.Inside(f, open, w[i], id) {
      DepthIsLabel(f, open, id, pr.g, ex, w, i);
    }
    if c.Anchor? {
      assert p in BlocksOf(c);
    } else {
      InFrontOfLoop(f, open, id, pr, ex, l, LoopOf(c));
      if p in w {
        assert w[FirstAt(w, p)] == p;
      }
    }
  }

  lemma {:induction false} BlocksAmong(cs: seq<Counter>, c: Counter, b: Block)
    requires c in cs && b in BlocksOf(c)
    ensures b in AllBlocks(cs)
  {
    assert cs == [cs[0]] + cs[1..];
    if c != cs[0] {
      BlocksAmong(cs[1..], c, b);
    }
  }

  lemma CountedOpen(f: R.Func, open: (Block, Group) -> nat, id: Group, pr: Program, tr: Trees, ex: Extent,
                    cs: seq<Counter>, l: seq<Block>, w: seq<Block>)
    requires Marked(f, open, id, pr, ex, l) && SoleBegin(f, pr.g, id, ex.begin) && Meets(pr, tr, l, w)
    requires WellFormed(pr.t) && CountersOk(pr.t, tr, cs) && multiset(AllBlocks(cs)) == multiset(l)
    requires forall c :: c in cs ==> InTree(pr, c)
    ensures OpenWhereCounted(pr, ex, w, cs) <==>
      forall c :: c in cs && BlocksOf(c) != [] && !c.Anchor? && Place(pr, c) in w ==> HeaderOpen(open, id, pr, c)
  {
    hide Marked, SoleBegin, LaidOut, Steady, TripCounts, ToExit, FromEntry, CounterOk, AlwaysOpen, HeaderOpen, InTree,
      AllBlocks, BlocksOf;
    forall c | c in cs
      ensures AlwaysOpen(pr, ex, w, c) <==> c.Anchor? || Place(pr, c) !in w || HeaderOpen(open, id, pr, c)
    {
      forall b | b in BlocksOf(c) ensures b in l {
        BlocksAmong(cs, c, b);
        assert b in multiset(AllBlocks(cs));
      }
      assert CounterOk(pr.t, tr, c);
      CounterOpen(f, open, id, pr, tr, ex, l, w, c);
    }
  }

  /** For a region with one begin marker, the counters recover what runs, in all runs that meet the
      hypotheses and for all mixes, if and only if the region is open on entry to the header of every loop
      that has had blocks hoisted and is entered by one of those runs.  What is read is the label of the
      header, known before the pass runs. */
  lemma RightIffHeadersOpen(f: R.Func, open: (Block, Group) -> nat, id: Group, pr: Program, tr: Trees, ex: Extent,
                            cs: seq<Counter>, l: seq<Block>)
    requires Marked(f, open, id, pr, ex, l) && SoleBegin(f, pr.g, id, ex.begin)
    requires WellFormed(pr.t) && CountersOk(pr.t, tr, cs) && multiset(AllBlocks(cs)) == multiset(l) && NoDup(l)
    ensures AllRight(pr, tr, ex, cs, l) <==>
      forall c :: c in cs && BlocksOf(c) != [] && !c.Anchor? && Entered(pr, tr, l, LoopOf(c)) ==>
        HeaderOpen(open, id, pr, c)
  {
    hide Marked, SoleBegin, Meets, CountersOk, HeaderOpen, RunRight, OpenWhereCounted, BlocksOf, AllBlocks;
    forall w | Meets(pr, tr, l, w)
      ensures forall c :: c in cs ==> InTree(pr, c)
      ensures RunRight(pr, ex, w, cs, l) <==>
        forall c :: c in cs && BlocksOf(c) != [] && !c.Anchor? && Place(pr, c) in w ==> HeaderOpen(open, id, pr, c)
    {
      RunRightIffOpen(pr, tr, ex, cs, l, w);
      CountedOpen(f, open, id, pr, tr, ex, cs, l, w);
    }
    if AllRight(pr, tr, ex, cs, l) {
      forall c | c in cs && BlocksOf(c) != [] && !c.Anchor? && Entered(pr, tr, l, LoopOf(c))
        ensures HeaderOpen(open, id, pr, c)
      {
        var w :| Meets(pr, tr, l, w) && pr.pre[LoopOf(c)] in w;
        assert Place(pr, c) in w;
      }
    }
  }

  lemma RunRightIffOpen(pr: Program, tr: Trees, ex: Extent, cs: seq<Counter>, l: seq<Block>, w: seq<Block>)
    requires Meets(pr, tr, l, w) && WellFormed(pr.t)
    requires CountersOk(pr.t, tr, cs) && multiset(AllBlocks(cs)) == multiset(l) && NoDup(l)
    ensures forall c :: c in cs ==> InTree(pr, c)
    ensures RunRight(pr, ex, w, cs, l) <==> OpenWhereCounted(pr, ex, w, cs)
  {
    hide Meets, CountersOk, NoDup, WellFormed, AllBlocks, Stepwise, RecoveredOpen, OpenWhereCounted, InTree;
    RecoversIffOpen(pr, tr, ex, w, cs, l, One);
    assert Positive(l, One);
    if RunRight(pr, ex, w, cs, l) {
      assert RecoveredOpen(pr, ex, w, cs, One) == Stepwise(w, l, One);
    } else {
      var cost :| RecoveredOpen(pr, ex, w, cs, cost) != Stepwise(w, l, cost);
      RecoversIffOpen(pr, tr, ex, w, cs, l, cost);
    }
  }

  // ---- Several begin markers -------------------------------------------------------

  /** No begin marker of the group is met while the group is open. */
  ghost predicate NotNested(f: R.Func, open: (Block, Group) -> nat, id: Group, g: Graph) {
    forall b :: b in f.marks && Reachable(g, b) ==> R.Inside(f, open, b, id) <= 1
  }

  ghost predicate BeginsAt(f: R.Func, id: Group, b: Block) {
    b in f.marks && 0 < R.Begins(f.marks[b], id)
  }

  ghost predicate EndsAfter(f: R.Func, id: Group, b: Block) {
    b in f.marks && 0 < R.Ends(f.marks[b], id)
  }

  /** The walk goes from position `j` to position `i` without an end marker in between. */
  ghost predicate Stays(f: R.Func, id: Group, w: seq<Block>, j: nat, i: nat)
    requires j <= i < |w|
  {
    forall m :: j <= m < i ==> !EndsAfter(f, id, w[m])
  }

  /** The last begin marker that the walk has met by position `i`, if there was no end marker since. */
  ghost function CameIn(f: R.Func, id: Group, w: seq<Block>, i: nat): (j: int)
    requires i < |w|
    ensures -1 <= j <= i && (0 <= j ==> BeginsAt(f, id, w[j]) && Stays(f, id, w, j, i))
  {
    if BeginsAt(f, id, w[i]) then i
    else if i == 0 || EndsAfter(f, id, w[i - 1]) then -1
    else CameIn(f, id, w, i - 1)
  }

  /** What one step does to the label and to the depth, if no begin marker is met while the group is open. */
  lemma StepOnce(f: R.Func, open: (Block, Group) -> nat, id: Group, g: Graph, ex: Extent, w: seq<Block>, i: nat)
    requires Graphs(f, g) && R.Labels(f, open) && FromEntry(g, w) && 0 < i < |w| && NotNested(f, open, id, g)
    requires HasEnds(f, open, id, ex, g) && BeginsAt(f, id, ex.begin)
    ensures w[i] in f.marks && w[i - 1] in f.marks
    ensures R.Inside(f, open, w[i - 1], id) <= 1 && R.Inside(f, open, w[i], id) <= 1
    ensures open(w[i], id) == if EndsAfter(f, id, w[i - 1]) then 0 else R.Inside(f, open, w[i - 1], id)
    ensures DepthAt(ex, w, i) <= open(w[i], id) && DepthAt(ex, w, i - 1) <= open(w[i - 1], id)
    ensures DepthAt(ex, w, i) ==
      if EndsAfter(f, id, w[i - 1]) then 0 else DepthAt(ex, w, i - 1) + Starts(ex, w[i - 1])
  {
    LabelNext(f, open, id, g, w, i);
    LabelNext(f, open, id, g, w, i - 1);
    DepthBelowLabel(f, open, id, g, ex, w, i);
    DepthBelowLabel(f, open, id, g, ex, w, i - 1);
    hide Graphs, R.Labels, FromEntry, OpenAt, R.Begins, R.Ends;
  }

  /** If no begin marker is met while the group is open, a step is in the group's extent exactly if the walk
      has come in and stayed, and the region is open there exactly if it last came in at the block with the
      start event. */
  lemma {:induction false} OpenIffCameInAtBegin(f: R.Func, open: (Block, Group) -> nat, id: Group, g: Graph,
                                                ex: Extent, w: seq<Block>, i: nat)
    requires Graphs(f, g) && R.Labels(f, open) && FromEntry(g, w) && i < |w| && NotNested(f, open, id, g)
    requires HasEnds(f, open, id, ex, g) && BeginsAt(f, id, ex.begin)
    ensures w[i] in f.marks && (0 < R.Inside(f, open, w[i], id) <==> 0 <= CameIn(f, id, w, i))
    ensures OpenAt(ex, w, i) <==> 0 <= CameIn(f, id, w, i) && w[CameIn(f, id, w, i)] == ex.begin
  {
    if i == 0 {
      LabelNext(f, open, id, g, w, 0);
    } else {
      StepOnce(f, open, id, g, ex, w, i);
      OpenIffCameInAtBegin(f, open, id, g, ex, w, i - 1);
      hide Graphs, R.Labels, FromEntry, NotNested, HasEnds, R.Begins, R.Ends, DepthAt, Stays;
    }
  }

  /** Only from the begin marker in block `begin` can `x` be reached without meeting an end marker. */
  ghost predicate OnlyEntrance(f: R.Func, id: Group, g: Graph, begin: Block, x: Block) {
    forall q :: LeadsIn(f, id, g, q) && q[|q| - 1] == x ==> q[0] == begin
  }

  /** A walk from a begin marker without an end marker on the way. */
  ghost predicate LeadsIn(f: R.Func, id: Group, g: Graph, q: seq<Block>) {
    Walk(g, q) && Reachable(g, q[0]) && BeginsAt(f, id, q[0]) && Stays(f, id, q, 0, |q| - 1)
  }

  /** A walk that has come in and stayed has met no other begin marker. */
  lemma {:induction false} CameInOnce(f: R.Func, open: (Block, Group) -> nat, id: Group, g: Graph, ex: Extent,
                                      w: seq<Block>, j: nat, i: nat)
    requires Graphs(f, g) && R.Labels(f, open) && FromEntry(g, w) && j <= i < |w| && NotNested(f, open, id, g)
    requires HasEnds(f, open, id, ex, g) && BeginsAt(f, id, ex.begin)
    requires BeginsAt(f, id, w[j]) && Stays(f, id, w, j, i)
    ensures CameIn(f, id, w, i) == j
    decreases i
  {
    if j < i {
      CameInOnce(f, open, id, g, ex, w, j, i - 1);
      OpenIffCameInAtBegin(f, open, id, g, ex, w, i - 1);
      StepOnce(f, open, id, g, ex, w, i);
      assert !EndsAfter(f, id, w[i - 1]);
      hide Graphs, R.Labels, FromEntry, NotNested, HasEnds, EndsAfter, Stays, OpenAt, DepthAt;
    }
  }

  /** A region is open whenever the function arrives at a block, by any way, if and only if its markers say
      that it is open there and no other begin marker leads to the block without an end marker between. */
  lemma AlwaysOpenIffOnlyEntrance(f: R.Func, open: (Block, Group) -> nat, id: Group, g: Graph, ex: Extent, x: Block)
    requires Graphs(f, g) && R.Labels(f, open) && NotNested(f, open, id, g) && Reachable(g, x) && x in f.marks
    requires HasEnds(f, open, id, ex, g) && BeginsAt(f, id, ex.begin)
    ensures (forall p :: FromEntry(g, p) && p[|p| - 1] == x ==> OpenAt(ex, p, |p| - 1)) <==>
      0 < R.Inside(f, open, x, id) && OnlyEntrance(f, id, g, ex.begin, x)
  {
    hide Graphs, R.Labels, NotNested, HasEnds, BeginsAt, EndsAfter, OpenAt, CameIn, R.Inside;
    if forall p :: FromEntry(g, p) && p[|p| - 1] == x ==> OpenAt(ex, p, |p| - 1) {
      var p :| FromEntry(g, p) && p[|p| - 1] == x;
      OpenIffCameInAtBegin(f, open, id, g, ex, p, |p| - 1);
      forall q | LeadsIn(f, id, g, q) && q[|q| - 1] == x ensures q[0] == ex.begin
      {
        EnteredBy(f, open, id, g, ex, q);
      }
    } else {
      var p :| FromEntry(g, p) && p[|p| - 1] == x && !OpenAt(ex, p, |p| - 1);
      OpenIffCameInAtBegin(f, open, id, g, ex, p, |p| - 1);
      var j := CameIn(f, id, p, |p| - 1);
      if 0 <= j {
        SubWalk(g, p, j, |p|);
        SubWalk(g, p, 0, j + 1);
        assert FromEntry(g, p[..j + 1]) && p[..j + 1][j] == p[j];
        assert Stays(f, id, p[j..], 0, |p| - 1 - j);
        assert LeadsIn(f, id, g, p[j..]);
      }
    }
  }

  /** A walk that comes in at its start and stays can be reached from the entry. */
  lemma EnteredBy(f: R.Func, open: (Block, Group) -> nat, id: Group, g: Graph, ex: Extent, q: seq<Block>)
    requires Graphs(f, g) && R.Labels(f, open) && NotNested(f, open, id, g)
    requires HasEnds(f, open, id, ex, g) && BeginsAt(f, id, ex.begin)
    requires LeadsIn(f, id, g, q)
    requires forall p :: FromEntry(g, p) && p[|p| - 1] == q[|q| - 1] ==> OpenAt(ex, p, |p| - 1)
    ensures q[0] == ex.begin
  {
    hide Graphs, R.Labels, NotNested, HasEnds, BeginsAt, EndsAfter, OpenAt, CameIn;
    var a :| FromEntry(g, a) && a[|a| - 1] == q[0];
    Join(g, a, q);
    var p, n := a + q[1..], |a| - 1;
    forall m | n <= m < |p| ensures p[m] == q[m - n] {
    }
    assert Stays(f, id, p, n, |p| - 1);
    CameInOnce(f, open, id, g, ex, p, n, |p| - 1);
    OpenIffCameInAtBegin(f, open, id, g, ex, p, |p| - 1);
  }

  /** For any region whose group is not begun again while it is open: a run's counters recover what it
      executed, for all mixes, if and only if each time it passes the block of a counter with blocks, it has
      last come into the extent at the block with the start event. */
  lemma RightIffCameInAtBegin(f: R.Func, open: (Block, Group) -> nat, id: Group, pr: Program, tr: Trees, ex: Extent,
                              cs: seq<Counter>, l: seq<Block>, w: seq<Block>)
    requires Marked(f, open, id, pr, ex, l) && NotNested(f, open, id, pr.g) && Meets(pr, tr, l, w)
    requires WellFormed(pr.t) && CountersOk(pr.t, tr, cs) && multiset(AllBlocks(cs)) == multiset(l) && NoDup(l)
    ensures forall c :: c in cs ==> InTree(pr, c)
    ensures RunRight(pr, ex, w, cs, l) <==>
      forall c, i :: c in cs && BlocksOf(c) != [] && 0 <= i < |w| && w[i] == Place(pr, c) ==>
        0 <= CameIn(f, id, w, i) && w[CameIn(f, id, w, i)] == ex.begin
  {
    hide Marked, NotNested, Meets, CountersOk, RunRight, OpenAt, CameIn, AllBlocks, WellFormed, BlocksOf, Place, NoDup;
    RunRightIffOpen(pr, tr, ex, cs, l, w);
    OpenAsCameIn(f, open, id, pr, tr, ex, l, w);
  }

  lemma OpenAsCameIn(f: R.Func, open: (Block, Group) -> nat, id: Group, pr: Program, tr: Trees, ex: Extent,
                     l: seq<Block>, w: seq<Block>)
    requires Marked(f, open, id, pr, ex, l) && NotNested(f, open, id, pr.g) && Meets(pr, tr, l, w)
    ensures forall i :: 0 <= i < |w| ==>
      (OpenAt(ex, w, i) <==> 0 <= CameIn(f, id, w, i) && w[CameIn(f, id, w, i)] == ex.begin)
  {
    hide LaidOut, Steady, TripCounts, ToExit, FromEntry, OpenAt, CameIn, NotNested;
    forall i | 0 <= i < |w|
      ensures OpenAt(ex, w, i) <==> 0 <= CameIn(f, id, w, i) && w[CameIn(f, id, w, i)] == ex.begin
    {
      OpenIffCameInAtBegin(f, open, id, pr.g, ex, w, i);
    }
  }

  // ---- The block with the start event -----------------------------------------------

  /** The order of the blocks: all of them but the entry come after some predecessor. */
  ghost predicate Led(f: R.Func, order: seq<Block>) {
    forall i :: 0 <= i < |order| ==> order[i] in f.blocks && (order[i] == f.entry || LedTo(f, order, i))
  }

  ghost predicate LedTo(f: R.Func, order: seq<Block>, i: nat)
    requires i < |order|
  {
    exists j :: 0 <= j < i && order[j] in f.succ && order[i] in f.succ[order[j]]
  }

  /** The earliest block of a region's list has a begin marker of its group. */
  lemma BeginIsMarked(f: R.Func, open: (Block, Group) -> nat, id: Group, order: seq<Block>, size: Block -> nat,
                      l: seq<Block>, begin: Block)
    requires R.WellFormed(f) && R.Labels(f, open) && Led(f, order) && forall b :: b in order ==> 0 < size(b)
    requires forall b :: b in l <==> b in order && b in f.marks && 0 < R.Inside(f, open, b, id)
    requires begin in order && B.Earliest(order, size, l, |l|, begin)
    ensures BeginsAt(f, id, begin)
  {
    var i := B.At(order, begin);
    assert order[i] == begin && begin in f.marks && 0 < R.Inside(f, open, begin, id);
    if R.Begins(f.marks[begin], id) == 0 {
      var j := LedFrom(f, open, id, order, i);
      var y := order[j];
      assert y in order && y in l;
      var n := FirstAt(l, y);
      hide R.Labels, Led, R.WellFormed, R.Inside, R.Begins;
      B.StartOrder(order, size, begin, y);
    }
  }

  /** A block that is inside the group without a begin marker has an earlier predecessor inside. */
  lemma LedFrom(f: R.Func, open: (Block, Group) -> nat, id: Group, order: seq<Block>, i: nat) returns (j: nat)
    requires R.WellFormed(f) && R.Labels(f, open) && Led(f, order) && i < |order|
    requires 0 < R.Inside(f, open, order[i], id) && R.Begins(f.marks[order[i]], id) == 0
    ensures j < i && order[j] in f.marks && 0 < R.Inside(f, open, order[j], id)
  {
    assert order[i] != f.entry && LedTo(f, order, i);
    j :| 0 <= j < i && order[j] in f.succ && order[i] in f.succ[order[j]];
  }

  /** What region discovery and the bounds give a region: its end events where its markers close it, its start
      event at a begin marker, and blocks where its markers leave it open. */
  lemma DiscoveredRegion(f: R.Func, open: (Block, Group) -> nat, groups: seq<R.Entry>, visited: set<Block>, base: nat,
                         ends: set<R.Closing>, id: Group, order: seq<Block>, size: Block -> nat, begin: Block, g: Graph)
    requires Graphs(f, g) && R.Labels(f, open) && Led(f, order) && R.Has(groups, id)
    requires forall b :: b in order ==> 0 < size(b)
    requires forall b :: b in order <==> b in visited
    requires forall b :: b in visited <==> R.Reaches(f, f.entry, b)
    requires R.ListsRight(f, open, groups, visited) && R.EndsRight(f, open, groups, visited, base, ends)
    requires (forall b :: b in R.Blocks(groups, id) ==> b in order) && begin in order
    requires B.Earliest(order, size, R.Blocks(groups, id), |R.Blocks(groups, id)|, begin)
    ensures var ex := Extent(begin, b => EndEvents(ends, b, base + R.IndexOf(groups, id)));
      HasEnds(f, open, id, ex, g) && BeginsAt(f, id, begin)
    ensures forall b :: b in R.Blocks(groups, id) ==> b in f.marks && 0 < R.Inside(f, open, b, id)
  {
    var l := R.Blocks(groups, id);
    forall b ensures b in l <==> b in order && b in f.marks && 0 < R.Inside(f, open, b, id) {
      assert b in l <==> b in visited && b in f.blocks && 0 < R.Inside(f, open, b, id);
    }
    hide R.ListsRight, R.EndsRight, R.Inside, R.Labels, Led, R.Blocks, B.Earliest, BeginsAt, EndEvents, Closed, R.Has;
    BeginIsMarked(f, open, id, order, size, l, begin);
    forall b | b in f.marks && Reachable(g, b)
      ensures EndEvents(ends, b, base + R.IndexOf(groups, id)) == Closed(f, open, id, b)
    {
      ReachableIsReached(f, g, b);
      EndEventsClose(f, open, groups, visited, base, ends, id, b);
    }
  }

  lemma {:induction false} WalkIsPath(f: R.Func, g: Graph, w: seq<Block>)
    requires Graphs(f, g) && Walk(g, w) && w[0] in f.blocks
    ensures R.Path(f, w[0], w[|w| - 1], w[1..])
  {
    if |w| > 1 {
      assert StepAt(g, w, 1);
      SubWalk(g, w, 1, |w|);
      WalkIsPath(f, g, w[1..]);
    }
  }

  lemma ReachableIsReached(f: R.Func, g: Graph, b: Block)
    requires Graphs(f, g) && Reachable(g, b)
    ensures R.Reaches(f, f.entry, b)
  {
    var p :| FromEntry(g, p) && p[|p| - 1] == b;
    WalkIsPath(f, g, p);
  }

  /** Splitting the edge from `a` to `h` by a new block `p`. */
  ghost function SplitEdge(f: R.Func, a: Block, h: Block, p: Block): R.Func
    requires R.WellFormed(f)
  {
    R.Func(f.blocks + {p}, f.entry,
      map b | b in f.blocks + {p} :: if b == p then [h] else if b == a then Redirect(f.succ[b], h, p) else f.succ[b],
      f.marks[p := []])
  }

  ghost function Redirect(l: seq<Block>, h: Block, p: Block): (m: seq<Block>)
    ensures forall c :: c in m ==> (c == p && h in l) || c in l
    ensures h in l ==> p in m
  {
    if l == [] then [] else [if l[0] == h then p else l[0]] + Redirect(l[1..], h, p)
  }

  ghost function SplitLabels(open: (Block, Group) -> nat, h: Block, p: Block): (Block, Group) -> nat {
    (b, id) => if b == p then open(h, id) else open(b, id)
  }

  /** The labels carry over to the split function: the new block is as deep in every region as the block it
      leads to, and nothing changes for the others. */
  lemma SplitKeepsLabels(f: R.Func, open: (Block, Group) -> nat, a: Block, h: Block, p: Block)
    requires R.WellFormed(f) && R.Labels(f, open) && a in f.blocks && h in f.succ[a] && p !in f.blocks
    ensures R.WellFormed(SplitEdge(f, a, h, p)) && R.Labels(SplitEdge(f, a, h, p), SplitLabels(open, h, p))
    ensures forall id :: R.Inside(SplitEdge(f, a, h, p), SplitLabels(open, h, p), p, id) == open(h, id)
    ensures forall b, id :: b in f.blocks ==>
      R.Inside(SplitEdge(f, a, h, p), SplitLabels(open, h, p), b, id) == R.Inside(f, open, b, id)
  {
    SplitWellFormed(f, open, a, h, p);
    var e, q := SplitEdge(f, a, h, p), SplitLabels(open, h, p);
    forall b, c, id | b in e.blocks && c in e.succ[b]
      ensures q(c, id) == R.Minus(R.Inside(e, q, b, id), R.Ends(e.marks[b], id))
    {
      SplitLabel(f, open, a, h, p, b, c, id);
    }
    assert forall id :: q(e.entry, id) == 0;
    hide SplitEdge, SplitLabels, R.Inside, R.WellFormed, R.Ends, R.Minus;
  }

  lemma SplitWellFormed(f: R.Func, open: (Block, Group) -> nat, a: Block, h: Block, p: Block)
    requires R.WellFormed(f) && a in f.blocks && h in f.succ[a] && p !in f.blocks
    ensures R.WellFormed(SplitEdge(f, a, h, p))
    ensures forall id :: R.Inside(SplitEdge(f, a, h, p), SplitLabels(open, h, p), p, id) == open(h, id)
    ensures forall b, id :: b in f.blocks ==>
      R.Inside(SplitEdge(f, a, h, p), SplitLabels(open, h, p), b, id) == R.Inside(f, open, b, id)
  {
    var e := SplitEdge(f, a, h, p);
    forall b, c | b in e.blocks && c in e.succ[b] ensures c in e.blocks {
      if b != p && c != p {
        assert c in f.succ[b];
      }
    }
  }

  lemma SplitLabel(f: R.Func, open: (Block, Group) -> nat, a: Block, h: Block, p: Block, b: Block, c: Block, id: Group)
    requires R.WellFormed(f) && R.Labels(f, open) && a in f.blocks && h in f.succ[a] && p !in f.blocks
    requires b in SplitEdge(f, a, h, p).blocks && c in SplitEdge(f, a, h, p).succ[b]
    ensures c in SplitEdge(f, a, h, p).blocks
    ensures SplitLabels(open, h, p)(c, id) == R.Minus(R.Inside(SplitEdge(f, a, h, p), SplitLabels(open, h, p), b, id),
                                                      R.Ends(SplitEdge(f, a, h, p).marks[b], id))
  {
    if b == p {
      assert c == h && h in f.blocks;
    } else {
      var d := if c == p then h else c;
      assert d in f.succ[b];
      assert open(d, id) == R.Minus(R.Inside(f, open, b, id), R.Ends(f.marks[b], id));
    }
  }

  // ---- Region lists have dominators first --------------------------------------------

  /** A path of region discovery is a walk of the graph. */
  lemma {:induction false} PathIsWalk(f: R.Func, g: Graph, a: Block, z: Block, p: seq<Block>)
    requires Graphs(f, g) && R.Path(f, a, z, p)
    ensures Walk(g, [a] + p) && ([a] + p)[|p|] == z
    decreases |p|
  {
    if p != [] {
      PathIsWalk(f, g, p[0], z, p[1..]);
      var w := [a] + p;
      assert w[1..] == [p[0]] + p[1..];
      forall i | 0 < i < |w| ensures StepAt(g, w, i) {
        if i > 1 { assert StepAt(g, w[1..], i - 1); }
      }
    }
  }

  lemma {:induction false} BeforeAt(l: seq<Block>, x: Block, y: Block) returns (i: nat, j: nat)
    requires Before(l, x, y)
    ensures i < j < |l| && l[i] == x && l[j] == y
  {
    if l[0] == x && y in l[1..] {
      i, j := 0, 1 + FirstAt(l[1..], y);
    } else {
      i, j := BeforeAt(l[1..], x, y);
      i, j := i + 1, j + 1;
    }
  }

  lemma InOrderIsDominatorsFirst(f: R.Func, g: Graph, l: seq<Block>)
    requires Graphs(f, g) && R.InOrder(f, l)
    ensures DominatorsFirst(g, l)
  {
    forall x, y | Before(l, x, y) ensures !Dom(g, y, x) {
      var i, j := BeforeAt(l, x, y);
      assert R.Without(f, x, y);
      var p :| R.Path(f, f.entry, x, p) && y !in p;
      PathIsWalk(f, g, f.entry, x, p);
      assert FromEntry(g, [f.entry] + p) && y !in [f.entry] + p;
    }
  }

  /** The lists that region discovery makes are grouped into the classes of control equivalence. */
  lemma RegionListsAreCanonical(f: R.Func, open: (Block, Group) -> nat, groups: seq<R.Entry>, visited: set<Block>,
                                g: Graph, id: Group, t: Trees)
    requires Graphs(f, g) && R.ListsRight(f, open, groups, visited) && R.ListsInOrder(f, groups)
    requires forall x :: x in visited ==> R.Reaches(f, f.entry, x) && Exiting(g, x)
    requires t.enabled && t.Faithful(g)
    ensures GroupsAreClasses(g, R.Blocks(groups, id), t)
  {
    var l := R.Blocks(groups, id);
    forall b | b in l ensures Reachable(g, b) && Exiting(g, b) {
      assert b in visited;
      assert R.Reaches(f, f.entry, b);
      var p :| R.Path(f, f.entry, b, p);
      PathIsWalk(f, g, f.entry, b, p);
      assert FromEntry(g, [f.entry] + p);
    }
    assert NoDup(l) && R.InOrder(f, l);
    hide R.ListsRight, R.ListsInOrder, R.Blocks, R.InOrder, Graphs, GroupsAreClasses, DominatorsFirst, Reachable;
    InOrderIsDominatorsFirst(f, g, l);
    DominatorsFirstSuffices(g, l, t);
  }
}
