/** Two programs whose regions are not measured, though every block has a well-placed counter: a region
    inside a loop that can be hoisted, and two regions of one function that share a group id. */
module Unopened {
  import opened Collections
  import opened Cfg
  import opened Grouping
  import opened LoopTree
  import opened Plan
  import opened Placement
  import opened Gating
  import opened Extents
  import B = Bounds
  import Nest
  import R = Regions
  import GatedTraces
  import T = Runtime

  // ---- A counter that is never met while its region is open -------------------------

  lemma {:induction false} GainsNothing(pr: Program, ex: Extent, w: seq<Block>, c: Counter, i: nat)
    requires InTree(pr, c) && i <= |w|
    requires forall j :: 0 <= j < |w| && w[j] == Place(pr, c) ==> !OpenAt(ex, w, j)
    ensures Gained(pr, ex, w, c, i) == 0
    decreases |w| - i
  {
    hide OpenAt, Place;
    if i < |w| {
      GainsNothing(pr, ex, w, c, i + 1);
    }
  }

  /** A hoisted counter counts nothing for its region, in any run, if the region is not open on entry to the
      loop's header. */
  lemma ClosedHeaderCountsNothing(f: R.Func, open: (Block, Group) -> nat, id: Group, pr: Program, ex: Extent,
                                  l: seq<Block>, w: seq<Block>, c: Counter)
    requires Marked(f, open, id, pr, ex, l) && LaidOut(pr) && FromEntry(pr.g, w) && InTree(pr, c)
    requires !c.Anchor? && 0 < LoopOf(c) < |pr.t| && open(pr.t[LoopOf(c)].header, id) == 0
    ensures Gained(pr, ex, w, c, 0) == 0
  {
    InFrontOfLoop(f, open, id, pr, ex, l, LoopOf(c));
    forall j | 0 <= j < |w| && w[j] == Place(pr, c) ensures !OpenAt(ex, w, j) {
      DepthBelowLabel(f, open, id, pr.g, ex, w, j);
    }
    GainsNothing(pr, ex, w, c, 0);
  }

  function Everywhere(n: nat): (Block, Group) -> nat {
    (b, id) => n
  }

  function OneInstruction(b: Block): nat {
    1
  }

  // ---- A region inside a loop -------------------------------------------------------

  /** Entry 0; a loop 2 -> 3 -> 4 -> 2 entered through 1; exit 5.  Block 3 is a region of its own, and the
      header 2, the block before it, runs before it in each of two iterations. */
  const AROUND := Graph({(0, 1), (1, 2), (2, 3), (3, 4), (4, 2), (4, 5)}, {0}, {5})
  const AROUND_TREE := [LoopNode(0, 2, 0, 0, [], false, false), LoopNode(0, 2, 2, 2, [2, 3, 4], true, true)]
  const AROUND_PROGRAM := Program(AROUND, AROUND_TREE, [0, 1], (k, i) => 0)
  const AROUND_RUN: seq<Block> := [0, 1, 2, 3, 4, 2, 3, 4, 5]
  const AROUND_FUNC := R.Func({0, 1, 2, 3, 4, 5}, 0,
    map[0 := [1], 1 := [2], 2 := [3], 3 := [4], 4 := [2, 5], 5 := []],
    map[0 := [], 1 := [], 2 := [], 3 := [R.Begin(1), R.End(1)], 4 := [], 5 := []])
  const AROUND_EXTENT := Extent(3, b => if b == 3 then 1 else 0)
  const AROUND_COUNTERS := [Hoist(1, [Part(1, [3], 2)])]

  lemma AroundDom()
    ensures Dom(AROUND, 2, 2) && Dom(AROUND, 2, 3) && Dom(AROUND, 2, 4)
  {
    forall p | FromEntry(AROUND, p) && p[|p| - 1] == 3 ensures 2 in p {
      assert StepAt(AROUND, p, |p| - 1);
    }
    forall p | FromEntry(AROUND, p) && p[|p| - 1] == 4 ensures 2 in p {
      assert StepAt(AROUND, p, |p| - 1);
      assert StepAt(AROUND, p, |p| - 2);
    }
  }

  lemma AroundPDom()
    ensures PDom(AROUND, 3, 2)
  {
    forall p | ToExit(AROUND, p) && p[0] == 2 ensures 3 in p {
      assert StepAt(AROUND, p, 1);
    }
  }

  lemma AroundWellFormed()
    ensures WellFormed(AROUND_TREE)
  {
  }

  lemma AroundLoop()
    ensures NaturalLoop(AROUND_PROGRAM, 1)
  {
    AroundDom();
    hide Dom;
  }

  lemma AroundLaidOut()
    ensures WellFormed(AROUND_TREE) && LaidOut(AROUND_PROGRAM)
  {
    AroundWellFormed();
    AroundLoop();
    hide NaturalLoop, WellFormed;
  }

  lemma AroundTied()
    ensures Tied(AROUND, 2, 3) && Tied(AROUND, 3, 3)
  {
    forall c | ClosedWalk(AROUND, c) ensures 2 in c <==> 3 in c {
      var n := |c| - 1;
      forall i | 0 <= i < n ensures (c[i], c[i + 1]) in AROUND.edges {
        assert StepAt(AROUND, c, i + 1);
      }
      if 2 in c {
        var i := FirstAt(c, 2);
        assert i < n && c[i + 1] == 3;
      }
      if 3 in c {
        var i := FirstAt(c, 3);
        assert 0 < i ==> (c[i - 1], c[i - 1 + 1]) in AROUND.edges;
        assert i == 0 ==> (c[n - 1], c[n - 1 + 1]) in AROUND.edges;
      }
    }
  }

  lemma AroundSteady(tr: Trees)
    requires LaidOut(AROUND_PROGRAM)
    ensures Steady(AROUND_PROGRAM, tr, [3])
  {
    AroundTied();
    hide Tied, LaidOut;
  }

  lemma AroundRuns()
    ensures Run(AROUND, AROUND_RUN) && TripCounts(AROUND_PROGRAM, AROUND_RUN)
  {
    AroundWalk();
    AroundTrip();
    hide Until;
    forall i | 0 <= i < |AROUND_RUN| && AROUND_RUN[i] == 1 ensures i == 1 {
    }
  }

  lemma AroundWalk()
    ensures forall i :: 0 < i < |AROUND_RUN| ==> StepAt(AROUND, AROUND_RUN, i)
  {
    forall i | 0 < i < |AROUND_RUN| ensures StepAt(AROUND, AROUND_RUN, i) {
      assert i == 1 || i == 2 || i == 3 || i == 4 || i == 5 || i == 6 || i == 7 || i == 8;
    }
  }

  lemma AroundTrip()
    ensures Until(AROUND_RUN[1 + 1..], 1, 2) == 2
  {
    var end := [4] + ([5] + []);
    assert AROUND_RUN[1 + 1..] == [2] + ([3] + ([4] + ([2] + ([3] + end))));
    UntilCons(2, [3] + ([4] + ([2] + ([3] + end))), 1, 2);
    UntilCons(3, [4] + ([2] + ([3] + end)), 1, 2);
    UntilCons(4, [2] + ([3] + end), 1, 2);
    UntilCons(2, [3] + end, 1, 2);
    UntilCons(3, end, 1, 2);
    UntilCons(4, [5] + [], 1, 2);
    UntilCons(5, [], 1, 2);
  }

  lemma AroundMeets(tr: Trees)
    requires tr.Faithful(AROUND)
    ensures Meets(AROUND_PROGRAM, tr, [3], AROUND_RUN) && WellFormed(AROUND_TREE)
  {
    AroundLaidOut();
    AroundSteady(tr);
    AroundRuns();
    hide LaidOut, Steady, TripCounts, Run;
  }

  lemma AroundCounters(tr: Trees)
    requires tr.Faithful(AROUND) && WellFormed(AROUND_TREE)
    ensures CountersOk(AROUND_TREE, tr, AROUND_COUNTERS) && AllBlocks(AROUND_COUNTERS) == [3]
  {
    AroundPDom();
    var p := Part(1, [3], 2);
    assert [p][1..] == [] && AROUND_COUNTERS[1..] == [];
    assert tr.pdom(3, 2);
    hide Dom, PDom;
    assert 3 in AROUND_TREE[1].unique && !Chained(AROUND_TREE, tr, 1);
    assert PartOk(AROUND_TREE, tr, p, 1);
    assert PartBlocks([p]) == [3] + [];
    assert AllBlocks(AROUND_COUNTERS) == PartBlocks([p]) + [];
  }

  /** One begin marker and one end marker. */
  lemma MarkerPair(id: Group)
    ensures R.Begins([R.Begin(1), R.End(1)], id) == R.Ends([R.Begin(1), R.End(1)], id) == if id == 1 then 1 else 0
    ensures R.Begins([], id) == R.Ends([], id) == 0
  {
    var one, two := [R.Begin(1)], [R.Begin(1), R.End(1)];
    assert two[..1] == one && one[..0] == [];
    assert R.Begins(one, id) == R.Begins([], id) + (if id == 1 then 1 else 0);
    assert R.Ends(one, id) == 0;
  }

  lemma AroundMarks(b: Block, id: Group)
    requires b in AROUND_FUNC.marks
    ensures R.Begins(AROUND_FUNC.marks[b], id) == R.Ends(AROUND_FUNC.marks[b], id) == if b == 3 && id == 1 then 1 else 0
  {
    MarkerPair(id);
  }

  lemma AroundFunc()
    ensures R.WellFormed(AROUND_FUNC)
  {
  }

  lemma AroundEdges(a: Block, b: Block)
    requires R.WellFormed(AROUND_FUNC)
    ensures (a, b) in AROUND.edges <==> a in AROUND_FUNC.blocks && b in AROUND_FUNC.succ[a]
  {
  }

  lemma AroundGraph()
    ensures Graphs(AROUND_FUNC, AROUND)
  {
    AroundFunc();
    hide R.WellFormed;
    forall a: Block, b: Block ensures (a, b) in AROUND.edges <==> a in AROUND_FUNC.blocks && b in AROUND_FUNC.succ[a] {
      AroundEdges(a, b);
    }
  }

  lemma AroundLabels()
    requires R.WellFormed(AROUND_FUNC)
    ensures R.Labels(AROUND_FUNC, Everywhere(0))
  {
    forall b, c, id: Group | b in AROUND_FUNC.blocks && c in AROUND_FUNC.succ[b]
      ensures Everywhere(0)(c, id) ==
        R.Minus(R.Inside(AROUND_FUNC, Everywhere(0), b, id), R.Ends(AROUND_FUNC.marks[b], id))
    {
      AroundMarks(b, id);
    }
  }

  lemma AroundEvents()
    ensures HasEnds(AROUND_FUNC, Everywhere(0), 1, AROUND_EXTENT, AROUND) && SoleBegin(AROUND_FUNC, AROUND, 1, 3)
  {
    forall b | b in AROUND_FUNC.marks
      ensures R.Begins(AROUND_FUNC.marks[b], 1) == (if b == 3 then 1 else 0)
      ensures AROUND_EXTENT.closes(b) == Closed(AROUND_FUNC, Everywhere(0), 1, b)
    {
      AroundMarks(b, 1);
    }
    hide Closed, Reachable, R.Begins;
  }

  lemma AroundMarked()
    ensures Marked(AROUND_FUNC, Everywhere(0), 1, AROUND_PROGRAM, AROUND_EXTENT, [3])
    ensures SoleBegin(AROUND_FUNC, AROUND, 1, 3) && !HeaderOpen(Everywhere(0), 1, AROUND_PROGRAM, AROUND_COUNTERS[0])
  {
    AroundGraph();
    AroundLabels();
    AroundEvents();
    AroundMarks(3, 1);
    hide Graphs, R.Labels, HasEnds, SoleBegin, R.Begins, R.Ends;
  }

  lemma AroundSteps()
    ensures Stepwise(AROUND_RUN, [3], One) == 2
  {
    var end := [4] + ([5] + []);
    assert AROUND_RUN == [0] + ([1] + ([2] + ([3] + ([4] + ([2] + ([3] + end))))));
    Nest.StepwiseCons(0, [1] + ([2] + ([3] + ([4] + ([2] + ([3] + end))))), [3]);
    Nest.StepwiseCons(1, [2] + ([3] + ([4] + ([2] + ([3] + end)))), [3]);
    Nest.StepwiseCons(2, [3] + ([4] + ([2] + ([3] + end))), [3]);
    Nest.StepwiseCons(3, [4] + ([2] + ([3] + end)), [3]);
    Nest.StepwiseCons(4, [2] + ([3] + end), [3]);
    Nest.StepwiseCons(2, [3] + end, [3]);
    Nest.StepwiseCons(3, end, [3]);
    Nest.StepwiseCons(4, [5] + [], [3]);
    Nest.StepwiseCons(5, [], [3]);
  }

  /** The header, the block before the region's first in the order, is within the region's bounds: the loop
      gets into the region's loop tree. */
  lemma AroundBounds()
    ensures B.Lower([0, 2, 3, 4, 5], OneInstruction, true, 3) == B.StartOf([0, 2, 3, 4, 5], OneInstruction, 2)
    ensures B.StartOf([0, 2, 3, 4, 5], OneInstruction, 2) <= B.EndOf([0, 2, 3, 4, 5], OneInstruction, 3)
  {
    var order := [0, 2, 3, 4, 5];
    assert order[1..] == [2, 3, 4, 5] && [2, 3, 4, 5][1..] == [3, 4, 5];
    assert B.At(order, 2) == 1 && B.At(order, 3) == 2;
    B.OffsetGrows(order, OneInstruction, 1, 3);
  }

  lemma AroundGains()
    ensures |AROUND_COUNTERS| == 1 && InTree(AROUND_PROGRAM, AROUND_COUNTERS[0])
    ensures Gained(AROUND_PROGRAM, AROUND_EXTENT, AROUND_RUN, AROUND_COUNTERS[0], 0) == 0
  {
    AroundLaidOut();
    AroundMarked();
    AroundRuns();
    RunFromEntry(AROUND, AROUND_RUN);
    hide Marked, LaidOut, TripCounts, WellFormed, Run, Gained;
    ClosedHeaderCountsNothing(AROUND_FUNC, Everywhere(0), 1, AROUND_PROGRAM, AROUND_EXTENT, [3], AROUND_RUN,
                              AROUND_COUNTERS[0]);
  }

  /** A region that lies in a loop with a known trip count.  All hypotheses hold, the one counter is well
      placed and has the region's one block, and the run executes the block twice; but the increment comes
      once, before the region is opened for the first time, and nothing is recovered. */
  lemma RegionInLoopIsNotCounted(tr: Trees)
    requires tr.Faithful(AROUND)
    ensures WellFormed(AROUND_TREE) && CountersOk(AROUND_TREE, tr, AROUND_COUNTERS)
    ensures AllBlocks(AROUND_COUNTERS) == [3] && Meets(AROUND_PROGRAM, tr, [3], AROUND_RUN)
    ensures Marked(AROUND_FUNC, Everywhere(0), 1, AROUND_PROGRAM, AROUND_EXTENT, [3])
    ensures forall c :: c in AROUND_COUNTERS ==> InTree(AROUND_PROGRAM, c)
    ensures Recovered(AROUND_PROGRAM, AROUND_RUN, AROUND_COUNTERS, One) == 2
    ensures Stepwise(AROUND_RUN, [3], One) == 2
    ensures RecoveredOpen(AROUND_PROGRAM, AROUND_EXTENT, AROUND_RUN, AROUND_COUNTERS, One) == 0
  {
    AroundMeets(tr);
    AroundCounters(tr);
    AroundMarked();
    AroundSteps();
    AroundGains();
    AroundProgram();
    hide *;
    NothingRecovered(AROUND_PROGRAM, tr, AROUND_EXTENT, AROUND_RUN, AROUND_COUNTERS, [3], One);
  }

  lemma AroundProgram()
    ensures AROUND_PROGRAM.t == AROUND_TREE && NoDup<Block>([3])
  {
  }

  lemma NothingRecovered(pr: Program, tr: Trees, ex: Extent, w: seq<Block>, cs: seq<Counter>, l: seq<Block>,
                         cost: Block -> nat)
    requires Meets(pr, tr, l, w) && WellFormed(pr.t) && CountersOk(pr.t, tr, cs) && AllBlocks(cs) == l && NoDup(l)
    requires |cs| == 1 && InTree(pr, cs[0]) && Gained(pr, ex, w, cs[0], 0) == 0
    ensures forall c :: c in cs ==> InTree(pr, c)
    ensures Recovered(pr, w, cs, cost) == Stepwise(w, l, cost) && RecoveredOpen(pr, ex, w, cs, cost) == 0
  {
    hide LaidOut, Steady, TripCounts, Run, CountersOk, NoDup, WellFormed, AllBlocks, Recovered, Stepwise, Gained,
      InTree;
    RecoversWhatRan(pr, tr, w, cs, l, cost);
    assert cs[1..] == [];
  }

  /** The same at run time: after the run's events the thread's counter is zero. */
  lemma RegionInLoopReadsZero(clock: nat -> int)
    ensures var es := GatedTraces.Trace(AROUND_PROGRAM, AROUND_EXTENT, AROUND_COUNTERS, AROUND_RUN, 0, 0, clock);
      var c := T.Config(1, 1, 1);
      T.AllFit(c, es) && T.Run(c, T.Init(c), es).counters == [0]
  {
    AroundGains();
    hide *;
    ReadsZero(AROUND_PROGRAM, AROUND_EXTENT, AROUND_COUNTERS, AROUND_RUN, clock);
  }

  /** One counter that gains nothing leaves the thread's only slot at zero. */
  lemma ReadsZero(pr: Program, ex: Extent, cs: seq<Counter>, w: seq<Block>, clock: nat -> int)
    requires |cs| == 1 && InTree(pr, cs[0]) && Gained(pr, ex, w, cs[0], 0) == 0
    ensures var es := GatedTraces.Trace(pr, ex, cs, w, 0, 0, clock);
      var c := T.Config(1, 1, 1);
      T.AllFit(c, es) && T.Run(c, T.Init(c), es).counters == [0]
  {
    var c := T.Config(1, 1, 1);
    GatedTraces.StartEmpty(c, 0);
    GatedTraces.RowsAfterRun(c, T.Init(c), 0, 0, 0, pr, ex, cs, w, clock);
    hide T.Run, T.Init, Gained, GatedTraces.Trace;
    var u := T.Run(c, T.Init(c), GatedTraces.Trace(pr, ex, cs, w, 0, 0, clock));
    assert GatedTraces.InRow(c, u, 0, 0) == 0;
  }

  lemma RunFromEntry(g: Graph, w: seq<Block>)
    ensures Run(g, w) ==> FromEntry(g, w)
  {
  }

  // ---- Two regions with one group id ------------------------------------------------

  /** 0 -> 1 -> 2 -> {3, 4}, 3 -> 4: blocks 1 and 3 are two stretches of code marked with the same id. */
  const SHARED := Graph({(0, 1), (1, 2), (2, 3), (2, 4), (3, 4)}, {0}, {4})
  const SHARED_TREE := [LoopNode(0, 1, 0, 0, [], false, false)]
  const SHARED_PROGRAM := Program(SHARED, SHARED_TREE, [0], (k, i) => 0)
  const SHARED_RUN: seq<Block> := [0, 1, 2, 3, 4]
  const SHARED_FUNC := R.Func({0, 1, 2, 3, 4}, 0,
    map[0 := [1], 1 := [2], 2 := [3, 4], 3 := [4], 4 := []],
    map[0 := [], 1 := [R.Begin(1), R.End(1)], 2 := [], 3 := [R.Begin(1), R.End(1)], 4 := []])
  const SHARED_EXTENT := Extent(1, b => if b == 1 || b == 3 then 1 else 0)
  const SHARED_COUNTERS := [Anchor([1]), Anchor([3])]

  lemma SharedFunc()
    ensures R.WellFormed(SHARED_FUNC)
  {
  }

  lemma SharedEdges(a: Block, b: Block)
    requires R.WellFormed(SHARED_FUNC)
    ensures (a, b) in SHARED.edges <==> a in SHARED_FUNC.blocks && b in SHARED_FUNC.succ[a]
  {
  }

  lemma SharedGraph()
    ensures Graphs(SHARED_FUNC, SHARED)
  {
    SharedFunc();
    hide R.WellFormed;
    forall a: Block, b: Block ensures (a, b) in SHARED.edges <==> a in SHARED_FUNC.blocks && b in SHARED_FUNC.succ[a] {
      SharedEdges(a, b);
    }
  }

  lemma SharedMarks(b: Block, id: Group)
    requires b in SHARED_FUNC.marks
    ensures R.Begins(SHARED_FUNC.marks[b], id) == R.Ends(SHARED_FUNC.marks[b], id) ==
      if (b == 1 || b == 3) && id == 1 then 1 else 0
  {
    MarkerPair(id);
  }

  lemma SharedLabels()
    requires R.WellFormed(SHARED_FUNC)
    ensures R.Labels(SHARED_FUNC, Everywhere(0))
  {
    forall b, c, id: Group | b in SHARED_FUNC.blocks && c in SHARED_FUNC.succ[b]
      ensures Everywhere(0)(c, id) ==
        R.Minus(R.Inside(SHARED_FUNC, Everywhere(0), b, id), R.Ends(SHARED_FUNC.marks[b], id))
    {
      SharedMarks(b, id);
    }
  }

  lemma SharedEvents()
    ensures HasEnds(SHARED_FUNC, Everywhere(0), 1, SHARED_EXTENT, SHARED)
    ensures NotNested(SHARED_FUNC, Everywhere(0), 1, SHARED)
  {
    forall b | b in SHARED_FUNC.marks
      ensures R.Inside(SHARED_FUNC, Everywhere(0), b, 1) <= 1
      ensures SHARED_EXTENT.closes(b) == Closed(SHARED_FUNC, Everywhere(0), 1, b)
    {
      SharedMarks(b, 1);
    }
    hide Closed, Reachable, R.Begins;
  }

  lemma SharedMarked()
    ensures Marked(SHARED_FUNC, Everywhere(0), 1, SHARED_PROGRAM, SHARED_EXTENT, [1, 3])
    ensures NotNested(SHARED_FUNC, Everywhere(0), 1, SHARED)
  {
    SharedGraph();
    SharedLabels();
    SharedEvents();
    SharedMarks(1, 1);
    SharedMarks(3, 1);
    hide Graphs, R.Labels, HasEnds, NotNested, R.Begins, R.Ends;
  }

  lemma SharedApart(tr: Trees)
    requires tr.Faithful(SHARED)
    ensures !tr.Joins(1, 3) && !tr.Joins(3, 1) && Groups([1, 3], tr) == [[1], [3]]
  {
    var p, q := [1, 2, 4], [0, 1];
    assert StepAt(SHARED, p, 1) && StepAt(SHARED, p, 2) && StepAt(SHARED, q, 1);
    assert ToExit(SHARED, p) && p[0] == 1 && 3 !in p;
    assert FromEntry(SHARED, q) && q[|q| - 1] == 1 && 3 !in q;
    GroupsOfTwo(1, 3, tr);
  }

  lemma SharedMeets(tr: Trees)
    requires tr.Faithful(SHARED)
    ensures Meets(SHARED_PROGRAM, tr, [1, 3], SHARED_RUN) && WellFormed(SHARED_TREE)
  {
    SharedApart(tr);
    TiedSelf(SHARED, 1);
    TiedSelf(SHARED, 3);
    forall i | 0 < i < |SHARED_RUN| ensures StepAt(SHARED, SHARED_RUN, i) {
    }
    hide Tied, Groups;
  }

  lemma SharedCounters(tr: Trees)
    requires WellFormed(SHARED_TREE)
    ensures CountersOk(SHARED_TREE, tr, SHARED_COUNTERS) && AllBlocks(SHARED_COUNTERS) == [1, 3]
    ensures SHARED_COUNTERS == Anchors([[1], [3]])
  {
    var b := [Anchor([3])];
    assert SHARED_COUNTERS[1..] == b && b[1..] == [] && [3] + [] == [3] && [1] + [3] == [1, 3];
    assert [[1], [3]][1..] == [[3]] && [[3]][1..] == [];
    assert AllBlocks(b) == [3] + [];
  }

  lemma SharedSteps()
    ensures Stepwise(SHARED_RUN, [1, 3], One) == 2
  {
    assert SHARED_RUN == [0] + ([1] + ([2] + ([3] + ([4] + []))));
    Nest.StepwiseCons(0, [1] + ([2] + ([3] + ([4] + []))), [1, 3]);
    Nest.StepwiseCons(1, [2] + ([3] + ([4] + [])), [1, 3]);
    Nest.StepwiseCons(2, [3] + ([4] + []), [1, 3]);
    Nest.StepwiseCons(3, [4] + [], [1, 3]);
    Nest.StepwiseCons(4, [], [1, 3]);
  }

  /** The region is closed on arrival at every step, and so open only in the block with the start event. */
  lemma SharedDepth()
    ensures forall i :: 0 <= i < |SHARED_RUN| ==> (OpenAt(SHARED_EXTENT, SHARED_RUN, i) <==> i == 1)
  {
    var ex, w := SHARED_EXTENT, SHARED_RUN;
    assert DepthAt(ex, w, 0) == 0;
    assert DepthAt(ex, w, 1) == 0;
    assert DepthAt(ex, w, 2) == 0;
    assert DepthAt(ex, w, 3) == 0;
    assert DepthAt(ex, w, 4) == 0;
    hide DepthAt;
    forall i | 0 <= i < |w| ensures OpenAt(ex, w, i) <==> i == 1 {
      assert DepthAt(ex, w, i) == 0;
    }
  }

  lemma SharedGains()
    ensures forall c :: c in SHARED_COUNTERS ==> InTree(SHARED_PROGRAM, c)
    ensures Gained(SHARED_PROGRAM, SHARED_EXTENT, SHARED_RUN, SHARED_COUNTERS[0], 0) == 1
    ensures Gained(SHARED_PROGRAM, SHARED_EXTENT, SHARED_RUN, SHARED_COUNTERS[1], 0) == 0
  {
    SharedDepth();
    assert multiset(SHARED_RUN)[1] == 1;
    hide OpenAt, Gained;
    GainedIsValue(SHARED_PROGRAM, SHARED_EXTENT, SHARED_RUN, SHARED_COUNTERS[0]);
    GainsNothing(SHARED_PROGRAM, SHARED_EXTENT, SHARED_RUN, SHARED_COUNTERS[1], 0);
  }

  /** Two stretches of code with one id make one region with one start event, in the first of them.  What
      runs in the second is not counted. */
  lemma SecondStretchIsNotCounted(tr: Trees)
    requires tr.Faithful(SHARED)
    ensures WellFormed(SHARED_TREE) && CountersOk(SHARED_TREE, tr, SHARED_COUNTERS)
    ensures SHARED_COUNTERS == Anchors(Groups([1, 3], tr)) && AllBlocks(SHARED_COUNTERS) == [1, 3]
    ensures Meets(SHARED_PROGRAM, tr, [1, 3], SHARED_RUN)
    ensures Marked(SHARED_FUNC, Everywhere(0), 1, SHARED_PROGRAM, SHARED_EXTENT, [1, 3])
    ensures NotNested(SHARED_FUNC, Everywhere(0), 1, SHARED)
    ensures forall c :: c in SHARED_COUNTERS ==> InTree(SHARED_PROGRAM, c)
    ensures Stepwise(SHARED_RUN, [1, 3], One) == 2
    ensures RecoveredOpen(SHARED_PROGRAM, SHARED_EXTENT, SHARED_RUN, SHARED_COUNTERS, One) == 1
  {
    SharedMeets(tr);
    SharedCounters(tr);
    SharedApart(tr);
    SharedMarked();
    SharedSteps();
    SharedSum();
  }

  lemma OneMixes()
    ensures Mix(Anchor([1]), One) == 1 && Mix(Anchor([3]), One) == 1
  {
    assert [1][1..] == [] && [3][1..] == [];
  }

  lemma SharedSum()
    ensures forall c :: c in SHARED_COUNTERS ==> InTree(SHARED_PROGRAM, c)
    ensures RecoveredOpen(SHARED_PROGRAM, SHARED_EXTENT, SHARED_RUN, SHARED_COUNTERS, One) == 1
  {
    SharedGains();
    OneMixes();
    var b := [Anchor([3])];
    assert SHARED_COUNTERS[1..] == b && b[1..] == [];
    hide Gained, Mix, InTree;
    assert RecoveredOpen(SHARED_PROGRAM, SHARED_EXTENT, SHARED_RUN, b, One) == 0;
  }

  // ---- A region that is measured -----------------------------------------------------

  /** The loop of `Nest` with a region around it: begun in block 0 and ended in block 3. */
  const WITHIN_FUNC := R.Func({0, 1, 2, 3}, 0, map[0 := [1], 1 := [2], 2 := [2, 3], 3 := []],
    map[0 := [R.Begin(1)], 1 := [], 2 := [], 3 := [R.End(1)]])
  const WITHIN_EXTENT := Extent(0, b => if b == 3 then 1 else 0)

  function WithinOpen(b: Block, id: Group): nat {
    if b != 0 && id == 1 then 1 else 0
  }

  lemma WithinFunc()
    ensures R.WellFormed(WITHIN_FUNC)
  {
  }

  lemma WithinGraph()
    ensures Graphs(WITHIN_FUNC, Nest.LOOP)
  {
    WithinFunc();
    forall a: Block, b: Block
      ensures (a, b) in Nest.LOOP.edges <==> a in WITHIN_FUNC.blocks && b in WITHIN_FUNC.succ[a]
    {
    }
  }

  lemma WithinMarks(b: Block, id: Group)
    requires b in WITHIN_FUNC.marks
    ensures R.Begins(WITHIN_FUNC.marks[b], id) == if b == 0 && id == 1 then 1 else 0
    ensures R.Ends(WITHIN_FUNC.marks[b], id) == if b == 3 && id == 1 then 1 else 0
  {
    assert [R.Begin(1)][..0] == [] && [R.End(1)][..0] == [];
  }

  lemma WithinLabels()
    requires R.WellFormed(WITHIN_FUNC)
    ensures R.Labels(WITHIN_FUNC, WithinOpen)
  {
    forall b, c, id: Group | b in WITHIN_FUNC.blocks && c in WITHIN_FUNC.succ[b]
      ensures WithinOpen(c, id) ==
        R.Minus(R.Inside(WITHIN_FUNC, WithinOpen, b, id), R.Ends(WITHIN_FUNC.marks[b], id))
    {
      WithinMarks(b, id);
    }
  }

  lemma WithinEvents()
    ensures HasEnds(WITHIN_FUNC, WithinOpen, 1, WITHIN_EXTENT, Nest.LOOP)
    ensures SoleBegin(WITHIN_FUNC, Nest.LOOP, 1, 0)
  {
    forall b | b in WITHIN_FUNC.marks
      ensures R.Begins(WITHIN_FUNC.marks[b], 1) == (if b == 0 then 1 else 0)
      ensures WITHIN_EXTENT.closes(b) == Closed(WITHIN_FUNC, WithinOpen, 1, b)
    {
      WithinMarks(b, 1);
    }
    hide Closed, Reachable, R.Begins;
  }

  lemma WithinMarked()
    ensures Marked(WITHIN_FUNC, WithinOpen, 1, Nest.LoopProgram(true), WITHIN_EXTENT, [0, 2, 3])
    ensures SoleBegin(WITHIN_FUNC, Nest.LOOP, 1, 0)
    ensures forall c :: c in [Dynamic(1, [2]), Anchor([0, 3])] && !c.Anchor? ==>
      HeaderOpen(WithinOpen, 1, Nest.LoopProgram(true), c)
  {
    WithinGraph();
    WithinLabels();
    WithinEvents();
    forall b | b in [0, 2, 3] ensures b in WITHIN_FUNC.marks && 0 < R.Inside(WITHIN_FUNC, WithinOpen, b, 1) {
      WithinMarks(b, 1);
    }
    WithinMarks(0, 1);
    hide Graphs, R.Labels, HasEnds, SoleBegin, R.Begins, R.Ends;
  }

  lemma WithinDistinct()
    ensures NoDup<Block>([0, 2, 3]) && WITHIN_EXTENT.begin == 0
  {
  }

  /** A region around a loop: the condition holds, and whatever the blocks weigh its counters recover
      everything that runs, in every run that meets the hypotheses; there is one. */
  lemma RegionAroundLoopIsMeasured(tr: Trees)
    requires tr.Faithful(Nest.LOOP) && tr.enabled
    ensures AllRight(Nest.LoopProgram(true), tr, WITHIN_EXTENT, [Dynamic(1, [2]), Anchor([0, 3])], [0, 2, 3])
    ensures Meets(Nest.LoopProgram(true), tr, [0, 2, 3], Nest.LOOP_RUN)
  {
    hide *;
    WithinMarked();
    WithinDistinct();
    Nest.DynamicHypothesesCanHold(tr);
    Nest.ProgramOf(true);
    AllHeadersOpen(WITHIN_FUNC, WithinOpen, 1, Nest.LoopProgram(true), Nest.LoopTree1(true), Nest.LOOP, tr,
                   WITHIN_EXTENT, [Dynamic(1, [2]), Anchor([0, 3])], [0, 2, 3]);
  }

  lemma AllHeadersOpen(f: R.Func, open: (Block, Group) -> nat, id: Group, pr: Program, t: Tree, g: Graph, tr: Trees,
                       ex: Extent, cs: seq<Counter>, l: seq<Block>)
    requires pr.t == t && pr.g == g && Marked(f, open, id, pr, ex, l) && SoleBegin(f, g, id, ex.begin)
    requires WellFormed(t) && CountersOk(t, tr, cs) && multiset(AllBlocks(cs)) == multiset(l) && NoDup(l)
    requires forall c :: c in cs && !c.Anchor? ==> HeaderOpen(open, id, pr, c)
    ensures AllRight(pr, tr, ex, cs, l)
  {
    hide *;
    RightIffHeadersOpen(f, open, id, pr, tr, ex, cs, l);
  }
}
