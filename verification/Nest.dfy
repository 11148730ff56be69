/** Programs that meet every hypothesis of `Placement`, so that its theorems speak of something. */
module Nest {
  import opened Collections
  import opened Cfg
  import opened Grouping
  import opened LoopTree
  import opened Plan
  import opened Placement

  /** Entry 0; an outer loop 2 -> 3 -> 4 -> 2 entered through 1; an inner loop 4 -> 4 entered through 3;
      exit 5.  Both loops run their headers twice per entry. */
  const NEST := Graph({(0, 1), (1, 2), (2, 3), (3, 4), (4, 4), (4, 2), (4, 5)}, {0}, {5})
  const NEST_TREE := [LoopNode(0, 3, 0, 0, [], false, false), LoopNode(0, 3, 2, 2, [2], true, true),
                      LoopNode(1, 3, 4, 2, [4], true, true)]
  const NEST_PROGRAM := Program(NEST, NEST_TREE, [0, 1, 3], (k, i) => 0)
  const NEST_RUN: seq<Block> := [0, 1, 2, 3, 4, 4, 2, 3, 4, 4, 5]
  const NEST_BLOCKS: seq<Block> := [0, 2, 4, 5]

  /** On a walk from the entry block 4 comes after 3, and 3 after 2. */
  lemma NestDom()
    ensures Dom(NEST, 2, 4)
  {
    forall p | FromEntry(NEST, p) && p[|p| - 1] == 4 ensures 2 in p {
      var i := FirstAt(p, 4);
      assert StepAt(NEST, p, i);
      assert StepAt(NEST, p, i - 1);
    }
  }

  lemma NestPDom()
    ensures PDom(NEST, 4, 2)
  {
    forall p | ToExit(NEST, p) && p[0] == 2 ensures 4 in p {
      assert StepAt(NEST, p, |p| - 1);
    }
  }

  lemma NestWellFormed()
    ensures WellFormed(NEST_TREE)
  {
    var t := NEST_TREE;
    assert |t| == 3 && t[0].parent == 0 && t[0].end == 3 && t[1].parent == 0 && t[1].end == 3;
    assert t[2].parent == 1 && t[2].end == 3;
    forall i, c | 0 <= i < c < |t| ensures c < t[i].end && i <= t[c].parent && t[c].end <= t[i].end {
      assert c == 1 || c == 2;
    }
  }

  lemma NestLoops()
    ensures NaturalLoop(NEST_PROGRAM, 1) && NaturalLoop(NEST_PROGRAM, 2)
  {
    NestDom();
    assert Dom(NEST, 2, 2) && Dom(NEST, 4, 4);
    hide Dom;
  }

  lemma NestLaidOut()
    ensures LaidOut(NEST_PROGRAM)
  {
    NestWellFormed();
    NestLoops();
    hide NaturalLoop, WellFormed;
  }

  /** A cycle through 2 goes on to 3, and one through 3 comes from 2; no cycle passes 0 or 5. */
  lemma NestCycle(c: seq<Block>)
    requires ClosedWalk(NEST, c)
    ensures (2 in c <==> 3 in c) && 0 !in c && 5 !in c
  {
    var n := |c| - 1;
    forall i | 0 <= i < n ensures (c[i], c[i + 1]) in NEST.edges {
      assert StepAt(NEST, c, i + 1);
    }
    forall i | 0 <= i <= n
      ensures c[i] != 0 && c[i] != 5 && (c[i] == 2 ==> 3 in c) && (c[i] == 3 ==> 2 in c)
    {
      var next, prev := if i < n then i else 0, if i > 0 then i - 1 else n - 1;
      assert (c[next], c[next + 1]) in NEST.edges && (c[prev], c[prev + 1]) in NEST.edges;
      assert c[next] == c[i] && c[prev + 1] == c[i];
    }
  }

  lemma NestTied()
    ensures Tied(NEST, 2, 3) && Tied(NEST, 0, 5) && forall b :: Tied(NEST, b, b)
  {
    forall c | ClosedWalk(NEST, c) ensures (2 in c <==> 3 in c) && 0 !in c && 5 !in c {
      NestCycle(c);
    }
  }

  lemma TiedSwaps(g: Graph, a: Block, b: Block)
    requires Tied(g, a, b)
    ensures Tied(g, b, a)
  {
  }

  lemma NestSteady(tr: Trees)
    requires LaidOut(NEST_PROGRAM)
    ensures Steady(NEST_PROGRAM, tr, NEST_BLOCKS)
  {
    NestTied();
    TiedSwaps(NEST, 0, 5);
    hide Tied, LaidOut;
    assert 2 in NEST_TREE[1].unique && 4 in NEST_TREE[2].unique;
    forall b, x | b in NEST_BLOCKS && x in NEST_BLOCKS && SameHome(NEST_TREE, b, x) ensures Tied(NEST, b, x) {
      assert b in NEST_TREE[1].unique <==> x in NEST_TREE[1].unique;
      assert b in NEST_TREE[2].unique <==> x in NEST_TREE[2].unique;
    }
  }

  lemma NestRun()
    ensures Run(NEST, NEST_RUN)
  {
    forall i | 0 < i < |NEST_RUN| ensures StepAt(NEST, NEST_RUN, i) {
    }
  }

  lemma Entered(i: nat)
    requires i < |NEST_RUN|
    ensures NEST_RUN[i] == 1 ==> i == 1
    ensures NEST_RUN[i] == 3 ==> i == 3 || i == 7
  {
  }

  lemma Rests()
    ensures NEST_RUN[7 + 1..] == [4, 4] + [5] && NEST_RUN[3 + 1..] == [4, 4] + [2, 3, 4, 4, 5]
  {
  }

  /** Every entry into either loop runs its header twice. */
  lemma NestTrip(k: nat, i: nat)
    requires (k == 1 || k == 2) && i < |NEST_RUN| && NEST_RUN[i] == NEST_PROGRAM.pre[k]
    ensures Until(NEST_RUN[i + 1..], NEST_PROGRAM.pre[k], NEST_TREE[k].header) == 2
  {
    hide Until;
    Entered(i);
    if k == 1 {
      OuterTrip();
    } else {
      Rests();
      InnerTrip([5], 3);
      InnerTrip([2, 3, 4, 4, 5], 3);
    }
  }

  lemma NestTrips()
    ensures TripCounts(NEST_PROGRAM, NEST_RUN)
  {
    hide Until;
    forall k, i | 0 < k < |NEST_TREE| && 0 <= i < |NEST_RUN| && NEST_RUN[i] == NEST_PROGRAM.pre[k]
      ensures Until(NEST_RUN[i + 1..], NEST_PROGRAM.pre[k], NEST_TREE[k].header) == 2
    {
      NestTrip(k, i);
    }
  }

  lemma InnerTrip(rest: seq<Block>, p: Block)
    requires p == 3 && (rest == [5] || rest == [2, 3, 4, 4, 5])
    ensures Until([4, 4] + rest, p, 4) == 2
  {
    assert [4, 4] + rest == [4] + ([4] + rest);
    UntilCons(4, [4] + rest, p, 4);
    UntilCons(4, rest, p, 4);
    if rest == [5] {
      assert rest == [5] + [];
      UntilCons(5, [], p, 4);
    } else {
      assert rest == [2] + ([3] + [4, 4, 5]);
      UntilCons(2, [3] + [4, 4, 5], p, 4);
      UntilCons(3, [4, 4, 5], p, 4);
    }
  }

  lemma OuterTrip()
    ensures Until(NEST_RUN[1 + 1..], 1, 2) == 2
  {
    var s := [3, 4, 4, 5];
    assert NEST_RUN[1 + 1..] == [2, 3, 4, 4] + ([2] + s);
    AlongTrip(s);
    AlongTrip([3, 4, 4] + ([2] + s));
    assert [2] + ([3, 4, 4] + ([2] + s)) == NEST_RUN[1 + 1..];
    UntilCons(2, [3, 4, 4] + ([2] + s), 1, 2);
    UntilCons(2, s, 1, 2);
    assert s == [3, 4, 4] + [5];
    NoHeader([2] + s);
    NoHeader([5]);
    UntilCons(5, [], 1, 2);
    assert [5] == [5] + [];
  }

  lemma AlongTrip(s: seq<Block>)
    ensures Until([2] + s, 1, 2) == 1 + Until(s, 1, 2)
  {
    UntilCons(2, s, 1, 2);
  }

  lemma NoHeader(s: seq<Block>)
    ensures Until([3, 4, 4] + s, 1, 2) == Until(s, 1, 2)
  {
    assert [3, 4, 4] + s == [3] + ([4] + ([4] + s));
    UntilCons(3, [4] + ([4] + s), 1, 2);
    UntilCons(4, [4] + s, 1, 2);
    UntilCons(4, s, 1, 2);
  }

  /** The hypotheses hold together, for a nest of two loops that share one hoisted counter. */
  lemma HypothesesCanHold()
    ensures exists tr: Trees :: Meets(NEST_PROGRAM, tr, NEST_BLOCKS, NEST_RUN) && Chained(NEST_TREE, tr, 2)
  {
    var tr := Trees((a: Block, b: Block) => Dom(NEST, a, b), (a: Block, b: Block) => PDom(NEST, a, b), true);
    NestLaidOut();
    NestSteady(tr);
    NestRun();
    NestTrips();
    NestPDom();
    assert tr.Faithful(NEST);
    hide LaidOut, Steady, TripCounts, Run;
    assert Meets(NEST_PROGRAM, tr, NEST_BLOCKS, NEST_RUN);
    assert Chained(NEST_TREE, tr, 2);
  }

  // ---- A counter found at run time, and a shared one ------------------------------

  /** Entry 0, a loop 2 -> 2 entered through 1, exit 3. */
  const LOOP := Graph({(0, 1), (1, 2), (2, 2), (2, 3)}, {0}, {3})
  const LOOP_RUN: seq<Block> := [0, 1, 2, 2, 2, 3]

  function LoopTree1(recomputes: bool): Tree {
    [LoopNode(0, 2, 0, 0, [], false, false), LoopNode(0, 2, 2, 0, [2], true, recomputes)]
  }

  function LoopProgram(recomputes: bool): Program {
    Program(LOOP, LoopTree1(recomputes), [0, 1], (k, i) => 2)
  }

  lemma LoopDom()
    ensures Follows(LOOP, 0, 3) && Dom(LOOP, 2, 2) && PDom(LOOP, 2, 2)
  {
    forall p | FromEntry(LOOP, p) && p[|p| - 1] == 3 ensures 0 in p {
      assert p[0] in p;
    }
    forall p | ToExit(LOOP, p) && p[0] == 0 ensures 3 in p {
      assert p[|p| - 1] in p;
    }
  }

  lemma LoopLaidOut(recomputes: bool)
    ensures LaidOut(LoopProgram(recomputes))
  {
    LoopDom();
    assert NaturalLoop(LoopProgram(recomputes), 1);
  }

  lemma LoopCycle(c: seq<Block>)
    requires ClosedWalk(LOOP, c)
    ensures 0 !in c && 3 !in c
  {
    var n := |c| - 1;
    forall i | 0 <= i < n ensures (c[i], c[i + 1]) in LOOP.edges {
      assert StepAt(LOOP, c, i + 1);
    }
    forall i | 0 <= i <= n ensures c[i] != 0 && c[i] != 3 {
      var next, prev := if i < n then i else 0, if i > 0 then i - 1 else n - 1;
      assert (c[next], c[next + 1]) in LOOP.edges && (c[prev], c[prev + 1]) in LOOP.edges;
      assert c[next] == c[i] && c[prev + 1] == c[i];
    }
  }

  lemma LoopTied()
    ensures Tied(LOOP, 0, 3) && Tied(LOOP, 3, 0) && forall b :: Tied(LOOP, b, b)
  {
    forall c | ClosedWalk(LOOP, c) ensures 0 !in c && 3 !in c {
      LoopCycle(c);
    }
  }

  lemma LoopSteady(recomputes: bool, tr: Trees, l: seq<Block>)
    requires LaidOut(LoopProgram(recomputes)) && forall b :: b in l ==> b in {0, 2, 3}
    ensures Steady(LoopProgram(recomputes), tr, l)
  {
    LoopTied();
    var t := LoopTree1(recomputes);
    hide Tied, LaidOut;
    assert 2 in t[1].unique;
    forall b, x | b in l && x in l && SameHome(t, b, x) ensures Tied(LOOP, b, x) {
      assert b in t[1].unique <==> x in t[1].unique;
    }
  }

  lemma LoopRuns(recomputes: bool)
    ensures Run(LOOP, LOOP_RUN) && TripCounts(LoopProgram(recomputes), LOOP_RUN)
  {
    forall i | 0 < i < |LOOP_RUN| ensures StepAt(LOOP, LOOP_RUN, i) {
    }
    assert LOOP_RUN[1 + 1..] == [2] + ([2] + ([2] + ([3] + [])));
    UntilCons(2, [2] + ([2] + ([3] + [])), 1, 2);
    UntilCons(2, [2] + ([3] + []), 1, 2);
    UntilCons(2, [3] + [], 1, 2);
    UntilCons(3, [], 1, 2);
    hide Until;
    forall i | 0 <= i < |LOOP_RUN| && LOOP_RUN[i] == 1 ensures i == 1 {
    }
  }

  lemma LoopMeets(recomputes: bool, tr: Trees, l: seq<Block>)
    requires tr.Faithful(LOOP) && forall b :: b in l ==> b in {0, 2, 3}
    ensures Meets(LoopProgram(recomputes), tr, l, LOOP_RUN)
  {
    LoopLaidOut(recomputes);
    LoopSteady(recomputes, tr, l);
    LoopRuns(recomputes);
    hide LaidOut, Steady, TripCounts, Run;
  }

  lemma LoopWellFormed(recomputes: bool)
    ensures WellFormed(LoopTree1(recomputes))
  {
  }

  lemma LoopCounter(tr: Trees)
    requires tr.pdom(2, 2) && WellFormed(LoopTree1(true))
    ensures CounterOk(LoopTree1(true), tr, Dynamic(1, [2]))
  {
    hide WellFormed;
    assert 2 in LoopTree1(true)[1].unique;
  }

  lemma AnchorCounter(tr: Trees)
    requires tr.Joins(0, 3) && WellFormed(LoopTree1(true))
    ensures CounterOk(LoopTree1(true), tr, Anchor([0, 3]))
  {
    hide WellFormed;
    assert [0, 3][1..] == [3];
  }

  lemma LoopCounters(tr: Trees)
    requires tr.Faithful(LOOP) && tr.enabled && WellFormed(LoopTree1(true))
    ensures CountersOk(LoopTree1(true), tr, [Dynamic(1, [2]), Anchor([0, 3])])
  {
    LoopDom();
    assert tr.Joins(0, 3) && tr.pdom(2, 2);
    hide Dom, PDom, WellFormed;
    LoopCounter(tr);
    AnchorCounter(tr);
    hide CounterOk;
  }

  lemma LoopBlocks()
    ensures AllBlocks([Dynamic(1, [2]), Anchor([0, 3])]) == [2, 0, 3]
  {
    var d, a := Dynamic(1, [2]), Anchor([0, 3]);
    assert [d, a][1..] == [a] && [a][1..] == [];
    assert AllBlocks([a]) == [0, 3] + [];
  }

  /** The hypotheses hold together for a loop counted at run time and two blocks sharing a counter. */
  lemma DynamicHypothesesCanHold(tr: Trees)
    requires tr.Faithful(LOOP) && tr.enabled
    ensures Meets(LoopProgram(true), tr, [0, 2, 3], LOOP_RUN) && WellFormed(LoopTree1(true))
    ensures CountersOk(LoopTree1(true), tr, [Dynamic(1, [2]), Anchor([0, 3])])
    ensures multiset(AllBlocks([Dynamic(1, [2]), Anchor([0, 3])])) == multiset([0, 2, 3])
  {
    LoopMeets(true, tr, [0, 2, 3]);
    LoopWellFormed(true);
    LoopCounters(tr);
    LoopBlocks();
  }

  // ---- A hoist that fails ----------------------------------------------------------

  /** When the count cannot be recomputed the loop's block gets no counter: whatever well-placed counters
      the other blocks have, the run executes five blocks of the region, and two are recovered. */
  lemma FailedHoistUndercounts(tr: Trees, cs: seq<Counter>)
    requires tr.Faithful(LOOP) && WellFormed(LoopTree1(false))
    requires CountersOk(LoopTree1(false), tr, cs) && multiset(AllBlocks(cs)) == multiset([0, 3])
    ensures Fails(LoopTree1(false), tr, 1, [0, 2, 3])
    ensures Run(LOOP, LOOP_RUN) && Stepwise(LOOP_RUN, [0, 2, 3], One) == 5
    ensures forall c :: c in cs ==> InTree(LoopProgram(false), c)
    ensures Recovered(LoopProgram(false), LOOP_RUN, cs, One) == 2
  {
    ProgramOf(false);
    HereDistinct();
    FiveRun();
    hide *;
    HoistFails(tr);
    LoopMeets(false, tr, [0, 3]);
    Undercount(LoopProgram(false), tr, LOOP_RUN, cs, [0, 3]);
  }

  lemma ProgramOf(recomputes: bool)
    ensures LoopProgram(recomputes).t == LoopTree1(recomputes) && LoopProgram(recomputes).g == LOOP
  {
  }

  lemma HereDistinct()
    ensures NoDup<Block>([0, 3]) && forall b :: b in [0, 3] ==> b in {0, 2, 3}
  {
  }

  lemma FiveRun()
    ensures Stepwise(LOOP_RUN, [0, 2, 3], One) == 5 && Stepwise(LOOP_RUN, [0, 3], One) == 2
  {
    LoopSteps([0, 2, 3]);
    LoopSteps([0, 3]);
    hide Stepwise;
  }

  lemma Undercount(pr: Program, tr: Trees, w: seq<Block>, cs: seq<Counter>, l: seq<Block>)
    requires Meets(pr, tr, l, w) && NoDup(l) && WellFormed(pr.t)
    requires CountersOk(pr.t, tr, cs) && multiset(AllBlocks(cs)) == multiset(l)
    ensures Run(pr.g, w) && (forall c :: c in cs ==> InTree(pr, c))
    ensures Recovered(pr, w, cs, One) == Stepwise(w, l, One)
  {
    hide LaidOut, Steady, TripCounts, Run, CountersOk, Stepwise, WellFormed, NoDup, AllBlocks, Recovered;
    RecoversWhatRan(pr, tr, w, cs, l, One);
  }

  lemma HoistFails(tr: Trees)
    requires tr.Faithful(LOOP)
    ensures Fails(LoopTree1(false), tr, 1, [0, 2, 3])
  {
    LoopDom();
    assert 2 in [0, 2, 3] && 2 in LoopTree1(false)[1].unique;
  }

  function Has(l: seq<Block>, b: Block): nat {
    if b in l then 1 else 0
  }

  lemma LoopSteps(l: seq<Block>)
    ensures Stepwise(LOOP_RUN, l, One) == Has(l, 0) + Has(l, 1) + 3 * Has(l, 2) + Has(l, 3)
  {
    assert LOOP_RUN == [0] + ([1] + ([2] + ([2] + ([2] + ([3] + [])))));
    StepwiseCons(0, [1] + ([2] + ([2] + ([2] + ([3] + [])))), l);
    StepwiseCons(1, [2] + ([2] + ([2] + ([3] + []))), l);
    StepwiseCons(2, [2] + ([2] + ([3] + [])), l);
    StepwiseCons(2, [2] + ([3] + []), l);
    StepwiseCons(2, [3] + [], l);
    StepwiseCons(3, [], l);
  }

  lemma StepwiseCons(b: Block, w: seq<Block>, l: seq<Block>)
    ensures Stepwise([b] + w, l, One) == Has(l, b) + Stepwise(w, l, One)
  {
    assert ([b] + w)[1..] == w;
  }
}
