/** The events of a region along a run of its function, put through the runtime: its row of counters ends
    up with what the counters are offered while the region is open. */
module GatedTraces {
  import opened Cfg
  import opened Collections
  import opened Grouping
  import opened LoopTree
  import opened Plan
  import opened Placement
  import opened Gating
  import R = Regions
  import T = Runtime

  // ---- The trace -------------------------------------------------------------------

  /** The increment of counter `n`, if it is placed in the block of step `i`. */
  ghost function CountOf(pr: Program, cs: seq<Counter>, w: seq<Block>, i: nat, n: nat): seq<T.Event>
    requires i < |w| && n < |cs| && forall c :: c in cs ==> InTree(pr, c)
  {
    if w[i] == Place(pr, cs[n]) then [T.Count(n, Amount(pr, cs[n], i))] else []
  }

  /** The increments at step `i`, of the counters from `n` on; counter `n` has slot `n`. */
  ghost function Counts(pr: Program, cs: seq<Counter>, w: seq<Block>, i: nat, n: nat): seq<T.Event>
    requires i < |w| && n <= |cs| && forall c :: c in cs ==> InTree(pr, c)
    decreases |cs| - n
  {
    if n == |cs| then [] else CountOf(pr, cs, w, i, n) + Counts(pr, cs, w, i, n + 1)
  }

  ghost function Ends(r: nat, now: int, n: nat): seq<T.Event> {
    if n == 0 then [] else [T.End(r, now)] + Ends(r, now, n - 1)
  }

  /** The events of step `i`: the start event comes before the counters, the end events after them. */
  ghost function StepEvents(pr: Program, ex: Extent, cs: seq<Counter>, w: seq<Block>, i: nat, r: nat, now: int):
    seq<T.Event>
    requires i < |w| && forall c :: c in cs ==> InTree(pr, c)
  {
    (if w[i] == ex.begin then [T.Start(r, now)] else []) + Counts(pr, cs, w, i, 0) + Ends(r, now, ex.closes(w[i]))
  }

  /** The events of region `r` from step `i` on, at the times the clock shows. */
  ghost function Trace(pr: Program, ex: Extent, cs: seq<Counter>, w: seq<Block>, i: nat, r: nat, clock: nat -> int):
    seq<T.Event>
    requires i <= |w| && forall c :: c in cs ==> InTree(pr, c)
    decreases |w| - i
  {
    if i == |w| then []
    else StepEvents(pr, ex, cs, w, i, r, clock(i)) + Trace(pr, ex, cs, w, i + 1, r, clock)
  }

  // ---- The state along the trace ---------------------------------------------------

  /** In `t` region `r` is open `d` times on top of `s`: while it is open its row is active and counting is
      on; when it is not, the state of counting is that of `s`. */
  ghost predicate Above(c: T.Config, s: T.State, t: T.State, r: nat, d: nat) {
    && T.Inv(c, s) && T.Inv(c, t) && r < c.regions && t.depth[r] == d
    && t.top == s.top + (if 0 < d then 1 else 0)
    && (0 < d ==> !t.disable && t.base == T.Row(c, r) && t.stack[s.top] == T.Save(s.base, s.disable))
    && (d == 0 ==> t.base == s.base && t.disable == s.disable)
  }

  /** What is counted while region `r` is open `d` times goes to row `x`. */
  ghost predicate Takes(c: T.Config, s: T.State, r: nat, d: nat, x: nat) {
    if 0 < d then x == r else TakesOutside(c, s, x)
  }

  ghost predicate TakesOutside(c: T.Config, s: T.State, x: nat) {
    !s.disable && s.base == T.Row(c, x)
  }

  lemma Starting(c: T.Config, s: T.State, t: T.State, r: nat, d: nat, now: int)
    requires Above(c, s, t, r, d) && c.period == 1
    ensures T.CanStep(c, t, T.Start(r, now))
    ensures var u := T.Step(c, t, T.Start(r, now)); Above(c, s, u, r, d + 1) && u.counters == t.counters
  {
    T.StepKeepsInv(c, t, T.Start(r, now));
    T.OpenBound(t.depth);
  }

  lemma Ending(c: T.Config, s: T.State, t: T.State, r: nat, d: nat, now: int)
    requires Above(c, s, t, r, d)
    ensures T.CanStep(c, t, T.End(r, now))
    ensures var u := T.Step(c, t, T.End(r, now)); Above(c, s, u, r, R.Minus(d, 1)) && u.counters == t.counters
  {
    T.StepKeepsInv(c, t, T.End(r, now));
  }

  /** What an increment adds to row `x`. */
  lemma Counting(c: T.Config, s: T.State, t: T.State, r: nat, d: nat, x: nat, n: nat, k: nat)
    requires Above(c, s, t, r, d) && n < c.width && x < c.regions
    ensures T.CanStep(c, t, T.Count(n, k))
    ensures var u := T.Step(c, t, T.Count(n, k));
      && Above(c, s, u, r, d)
      && forall m :: 0 <= m < c.width ==>
           InRow(c, u, x, m) == InRow(c, t, x, m) + (if m == n && Takes(c, s, r, d, x) then k else 0)
  {
    T.StepKeepsInv(c, t, T.Count(n, k));
    var u := T.Step(c, t, T.Count(n, k));
    var q :| 0 <= q < c.regions && t.base == T.Row(c, q);
    forall m | 0 <= m < c.width
      ensures InRow(c, u, x, m) == InRow(c, t, x, m) + (if m == n && Takes(c, s, r, d, x) then k else 0)
    {
      T.RowFits(x, c.regions, c.width);
      T.RowsApart(c.width, m, x, n, q);
      T.RowsApart(c.width, 0, r, 0, q);
      T.RowsApart(c.width, 0, x, 0, q);
    }
  }

  /** Slot `m` of region `r`'s row. */
  ghost function InRow(c: T.Config, t: T.State, r: nat, m: nat): nat
    requires T.Sized(c, t) && r < c.regions && m < c.width
  {
    T.RowFits(r, c.regions, c.width);
    t.counters[T.Row(c, r) + m]
  }

  // ---- What stretches of the trace do ------------------------------------------------

  /** From any state above `s` with the region open `d` times, the events lead to one with it open `e` times,
      and add `g` to slot `m` of row `x`. */
  ghost predicate Adds(c: T.Config, s: T.State, r: nat, x: nat, m: nat, d: nat, es: seq<T.Event>, e: nat, g: int) {
    T.AllFit(c, es) && forall t :: Above(c, s, t, r, d) ==> AddsFrom(c, s, t, r, x, m, es, e, g)
  }

  ghost predicate AddsFrom(c: T.Config, s: T.State, t: T.State, r: nat, x: nat, m: nat, es: seq<T.Event>, e: nat,
                           g: int)
  {
    && T.Inv(c, t) && T.AllFit(c, es) && x < c.regions && m < c.width
    && Above(c, s, T.Run(c, t, es), r, e)
    && InRow(c, T.Run(c, t, es), x, m) == InRow(c, t, x, m) + g
  }

  lemma AddsFromBoth(c: T.Config, s: T.State, t: T.State, r: nat, x: nat, m: nat, es: seq<T.Event>, e: nat, g: int,
                     fs: seq<T.Event>, f: nat, h: int)
    requires AddsFrom(c, s, t, r, x, m, es, e, g) && AddsFrom(c, s, T.Run(c, t, es), r, x, m, fs, f, h)
    ensures AddsFrom(c, s, t, r, x, m, es + fs, f, g + h)
  {
    hide Above, InRow, T.Inv, T.Run;
    T.RunConcat(c, t, es, fs);
  }

  lemma AddsBoth(c: T.Config, s: T.State, r: nat, x: nat, m: nat, d: nat, es: seq<T.Event>, e: nat, g: int,
                 fs: seq<T.Event>, f: nat, h: int)
    requires Adds(c, s, r, x, m, d, es, e, g) && Adds(c, s, r, x, m, e, fs, f, h)
    ensures Adds(c, s, r, x, m, d, es + fs, f, g + h)
  {
    forall t | Above(c, s, t, r, d) ensures AddsFrom(c, s, t, r, x, m, es + fs, f, g + h) {
      assert AddsFrom(c, s, t, r, x, m, es, e, g);
      AddsFromBoth(c, s, t, r, x, m, es, e, g, fs, f, h);
    }
  }

  lemma AddsNothing(c: T.Config, s: T.State, r: nat, x: nat, m: nat, d: nat)
    requires x < c.regions && m < c.width
    ensures Adds(c, s, r, x, m, d, [], d, 0)
  {
    forall t | Above(c, s, t, r, d) ensures AddsFrom(c, s, t, r, x, m, [], d, 0) {
      assert T.Inv(c, t);
    }
  }

  /** One event. */
  lemma AddsOne(c: T.Config, s: T.State, r: nat, x: nat, m: nat, d: nat, ev: T.Event, e: nat, g: int)
    requires T.Fits(c, ev) && x < c.regions && m < c.width
    requires forall t :: Above(c, s, t, r, d) ==> StepAdds(c, s, t, r, x, m, ev, e, g)
    ensures Adds(c, s, r, x, m, d, [ev], e, g)
  {
    OneFits(c, ev);
    forall t | Above(c, s, t, r, d) ensures AddsFrom(c, s, t, r, x, m, [ev], e, g) {
      assert StepAdds(c, s, t, r, x, m, ev, e, g) && T.Inv(c, t);
      hide Above, StepAdds, T.Inv, T.AllFit, AddsFrom;
      AddsOneFrom(c, s, t, r, x, m, ev, e, g);
    }
  }

  lemma OneFits(c: T.Config, ev: T.Event)
    requires T.Fits(c, ev)
    ensures T.AllFit(c, [ev])
  {
  }

  lemma AddsOneFrom(c: T.Config, s: T.State, t: T.State, r: nat, x: nat, m: nat, ev: T.Event, e: nat, g: int)
    requires T.Inv(c, t) && T.Fits(c, ev) && T.AllFit(c, [ev]) && StepAdds(c, s, t, r, x, m, ev, e, g)
    ensures AddsFrom(c, s, t, r, x, m, [ev], e, g)
  {
    OneRuns(c, t, ev);
    hide Above, InRow, T.Step, T.Inv, T.Run, T.AllFit;
  }

  lemma OneRuns(c: T.Config, t: T.State, ev: T.Event)
    requires T.Inv(c, t) && T.CanStep(c, t, ev) && T.AllFit(c, [ev])
    ensures T.Run(c, t, [ev]) == T.Step(c, t, ev)
  {
    assert [ev][1..] == [] && [ev][0] in [ev];
    T.StepKeepsInv(c, t, ev);
    hide T.Step, T.Inv;
  }

  ghost predicate StepAdds(c: T.Config, s: T.State, t: T.State, r: nat, x: nat, m: nat, ev: T.Event, e: nat, g: int) {
    && T.CanStep(c, t, ev) && x < c.regions && m < c.width
    && T.Inv(c, T.Step(c, t, ev)) && Above(c, s, T.Step(c, t, ev), r, e)
    && InRow(c, T.Step(c, t, ev), x, m) == InRow(c, t, x, m) + g
  }

  lemma StartAdds(c: T.Config, s: T.State, r: nat, x: nat, m: nat, d: nat, now: int)
    requires r < c.regions && x < c.regions && m < c.width && c.period == 1
    ensures Adds(c, s, r, x, m, d, [T.Start(r, now)], d + 1, 0)
  {
    forall t | Above(c, s, t, r, d) ensures StepAdds(c, s, t, r, x, m, T.Start(r, now), d + 1, 0) {
      Starting(c, s, t, r, d, now);
    }
    AddsOne(c, s, r, x, m, d, T.Start(r, now), d + 1, 0);
  }

  lemma EndAdds(c: T.Config, s: T.State, r: nat, x: nat, m: nat, d: nat, now: int)
    requires r < c.regions && x < c.regions && m < c.width
    ensures Adds(c, s, r, x, m, d, [T.End(r, now)], R.Minus(d, 1), 0)
  {
    forall t | Above(c, s, t, r, d) ensures StepAdds(c, s, t, r, x, m, T.End(r, now), R.Minus(d, 1), 0) {
      Ending(c, s, t, r, d, now);
    }
    AddsOne(c, s, r, x, m, d, T.End(r, now), R.Minus(d, 1), 0);
  }

  lemma CountAdds(c: T.Config, s: T.State, r: nat, x: nat, m: nat, d: nat, n: nat, k: nat)
    requires n < c.width && x < c.regions && m < c.width
    ensures Adds(c, s, r, x, m, d, [T.Count(n, k)], d, if m == n && Takes(c, s, r, d, x) then k else 0)
  {
    var g := if m == n && Takes(c, s, r, d, x) then k else 0;
    forall t | Above(c, s, t, r, d) ensures StepAdds(c, s, t, r, x, m, T.Count(n, k), d, g) {
      Counting(c, s, t, r, d, x, n, k);
    }
    AddsOne(c, s, r, x, m, d, T.Count(n, k), d, g);
  }

  // ---- Whole steps, whole runs -----------------------------------------------------

  ghost predicate Given(pr: Program, cs: seq<Counter>, width: nat) {
    |cs| <= width && forall c :: c in cs ==> InTree(pr, c)
  }

  /** What step `i` offers to slot `m`. */
  ghost function Added(pr: Program, cs: seq<Counter>, w: seq<Block>, i: nat, m: nat): nat
    requires i < |w| && forall c :: c in cs ==> InTree(pr, c)
  {
    if m < |cs| && w[i] == Place(pr, cs[m]) then Amount(pr, cs[m], i) else 0
  }

  lemma {:induction false} CountsAdd(c: T.Config, s: T.State, r: nat, x: nat, m: nat, d: nat, pr: Program,
                                     cs: seq<Counter>, w: seq<Block>, i: nat, n: nat)
    requires x < c.regions && m < c.width && Given(pr, cs, c.width) && i < |w| && n <= |cs|
    ensures Adds(c, s, r, x, m, d, Counts(pr, cs, w, i, n), d,
                 if n <= m && Takes(c, s, r, d, x) then Added(pr, cs, w, i, m) else 0)
    decreases |cs| - n
  {
    hide Adds, Takes, Place, Amount;
    AddsNothing(c, s, r, x, m, d);
    if n < |cs| {
      var es := Counts(pr, cs, w, i, n + 1);
      var g := if n + 1 <= m && Takes(c, s, r, d, x) then Added(pr, cs, w, i, m) else 0;
      CountsAdd(c, s, r, x, m, d, pr, cs, w, i, n + 1);
      if w[i] == Place(pr, cs[n]) {
        var k := Amount(pr, cs[n], i);
        CountAdds(c, s, r, x, m, d, n, k);
        AddsBoth(c, s, r, x, m, d, [T.Count(n, k)], d, if m == n && Takes(c, s, r, d, x) then k else 0, es, d, g);
      } else {
        assert [] + es == es;
      }
    }
  }

  lemma {:induction false} EndsAdd(c: T.Config, s: T.State, r: nat, x: nat, m: nat, d: nat, now: int, n: nat)
    requires r < c.regions && x < c.regions && m < c.width
    ensures Adds(c, s, r, x, m, d, Ends(r, now, n), R.Minus(d, n), 0)
    decreases n
  {
    hide Adds;
    if n == 0 {
      AddsNothing(c, s, r, x, m, d);
    } else {
      EndAdds(c, s, r, x, m, d, now);
      EndsAdd(c, s, r, x, m, R.Minus(d, 1), now, n - 1);
      AddsBoth(c, s, r, x, m, d, [T.End(r, now)], R.Minus(d, 1), 0, Ends(r, now, n - 1), R.Minus(d, n), 0);
    }
  }

  /** One step of the run. */
  lemma StepEventsAdd(c: T.Config, s: T.State, r: nat, x: nat, m: nat, d: nat, pr: Program, ex: Extent,
                      cs: seq<Counter>, w: seq<Block>, i: nat, now: int)
    requires r < c.regions && x < c.regions && m < c.width && Given(pr, cs, c.width) && i < |w| && c.period == 1
    ensures Adds(c, s, r, x, m, d, StepEvents(pr, ex, cs, w, i, r, now),
                 R.Minus(d + Starts(ex, w[i]), ex.closes(w[i])),
                 if Takes(c, s, r, d + Starts(ex, w[i]), x) then Added(pr, cs, w, i, m) else 0)
  {
    hide Adds, Takes, Added, Counts, Ends;
    var e := d + Starts(ex, w[i]);
    var first := if w[i] == ex.begin then [T.Start(r, now)] else [];
    var mid, last := Counts(pr, cs, w, i, 0), Ends(r, now, ex.closes(w[i]));
    var g := if Takes(c, s, r, e, x) then Added(pr, cs, w, i, m) else 0;
    if w[i] == ex.begin {
      StartAdds(c, s, r, x, m, d, now);
    } else {
      AddsNothing(c, s, r, x, m, d);
    }
    CountsAdd(c, s, r, x, m, e, pr, cs, w, i, 0);
    EndsAdd(c, s, r, x, m, e, now, ex.closes(w[i]));
    AddsBoth(c, s, r, x, m, d, first, e, 0, mid, e, g);
    AddsBoth(c, s, r, x, m, d, first + mid, e, g, last, R.Minus(e, ex.closes(w[i])), 0);
  }

  /** What row `x` is given at slot `m` from step `i` on. */
  ghost function Gets(c: T.Config, s: T.State, r: nat, x: nat, m: nat, pr: Program, ex: Extent, cs: seq<Counter>,
                      w: seq<Block>, i: nat): int
    requires i <= |w| && forall c :: c in cs ==> InTree(pr, c)
  {
    if m < |cs| then
      (if x == r then Gained(pr, ex, w, cs[m], i) else 0)
      + (if TakesOutside(c, s, x) then Offered(pr, w, cs[m], i) - Gained(pr, ex, w, cs[m], i) else 0)
    else 0
  }

  lemma GetsStep(c: T.Config, s: T.State, r: nat, x: nat, m: nat, pr: Program, ex: Extent, cs: seq<Counter>,
                 w: seq<Block>, i: nat)
    requires i < |w| && forall c :: c in cs ==> InTree(pr, c)
    ensures Gets(c, s, r, x, m, pr, ex, cs, w, i) ==
      (if Takes(c, s, r, DepthAt(ex, w, i) + Starts(ex, w[i]), x) then Added(pr, cs, w, i, m) else 0)
      + Gets(c, s, r, x, m, pr, ex, cs, w, i + 1)
  {
  }

  lemma {:induction false} TraceAdds(c: T.Config, s: T.State, r: nat, x: nat, m: nat, pr: Program, ex: Extent,
                                     cs: seq<Counter>, w: seq<Block>, i: nat, clock: nat -> int)
    requires r < c.regions && x < c.regions && m < c.width && Given(pr, cs, c.width) && i <= |w| && c.period == 1
    ensures Adds(c, s, r, x, m, DepthAt(ex, w, i), Trace(pr, ex, cs, w, i, r, clock), DepthAt(ex, w, |w|),
                 Gets(c, s, r, x, m, pr, ex, cs, w, i))
    decreases |w| - i
  {
    hide Adds, Takes, Added, Gained, Offered, StepEvents;
    if i == |w| {
      AddsNothing(c, s, r, x, m, DepthAt(ex, w, i));
      NothingLeft(pr, ex, w, cs);
    } else {
      StepEventsAdd(c, s, r, x, m, DepthAt(ex, w, i), pr, ex, cs, w, i, clock(i));
      TraceAdds(c, s, r, x, m, pr, ex, cs, w, i + 1, clock);
      GetsStep(c, s, r, x, m, pr, ex, cs, w, i);
      hide Gets;
      AddsBoth(c, s, r, x, m, DepthAt(ex, w, i), StepEvents(pr, ex, cs, w, i, r, clock(i)), DepthAt(ex, w, i + 1),
               if Takes(c, s, r, DepthAt(ex, w, i) + Starts(ex, w[i]), x) then Added(pr, cs, w, i, m) else 0,
               Trace(pr, ex, cs, w, i + 1, r, clock), DepthAt(ex, w, |w|), Gets(c, s, r, x, m, pr, ex, cs, w, i + 1));
    }
  }

  lemma NothingLeft(pr: Program, ex: Extent, w: seq<Block>, cs: seq<Counter>)
    requires forall c :: c in cs ==> InTree(pr, c)
    ensures forall c :: c in cs ==> Gained(pr, ex, w, c, |w|) == Offered(pr, w, c, |w|) == 0
  {
  }

  /** A run of the function on a thread that has the region closed, with every invocation sampled in: the
      region's row is given what its counters are offered while it is open, and the row of the region the
      thread was counting for, if any, is given the rest.  If the region is closed again at the end, the
      thread counts as before. */
  lemma RowsAfterRun(c: T.Config, s: T.State, r: nat, x: nat, m: nat, pr: Program, ex: Extent, cs: seq<Counter>,
                     w: seq<Block>, clock: nat -> int)
    requires T.Inv(c, s) && r < c.regions && x < c.regions && s.depth[r] == 0
    requires m < |cs| && Given(pr, cs, c.width) && c.period == 1
    ensures T.AllFit(c, Trace(pr, ex, cs, w, 0, r, clock))
    ensures var u := T.Run(c, s, Trace(pr, ex, cs, w, 0, r, clock));
      && InRow(c, u, x, m) == InRow(c, s, x, m) + (if x == r then Gained(pr, ex, w, cs[m], 0) else 0)
           + (if TakesOutside(c, s, x) then Value(pr, w, cs[m]) - Gained(pr, ex, w, cs[m], 0) else 0)
      && u.depth[r] == DepthAt(ex, w, |w|)
      && (u.depth[r] == 0 ==> u.base == s.base && u.disable == s.disable && u.top == s.top)
  {
    TraceAdds(c, s, r, x, m, pr, ex, cs, w, 0, clock);
    OfferedIsValue(pr, w, cs[m]);
    assert Above(c, s, s, r, 0);
    assert AddsFrom(c, s, s, r, x, m, Trace(pr, ex, cs, w, 0, r, clock), DepthAt(ex, w, |w|),
                    Gets(c, s, r, x, m, pr, ex, cs, w, 0));
    hide T.Run, Trace, Value, Offered, Gained, InRow;
  }

  // ---- What is recovered from the row ----------------------------------------------

  /** Slots of the region's row times the recorded mixes, from slot `n` on. */
  ghost function FromRow(c: T.Config, t: T.State, r: nat, cs: seq<Counter>, n: nat, cost: Block -> nat): nat
    requires T.Sized(c, t) && r < c.regions && n <= |cs| <= c.width
    decreases |cs| - n
  {
    if n == |cs| then 0 else InRow(c, t, r, n) * Mix(cs[n], cost) + FromRow(c, t, r, cs, n + 1, cost)
  }

  lemma {:induction false} FromRowIsRecovered(c: T.Config, t: T.State, r: nat, pr: Program, ex: Extent,
                                              cs: seq<Counter>, w: seq<Block>, n: nat, cost: Block -> nat)
    requires T.Sized(c, t) && r < c.regions && n <= |cs| && Given(pr, cs, c.width)
    requires forall m :: 0 <= m < |cs| ==> InRow(c, t, r, m) == Gained(pr, ex, w, cs[m], 0)
    ensures FromRow(c, t, r, cs, n, cost) == RecoveredOpen(pr, ex, w, cs[n..], cost)
    decreases |cs| - n
  {
    hide InRow, Gained, Mix, T.Sized;
    if n < |cs| {
      assert cs[n..][1..] == cs[n + 1..];
      FromRowIsRecovered(c, t, r, pr, ex, cs, w, n + 1, cost);
    } else {
      assert cs[n..] == [];
    }
  }

  /** From the start of a thread to the product of counters and mixes: what the runtime and the aggregation
      make of a complete run is at most what the run executed of the region, and whatever the blocks weigh
      it is exactly that if and only if every counter with blocks counts only while the region is open. */
  lemma RowRecoversIffOpen(c: T.Config, r: nat, pr: Program, tr: Trees, ex: Extent, cs: seq<Counter>, w: seq<Block>,
                           l: seq<Block>, cost: Block -> nat, clock: nat -> int)
    requires T.Sensible(c) && c.period == 1 && r < c.regions && |cs| <= c.width
    requires Meets(pr, tr, l, w) && WellFormed(pr.t) && CountersOk(pr.t, tr, cs)
    requires multiset(AllBlocks(cs)) == multiset(l) && NoDup(l)
    ensures (forall k :: k in cs ==> InTree(pr, k)) && T.AllFit(c, Trace(pr, ex, cs, w, 0, r, clock))
    ensures var u := T.Run(c, T.Init(c), Trace(pr, ex, cs, w, 0, r, clock));
      && FromRow(c, u, r, cs, 0, cost) <= Stepwise(w, l, cost)
      && (OpenWhereCounted(pr, ex, w, cs) ==> FromRow(c, u, r, cs, 0, cost) == Stepwise(w, l, cost))
      && (Positive(l, cost) && FromRow(c, u, r, cs, 0, cost) == Stepwise(w, l, cost) ==>
            OpenWhereCounted(pr, ex, w, cs))
  {
    RecoversIffOpen(pr, tr, ex, w, cs, l, cost);
    hide Meets, CountersOk, NoDup, WellFormed, Stepwise, AllBlocks, OpenWhereCounted, RecoveredOpen;
    StartEmpty(c, r);
    TraceFits(c, r, pr, ex, cs, w, 0, clock);
    hide T.Init, InRow, Gained, T.Inv, T.Run, T.AllFit;
    var u := T.Run(c, T.Init(c), Trace(pr, ex, cs, w, 0, r, clock));
    forall m | 0 <= m < |cs| ensures InRow(c, u, r, m) == Gained(pr, ex, w, cs[m], 0) {
      RowsAfterRun(c, T.Init(c), r, r, m, pr, ex, cs, w, clock);
    }
    FromRowIsRecovered(c, u, r, pr, ex, cs, w, 0, cost);
    assert cs[0..] == cs;
  }

  lemma TraceFits(c: T.Config, r: nat, pr: Program, ex: Extent, cs: seq<Counter>, w: seq<Block>, i: nat,
                  clock: nat -> int)
    requires r < c.regions && Given(pr, cs, c.width) && i <= |w|
    ensures T.AllFit(c, Trace(pr, ex, cs, w, i, r, clock))
    decreases |w| - i
  {
    if i < |w| {
      CountsFit(c, pr, cs, w, i, 0);
      EndsFit(c, r, clock(i), ex.closes(w[i]));
      TraceFits(c, r, pr, ex, cs, w, i + 1, clock);
    }
  }

  lemma {:induction false} CountsFit(c: T.Config, pr: Program, cs: seq<Counter>, w: seq<Block>, i: nat, n: nat)
    requires Given(pr, cs, c.width) && i < |w| && n <= |cs|
    ensures T.AllFit(c, Counts(pr, cs, w, i, n))
    decreases |cs| - n
  {
    if n < |cs| {
      CountsFit(c, pr, cs, w, i, n + 1);
    }
  }

  lemma {:induction false} EndsFit(c: T.Config, r: nat, now: int, n: nat)
    requires r < c.regions
    ensures T.AllFit(c, Ends(r, now, n))
  {
    if n != 0 {
      EndsFit(c, r, now, n - 1);
    }
  }

  lemma StartEmpty(c: T.Config, r: nat)
    requires T.Sensible(c) && r < c.regions
    ensures T.Init(c).depth[r] == 0 && T.Init(c).disable
    ensures forall m :: 0 <= m < c.width ==> InRow(c, T.Init(c), r, m) == 0
  {
    T.RowFits(r, c.regions, c.width);
  }
}
