/** The per-thread region runtime: `startTimingEvent`, `endTimingEvent` and the increments. */
module Runtime {
  /** Capacity of the per-region arrays; it must be at least the number of regions. */
  const PRAGMA_REGION_LIMIT: nat := 4096

  /** What the pass and the environment fix: the number of regions, the width of a counter row, and
      the sampling period (0 disables counting). */
  datatype Config = Config(regions: nat, width: nat, period: nat)

  ghost predicate Sensible(c: Config) {
    1 <= c.regions <= PRAGMA_REGION_LIMIT
  }

  datatype Timing = Timing(count: nat, start: int, total: int)
  datatype Save = Save(base: nat, disable: bool)

  datatype State = State(
    depth: seq<nat>,       // RegionDepth
    stack: seq<Save>,      // RegionSaveStack
    top: nat,              // RegionSaveTop
    base: nat,             // counterBaseIndex
    disable: bool,         // globalDisable
    timing: seq<Timing>,   // TimingProfiles
    counters: seq<nat>,    // CounterArray
    loads: seq<nat>,       // LoadRuntimeArray
    stores: seq<nat>       // StoreRuntimeArray
  )

  datatype Event =
    | Start(region: nat, now: int)
    | End(region: nat, now: int)
    | Count(slot: nat, amount: nat)   // incrementCounterArray counts 1
    | Load(slot: nat, amount: nat)
    | Store(slot: nat, amount: nat)
    | LoadStore(slot: nat, amount: nat)

  ghost predicate Fits(c: Config, e: Event) {
    match e
    case Start(r, _) => r < c.regions
    case End(r, _) => r < c.regions
    case Count(n, _) => n < c.width
    case Load(n, _) => n < c.width
    case Store(n, _) => n < c.width
    case LoadStore(n, _) => n < c.width
  }

  /** The index of a region's row in the flattened counter array. */
  function Row(c: Config, r: nat): nat {
    r * c.width
  }

  ghost predicate IsRow(c: Config, base: nat) {
    exists r :: 0 <= r < c.regions && base == Row(c, r)
  }

  ghost predicate Sized(c: Config, s: State) {
    && Sensible(c)
    && |s.depth| == |s.stack| == |s.timing| == PRAGMA_REGION_LIMIT
    && |s.counters| == |s.loads| == |s.stores| == c.regions * c.width
  }

  // ---- Open regions --------------------------------------------------------

  ghost function Open(d: seq<nat>): nat {
    if d == [] then 0 else Open(d[..|d| - 1]) + (if d[|d| - 1] > 0 then 1 else 0)
  }

  lemma {:induction false} OpenUpdate(d: seq<nat>, r: nat, n: nat)
    requires r < |d|
    ensures Open(d[r := n]) == Open(d) - (if d[r] > 0 then 1 else 0) + (if n > 0 then 1 else 0)
  {
    var e := d[r := n];
    if r == |d| - 1 {
      assert e[..|d| - 1] == d[..|d| - 1];
    } else {
      assert e[..|d| - 1] == d[..|d| - 1][r := n];
      OpenUpdate(d[..|d| - 1], r, n);
    }
  }

  lemma {:induction false} OpenBound(d: seq<nat>)
    ensures Open(d) <= |d|
    ensures (exists r :: 0 <= r < |d| && d[r] == 0) ==> Open(d) < |d|
    ensures (exists r :: 0 <= r < |d| && d[r] > 0) ==> 0 < Open(d)
  {
    if d != [] {
      var e := d[..|d| - 1];
      OpenBound(e);
      if r :| 0 <= r < |d| && d[r] == 0 {
        if r < |e| { assert e[r] == 0; }
      }
      if r :| 0 <= r < |d| && d[r] > 0 {
        if r < |e| { assert e[r] > 0; }
      }
    }
  }

  lemma {:induction false} OpenNone(d: seq<nat>)
    requires Open(d) == 0
    ensures forall r :: 0 <= r < |d| ==> d[r] == 0
  {
    if d != [] {
      OpenNone(d[..|d| - 1]);
      forall r | 0 <= r < |d| ensures d[r] == 0 {
        assert r < |d| - 1 ==> d[r] == d[..|d| - 1][r];
      }
    }
  }

  // ---- Steps ---------------------------------------------------------------

  predicate Sampled(c: Config, count: nat) {
    c.period != 0 && count % c.period == 0
  }

  /** The first entry into a region: saves the enclosing state and, when sampled in, takes over. */
  function Enter(c: Config, s: State, r: nat, now: int): State
    requires r < |s.timing| && |s.stack| == PRAGMA_REGION_LIMIT
  {
    var t := s.(
      stack := if s.top < PRAGMA_REGION_LIMIT then s.stack[s.top := Save(s.base, s.disable)] else s.stack,
      top := s.top + 1);
    if Sampled(c, s.timing[r].count)
    then t.(disable := false, base := Row(c, r), timing := s.timing[r := s.timing[r].(start := now)])
    else t
  }

  /** The last exit from a region: counts the invocation and hands counting back. */
  function Leave(c: Config, s: State, r: nat, now: int): State
    requires r < |s.timing| && |s.stack| == PRAGMA_REGION_LIMIT
  {
    var top := if s.top > 0 then s.top - 1 else 0;
    var saved := if s.top > 0 && top < PRAGMA_REGION_LIMIT then s.stack[top] else Save(s.base, true);
    var p := s.timing[r].(count := s.timing[r].count + 1);
    var q := if s.disable then p else p.(total := p.total + (now - p.start));
    s.(top := top, base := saved.base, disable := saved.disable, timing := s.timing[r := q])
  }

  function Bump(a: seq<nat>, i: nat, n: nat): seq<nat>
    requires i < |a|
  {
    a[i := a[i] + n]
  }

  ghost predicate CanStep(c: Config, s: State, e: Event) {
    && Sized(c, s) && Fits(c, e)
    && ((e.Start? || e.End?) || s.base + e.slot < |s.counters|)
  }

  function Step(c: Config, s: State, e: Event): (t: State)
    requires CanStep(c, s, e)
    ensures |t.depth| == |s.depth|
  {
    match e
    case Start(r, now) =>
      var t := s.(depth := s.depth[r := s.depth[r] + 1]);
      if s.depth[r] != 0 then t else Enter(c, t, r, now)
    case End(r, now) =>
      if s.depth[r] == 0 then s
      else
        var t := s.(depth := s.depth[r := s.depth[r] - 1]);
        if s.depth[r] != 1 then t else Leave(c, t, r, now)
    case Count(n, k) => if s.disable then s else s.(counters := Bump(s.counters, s.base + n, k))
    case Load(n, k) => if s.disable then s else s.(loads := Bump(s.loads, s.base + n, k))
    case Store(n, k) => if s.disable then s else s.(stores := Bump(s.stores, s.base + n, k))
    case LoadStore(n, k) =>
      if s.disable then s
      else s.(loads := Bump(s.loads, s.base + n, k), stores := Bump(s.stores, s.base + n, k))
  }

  // ---- What every trace keeps ----------------------------------------------

  /** The save stack holds one entry per open region, all of them row starts; at its bottom, and
      whenever no region is open, counting is disabled with base 0. */
  ghost predicate Inv(c: Config, s: State) {
    && Sized(c, s)
    && s.top == Open(s.depth) <= PRAGMA_REGION_LIMIT
    && (forall r :: c.regions <= r < PRAGMA_REGION_LIMIT ==> s.depth[r] == 0)
    && IsRow(c, s.base)
    && (forall i :: 0 <= i < s.top ==> IsRow(c, s.stack[i].base))
    && (if s.top == 0 then s.base == 0 && s.disable else s.stack[0] == Save(0, true))
  }

  function Init(c: Config): (s: State)
    ensures Sensible(c) ==> Inv(c, s)
  {
    var s := State(
      seq(PRAGMA_REGION_LIMIT, i => 0), seq(PRAGMA_REGION_LIMIT, i => Save(0, false)), 0, 0, true,
      seq(PRAGMA_REGION_LIMIT, i => Timing(0, 0, 0)),
      seq(c.regions * c.width, i => 0), seq(c.regions * c.width, i => 0), seq(c.regions * c.width, i => 0));
    assert Sensible(c) ==> Inv(c, s) by {
      AllClosed(s.depth);
      assert Row(c, 0) == 0;
      assert IsRow(c, 0) || !Sensible(c);
    }
    s
  }

  lemma {:induction false} AllClosed(d: seq<nat>)
    requires forall r :: 0 <= r < |d| ==> d[r] == 0
    ensures Open(d) == 0
  {
    if d != [] {
      AllClosed(d[..|d| - 1]);
    }
  }

  /** Slot indices stay in bounds. */
  lemma IndexInBounds(c: Config, s: State, n: nat)
    requires Inv(c, s) && n < c.width
    ensures s.base + n < c.regions * c.width
  {
    var r :| 0 <= r < c.regions && s.base == Row(c, r);
    hide Inv;
    RowFits(r, c.regions, c.width);
  }

  lemma RowFits(r: nat, regions: nat, width: nat)
    requires r < regions
    ensures r * width + width <= regions * width
  {
    assert regions * width == r * width + width + (regions - r - 1) * width;
  }

  lemma RowsApart(w: nat, a: nat, q: nat, b: nat, r: nat)
    requires a < w && b < w
    ensures a + w * q == r * w + b <==> a == b && q == r
  {
    if q < r {
      RowFits(q, r, w);
    } else if r < q {
      RowFits(r, q, w);
    }
  }

  lemma EveryStepPossible(c: Config, s: State, e: Event)
    requires Inv(c, s) && Fits(c, e)
    ensures CanStep(c, s, e)
  {
    if !e.Start? && !e.End? {
      IndexInBounds(c, s, e.slot);
    }
  }

  lemma EnterKeepsInv(c: Config, s: State, r: nat, now: int)
    requires Inv(c, s) && r < c.regions && s.depth[r] == 0
    ensures s.top < PRAGMA_REGION_LIMIT
    ensures Inv(c, Enter(c, s.(depth := s.depth[r := 1]), r, now))
  {
    OpenUpdate(s.depth, r, 1);
    OpenBound(s.depth);
    var t := Enter(c, s.(depth := s.depth[r := 1]), r, now);
    assert IsRow(c, Row(c, r));
    forall i | 0 <= i < t.top ensures IsRow(c, t.stack[i].base) {
      if i < s.top { assert t.stack[i] == s.stack[i]; }
    }
  }

  lemma LeaveKeepsInv(c: Config, s: State, r: nat, now: int)
    requires Inv(c, s) && r < c.regions && s.depth[r] == 1
    ensures 0 < s.top <= PRAGMA_REGION_LIMIT
    ensures Inv(c, Leave(c, s.(depth := s.depth[r := 0]), r, now))
  {
    OpenUpdate(s.depth, r, 0);
    OpenBound(s.depth);
  }

  /** Every event, balanced or not, keeps the invariant. */
  lemma StepKeepsInv(c: Config, s: State, e: Event)
    requires Inv(c, s) && Fits(c, e)
    ensures CanStep(c, s, e) && Inv(c, Step(c, s, e))
  {
    EveryStepPossible(c, s, e);
    match e
    case Start(r, now) =>
      if s.depth[r] == 0 {
        EnterKeepsInv(c, s, r, now);
      } else {
        OpenUpdate(s.depth, r, s.depth[r] + 1);
      }
    case End(r, now) =>
      if s.depth[r] == 1 {
        LeaveKeepsInv(c, s, r, now);
      } else if s.depth[r] != 0 {
        OpenUpdate(s.depth, r, s.depth[r] - 1);
      }
    case _ =>
  }

  ghost predicate AllFit(c: Config, es: seq<Event>) {
    forall e :: e in es ==> Fits(c, e)
  }

  /** A whole trace of events on one thread. */
  ghost function Run(c: Config, s: State, es: seq<Event>): (t: State)
    requires Inv(c, s) && AllFit(c, es)
    ensures Inv(c, t)
    decreases |es|
  {
    if es == [] then s
    else
      StepKeepsInv(c, s, es[0]);
      Run(c, Step(c, s, es[0]), es[1..])
  }

  lemma {:induction false} RunConcat(c: Config, s: State, a: seq<Event>, b: seq<Event>)
    requires Inv(c, s) && AllFit(c, a) && AllFit(c, b)
    ensures AllFit(c, a + b)
    ensures Run(c, s, a + b) == Run(c, Run(c, s, a), b)
    decreases |a|
  {
    hide Inv, Step;
    if a == [] {
      assert a + b == b;
    } else {
      StepKeepsInv(c, s, a[0]);
      assert (a + b)[1..] == a[1..] + b;
      RunConcat(c, Step(c, s, a[0]), a[1..], b);
    }
  }

  ghost predicate SlotFits(s: State, n: nat) {
    s.base + n < |s.counters| == |s.loads| == |s.stores|
  }

  /** The save stack is exactly as high as there are open regions, with room for one more whenever a
      region is closed and something to pop whenever one is open; slots index into the arrays; and
      counting is off, with base 0, when no region is open. */
  ghost predicate Safe(c: Config, s: State)
    requires |s.depth| == PRAGMA_REGION_LIMIT && Sensible(c)
  {
    && s.top == Open(s.depth) <= PRAGMA_REGION_LIMIT
    && (forall r :: 0 <= r < c.regions && s.depth[r] == 0 ==> s.top < PRAGMA_REGION_LIMIT)
    && (forall r :: 0 <= r < c.regions && s.depth[r] > 0 ==> 0 < s.top)
    && (forall n :: 0 <= n < c.width ==> SlotFits(s, n))
    && ((forall r :: 0 <= r < c.regions ==> s.depth[r] == 0) ==> s.disable && s.base == 0)
  }

  /** Any trace, even one with unbalanced or crossing regions, leaves the thread safe. */
  lemma EveryTraceIsSafe(c: Config, es: seq<Event>)
    requires Sensible(c) && AllFit(c, es)
    ensures var s := Run(c, Init(c), es); |s.depth| == PRAGMA_REGION_LIMIT && Safe(c, s)
  {
    InvIsSafe(c, Run(c, Init(c), es));
  }

  lemma InvIsSafe(c: Config, s: State)
    requires Inv(c, s)
    ensures Safe(c, s)
  {
    OpenBound(s.depth);
    forall n | 0 <= n < c.width ensures SlotFits(s, n) {
      IndexInBounds(c, s, n);
    }
    if forall r :: 0 <= r < c.regions ==> s.depth[r] == 0 {
      AllClosed(s.depth);
    }
  }

  // ---- The thread's state, updated in place ---------------------------------

  class Thread {
    const c: Config
    const depth: array<nat>
    const stack: array<Save>
    const timing: array<Timing>
    const counters: array<nat>
    const loads: array<nat>
    const stores: array<nat>
    var top: nat
    var base: nat
    var disable: bool

    ghost function Now(): State
      reads this, depth, stack, timing, counters, loads, stores
    {
      State(depth[..], stack[..], top, base, disable, timing[..], counters[..], loads[..], stores[..])
    }

    ghost predicate Valid()
      reads this, depth, stack, timing, counters, loads, stores
    {
      && Inv(c, Now())
      && depth != counters && depth != loads && depth != stores
      && counters != loads && counters != stores && loads != stores
    }

    constructor (c: Config)
      requires Sensible(c)
      ensures Valid() && Now() == Init(c) && this.c == c
      ensures fresh(depth) && fresh(stack) && fresh(timing) && fresh(counters) && fresh(loads) && fresh(stores)
    {
      this.c := c;
      depth := new nat[PRAGMA_REGION_LIMIT](i => 0);
      stack := new Save[PRAGMA_REGION_LIMIT](i => Save(0, false));
      timing := new Timing[PRAGMA_REGION_LIMIT](i => Timing(0, 0, 0));
      counters := new nat[c.regions * c.width](i => 0);
      loads := new nat[c.regions * c.width](i => 0);
      stores := new nat[c.regions * c.width](i => 0);
      top, base, disable := 0, 0, true;
      new;
      assert Now() == Init(c);
    }

    method StartTimingEvent(r: nat, now: int)
      requires Valid() && r < c.regions
      modifies this`top, this`base, this`disable, depth, stack, timing
      ensures Valid() && old(CanStep(c, Now(), Start(r, now))) && Now() == old(Step(c, Now(), Start(r, now)))
    {
      StepKeepsInv(c, Now(), Start(r, now));
      assert Sized(c, Now());
      hide Inv;
      var d := depth[r];
      depth[r] := d + 1;
      if d != 0 {
        return;
      }
      if top < PRAGMA_REGION_LIMIT {
        stack[top] := Save(base, disable);
      }
      top := top + 1;
      if c.period != 0 && timing[r].count % c.period == 0 {
        disable := false;
      } else {
        return;
      }
      base := Row(c, r);
      timing[r] := timing[r].(start := now);
    }

    method EndTimingEvent(r: nat, now: int)
      requires Valid() && r < c.regions
      modifies this`top, this`base, this`disable, depth, timing
      ensures Valid() && old(CanStep(c, Now(), End(r, now))) && Now() == old(Step(c, Now(), End(r, now)))
    {
      StepKeepsInv(c, Now(), End(r, now));
      assert Sized(c, Now());
      hide Inv, Row;
      if depth[r] == 0 {
        return;
      }
      depth[r] := depth[r] - 1;
      assert depth[..] == old(depth[..])[r := old(depth[r]) - 1];
      if depth[r] != 0 {
        return;
      }
      var saved := Save(base, true);
      if top > 0 {
        top := top - 1;
        if top < PRAGMA_REGION_LIMIT {
          saved := stack[top];
        }
      }
      timing[r] := timing[r].(count := timing[r].count + 1);
      assert timing[..] == old(timing[..])[r := timing[r]];
      if disable {
        base, disable := saved.base, saved.disable;
        return;
      }
      timing[r] := timing[r].(total := timing[r].total + (now - timing[r].start));
      assert timing[..] == old(timing[..])[r := timing[r]];
      base, disable := saved.base, saved.disable;
    }

    method IncrementCounterArraySF(n: nat, k: nat)
      requires Valid() && n < c.width
      modifies counters
      ensures Valid() && old(CanStep(c, Now(), Count(n, k))) && Now() == old(Step(c, Now(), Count(n, k)))
    {
      StepKeepsInv(c, Now(), Count(n, k));
      if !disable {
        counters[n + base] := counters[n + base] + k;
      }
    }

    method IncrementCounterArray(n: nat)
      requires Valid() && n < c.width
      modifies counters
      ensures Valid() && old(CanStep(c, Now(), Count(n, 1))) && Now() == old(Step(c, Now(), Count(n, 1)))
    {
      StepKeepsInv(c, Now(), Count(n, 1));
      if !disable {
        counters[n + base] := counters[n + base] + 1;
      }
    }

    method IncrementLoadArray(n: nat, k: nat)
      requires Valid() && n < c.width
      modifies loads
      ensures Valid() && old(CanStep(c, Now(), Load(n, k))) && Now() == old(Step(c, Now(), Load(n, k)))
    {
      StepKeepsInv(c, Now(), Load(n, k));
      if !disable {
        loads[n + base] := loads[n + base] + k;
      }
    }

    method IncrementStoreArray(n: nat, k: nat)
      requires Valid() && n < c.width
      modifies stores
      ensures Valid() && old(CanStep(c, Now(), Store(n, k))) && Now() == old(Step(c, Now(), Store(n, k)))
    {
      StepKeepsInv(c, Now(), Store(n, k));
      if !disable {
        stores[n + base] := stores[n + base] + k;
      }
    }

    method IncrementLoadStoreArray(n: nat, k: nat)
      requires Valid() && n < c.width
      modifies loads, stores
      ensures Valid() && old(CanStep(c, Now(), LoadStore(n, k))) && Now() == old(Step(c, Now(), LoadStore(n, k)))
    {
      StepKeepsInv(c, Now(), LoadStore(n, k));
      if !disable {
        loads[n + base] := loads[n + base] + k;
        stores[n + base] := stores[n + base] + k;
      }
    }
  }
}
