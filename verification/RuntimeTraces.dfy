/** What traces of the region runtime mean: re-entry, nested calls, time and sampling. */
module RuntimeTraces {
  import opened Runtime

  // ---- Re-entry ------------------------------------------------------------

  /** Within the trace every exit from `r` closes an entry made within it (or one of `k` before it),
      and all entries are closed. */
  ghost predicate Nested(es: seq<Event>, r: nat, k: nat) {
    if es == [] then k == 0
    else match es[0]
      case Start(q, _) => Nested(es[1..], r, if q == r then k + 1 else k)
      case End(q, _) => (q == r ==> 0 < k) && Nested(es[1..], r, if q == r && 0 < k then k - 1 else k)
      case _ => Nested(es[1..], r, k)
  }

  /** The state with one more entry into region `r`. */
  ghost function Deeper(s: State, r: nat): State
    requires r < |s.depth|
  {
    s.(depth := s.depth[r := s.depth[r] + 1])
  }

  lemma DeeperInv(c: Config, s: State, r: nat)
    requires Inv(c, s) && r < c.regions && s.depth[r] > 0
    ensures Inv(c, Deeper(s, r))
  {
    OpenUpdate(s.depth, r, s.depth[r] + 1);
  }

  /** While the region stays open, one more entry makes no difference to a step. */
  lemma StepDeeper(c: Config, s: State, r: nat, e: Event)
    requires Inv(c, s) && r < c.regions && Inv(c, Deeper(s, r)) && Fits(c, e) && s.depth[r] > 0
    requires e.End? && e.region == r ==> 1 < s.depth[r]
    ensures CanStep(c, s, e) && CanStep(c, Deeper(s, r), e)
    ensures Step(c, s, e).depth[r] > 0 && Step(c, Deeper(s, r), e) == Deeper(Step(c, s, e), r)
  {
    EveryStepPossible(c, s, e);
    EveryStepPossible(c, Deeper(s, r), e);
    var a, b := Step(c, Deeper(s, r), e), Deeper(Step(c, s, e), r);
    assert a.depth == b.depth;
  }

  lemma {:induction false} RunDeeper(c: Config, s: State, r: nat, es: seq<Event>, d: nat, k: nat)
    requires Inv(c, s) && r < c.regions && Inv(c, Deeper(s, r)) && AllFit(c, es)
    requires 0 < d && s.depth[r] == d + k && Nested(es, r, k)
    ensures Run(c, s, es).depth[r] == d
    ensures Run(c, Deeper(s, r), es) == Deeper(Run(c, s, es), r)
    decreases |es|
  {
    if es != [] {
      var e := es[0];
      StepKeepsInv(c, s, e);
      StepKeepsInv(c, Deeper(s, r), e);
      StepDeeper(c, s, r, e);
      StepDepth(c, s, r, e);
      var n := Step(c, s, e).depth[r] - d;
      RunDeeper(c, Step(c, s, e), r, es[1..], d, n);
    }
  }

  lemma StepDepth(c: Config, s: State, r: nat, e: Event)
    requires CanStep(c, s, e) && r < c.regions
    ensures Step(c, s, e).depth[r] ==
      if e.Start? && e.region == r then s.depth[r] + 1
      else if e.End? && e.region == r && 0 < s.depth[r] then s.depth[r] - 1
      else s.depth[r]
  {
  }

  /** Deleting a matched entry and exit of a region that is open changes nothing at all: counters,
      times, invocation counts, rows and the disable flag end up the same. */
  lemma ReentryIsTransparent(c: Config, pre: seq<Event>, r: nat, t0: int, mid: seq<Event>, t1: int, post: seq<Event>)
    requires Sensible(c) && AllFit(c, pre) && AllFit(c, mid) && AllFit(c, post) && r < c.regions
    requires Run(c, Init(c), pre).depth[r] > 0 && Nested(mid, r, 0)
    ensures AllFit(c, pre + ([Start(r, t0)] + (mid + ([End(r, t1)] + post)))) && AllFit(c, pre + (mid + post))
    ensures Run(c, Init(c), pre + ([Start(r, t0)] + (mid + ([End(r, t1)] + post)))) ==
            Run(c, Init(c), pre + (mid + post))
  {
    var s := Run(c, Init(c), pre);
    var m := Run(c, s, mid);
    InvProper(c, s);
    InvProper(c, m);
    hide Inv, Step, Nested;
    RunConcat(c, Init(c), pre, mid + post);
    RunConcat(c, s, mid, post);
    RunConcat(c, Init(c), pre, [Start(r, t0)] + (mid + ([End(r, t1)] + post)));
    RunConcat(c, s, [Start(r, t0)], mid + ([End(r, t1)] + post));
    RunOne(c, s, Start(r, t0));
    DeepStart(c, s, r, t0);
    RunConcat(c, Deeper(s, r), mid, [End(r, t1)] + post);
    RunDeeper(c, s, r, mid, s.depth[r], 0);
    RunConcat(c, Deeper(m, r), [End(r, t1)], post);
    RunOne(c, Deeper(m, r), End(r, t1));
    DeepEnd(c, m, r, t1);
  }

  lemma RunOne(c: Config, s: State, e: Event)
    requires Inv(c, s) && Fits(c, e)
    ensures CanStep(c, s, e) && Inv(c, Step(c, s, e))
    ensures AllFit(c, [e]) && Run(c, s, [e]) == Step(c, s, e)
  {
    StepKeepsInv(c, s, e);
    assert [e][1..] == [];
    hide Inv, Step;
  }

  lemma DeepStart(c: Config, s: State, r: nat, now: int)
    requires Inv(c, s) && r < c.regions && s.depth[r] > 0
    ensures Inv(c, Deeper(s, r)) && CanStep(c, s, Start(r, now)) && Step(c, s, Start(r, now)) == Deeper(s, r)
  {
    DeeperInv(c, s, r);
  }

  lemma DeepEnd(c: Config, s: State, r: nat, now: int)
    requires Inv(c, s) && r < c.regions && s.depth[r] > 0
    ensures CanStep(c, Deeper(s, r), End(r, now)) && Step(c, Deeper(s, r), End(r, now)) == s
  {
    DeeperInv(c, s, r);
    assert Step(c, Deeper(s, r), End(r, now)).depth == s.depth;
  }

  // ---- Nested calls --------------------------------------------------------

  /** Properly nested activity: increments, and region calls with a body, in sequence. */
  datatype Calls =
    | Done
    | Act(e: Event, rest: Calls)
    | Call(region: nat, entered: int, body: Calls, left: int, rest: Calls)

  ghost function Events(k: Calls): seq<Event> {
    match k
    case Done => []
    case Act(e, rest) => [e] + Events(rest)
    case Call(r, t0, body, t1, rest) => [Start(r, t0)] + (Events(body) + ([End(r, t1)] + Events(rest)))
  }

  ghost predicate CallsFit(c: Config, k: Calls) {
    match k
    case Done => true
    case Act(e, rest) => !e.Start? && !e.End? && Fits(c, e) && CallsFit(c, rest)
    case Call(r, _, body, _, rest) => r < c.regions && CallsFit(c, body) && CallsFit(c, rest)
  }

  /** What activity may change. */
  datatype Memory = Memory(counters: seq<nat>, loads: seq<nat>, stores: seq<nat>, timing: seq<Timing>)

  /** The regions being executed, and where increments go: to the row at `base`, unless disabled. */
  datatype Env = Env(open: set<nat>, base: nat, disable: bool)

  ghost predicate Proper(c: Config, env: Env, m: Memory) {
    && Sensible(c) && IsRow(c, env.base)
    && |m.timing| == PRAGMA_REGION_LIMIT
    && |m.counters| == |m.loads| == |m.stores| == c.regions * c.width
  }

  /** The environment of a region's body: a sampled-in region takes over with its own row, one that
      is sampled out runs in the environment of its caller. */
  ghost function Inside(c: Config, env: Env, m: Memory, r: nat): (inner: Env)
    requires Proper(c, env, m) && r < c.regions
    ensures Proper(c, inner, m) && inner.open == env.open + {r}
  {
    assert IsRow(c, Row(c, r));
    if Sampled(c, m.timing[r].count) then Env(env.open + {r}, Row(c, r), false)
    else Env(env.open + {r}, env.base, env.disable)
  }

  /** Memory when the body starts: a sampled-in region notes the time. */
  ghost function Entered(c: Config, m: Memory, r: nat, t0: int): Memory
    requires r < |m.timing|
  {
    if Sampled(c, m.timing[r].count) then m.(timing := m.timing[r := m.timing[r].(start := t0)]) else m
  }

  /** The profile of a region after one more invocation in environment `env`. */
  ghost function Invoked(c: Config, env: Env, p: Timing, t0: int, t1: int): Timing {
    if Sampled(c, p.count) then Timing(p.count + 1, t0, p.total + (t1 - t0))
    else if env.disable then Timing(p.count + 1, p.start, p.total)
    else Timing(p.count + 1, p.start, p.total + (t1 - p.start))
  }

  ghost function WithProfile(n: Memory, r: nat, p: Timing): Memory
    requires r < |n.timing|
  {
    n.(timing := n.timing[r := p])
  }

  ghost function Effect(c: Config, env: Env, m: Memory, e: Event): (n: Memory)
    requires Proper(c, env, m) && Fits(c, e) && !e.Start? && !e.End?
    ensures Proper(c, env, n) && n.timing == m.timing
  {
    RowIndex(c, env.base, e.slot);
    if env.disable then m
    else match e
      case Count(n, k) => m.(counters := Bump(m.counters, env.base + n, k))
      case Load(n, k) => m.(loads := Bump(m.loads, env.base + n, k))
      case Store(n, k) => m.(stores := Bump(m.stores, env.base + n, k))
      case LoadStore(n, k) => m.(loads := Bump(m.loads, env.base + n, k), stores := Bump(m.stores, env.base + n, k))
  }

  lemma RowIndex(c: Config, base: nat, n: nat)
    requires IsRow(c, base) && n < c.width
    ensures base + n < c.regions * c.width
  {
    var r :| 0 <= r < c.regions && base == Row(c, r);
    RowFits(r, c.regions, c.width);
  }

  /** The meaning of nested activity, by recursion on its structure: a call of a region that is
      already being executed is just its body; any other call runs its body in the environment it
      opens and then adds the invocation to the region's profile. */
  ghost function Meaning(c: Config, env: Env, k: Calls, m: Memory): (n: Memory)
    requires CallsFit(c, k) && Proper(c, env, m)
    ensures Proper(c, env, n)
    decreases k
  {
    match k
    case Done => m
    case Act(e, rest) => Meaning(c, env, rest, Effect(c, env, m, e))
    case Call(r, t0, body, t1, rest) =>
      if r in env.open then Meaning(c, env, rest, Meaning(c, env, body, m))
      else
        var n := Meaning(c, Inside(c, env, m, r), body, Entered(c, m, r, t0));
        Meaning(c, env, rest, WithProfile(n, r, Invoked(c, env, m.timing[r], t0, t1)))
  }

  /** A region that is being executed keeps its profile whatever runs inside it. */
  lemma {:induction false} OpenUntouched(c: Config, env: Env, k: Calls, m: Memory, r: nat)
    requires CallsFit(c, k) && Proper(c, env, m) && r in env.open && r < PRAGMA_REGION_LIMIT
    ensures Meaning(c, env, k, m).timing[r] == m.timing[r]
    decreases k
  {
    match k
    case Done =>
    case Act(e, rest) =>
      OpenUntouched(c, env, rest, Effect(c, env, m, e), r);
    case Call(q, t0, body, t1, rest) =>
      if q in env.open {
        OpenUntouched(c, env, body, m, r);
        OpenUntouched(c, env, rest, Meaning(c, env, body, m), r);
      } else {
        var inner, m0 := Inside(c, env, m, q), Entered(c, m, q, t0);
        OpenUntouched(c, inner, body, m0, r);
        var n := Meaning(c, inner, body, m0);
        OpenUntouched(c, env, rest, WithProfile(n, q, Invoked(c, env, m.timing[q], t0, t1)), r);
      }
  }

  // ---- The machine implements the meaning -----------------------------------

  ghost function MemoryOf(s: State): Memory {
    Memory(s.counters, s.loads, s.stores, s.timing)
  }

  ghost function OpenSet(s: State): set<nat> {
    set r: nat | r < |s.depth| && s.depth[r] > 0
  }

  ghost function EnvOf(s: State): Env {
    Env(OpenSet(s), s.base, s.disable)
  }

  /** Everything but memory and dead stack entries is as it was. */
  ghost predicate Restored(s: State, t: State)
    requires s.top <= |s.stack| && |t.stack| == |s.stack|
  {
    && t.depth == s.depth && t.top == s.top && t.base == s.base && t.disable == s.disable
    && t.stack[..s.top] == s.stack[..s.top]
  }

  lemma InvProper(c: Config, s: State)
    requires Inv(c, s)
    ensures Proper(c, EnvOf(s), MemoryOf(s)) && s.top <= |s.stack|
    ensures Sized(c, s)
  {
  }

  lemma {:induction false} EventsFit(c: Config, k: Calls)
    requires CallsFit(c, k)
    ensures AllFit(c, Events(k))
    decreases k
  {
    match k
    case Done =>
    case Act(e, rest) => EventsFit(c, rest);
    case Call(r, t0, body, t1, rest) =>
      EventsFit(c, body);
      EventsFit(c, rest);
  }

  lemma ActStep(c: Config, s: State, e: Event)
    requires Inv(c, s) && Fits(c, e) && !e.Start? && !e.End?
    ensures CanStep(c, s, e) && Proper(c, EnvOf(s), MemoryOf(s)) && s.top <= |s.stack|
    ensures var t := Step(c, s, e);
      |t.stack| == |s.stack| && Restored(s, t) && MemoryOf(t) == Effect(c, EnvOf(s), MemoryOf(s), e)
  {
    StepKeepsInv(c, s, e);
  }

  lemma OpenSetUpdate(s: State, t: State, r: nat)
    requires r < |s.depth| && t.depth == s.depth[r := s.depth[r] + 1]
    ensures OpenSet(t) == OpenSet(s) + {r}
  {
  }

  lemma NothingOpen(c: Config)
    ensures EnvOf(Init(c)) == Env({}, 0, true)
    ensures |Init(c).timing| == PRAGMA_REGION_LIMIT
    ensures forall r :: 0 <= r < PRAGMA_REGION_LIMIT ==> Init(c).timing[r] == Timing(0, 0, 0)
  {
    forall r: nat ensures r !in OpenSet(Init(c)) {
    }
    assert OpenSet(Init(c)) == {};
  }

  /** Entering a region that is closed. */
  lemma FreshStart(c: Config, s: State, r: nat, t0: int) returns (t: State)
    requires Inv(c, s) && r < c.regions && s.depth[r] == 0
    ensures CanStep(c, s, Start(r, t0)) && t == Step(c, s, Start(r, t0)) && Inv(c, t)
    ensures Proper(c, EnvOf(s), MemoryOf(s))
    ensures EnvOf(t) == Inside(c, EnvOf(s), MemoryOf(s), r) && MemoryOf(t) == Entered(c, MemoryOf(s), r, t0)
    ensures t.depth == s.depth[r := 1] && t.top == s.top + 1 <= |t.stack| == |s.stack|
    ensures t.stack == s.stack[s.top := Save(s.base, s.disable)]
  {
    StepKeepsInv(c, s, Start(r, t0));
    EnterKeepsInv(c, s, r, t0);
    t := Step(c, s, Start(r, t0));
    OpenSetUpdate(s, t, r);
  }

  /** Leaving it again, after a body that restored what it found. */
  lemma FreshEnd(c: Config, s: State, s1: State, t1: State, r: nat, t0: int, now: int) returns (t: State)
    requires Inv(c, s) && r < c.regions && s.depth[r] == 0 && Inv(c, t1)
    requires s1.depth == s.depth[r := 1] && s1.top == s.top + 1 <= |s1.stack| == |s.stack| == |t1.stack|
    requires s1.stack == s.stack[s.top := Save(s.base, s.disable)] && Restored(s1, t1)
    requires s1.disable == (if Sampled(c, s.timing[r].count) then false else s.disable)
    requires MemoryOf(s1) == Entered(c, MemoryOf(s), r, t0)
    requires t1.timing[r] == s1.timing[r]
    ensures CanStep(c, t1, End(r, now)) && t == Step(c, t1, End(r, now)) && Inv(c, t)
    ensures s.top <= |s.stack| == |t.stack| && Restored(s, t)
    ensures MemoryOf(t) == WithProfile(MemoryOf(t1), r, Invoked(c, EnvOf(s), s.timing[r], t0, now))
  {
    StepKeepsInv(c, t1, End(r, now));
    t := Step(c, t1, End(r, now));
    assert t1.stack[s.top] == t1.stack[..s1.top][s.top] == Save(s.base, s.disable);
    assert t.depth == s.depth;
    assert t.stack[..s.top] == t1.stack[..s1.top][..s.top];
  }

  lemma RestoredTransitive(s: State, t: State, u: State)
    requires s.top <= |s.stack| == |t.stack| == |u.stack| && Restored(s, t) && Restored(t, u)
    ensures Restored(s, u) && EnvOf(t) == EnvOf(s)
  {
  }

  lemma RestoredSelf(s: State)
    requires s.top <= |s.stack|
    ensures Restored(s, s)
  {
  }

  /** The state after a call's entry, body and exit. */
  ghost function AfterCall(c: Config, s: State, k: Calls): (u: State)
    requires Inv(c, s) && k.Call? && CallsFit(c, k)
    ensures Inv(c, u)
  {
    EventsFit(c, k.body);
    StepKeepsInv(c, s, Start(k.region, k.entered));
    var t := Run(c, Step(c, s, Start(k.region, k.entered)), Events(k.body));
    StepKeepsInv(c, t, End(k.region, k.left));
    Step(c, t, End(k.region, k.left))
  }

  lemma CallRuns(c: Config, s: State, k: Calls)
    requires Inv(c, s) && k.Call? && CallsFit(c, k)
    ensures AllFit(c, Events(k)) && AllFit(c, Events(k.rest))
    ensures Run(c, s, Events(k)) == Run(c, AfterCall(c, s, k), Events(k.rest))
  {
    hide Inv, Step;
    EventsFit(c, k);
    EventsFit(c, k.body);
    EventsFit(c, k.rest);
    var first, last := Start(k.region, k.entered), End(k.region, k.left);
    RunOne(c, s, first);
    RunConcat(c, s, [first], Events(k.body) + ([last] + Events(k.rest)));
    var s1 := Step(c, s, first);
    RunConcat(c, s1, Events(k.body), [last] + Events(k.rest));
    var t := Run(c, s1, Events(k.body));
    RunOne(c, t, last);
    RunConcat(c, t, [last], Events(k.rest));
  }

  /** A call of a region that is open already. */
  lemma {:induction false} OpenCall(c: Config, s: State, k: Calls)
    requires Inv(c, s) && k.Call? && CallsFit(c, k) && s.depth[k.region] > 0
    ensures Proper(c, EnvOf(s), MemoryOf(s)) && s.top <= |s.stack|
    ensures var u := AfterCall(c, s, k);
      |u.stack| == |s.stack| && Restored(s, u) && MemoryOf(u) == Meaning(c, EnvOf(s), k.body, MemoryOf(s))
    decreases k, 0
  {
    var r := k.region;
    InvProper(c, s);
    DeepStart(c, s, r, k.entered);
    var s1 := Deeper(s, r);
    OpenSetUpdate(s, s1, r);
    assert OpenSet(s1) == OpenSet(s);
    NestedCallsHaveMeaning(c, s1, k.body);
    var t := Run(c, s1, Events(k.body));
    StepKeepsInv(c, t, End(r, k.left));
    assert AfterCall(c, s, k).depth == s.depth;
  }

  /** A call of a region that is closed. */
  lemma {:induction false} FreshCall(c: Config, s: State, k: Calls)
    requires Inv(c, s) && k.Call? && CallsFit(c, k) && s.depth[k.region] == 0
    ensures Proper(c, EnvOf(s), MemoryOf(s)) && s.top <= |s.stack|
    ensures var u, r := AfterCall(c, s, k), k.region;
      && |u.stack| == |s.stack| && Restored(s, u)
      && MemoryOf(u) == WithProfile(
           Meaning(c, Inside(c, EnvOf(s), MemoryOf(s), r), k.body, Entered(c, MemoryOf(s), r, k.entered)),
           r, Invoked(c, EnvOf(s), s.timing[r], k.entered, k.left))
    decreases k, 0
  {
    var r := k.region;
    InvProper(c, s);
    var s1 := FreshStart(c, s, r, k.entered);
    NestedCallsHaveMeaning(c, s1, k.body);
    var t1 := Run(c, s1, Events(k.body));
    OpenUntouched(c, EnvOf(s1), k.body, MemoryOf(s1), r);
    hide Step, Meaning, Proper;
    var u := FreshEnd(c, s, s1, t1, r, k.entered, k.left);
  }

  /** Running the events of nested activity from any reachable state has exactly its meaning, for
      every sampling period, and restores depths, stack, row and disable flag. */
  lemma {:induction false} NestedCallsHaveMeaning(c: Config, s: State, k: Calls)
    requires Inv(c, s) && CallsFit(c, k)
    ensures AllFit(c, Events(k)) && Proper(c, EnvOf(s), MemoryOf(s)) && s.top <= |s.stack|
    ensures var t := Run(c, s, Events(k));
      && |t.stack| == |s.stack| && Restored(s, t)
      && MemoryOf(t) == Meaning(c, EnvOf(s), k, MemoryOf(s))
    decreases k, 1
  {
    InvProper(c, s);
    EventsFit(c, k);
    match k
    case Done =>
      RestoredSelf(s);
    case Act(e, rest) =>
      NestedAct(c, s, k);
    case Call(r, t0, body, t1, rest) =>
      hide Inv, Proper, Step, Restored;
      CallRuns(c, s, k);
      if s.depth[r] > 0 { OpenCall(c, s, k); } else { FreshCall(c, s, k); }
      var u := AfterCall(c, s, k);
      NestedCallsHaveMeaning(c, u, rest);
      RestoredTransitive(s, u, Run(c, u, Events(rest)));
  }

  lemma {:induction false} NestedAct(c: Config, s: State, k: Calls)
    requires Inv(c, s) && CallsFit(c, k) && k.Act?
    ensures AllFit(c, Events(k)) && Proper(c, EnvOf(s), MemoryOf(s)) && s.top <= |s.stack|
    ensures var t := Run(c, s, Events(k));
      && |t.stack| == |s.stack| && Restored(s, t)
      && MemoryOf(t) == Meaning(c, EnvOf(s), k, MemoryOf(s))
    decreases k, 0
  {
    EventsFit(c, k);
    StepKeepsInv(c, s, k.e);
    ActStep(c, s, k.e);
    var u := Step(c, s, k.e);
    hide Inv, Proper, Step, Restored;
    RunConcat(c, s, [k.e], Events(k.rest));
    RunOne(c, s, k.e);
    NestedCallsHaveMeaning(c, u, k.rest);
    RestoredTransitive(s, u, Run(c, u, Events(k.rest)));
  }

  // ---- No increment is lost or misplaced ----------------------------------------

  ghost function Total(a: seq<nat>): nat {
    if a == [] then 0 else Total(a[..|a| - 1]) + a[|a| - 1]
  }

  lemma {:induction false} TotalBump(a: seq<nat>, i: nat, n: nat)
    requires i < |a|
    ensures Total(Bump(a, i, n)) == Total(a) + n
  {
    var b := Bump(a, i, n);
    if i == |a| - 1 {
      assert b[..|a| - 1] == a[..|a| - 1];
    } else {
      assert b[..|a| - 1] == Bump(a[..|a| - 1], i, n);
      TotalBump(a[..|a| - 1], i, n);
    }
  }

  /** What the trace counts, loads and stores while counting is on. */
  datatype Made = Made(counted: nat, loaded: nat, stored: nat)

  ghost function MadeBy(c: Config, s: State, es: seq<Event>): Made
    requires Inv(c, s) && AllFit(c, es)
    decreases |es|
  {
    if es == [] then Made(0, 0, 0)
    else
      StepKeepsInv(c, s, es[0]);
      var m, e := MadeBy(c, Step(c, s, es[0]), es[1..]), es[0];
      if s.disable then m
      else Made(m.counted + (if e.Count? then e.amount else 0),
                m.loaded + (if e.Load? || e.LoadStore? then e.amount else 0),
                m.stored + (if e.Store? || e.LoadStore? then e.amount else 0))
  }

  lemma StepTotals(c: Config, s: State, e: Event)
    requires Inv(c, s) && Fits(c, e)
    ensures CanStep(c, s, e)
    ensures var t := Step(c, s, e);
      && Total(t.counters) == Total(s.counters) + (if e.Count? && !s.disable then e.amount else 0)
      && Total(t.loads) == Total(s.loads) + (if (e.Load? || e.LoadStore?) && !s.disable then e.amount else 0)
      && Total(t.stores) == Total(s.stores) + (if (e.Store? || e.LoadStore?) && !s.disable then e.amount else 0)
  {
    StepKeepsInv(c, s, e);
    hide *;
    if e.Start? || e.End? {
      KeepsArrays(c, s, e);
    } else {
      BumpsArrays(c, s, e);
      if !s.disable {
        TotalBump(s.counters, s.base + e.slot, e.amount);
        TotalBump(s.loads, s.base + e.slot, e.amount);
        TotalBump(s.stores, s.base + e.slot, e.amount);
      }
    }
  }

  lemma KeepsArrays(c: Config, s: State, e: Event)
    requires CanStep(c, s, e) && (e.Start? || e.End?)
    ensures var t := Step(c, s, e); t.counters == s.counters && t.loads == s.loads && t.stores == s.stores
  {
  }

  lemma BumpsArrays(c: Config, s: State, e: Event)
    requires CanStep(c, s, e) && !e.Start? && !e.End?
    ensures |s.counters| == |s.loads| == |s.stores| && s.base + e.slot < |s.counters|
    ensures var t, i, n := Step(c, s, e), s.base + e.slot, e.amount;
      && t.counters == (if e.Count? && !s.disable then Bump(s.counters, i, n) else s.counters)
      && t.loads == (if (e.Load? || e.LoadStore?) && !s.disable then Bump(s.loads, i, n) else s.loads)
      && t.stores == (if (e.Store? || e.LoadStore?) && !s.disable then Bump(s.stores, i, n) else s.stores)
  {
  }

  /** Over any trace each array grows, in total, by exactly what events of its kind bring while counting is
      on. */
  lemma {:induction false} NothingIsLost(c: Config, s: State, es: seq<Event>)
    requires Inv(c, s) && AllFit(c, es)
    ensures var t, m := Run(c, s, es), MadeBy(c, s, es);
      && Total(t.counters) == Total(s.counters) + m.counted
      && Total(t.loads) == Total(s.loads) + m.loaded
      && Total(t.stores) == Total(s.stores) + m.stored
    decreases |es|
  {
    if es != [] {
      StepTotals(c, s, es[0]);
      StepKeepsInv(c, s, es[0]);
      hide Inv, Step, Total;
      NothingIsLost(c, Step(c, s, es[0]), es[1..]);
    }
  }
}
