/** What a region's elapsed time measures when not every invocation is sampled. */
module SampledTimes {
  import opened Runtime
  import opened RuntimeTraces
  import opened RuntimeTimes

  /** Of region `r`: when its present outermost invocation began and whether that was sampled in; the
      time spent in sampled-in invocations; the time added for sampled-out ones, from an old start; and
      the time of sampled-in ones that was not added, because counting was off at their end. */
  datatype Ledger = Ledger(since: int, sampled: bool, spent: int, stale: int, missed: int)

  const EMPTY := Ledger(0, false, 0, 0, 0)

  /** Event `e`, in state `s`, ends the present invocation of `r`. */
  ghost predicate Leaves(s: State, e: Event, r: nat)
    requires r < |s.depth|
  {
    e.End? && e.region == r && s.depth[r] == 1
  }

  ghost predicate Enters(s: State, e: Event, r: nat)
    requires r < |s.depth|
  {
    e.Start? && e.region == r && s.depth[r] == 0
  }

  ghost function Note(c: Config, s: State, e: Event, r: nat, a: Ledger): Ledger
    requires r < |s.depth| && r < |s.timing|
  {
    if Enters(s, e, r) then a.(since := e.now, sampled := Sampled(c, s.timing[r].count))
    else if !Leaves(s, e, r) then a
    else if a.sampled then
      a.(spent := a.spent + (e.now - a.since), missed := a.missed + if s.disable then e.now - a.since else 0)
    else a.(stale := a.stale + if s.disable then 0 else e.now - s.timing[r].start)
  }

  ghost function Kept(c: Config, s: State, a: Ledger, es: seq<Event>, r: nat): Ledger
    requires Inv(c, s) && AllFit(c, es) && r < c.regions
    decreases |es|
  {
    if es == [] then a
    else
      StepKeepsInv(c, s, es[0]);
      Kept(c, Step(c, s, es[0]), Note(c, s, es[0], r, a), es[1..], r)
  }

  // ---- The elapsed time of any trace -------------------------------------------------

  ghost predicate Accounts(c: Config, s: State, a: Ledger, r: nat)
    requires r < |s.depth| && r < |s.timing|
  {
    && s.timing[r].total == a.spent - a.missed + a.stale
    && (s.depth[r] > 0 ==> a.sampled == Sampled(c, s.timing[r].count))
    && (s.depth[r] > 0 && a.sampled ==> s.timing[r].start == a.since)
  }

  lemma AccountsStep(c: Config, s: State, e: Event, r: nat, a: Ledger)
    requires CanStep(c, s, e) && r < c.regions && Accounts(c, s, a, r)
    ensures Sized(c, Step(c, s, e)) && Accounts(c, Step(c, s, e), Note(c, s, e, r, a), r)
  {
  }

  lemma {:induction false} TotalFrom(c: Config, s: State, a: Ledger, es: seq<Event>, r: nat)
    requires Inv(c, s) && AllFit(c, es) && r < c.regions && Accounts(c, s, a, r)
    ensures Sized(c, Run(c, s, es)) && Accounts(c, Run(c, s, es), Kept(c, s, a, es, r), r)
    decreases |es|
  {
    if es != [] {
      StepKeepsInv(c, s, es[0]);
      AccountsStep(c, s, es[0], r, a);
      hide Inv, Step, Accounts, Note;
      TotalFrom(c, Step(c, s, es[0]), Note(c, s, es[0], r, a), es[1..], r);
    }
  }

  /** For every trace and every sampling period: the time of the sampled-in invocations, less what was
      missed, and with what was added for others. */
  lemma TotalIsLedger(c: Config, es: seq<Event>, r: nat)
    requires Sensible(c) && AllFit(c, es) && r < c.regions
    ensures var a := Kept(c, Init(c), EMPTY, es, r);
      r < |Run(c, Init(c), es).timing| && Run(c, Init(c), es).timing[r].total == a.spent - a.missed + a.stale
  {
    TotalFrom(c, Init(c), EMPTY, es, r);
  }

  // ---- When something is added or missed ----------------------------------------------

  /** The exit from a sampled-out invocation while counting is on, later than the old start. */
  ghost predicate StaleExit(s: State, e: Event, r: nat, a: Ledger)
    requires r < |s.depth| && r < |s.timing|
  {
    Leaves(s, e, r) && !a.sampled && !s.disable && s.timing[r].start < e.now
  }

  /** The exit from a sampled-in invocation, later than its start, while counting is off. */
  ghost predicate MissedExit(s: State, e: Event, r: nat, a: Ledger)
    requires r < |s.depth|
  {
    Leaves(s, e, r) && a.sampled && s.disable && a.since < e.now
  }

  ghost predicate NoStaleExit(c: Config, s: State, a: Ledger, es: seq<Event>, r: nat)
    requires Inv(c, s) && AllFit(c, es) && r < c.regions
    decreases |es|
  {
    es == [] ||
      (StepKeepsInv(c, s, es[0]);
       !StaleExit(s, es[0], r, a) && NoStaleExit(c, Step(c, s, es[0]), Note(c, s, es[0], r, a), es[1..], r))
  }

  ghost predicate NoMissedExit(c: Config, s: State, a: Ledger, es: seq<Event>, r: nat)
    requires Inv(c, s) && AllFit(c, es) && r < c.regions
    decreases |es|
  {
    es == [] ||
      (StepKeepsInv(c, s, es[0]);
       !MissedExit(s, es[0], r, a) && NoMissedExit(c, Step(c, s, es[0]), Note(c, s, es[0], r, a), es[1..], r))
  }

  /** Reading the clock's order from the front. */
  lemma {:induction false} ClockedFirst(es: seq<Event>, lo: int, hi: int)
    requires Clocked(es, lo, hi) && es != []
    ensures var e := es[0];
      if e.Start? || e.End? then lo <= e.now && Clocked(es[1..], e.now, hi) else Clocked(es[1..], lo, hi)
    decreases |es|
  {
    var n := |es| - 1;
    var last := es[n];
    var mid := if last.Start? || last.End? then last.now else hi;
    if n == 0 {
      assert es[..0] == [] && es[1..] == [];
    } else {
      ClockedFirst(es[..n], lo, mid);
      assert es[..n][1..] == es[1..][..n - 1];
    }
  }

  /** Starts are not in the future; and counting is never on when nothing is sampled. */
  ghost predicate Started(c: Config, s: State, a: Ledger, r: nat, now: int)
    requires r < |s.depth| && r < |s.timing| && s.top <= |s.stack|
  {
    && (s.depth[r] > 0 ==> a.since <= now)
    && (c.period > 0 && (s.timing[r].count > 0 || s.depth[r] > 0) ==> s.timing[r].start <= now)
    && (c.period == 0 ==> s.disable && forall i :: 0 <= i < s.top ==> s.stack[i].disable)
  }

  lemma StartedStep(c: Config, s: State, e: Event, r: nat, a: Ledger, now: int, later: int)
    requires Inv(c, s) && Fits(c, e) && r < c.regions && Started(c, s, a, r, now) && Accounts(c, s, a, r)
    requires now <= later && (e.Start? || e.End? ==> e.now == later)
    ensures CanStep(c, s, e) && Sized(c, Step(c, s, e)) && Step(c, s, e).top <= |Step(c, s, e).stack|
    ensures Started(c, Step(c, s, e), Note(c, s, e, r, a), r, later)
  {
    StepKeepsInv(c, s, e);
    if c.period > 0 {
      assert 0 % c.period == 0;
    }
  }

  /** One event adds to neither of the two but at the exits named. */
  lemma NoteSigns(c: Config, s: State, e: Event, r: nat, a: Ledger, now: int)
    requires Inv(c, s) && Fits(c, e) && r < c.regions && Started(c, s, a, r, now) && Accounts(c, s, a, r)
    requires e.Start? || e.End? ==> now <= e.now
    ensures var b := Note(c, s, e, r, a);
      && a.stale <= b.stale && (a.stale == b.stale <==> !StaleExit(s, e, r, a))
      && a.missed <= b.missed && (a.missed == b.missed <==> !MissedExit(s, e, r, a))
  {
    if c.period > 0 {
      assert 0 % c.period == 0;
    }
  }

  lemma {:induction false} SignsFrom(c: Config, s: State, a: Ledger, es: seq<Event>, r: nat, lo: int, hi: int)
    requires Inv(c, s) && AllFit(c, es) && r < c.regions && Started(c, s, a, r, lo) && Accounts(c, s, a, r)
    requires Clocked(es, lo, hi)
    ensures var b := Kept(c, s, a, es, r);
      && a.stale <= b.stale && (a.stale == b.stale <==> NoStaleExit(c, s, a, es, r))
      && a.missed <= b.missed && (a.missed == b.missed <==> NoMissedExit(c, s, a, es, r))
    decreases |es|
  {
    if es != [] {
      var e := es[0];
      var mid := if e.Start? || e.End? then e.now else lo;
      ClockedFirst(es, lo, hi);
      StepKeepsInv(c, s, e);
      NoteSigns(c, s, e, r, a, lo);
      StartedStep(c, s, e, r, a, lo, mid);
      AccountsStep(c, s, e, r, a);
      hide Inv, Step, Note, Started, Accounts, Clocked, StaleExit, MissedExit;
      SignsFrom(c, Step(c, s, e), Note(c, s, e, r, a), es[1..], r, mid, hi);
    }
  }

  /** With a clock that does not run backwards nothing is ever subtracted twice or added twice: both sums
      are zero exactly when no such exit occurs. */
  lemma LedgerSigns(c: Config, es: seq<Event>, r: nat, lo: int, hi: int)
    requires Sensible(c) && AllFit(c, es) && r < c.regions && Clocked(es, lo, hi)
    ensures var a := Kept(c, Init(c), EMPTY, es, r);
      && 0 <= a.stale && (a.stale == 0 <==> NoStaleExit(c, Init(c), EMPTY, es, r))
      && 0 <= a.missed && (a.missed == 0 <==> NoMissedExit(c, Init(c), EMPTY, es, r))
  {
    SignsFrom(c, Init(c), EMPTY, es, r, lo, hi);
  }

  // ---- Properly nested activity ---------------------------------------------------------

  lemma {:induction false} KeptConcat(c: Config, s: State, a: Ledger, x: seq<Event>, y: seq<Event>, r: nat)
    requires Inv(c, s) && AllFit(c, x) && AllFit(c, y) && r < c.regions
    ensures AllFit(c, x + y) && Kept(c, s, a, x + y, r) == Kept(c, Run(c, s, x), Kept(c, s, a, x, r), y, r)
    decreases |x|
  {
    if x == [] {
      assert x + y == y;
    } else {
      StepKeepsInv(c, s, x[0]);
      assert (x + y)[1..] == x[1..] + y;
      hide Inv, Step, Note;
      KeptConcat(c, Step(c, s, x[0]), Note(c, s, x[0], r, a), x[1..], y, r);
    }
  }

  lemma KeptOne(c: Config, s: State, a: Ledger, e: Event, r: nat)
    requires Inv(c, s) && Fits(c, e) && r < c.regions
    ensures AllFit(c, [e]) && Kept(c, s, a, [e], r) == Note(c, s, e, r, a)
    ensures CanStep(c, s, e) && Inv(c, Step(c, s, e)) && Run(c, s, [e]) == Step(c, s, e)
  {
    RunOne(c, s, e);
    assert [e][1..] == [];
  }

  /** The ledger over a call: entry, body, exit, and what follows. */
  lemma KeptCall(c: Config, s: State, a: Ledger, k: Calls, r: nat)
    requires Inv(c, s) && k.Call? && CallsFit(c, k) && r < c.regions
    ensures var first, last := Start(k.region, k.entered), End(k.region, k.left);
      && AllFit(c, Events(k)) && AllFit(c, Events(k.body)) && AllFit(c, Events(k.rest))
      && CanStep(c, s, first) && Inv(c, Step(c, s, first))
      && (var s1, a1 := Step(c, s, first), Note(c, s, first, r, a);
          var t1, b1 := Run(c, s1, Events(k.body)), Kept(c, s1, a1, Events(k.body), r);
          && Sized(c, t1)
          && Kept(c, s, a, Events(k), r) == Kept(c, AfterCall(c, s, k), Note(c, t1, last, r, b1), Events(k.rest), r))
  {
    EventsFit(c, k);
    EventsFit(c, k.body);
    EventsFit(c, k.rest);
    var first, last := Start(k.region, k.entered), End(k.region, k.left);
    KeptOne(c, s, a, first, r);
    var s1, a1 := Step(c, s, first), Note(c, s, first, r, a);
    var t1, b1 := Run(c, s1, Events(k.body)), Kept(c, s1, a1, Events(k.body), r);
    KeptOne(c, t1, b1, last, r);
    hide Step, Note;
    KeptConcat(c, s, a, [first], Events(k.body) + ([last] + Events(k.rest)), r);
    KeptConcat(c, s1, a1, Events(k.body), [last] + Events(k.rest), r);
    KeptConcat(c, t1, b1, [last], Events(k.rest), r);
  }

  /** The exit of a call finds counting as its entry left it. */
  lemma ExitAsEntered(c: Config, s: State, k: Calls)
    requires Inv(c, s) && k.Call? && CallsFit(c, k)
    ensures CanStep(c, s, Start(k.region, k.entered)) && Inv(c, Step(c, s, Start(k.region, k.entered)))
    ensures AllFit(c, Events(k.body))
    ensures var s1 := Step(c, s, Start(k.region, k.entered)); var t1 := Run(c, s1, Events(k.body));
      t1.disable == s1.disable && t1.depth == s1.depth
  {
    StepKeepsInv(c, s, Start(k.region, k.entered));
    EventsFit(c, k.body);
    NestedCallsHaveMeaning(c, Step(c, s, Start(k.region, k.entered)), k.body);
  }

  /** In a tree of calls nothing is missed, and while the region is open its ledger does not change. */
  lemma {:induction false} NothingMissed(c: Config, s: State, a: Ledger, k: Calls, r: nat)
    requires Inv(c, s) && CallsFit(c, k) && r < c.regions
    ensures AllFit(c, Events(k)) && Kept(c, s, a, Events(k), r).missed == a.missed
    ensures s.depth[r] > 0 ==> Kept(c, s, a, Events(k), r) == a
    decreases k
  {
    EventsFit(c, k);
    match k
    case Done =>
    case Act(e, rest) =>
      StepKeepsInv(c, s, e);
      EventsFit(c, rest);
      assert Events(k)[1..] == Events(rest);
      NothingMissed(c, Step(c, s, e), a, rest, r);
    case Call(q, t0, body, t1, rest) =>
      KeptCall(c, s, a, k, r);
      ExitAsEntered(c, s, k);
      var s1, a1 := Step(c, s, Start(q, t0)), Note(c, s, Start(q, t0), r, a);
      NothingMissed(c, s1, a1, body, r);
      CallMissesNothing(c, s, a, k, r, Kept(c, s1, a1, Events(body), r));
      AfterCallOpen(c, s, k, r);
      hide Inv, Step, Note, Kept;
      var b := Note(c, Run(c, s1, Events(body)), End(q, t1), r, Kept(c, s1, a1, Events(body), r));
      NothingMissed(c, AfterCall(c, s, k), b, rest, r);
  }

  /** Entry and exit, around a body that misses nothing. */
  lemma CallMissesNothing(c: Config, s: State, a: Ledger, k: Calls, r: nat, x: Ledger)
    requires Inv(c, s) && k.Call? && CallsFit(c, k) && r < c.regions && AllFit(c, Events(k.body))
    requires CanStep(c, s, Start(k.region, k.entered)) && Inv(c, Step(c, s, Start(k.region, k.entered)))
    requires var s1, a1 := Step(c, s, Start(k.region, k.entered)), Note(c, s, Start(k.region, k.entered), r, a);
      x.missed == a1.missed && (s1.depth[r] > 0 ==> x == a1)
    ensures var t := Run(c, Step(c, s, Start(k.region, k.entered)), Events(k.body));
      Sized(c, t) && var b := Note(c, t, End(k.region, k.left), r, x);
      b.missed == a.missed && (s.depth[r] > 0 ==> b == a)
  {
    ExitAsEntered(c, s, k);
    hide Run, Events;
  }

  lemma AfterCallOpen(c: Config, s: State, k: Calls, r: nat)
    requires Inv(c, s) && k.Call? && CallsFit(c, k) && r < c.regions
    ensures r < |AfterCall(c, s, k).depth| && AfterCall(c, s, k).depth[r] == s.depth[r]
  {
    InvProper(c, s);
    if s.depth[k.region] > 0 { OpenCall(c, s, k); } else { FreshCall(c, s, k); }
  }

  /** For every tree of calls, every period, and a clock that does not run backwards: a region's elapsed
      time is the time spent in its sampled-in invocations if and only if no sampled-out one ends, after
      the start of the last sampled-in one, while counting is on. */
  lemma TimeRightIffNoStaleExit(c: Config, k: Calls, r: nat, lo: int, hi: int)
    requires Sensible(c) && CallsFit(c, k) && r < c.regions && Clocked(Events(k), lo, hi)
    ensures AllFit(c, Events(k)) && r < |Run(c, Init(c), Events(k)).timing|
    ensures Run(c, Init(c), Events(k)).timing[r].total == Kept(c, Init(c), EMPTY, Events(k), r).spent
            <==> NoStaleExit(c, Init(c), EMPTY, Events(k), r)
  {
    EventsFit(c, k);
    TotalIsLedger(c, Events(k), r);
    LedgerSigns(c, Events(k), r, lo, hi);
    NothingMissed(c, Init(c), EMPTY, k, r);
  }

  // ---- Two traces -----------------------------------------------------------------------

  /** Region `q` is called twice from region `r`. */
  ghost function CalledTwice(r: nat, q: nat): Calls {
    Call(r, 0, Call(q, 1, Done, 2, Call(q, 3, Done, 4, Done)), 5, Done)
  }

  lemma SampledOnceIn(c: Config)
    requires c.period > 1
    ensures Sampled(c, 0) && !Sampled(c, 1)
  {
    assert 0 % c.period == 0 && 1 % c.period == 1;
  }

  /** The second call, from an enabled caller. */
  lemma SecondCall(c: Config, env: Env, m: Memory, q: nat)
    requires Proper(c, env, m) && c.period > 1 && q < c.regions && q !in env.open && !env.disable
    requires m.timing[q] == Timing(1, 1, 1)
    ensures Meaning(c, env, Call(q, 3, Done, 4, Done), m).timing[q] == Timing(2, 1, 4)
  {
    SampledOnceIn(c);
    hide Sampled;
  }

  lemma FirstCall(c: Config, env: Env, m: Memory, q: nat)
    requires Proper(c, env, m) && c.period > 1 && q < c.regions && q !in env.open && !env.disable
    requires m.timing[q] == Timing(0, 0, 0)
    ensures Meaning(c, env, Call(q, 1, Done, 2, Call(q, 3, Done, 4, Done)), m).timing[q] == Timing(2, 1, 4)
  {
    SampledOnceIn(c);
    hide Sampled;
    var n := WithProfile(Entered(c, m, q, 1), q, Invoked(c, env, m.timing[q], 1, 2));
    SecondCall(c, env, n, q);
  }

  /** From the start of the thread: with every second invocation sampled, or fewer, region `q`, called
      twice from an enabled region and for one unit of time each, is given four. */
  lemma StaleTimeIsAdded(c: Config, r: nat, q: nat)
    requires Sensible(c) && c.period > 1 && r < c.regions && q < c.regions && r != q
    ensures AllFit(c, Events(CalledTwice(r, q)))
    ensures |Run(c, Init(c), Events(CalledTwice(r, q))).timing| == PRAGMA_REGION_LIMIT
    ensures Run(c, Init(c), Events(CalledTwice(r, q))).timing[q].total == 4
    ensures Observed(Events(CalledTwice(r, q)), q).spans == [(1, 2), (3, 4)]
  {
    var k, s := CalledTwice(r, q), Init(c);
    TwiceFits(c, r, q);
    var env, m := EnvOf(s), MemoryOf(s);
    NothingOpen(c);
    assert m.timing[r] == m.timing[q] == Timing(0, 0, 0);
    hide Inv, Meaning, Events, Restored;
    NestedCallsHaveMeaning(c, s, k);
    OuterCall(c, env, m, r, q);
    TwiceObserved(r, q);
  }

  lemma TwiceFits(c: Config, r: nat, q: nat)
    requires r < c.regions && q < c.regions
    ensures CallsFit(c, CalledTwice(r, q))
  {
    var second := Call(q, 3, Done, 4, Done);
    assert CallsFit(c, Done) && CallsFit(c, second);
    assert CallsFit(c, Call(q, 1, Done, 2, second));
  }

  lemma OuterCall(c: Config, env: Env, m: Memory, r: nat, q: nat)
    requires Proper(c, env, m) && c.period > 1 && r < c.regions && q < c.regions && r != q && env.open == {}
    requires m.timing[r] == m.timing[q] == Timing(0, 0, 0)
    ensures CallsFit(c, CalledTwice(r, q)) && Meaning(c, env, CalledTwice(r, q), m).timing[q] == Timing(2, 1, 4)
  {
    TwiceFits(c, r, q);
    var inner, n := Inside(c, env, m, r), Entered(c, m, r, 0);
    SampledOnceIn(c);
    assert !inner.disable && n.timing[q] == m.timing[q];
    hide Inside, Entered, Meaning;
    FirstCall(c, inner, n, q);
    OutsideOf(c, env, m, r, Call(q, 1, Done, 2, Call(q, 3, Done, 4, Done)), q);
  }

  /** A call of another region changes a profile only by its body. */
  lemma OutsideOf(c: Config, env: Env, m: Memory, r: nat, body: Calls, q: nat)
    requires Proper(c, env, m) && r < c.regions && q < c.regions && r != q && r !in env.open && CallsFit(c, body)
    ensures Meaning(c, env, Call(r, 0, body, 5, Done), m).timing[q]
            == Meaning(c, Inside(c, env, m, r), body, Entered(c, m, r, 0)).timing[q]
  {
  }

  lemma TwiceObserved(r: nat, q: nat)
    requires r != q
    ensures Observed(Events(CalledTwice(r, q)), q).spans == [(1, 2), (3, 4)]
  {
    var es := Events(CalledTwice(r, q));
    var second := Call(q, 3, Done, 4, Done);
    var first := Call(q, 1, Done, 2, second);
    assert Events(Done) == [] && Events(second) == [Start(q, 3), End(q, 4)];
    assert Events(first) == [Start(q, 1), End(q, 2), Start(q, 3), End(q, 4)];
    assert es == [Start(r, 0), Start(q, 1), End(q, 2), Start(q, 3), End(q, 4), End(r, 5)];
    assert es[..5] == es[..5][..4] + [End(q, 4)] && es[..5][..4] == es[..4] && es[..4][..3] == es[..3];
    assert es[..3][..2] == es[..2] && es[..2][..1] == es[..1] && es[..1][..0] == [];
    assert Observed(es[..1], q) == Watch(0, 0, []);
    assert Observed(es[..2], q) == Watch(1, 1, []);
    assert Observed(es[..3], q) == Watch(0, 1, [(1, 2)]);
    assert Observed(es[..4], q) == Watch(1, 3, [(1, 2)]);
    assert Observed(es[..5], q) == Watch(0, 3, [(1, 2), (3, 4)]);
    assert Observed(es, q) == Observe(Observed(es[..5], q), End(r, 5), q);
  }

  /** Region `r` is entered inside a second, sampled-out invocation of `a` and left after it. */
  ghost function Crossing(a: nat, r: nat): seq<Event> {
    [Start(a, 0), End(a, 1), Start(a, 2), Start(r, 3), End(a, 4), End(r, 6)]
  }

  /** Before the crossing: `a` has been invoked once, and again without being sampled in. */
  lemma BeforeCrossing(c: Config, a: nat) returns (s: State)
    requires Sensible(c) && c.period > 1 && a < c.regions
    ensures AllFit(c, [Start(a, 0), End(a, 1), Start(a, 2)])
    ensures Run(c, Init(c), [Start(a, 0), End(a, 1), Start(a, 2)]) == s
    ensures Inv(c, s) && s.disable && s.top == 1 && s.depth[a] == 1
    ensures forall q :: 0 <= q < |s.depth| && q != a ==> s.depth[q] == 0 && s.timing[q] == Timing(0, 0, 0)
  {
    SampledOnceIn(c);
    var s0 := Init(c);
    StepKeepsInv(c, s0, Start(a, 0));
    var s1 := Step(c, s0, Start(a, 0));
    StepKeepsInv(c, s1, End(a, 1));
    var s2 := Step(c, s1, End(a, 1));
    StepKeepsInv(c, s2, Start(a, 2));
    s := Step(c, s2, Start(a, 2));
    assert s2.timing[a].count == 1;
    hide Sampled, Inv, Step;
    var es := [Start(a, 0), End(a, 1), Start(a, 2)];
    assert es[1..] == [End(a, 1), Start(a, 2)] && es[1..][1..] == [Start(a, 2)] && [Start(a, 2)][1..] == [];
    assert Run(c, s2, [Start(a, 2)]) == Run(c, s, []);
  }

  /** Exits that cross may be missed: `r` was sampled in and open for three units, and is given none. */
  lemma CrossingIsMissed(c: Config, a: nat, r: nat)
    requires Sensible(c) && c.period > 1 && a < c.regions && r < c.regions && a != r
    ensures AllFit(c, Crossing(a, r)) && |Run(c, Init(c), Crossing(a, r)).timing| == PRAGMA_REGION_LIMIT
    ensures var p := Run(c, Init(c), Crossing(a, r)).timing[r]; p.count == 1 && p.start == 3 && p.total == 0
  {
    SampledOnceIn(c);
    var s := BeforeCrossing(c, a);
    StepKeepsInv(c, s, Start(r, 3));
    var s1 := Step(c, s, Start(r, 3));
    StepKeepsInv(c, s1, End(a, 4));
    var s2 := Step(c, s1, End(a, 4));
    assert s2.disable && s2.depth[r] == 1 && s2.timing[r] == Timing(0, 3, 0);
    StepKeepsInv(c, s2, End(r, 6));
    var s3 := Step(c, s2, End(r, 6));
    assert s3.timing[r] == Timing(1, 3, 0) && |s3.timing| == PRAGMA_REGION_LIMIT;
    hide Sampled, Inv, Step;
    var x, y := [Start(a, 0), End(a, 1), Start(a, 2)], [Start(r, 3), End(a, 4), End(r, 6)];
    assert Crossing(a, r) == x + y;
    RunConcat(c, Init(c), x, y);
    assert y[1..] == [End(a, 4), End(r, 6)] && y[1..][1..] == [End(r, 6)] && [End(r, 6)][1..] == [];
    assert Run(c, s2, [End(r, 6)]) == Run(c, s3, []);
  }
}
