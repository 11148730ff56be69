/** What the profiles of the runtime measure: invocation counts, elapsed time, and sampling. */
module RuntimeTimes {
  import opened Runtime
  import opened RuntimeTraces

  /** What an observer of region `r` alone sees: the current nesting, the time of the outermost
      entry, and the outermost intervals completed so far. */
  datatype Watch = Watch(depth: nat, since: int, spans: seq<(int, int)>)

  ghost function Observe(w: Watch, e: Event, r: nat): Watch {
    match e
    case Start(q, now) =>
      if q != r then w else Watch(w.depth + 1, if w.depth == 0 then now else w.since, w.spans)
    case End(q, now) =>
      if q != r || w.depth == 0 then w
      else if w.depth == 1 then Watch(0, w.since, w.spans + [(w.since, now)])
      else w.(depth := w.depth - 1)
    case _ => w
  }

  ghost function Observed(es: seq<Event>, r: nat): Watch {
    if es == [] then Watch(0, 0, []) else Observe(Observed(es[..|es| - 1], r), es[|es| - 1], r)
  }

  ghost function Total(spans: seq<(int, int)>): int {
    if spans == [] then 0
    else Total(spans[..|spans| - 1]) + (spans[|spans| - 1].1 - spans[|spans| - 1].0)
  }

  /** The state after all events but the last, from which the last one steps. */
  lemma RunLast(c: Config, es: seq<Event>) returns (s: State, e: Event)
    requires Sensible(c) && AllFit(c, es) && es != []
    ensures AllFit(c, es[..|es| - 1]) && s == Run(c, Init(c), es[..|es| - 1]) && e == es[|es| - 1]
    ensures Inv(c, s) && Fits(c, e) && CanStep(c, s, e) && Run(c, Init(c), es) == Step(c, s, e)
  {
    var n := |es| - 1;
    s, e := Run(c, Init(c), es[..n]), es[n];
    hide Inv, Step;
    assert es == es[..n] + [e];
    RunOne(c, s, e);
    RunConcat(c, Init(c), es[..n], [e]);
  }

  // ---- Invocation counts ---------------------------------------------------

  ghost predicate Agrees(s: State, r: nat, w: Watch)
    requires r < |s.depth| && r < |s.timing|
  {
    s.depth[r] == w.depth && s.timing[r].count == |w.spans|
  }

  lemma AgreesStep(c: Config, s: State, e: Event, r: nat, w: Watch)
    requires CanStep(c, s, e) && r < c.regions && Agrees(s, r, w)
    ensures Sized(c, Step(c, s, e)) && Agrees(Step(c, s, e), r, Observe(w, e, r))
  {
  }

  /** For every trace and every sampling period, the depth of a region is its own nesting, and its
      count is the number of completed outermost invocations. */
  lemma {:induction false} CountsInvocations(c: Config, es: seq<Event>, r: nat)
    requires Sensible(c) && AllFit(c, es) && r < c.regions
    ensures Sized(c, Run(c, Init(c), es)) && Agrees(Run(c, Init(c), es), r, Observed(es, r))
    decreases |es|
  {
    if es != [] {
      var s, e := RunLast(c, es);
      CountsInvocations(c, es[..|es| - 1], r);
      hide Inv, Step;
      AgreesStep(c, s, e, r, Observed(es[..|es| - 1], r));
    }
  }

  // ---- Elapsed time, when every invocation is sampled in --------------------

  /** Counting is on whenever a region is open, now and after any exit but the last. */
  ghost predicate AlwaysOn(s: State)
    requires s.top <= |s.stack|
  {
    (0 < s.top ==> !s.disable) && forall i :: 1 <= i < s.top ==> !s.stack[i].disable
  }

  ghost predicate Timed(s: State, r: nat, w: Watch)
    requires r < |s.depth| && r < |s.timing|
  {
    s.timing[r].total == Total(w.spans) && (0 < w.depth ==> s.timing[r].start == w.since)
  }

  lemma AlwaysOnStep(c: Config, s: State, e: Event)
    requires Inv(c, s) && Fits(c, e) && c.period == 1 && AlwaysOn(s)
    ensures CanStep(c, s, e) && Inv(c, Step(c, s, e)) && AlwaysOn(Step(c, s, e))
  {
    StepKeepsInv(c, s, e);
  }

  lemma OpenIsOn(c: Config, s: State, r: nat)
    requires Inv(c, s) && AlwaysOn(s) && r < c.regions && 0 < s.depth[r]
    ensures !s.disable && 0 < s.top
  {
    OpenBound(s.depth);
  }

  lemma TimedStep(c: Config, s: State, e: Event, r: nat, w: Watch)
    requires Inv(c, s) && CanStep(c, s, e) && c.period == 1 && AlwaysOn(s)
    requires r < c.regions && Agrees(s, r, w) && Timed(s, r, w)
    ensures Sized(c, Step(c, s, e)) && Timed(Step(c, s, e), r, Observe(w, e, r))
  {
    if 0 < s.depth[r] {
      OpenIsOn(c, s, r);
    }
    hide Inv, AlwaysOn;
    var v := Observe(w, e, r);
    if v.spans != w.spans {
      assert v.spans[..|v.spans| - 1] == w.spans;
    }
  }

  lemma {:induction false} TimeIsSpans(c: Config, es: seq<Event>, r: nat)
    requires Sensible(c) && AllFit(c, es) && r < c.regions && c.period == 1
    ensures var s := Run(c, Init(c), es); s.top <= |s.stack| && AlwaysOn(s)
    ensures Sized(c, Run(c, Init(c), es)) && Timed(Run(c, Init(c), es), r, Observed(es, r))
    decreases |es|
  {
    if es != [] {
      var s, e := RunLast(c, es);
      TimeIsSpans(c, es[..|es| - 1], r);
      CountsInvocations(c, es[..|es| - 1], r);
      hide Inv, Step, AlwaysOn, Timed, Agrees;
      StepSized(c, s);
      AlwaysOnStep(c, s, e);
      StepSized(c, Step(c, s, e));
      TimedStep(c, s, e, r, Observed(es[..|es| - 1], r));
    }
  }

  lemma StepSized(c: Config, s: State)
    requires Inv(c, s)
    ensures Sized(c, s) && s.top <= |s.stack|
  {
  }

  /** Time never runs backwards between the timed events, all of which lie in `[lo, hi]`. */
  ghost predicate Clocked(es: seq<Event>, lo: int, hi: int) {
    if es == [] then lo <= hi
    else
      var e, n := es[|es| - 1], |es| - 1;
      if e.Start? || e.End? then e.now <= hi && Clocked(es[..n], lo, e.now) else Clocked(es[..n], lo, hi)
  }

  /** The spans follow one another without overlap, after `lo` and before `hi`. */
  ghost predicate Apart(spans: seq<(int, int)>, lo: int, hi: int) {
    if spans == [] then lo <= hi
    else
      var p := spans[|spans| - 1];
      p.0 <= p.1 <= hi && Apart(spans[..|spans| - 1], lo, p.0)
  }

  lemma {:induction false} ApartBound(spans: seq<(int, int)>, lo: int, hi: int)
    requires Apart(spans, lo, hi)
    ensures 0 <= Total(spans) <= hi - lo
  {
    if spans != [] {
      ApartBound(spans[..|spans| - 1], lo, spans[|spans| - 1].0);
    }
  }

  lemma {:induction false} ApartLater(spans: seq<(int, int)>, lo: int, hi: int, later: int)
    requires Apart(spans, lo, hi) && hi <= later
    ensures Apart(spans, lo, later)
  {
  }

  lemma {:induction false} SpansApart(es: seq<Event>, r: nat, lo: int, hi: int)
    requires Clocked(es, lo, hi)
    ensures var w := Observed(es, r);
      if w.depth == 0 then Apart(w.spans, lo, hi) else w.since <= hi && Apart(w.spans, lo, w.since)
    decreases |es|
  {
    if es != [] {
      var n := |es| - 1;
      var e := es[n];
      var mid := if e.Start? || e.End? then e.now else hi;
      SpansApart(es[..n], r, lo, mid);
      var v, w := Observed(es[..n], r), Observed(es, r);
      if v.depth == 0 {
        ApartLater(v.spans, lo, mid, hi);
      }
      if w.spans != v.spans {
        assert w.spans[..|w.spans| - 1] == v.spans;
      }
    }
  }

  /** With every invocation sampled in and a clock that does not run backwards, a region's elapsed
      time is the sum of its completed outermost intervals, which are disjoint; so it never exceeds
      the time that passed. */
  lemma TimeIsElapsed(c: Config, es: seq<Event>, r: nat, lo: int, hi: int)
    requires Sensible(c) && AllFit(c, es) && r < c.regions && c.period == 1 && Clocked(es, lo, hi)
    ensures var p, spans := Run(c, Init(c), es).timing[r], Observed(es, r).spans;
      && p.count == |spans| && p.total == Total(spans)
      && Apart(spans, lo, hi) && 0 <= p.total <= hi - lo
  {
    TimeIsSpans(c, es, r);
    CountsInvocations(c, es, r);
    SpansApart(es, r, lo, hi);
    var w := Observed(es, r);
    if w.depth != 0 {
      ApartLater(w.spans, lo, w.since, hi);
    }
    ApartBound(w.spans, lo, hi);
  }

  // ---- Sampling ------------------------------------------------------------

  /** The number of first entries into `r` that the runtime sampled in. */
  ghost function SampledIn(c: Config, es: seq<Event>, r: nat): nat
    requires Sensible(c) && AllFit(c, es) && r < c.regions
  {
    if es == [] then 0
    else
      var s, e := Run(c, Init(c), es[..|es| - 1]), es[|es| - 1];
      SampledIn(c, es[..|es| - 1], r)
      + (if e.Start? && e.region == r && s.depth[r] == 0 && Sampled(c, s.timing[r].count) then 1 else 0)
  }

  /** The first entries into the region seen so far, completed or not. */
  ghost function Invocations(w: Watch): nat {
    |w.spans| + (if w.depth > 0 then 1 else 0)
  }

  function CeilDiv(n: nat, p: nat): nat
    requires p > 0
  {
    (n + p - 1) / p
  }

  lemma CeilStep(n: nat, p: nat)
    requires p > 0
    ensures CeilDiv(n + 1, p) == CeilDiv(n, p) + (if n % p == 0 then 1 else 0)
  {
    var q, m := n / p, n % p;
    assert n == q * p + m;
    if m == 0 {
      DivUnique(n + p - 1, p, q, p - 1);
      DivUnique(n + p, p, q + 1, 0);
    } else {
      DivUnique(n + p - 1, p, q + 1, m - 1);
      DivUnique(n + p, p, q + 1, m);
    }
  }

  lemma DivUnique(x: nat, p: nat, q: nat, m: nat)
    requires p > 0 && m < p && x == q * p + m
    ensures x / p == q
  {
    var d := x / p;
    assert x == d * p + x % p;
    ProductOrder(d + 1, q, p);
    ProductOrder(q + 1, d, p);
  }

  lemma ProductOrder(a: nat, b: nat, p: nat)
    ensures a <= b ==> a * p <= b * p
  {
  }

  /** Of the first `n` invocations of a region, exactly those numbered 0, P, 2P, ... are sampled in:
      the n-th part, rounded up. */
  lemma {:induction false} SamplesOneInPeriod(c: Config, es: seq<Event>, r: nat)
    requires Sensible(c) && AllFit(c, es) && r < c.regions && c.period > 0
    ensures SampledIn(c, es, r) == CeilDiv(Invocations(Observed(es, r)), c.period)
    decreases |es|
  {
    if es == [] {
      DivUnique(c.period - 1, c.period, 0, c.period - 1);
    } else {
      var s, e := RunLast(c, es);
      var v := Observed(es[..|es| - 1], r);
      CountsInvocations(c, es[..|es| - 1], r);
      SamplesOneInPeriod(c, es[..|es| - 1], r);
      hide Inv, Step, CeilDiv, Run, Observe, Invocations, Sampled;
      SampleStep(c, s, e, r, v);
    }
  }

  lemma SampleStep(c: Config, s: State, e: Event, r: nat, v: Watch)
    requires c.period > 0 && r < |s.depth| && r < |s.timing| && Agrees(s, r, v)
    ensures CeilDiv(Invocations(Observe(v, e, r)), c.period) == CeilDiv(Invocations(v), c.period)
      + (if e.Start? && e.region == r && s.depth[r] == 0 && Sampled(c, s.timing[r].count) then 1 else 0)
  {
    hide CeilDiv;
    CeilStep(|v.spans|, c.period);
  }

  /** Exactly what time one invocation of a closed region adds.  It is the invocation's own duration
      when sampled in.  When sampled out it is nothing under a disabled caller; under an enabled one
      it runs from the start of the last sampled-in invocation, so it is the invocation's own
      duration only if that start is the present one. */
  lemma TimeOfOneInvocation(c: Config, s: State, k: Calls)
    requires Inv(c, s) && k.Call? && CallsFit(c, k) && s.depth[k.region] == 0
    ensures var r := k.region; var p, q := s.timing[r], AfterCall(c, s, k).timing[r];
      && (Sampled(c, p.count) ==> q.total - p.total == k.left - k.entered)
      && (!Sampled(c, p.count) && s.disable ==> q.total == p.total)
      && (!Sampled(c, p.count) && !s.disable ==>
            (q.total - p.total == k.left - k.entered <==> p.start == k.entered))
  {
    FreshCall(c, s, k);
    var u, r := AfterCall(c, s, k), k.region;
    assert MemoryOf(u).timing[r] == Invoked(c, EnvOf(s), s.timing[r], k.entered, k.left);
  }
}
