/** With every invocation sampled, the active row can be read off a tree of calls: it is that of the region
    last opened that was not open already.  So can whether aggregation is right all along. */
module CallTrees {
  import opened Runtime
  import opened RuntimeTraces
  import opened Aggregate
  import opened Attribution

  // ---- Steps that are right, from any state -------------------------------------------

  ghost predicate StepsFrom(c: Config, s: State, es: seq<Event>, site: seq<nat>, log: seq<Record>)
    requires Inv(c, s) && AllFit(c, es) && |site| == |es|
    decreases |es|
  {
    es == [] ||
    (StepRight(c, s, es[0], site[0], log)
     && (StepKeepsInv(c, s, es[0]);
         StepsFrom(c, Step(c, s, es[0]), es[1..], site[1..], log)))
  }

  lemma {:induction false} StepsFromAll(c: Config, s: State, es: seq<Event>, site: seq<nat>, log: seq<Record>)
    requires Inv(c, s) && AllFit(c, es) && |site| == |es|
    ensures StepsFrom(c, s, es, site, log) <==>
      forall n :: 0 <= n < |es| ==> StepRight(c, Run(c, s, es[..n]), es[n], site[n], log)
    decreases |es|
  {
    if es != [] {
      var e, rest := es[0], es[1..];
      StepKeepsInv(c, s, e);
      var t := Step(c, s, e);
      StepsFromAll(c, t, rest, site[1..], log);
      hide Inv, Step, StepRight;
      assert Run(c, s, es[..0]) == s;
      forall n | 0 <= n < |rest| ensures Run(c, s, es[..n + 1]) == Run(c, t, rest[..n]) {
        assert es[..n + 1][0] == e && es[..n + 1][1..] == rest[..n];
      }
      hide Run;
      forall n | 0 <= n < |es|
        ensures StepRight(c, Run(c, s, es[..n]), es[n], site[n], log) <==>
          if n == 0 then StepRight(c, s, e, site[0], log)
          else StepRight(c, Run(c, t, rest[..n - 1]), rest[n - 1], site[1..][n - 1], log)
      {
        assert n > 0 ==> Run(c, s, es[..n - 1 + 1]) == Run(c, t, rest[..n - 1]);
      }
    }
  }

  lemma {:induction false} StepsFromConcat(c: Config, s: State, a: seq<Event>, b: seq<Event>, x: seq<nat>, y: seq<nat>,
                                           log: seq<Record>)
    requires Inv(c, s) && AllFit(c, a) && AllFit(c, b) && |x| == |a| && |y| == |b|
    ensures AllFit(c, a + b)
    ensures StepsFrom(c, s, a + b, x + y, log) <==>
      StepsFrom(c, s, a, x, log) && StepsFrom(c, Run(c, s, a), b, y, log)
    decreases |a|
  {
    if a == [] {
      assert a + b == b && x + y == y;
    } else {
      StepKeepsInv(c, s, a[0]);
      assert (a + b)[1..] == a[1..] + b && (x + y)[1..] == x[1..] + y;
      hide Inv, Step, StepRight;
      StepsFromConcat(c, Step(c, s, a[0]), a[1..], b, x[1..], y, log);
    }
  }

  /** Events that start or end a region count nothing. */
  lemma QuietRight(c: Config, s: State, e: Event, j: nat, log: seq<Record>)
    requires Inv(c, s) && Fits(c, e) && (e.Start? || e.End?)
    ensures AllFit(c, [e]) && StepsFrom(c, s, [e], [j], log)
  {
    RunOne(c, s, e);
    assert [e][1..] == [] && [j][1..] == [];
  }

  lemma QuietThen(c: Config, s: State, e: Event, j: nat, es: seq<Event>, site: seq<nat>, log: seq<Record>)
    requires Inv(c, s) && Fits(c, e) && (e.Start? || e.End?) && AllFit(c, es) && |site| == |es|
    ensures AllFit(c, [e] + es) && CanStep(c, s, e) && Inv(c, Step(c, s, e))
    ensures StepsFrom(c, s, [e] + es, [j] + site, log) <==> StepsFrom(c, Step(c, s, e), es, site, log)
  {
    QuietRight(c, s, e, j, log);
    RunOne(c, s, e);
    hide Inv, Step, StepsFrom;
    StepsFromConcat(c, s, [e], es, [j], site, log);
  }

  // ---- The condition on a tree of calls -----------------------------------------------

  /** In row `q` the event's slot belongs to the record of its site, and to no other; and if bytes go there,
      it has one owner exactly if the site is recorded. */
  ghost predicate OwnsIn(log: seq<Record>, e: Event, j: nat, q: nat)
    requires !e.Start? && !e.End?
  {
    && (Increment(e) > 0 ==> forall k :: 0 <= k < |log| ==> (OwnsAt(log, k, q, e.slot) <==> k == j))
    && (forall f :: 0 <= f < FIELDS ==>
          Credit(e, 0, Owners(log, q, e.slot), f) == if j < |log| then Credit(e, 0, 1, f) else 0)
  }

  /** The condition, without running the calls: `cur` is the region last opened afresh (-1 for none), and
      `open` are all those that are open.  A call of an open region leaves both as they are. */
  ghost predicate Rightly(log: seq<Record>, k: Calls, site: seq<nat>, cur: int, open: set<nat>)
    requires |site| == |Events(k)|
    decreases k
  {
    match k
    case Done => true
    case Act(e, rest) =>
      && !e.Start? && !e.End? && (0 <= cur ==> OwnsIn(log, e, site[0], cur))
      && Rightly(log, rest, site[1..], cur, open)
    case Call(r, _, body, _, rest) =>
      && Rightly(log, body, site[1..1 + |Events(body)|], if r in open then cur else r, open + {r})
      && Rightly(log, rest, site[2 + |Events(body)|..], cur, open)
  }

  /** The thread counts into the row of `cur`, if there is one, and `open` are its open regions. */
  ghost predicate CountsIn(c: Config, s: State, cur: int, open: set<nat>) {
    && Inv(c, s) && OpenSet(s) == open && cur < c.regions
    && (if cur < 0 then s.disable else !s.disable && s.base == Row(c, cur))
  }

  lemma OpensRow(c: Config, s: State, r: nat, now: int, cur: int, open: set<nat>)
    requires CountsIn(c, s, cur, open) && r < c.regions && c.period == 1
    ensures CanStep(c, s, Start(r, now))
    ensures CountsIn(c, Step(c, s, Start(r, now)), if r in open then cur else r, open + {r})
  {
    StepKeepsInv(c, s, Start(r, now));
    OpenSetUpdate(s, Step(c, s, Start(r, now)), r);
    assert r in open <==> s.depth[r] > 0;
  }

  lemma SameRowAgain(c: Config, s: State, u: State, cur: int, open: set<nat>)
    requires CountsIn(c, s, cur, open) && Inv(c, u) && s.top <= |s.stack| == |u.stack| && Restored(s, u)
    ensures CountsIn(c, u, cur, open)
  {
    assert OpenSet(u) == OpenSet(s);
  }

  lemma RowAfterCall(c: Config, s: State, k: Calls, cur: int, open: set<nat>)
    requires CallsFit(c, k) && k.Call? && CountsIn(c, s, cur, open) && Inv(c, s)
    ensures CountsIn(c, AfterCall(c, s, k), cur, open)
  {
    InvProper(c, s);
    hide Step, Meaning;
    if s.depth[k.region] > 0 { OpenCall(c, s, k); } else { FreshCall(c, s, k); }
    hide Inv, Restored, CountsIn;
    SameRowAgain(c, s, AfterCall(c, s, k), cur, open);
  }

  /** One event other than a start or an end. */
  lemma ActRightIff(c: Config, s: State, e: Event, j: nat, log: seq<Record>, cur: int, open: set<nat>)
    requires CountsIn(c, s, cur, open) && Fits(c, e) && !e.Start? && !e.End?
    ensures StepRight(c, s, e, j, log) <==> (0 <= cur ==> OwnsIn(log, e, j, cur))
  {
    if 0 <= cur {
      forall q: nat ensures Counts(c, s, e, q) <==> q == cur {
        RowsApart(c.width, e.slot, q, e.slot, cur);
      }
      hide CountsIn, Counts, OwnsAt, Owners, Credit, Increment;
      RightInRow(c, s, e, j, log, cur);
    }
  }

  lemma RightInRow(c: Config, s: State, e: Event, j: nat, log: seq<Record>, cur: nat)
    requires cur < c.regions && !e.Start? && !e.End? && forall q: nat :: Counts(c, s, e, q) <==> q == cur
    ensures StepRight(c, s, e, j, log) <==> OwnsIn(log, e, j, cur)
  {
    hide Counts, OwnsAt, Owners, Credit, Increment;
    if StepRight(c, s, e, j, log) {
      forall f | 0 <= f < FIELDS
        ensures Credit(e, 0, Owners(log, cur, e.slot), f) == if j < |log| then Credit(e, 0, 1, f) else 0
      {
        assert OwnBytes(c, s, e, log, cur, f) == SiteBytes(c, s, e, j, |log|, cur, f);
      }
    }
  }

  // ---- Exactly when call trees are right -----------------------------------------------

  lemma {:induction false} TreeRightIff(c: Config, s: State, k: Calls, site: seq<nat>, log: seq<Record>, cur: int,
                                        open: set<nat>)
    requires CallsFit(c, k) && |site| == |Events(k)| && CountsIn(c, s, cur, open) && Inv(c, s) && c.period == 1
    ensures AllFit(c, Events(k))
    ensures StepsFrom(c, s, Events(k), site, log) <==> Rightly(log, k, site, cur, open)
    decreases k, 1
  {
    EventsFit(c, k);
    match k
    case Done =>
    case Act(e, rest) =>
      hide Inv, Step, CountsIn, StepRight, OwnsIn, Restored;
      EventsFit(c, rest);
      StepKeepsInv(c, s, e);
      ActRightIff(c, s, e, site[0], log, cur, open);
      ActStep(c, s, e);
      SameRowAgain(c, s, Step(c, s, e), cur, open);
      TreeRightIff(c, Step(c, s, e), rest, site[1..], log, cur, open);
      assert Events(k)[1..] == Events(rest);
    case Call(r, t0, body, t1, rest) =>
      hide *;
      CallRightIff(c, s, k, site, log, cur, open);
  }

  lemma {:induction false} CallRightIff(c: Config, s: State, k: Calls, site: seq<nat>, log: seq<Record>, cur: int,
                                        open: set<nat>)
    requires CallsFit(c, k) && k.Call? && |site| == |Events(k)| && CountsIn(c, s, cur, open) && Inv(c, s)
    requires c.period == 1
    ensures AllFit(c, Events(k))
    ensures StepsFrom(c, s, Events(k), site, log) <==> Rightly(log, k, site, cur, open)
    decreases k, 0
  {
    EventsFit(c, k);
    RightlyParts(log, k, site, cur, open);
    hide *;
    CallPlaces(c, s, k, cur, open);
    CallSteps(c, s, k, site, log);
    var n, inner := |Events(k.body)|, if k.region in open then cur else k.region;
    TreeRightIff(c, Step(c, s, Start(k.region, k.entered)), k.body, site[1..1 + n], log, inner, open + {k.region});
    TreeRightIff(c, AfterCall(c, s, k), k.rest, site[2 + n..], log, cur, open);
  }

  /** Where the thread counts in the body of a call, and after it. */
  lemma CallPlaces(c: Config, s: State, k: Calls, cur: int, open: set<nat>)
    requires CallsFit(c, k) && k.Call? && CountsIn(c, s, cur, open) && Inv(c, s) && c.period == 1
    ensures CallsFit(c, k.body) && CallsFit(c, k.rest) && AllFit(c, Events(k.body)) && AllFit(c, Events(k.rest))
    ensures CanStep(c, s, Start(k.region, k.entered))
    ensures Inv(c, Step(c, s, Start(k.region, k.entered))) && Inv(c, AfterCall(c, s, k))
    ensures CountsIn(c, Step(c, s, Start(k.region, k.entered)), if k.region in open then cur else k.region,
                     open + {k.region})
    ensures CountsIn(c, AfterCall(c, s, k), cur, open)
  {
    CallFits(c, k);
    EventsFit(c, k.body);
    EventsFit(c, k.rest);
    hide CountsIn, AfterCall, Inv, Step;
    OpensRow(c, s, k.region, k.entered, cur, open);
    StepKeepsInv(c, s, Start(k.region, k.entered));
    RowAfterCall(c, s, k, cur, open);
  }

  lemma RightlyParts(log: seq<Record>, k: Calls, site: seq<nat>, cur: int, open: set<nat>)
    requires k.Call? && |site| == |Events(k)|
    ensures |site| == |Events(k.body)| + |Events(k.rest)| + 2
    ensures Rightly(log, k, site, cur, open) <==>
      && Rightly(log, k.body, site[1..1 + |Events(k.body)|], if k.region in open then cur else k.region,
                 open + {k.region})
      && Rightly(log, k.rest, site[2 + |Events(k.body)|..], cur, open)
  {
  }

  /** The steps of a call are those of its body and of what follows. */
  lemma CallSteps(c: Config, s: State, k: Calls, site: seq<nat>, log: seq<Record>)
    requires CallsFit(c, k) && k.Call? && Inv(c, s) && |site| == |Events(k.body)| + |Events(k.rest)| + 2
    requires AllFit(c, Events(k.body)) && AllFit(c, Events(k.rest))
    requires CanStep(c, s, Start(k.region, k.entered)) && Inv(c, Step(c, s, Start(k.region, k.entered)))
    ensures AllFit(c, Events(k)) && |site| == |Events(k)|
    ensures StepsFrom(c, s, Events(k), site, log) <==>
      && StepsFrom(c, Step(c, s, Start(k.region, k.entered)), Events(k.body), site[1..1 + |Events(k.body)|], log)
      && StepsFrom(c, AfterCall(c, s, k), Events(k.rest), site[2 + |Events(k.body)|..], log)
  {
    var first, last := Start(k.region, k.entered), End(k.region, k.left);
    var body, rest, n := Events(k.body), Events(k.rest), |Events(k.body)|;
    assert Events(k) == [first] + (body + ([last] + rest));
    var s1 := Step(c, s, first);
    var t := Run(c, s1, body);
    StepKeepsInv(c, t, last);
    assert AfterCall(c, s, k) == Step(c, t, last);
    hide Events, Inv, Step, StepsFrom, AfterCall;
    QuietThen(c, t, last, site[1 + n], rest, site[2 + n..], log);
    StepsFromConcat(c, s1, body, [last] + rest, site[1..1 + n], [site[1 + n]] + site[2 + n..], log);
    QuietThen(c, s, first, site[0], body + ([last] + rest), site[1..1 + n] + ([site[1 + n]] + site[2 + n..]), log);
    assert [site[0]] + (site[1..1 + n] + ([site[1 + n]] + site[2 + n..])) == site;
  }

  /** With every invocation sampled, aggregation is right at every moment of a tree of calls, for all mixes,
      if and only if each increment's slot, in the row of the region last opened afresh, belongs to the
      record of its own site and to no other. */
  lemma AlwaysAttributedIffRightly(c: Config, k: Calls, site: seq<nat>, log: seq<Record>)
    requires Sensible(c) && c.period == 1 && CallsFit(c, k) && |site| == |Events(k)|
    requires RecordsFit(log, c.width, c.regions) && (AllDirect(log, c.regions) || NoIndirect(log))
    ensures AllFit(c, Events(k))
    ensures AlwaysAttributed(c, Events(k), site, log) <==> Rightly(log, k, site, -1, {})
  {
    NothingOpen(c);
    assert CountsIn(c, Init(c), -1, {});
    hide Inv, CountsIn, Init, StepsFrom, Rightly, AlwaysAttributed, RecordsFit, AllDirect, NoIndirect, StepRight;
    TreeRightIff(c, Init(c), k, site, log, -1, {});
    StepsFromAll(c, Init(c), Events(k), site, log);
    AlwaysAttributedIffStepsRight(c, Events(k), site, log);
  }
}
