/** Cloning of the functions called from regions, and the slots of their counters (`runOnModule`). */
module Clones {
  import opened Collections
  import opened Runtime
  import opened Aggregate

  type Fn = nat

  /** What the module holds before the pass: the call targets of every function, and the functions
      that may be cloned (those defined in the module, other than the thread exit handler). */
  datatype Program = Program(calls: map<Fn, seq<Fn>>, clonable: set<Fn>)

  ghost predicate Known(p: Program) {
    p.clonable <= p.calls.Keys
  }

  /** A call instruction: the `at`-th call of function `fn`. */
  datatype Site = Site(fn: Fn, at: nat)

  /** How many counters a region or the clone of a function is given, and the mix of each; the region's
      group id; and the name of the function a region or clone is in. */
  datatype Needs = Needs(
    region: nat -> nat,
    clone: Fn -> nat,
    mix: (bool, nat, nat) -> Mix,
    group: nat -> nat,
    name: (bool, nat) -> string)

  function Larger(a: nat, b: nat): nat {
    if a > b then a else b
  }

  /** The records of the first `n` counters of region `r`: slots 0, 1, 2, ... of its row. */
  function RegionRecords(needs: Needs, r: nat, n: nat): (l: seq<Record>)
    ensures |l| == n
  {
    seq<Record>(n, i requires 0 <= i < n =>
      Record(needs.name(false, r), Profile(i, r, needs.group(r), false, needs.mix(false, r, i), 0)))
  }

  /** The records of the first `n` counters of the clone of `k`: the slots from `base` on. */
  function CloneRecords(needs: Needs, k: Fn, base: nat, n: nat): (l: seq<Record>)
    ensures |l| == n
  {
    seq<Record>(n, i requires 0 <= i < n =>
      Record(needs.name(true, k), Profile(base + i, 0, 0, true, needs.mix(true, k, i), 0)))
  }

  ghost predicate IsSite(calls: map<Fn, seq<Fn>>, x: Site) {
    x.fn in calls && x.at < |calls[x.fn]|
  }

  /** Every call of the function that could go to a clone does. */
  ghost predicate Redirected(p: Program, targets: seq<Fn>) {
    forall f :: f in targets ==> f !in p.clonable
  }

  /** The state of cloning. */
  datatype Module = Module(
    calls: map<Fn, seq<Fn>>,   // call targets, of originals and clones
    cloneOf: map<Fn, Fn>,      // CloneFunctionMap
    origin: map<Fn, Fn>,       // the clones, each with the function it was made from
    pending: seq<Fn>,          // PendingFunctionClones
    next: Fn                   // a name not in use
  ) {
    function Origin(f: Fn): Fn {
      OriginIn(origin, f)
    }
  }

  function OriginIn(origin: map<Fn, Fn>, f: Fn): Fn {
    if f in origin then origin[f] else f
  }

  /** Clones and originals are apart, each original has at most one clone, and every call goes where
      it went before the pass, up to cloning. */
  ghost predicate Consistent(p: Program, m: Module) {
    && Known(p) && Names(p, m)
    && forall f :: f in m.calls ==> FollowsOrigin(p, m.calls, m.origin, f)
  }

  ghost predicate Names(p: Program, m: Module) {
    && (forall f :: f in m.calls <==> f in p.calls || f in m.origin)
    && (forall f :: f in m.origin ==>
          f !in p.calls && f < m.next && m.origin[f] in m.cloneOf && m.cloneOf[m.origin[f]] == f)
    && (forall k :: k in m.cloneOf ==> k in p.clonable && m.cloneOf[k] in m.origin && m.origin[m.cloneOf[k]] == k)
    && (forall f :: f in p.calls ==> f < m.next)
    && (forall f :: f in p.calls ==> OldNames(p.calls[f], m))
  }

  ghost predicate OldNames(targets: seq<Fn>, m: Module) {
    forall g :: g in targets ==> g < m.next && g !in m.origin
  }

  /** The calls of `f` go where the calls of the function it was made from went, up to cloning. */
  ghost predicate FollowsOrigin(p: Program, calls: map<Fn, seq<Fn>>, origin: map<Fn, Fn>, f: Fn)
    requires f in calls
  {
    var o := OriginIn(origin, f);
    && o in p.calls && |calls[f]| == |p.calls[o]|
    && forall i :: 0 <= i < |calls[f]| ==> OriginIn(origin, calls[f][i]) == p.calls[o][i]
  }

  /** Clones that are not pending have been instrumented, with all their calls redirected. */
  ghost predicate Progress(p: Program, m: Module) {
    && NoDup(m.pending)
    && (forall k :: k in m.pending ==> k in m.cloneOf)
    && (forall k :: k in m.cloneOf && k !in m.pending && m.cloneOf[k] in m.calls ==>
          Redirected(p, m.calls[m.cloneOf[k]]))
  }

  /** What later steps leave alone: calls outside the given sites and outside clones, and clones. */
  ghost predicate Extends(p: Program, m: Module, n: Module) {
    && (forall k :: k in m.cloneOf ==> k in n.cloneOf && n.cloneOf[k] == m.cloneOf[k])
    && (forall f :: f in m.origin ==> f in n.origin && n.origin[f] == m.origin[f])
    && (forall f :: f in m.calls ==> f in n.calls && |n.calls[f]| == |m.calls[f]|)
    && m.next <= n.next
    && m.pending <= n.pending && (forall k :: k in n.pending[|m.pending|..] ==> k !in m.cloneOf)
    && (forall k :: k in n.cloneOf ==> k in m.cloneOf || k in n.pending)
  }

  /** The calls of every function but `g` are untouched. */
  ghost predicate OnlyIn(m: Module, n: Module, g: Fn) {
    forall f :: f in m.calls && f != g ==> f in n.calls && n.calls[f] == m.calls[f]
  }

  // ---- processFunctionClone ------------------------------------------------

  /** The module with a clone of `f` added and marked to be instrumented. */
  function WithClone(m: Module, f: Fn): Module
    requires f in m.calls
  {
    Module(m.calls[m.next := m.calls[f]], m.cloneOf[f := m.next], m.origin[m.next := f], m.pending + [f], m.next + 1)
  }

  lemma WithCloneNames(p: Program, m: Module, f: Fn)
    requires Known(p) && Names(p, m) && f in p.clonable && f !in m.cloneOf
    ensures f in m.calls && f !in m.origin && m.next !in m.calls && Names(p, WithClone(m, f))
  {
    OldNamesKept(p, m, f);
    hide OldNames;
  }

  lemma OldNamesKept(p: Program, m: Module, f: Fn)
    requires f in m.calls && forall g :: g in p.calls ==> OldNames(p.calls[g], m)
    ensures forall g :: g in p.calls ==> OldNames(p.calls[g], WithClone(m, f))
  {
    forall g | g in p.calls ensures OldNames(p.calls[g], WithClone(m, f)) {
      assert OldNames(p.calls[g], m);
    }
  }

  lemma WithCloneFollows(p: Program, m: Module, f: Fn, g: Fn)
    requires Consistent(p, m) && f in p.clonable && f !in m.cloneOf && f in m.calls && g in WithClone(m, f).calls
    requires f !in m.origin && m.next !in m.calls
    ensures FollowsOrigin(p, WithClone(m, f).calls, WithClone(m, f).origin, g)
  {
    var h := if g == m.next then f else g;
    forall i | 0 <= i < |m.calls[h]| ensures m.calls[h][i] < m.next {
      NameInUse(p, m, h, i);
    }
    FollowsWithClone(p, m, f, g, h);
  }

  lemma FollowsWithClone(p: Program, m: Module, f: Fn, g: Fn, h: Fn)
    requires f in m.calls && f !in m.origin && m.next !in m.calls && m.next !in m.origin && h in m.calls
    requires FollowsOrigin(p, m.calls, m.origin, h) && forall i :: 0 <= i < |m.calls[h]| ==> m.calls[h][i] < m.next
    requires g == h || (g == m.next && h == f)
    ensures FollowsOrigin(p, WithClone(m, f).calls, WithClone(m, f).origin, g)
  {
    var n := WithClone(m, f);
    assert n.calls[g] == m.calls[h] && OriginIn(n.origin, g) == OriginIn(m.origin, h);
    forall i | 0 <= i < |m.calls[h]|
      ensures OriginIn(n.origin, n.calls[g][i]) == OriginIn(m.origin, m.calls[h][i])
    {
    }
  }

  lemma WithCloneConsistent(p: Program, m: Module, f: Fn)
    requires Consistent(p, m) && f in p.clonable && f !in m.cloneOf
    ensures f in m.calls && Consistent(p, WithClone(m, f))
  {
    WithCloneNames(p, m, f);
    hide Names, FollowsOrigin;
    forall g | g in WithClone(m, f).calls ensures FollowsOrigin(p, WithClone(m, f).calls, WithClone(m, f).origin, g) {
      WithCloneFollows(p, m, f, g);
    }
  }

  /** Every call target is a name in use. */
  lemma NameInUse(p: Program, m: Module, f: Fn, i: nat)
    requires Consistent(p, m) && f in m.calls && i < |m.calls[f]|
    ensures m.calls[f][i] < m.next
  {
    assert FollowsOrigin(p, m.calls, m.origin, f);
    var t := m.calls[f][i];
    if t !in m.origin {
      assert p.calls[m.Origin(f)][i] in p.calls[m.Origin(f)];
    }
  }

  lemma WithCloneProgress(p: Program, m: Module, f: Fn)
    requires Consistent(p, m) && Progress(p, m) && f in p.clonable && f !in m.cloneOf
    ensures f in m.calls && Progress(p, WithClone(m, f)) && Extends(p, m, WithClone(m, f))
  {
    WithCloneNames(p, m, f);
    WithCloneExtends(p, m, f);
    forall k | k in m.cloneOf ensures m.cloneOf[k] in m.calls {
      CloneCalls(p, m, k);
    }
    WithClonePending(p, m, f);
  }

  lemma WithClonePending(p: Program, m: Module, f: Fn)
    requires Progress(p, m) && f in m.calls && f !in m.cloneOf && m.next !in m.calls
    requires forall k :: k in m.cloneOf ==> m.cloneOf[k] in m.calls
    ensures Progress(p, WithClone(m, f))
  {
    hide Redirected;
    forall k ensures k in WithClone(m, f).pending <==> k in m.pending || k == f {
      InAppended(m.pending, f, k);
    }
  }

  lemma WithCloneExtends(p: Program, m: Module, f: Fn)
    requires f in m.calls && f !in m.cloneOf && m.next !in m.calls && m.next !in m.origin
    ensures Extends(p, m, WithClone(m, f))
  {
    assert WithClone(m, f).pending[|m.pending|..] == [f];
    InAppended(m.pending, f, f);
  }

  lemma InAppended(l: seq<Fn>, f: Fn, k: Fn)
    ensures k in l + [f] <==> k in l || k == f
  {
  }

  // ---- processCallInst -----------------------------------------------------

  /** The call at `x` now goes to `t`. */
  function Retarget(m: Module, x: Site, t: Fn): Module
    requires x.fn in m.calls && x.at < |m.calls[x.fn]|
  {
    var targets: seq<Fn> := m.calls[x.fn];
    var redirected: seq<Fn> := targets[x.at := t];
    m.(calls := m.calls[x.fn := redirected])
  }

  lemma RetargetConsistent(p: Program, m: Module, x: Site, t: Fn)
    requires Consistent(p, m) && IsSite(m.calls, x) && m.Origin(t) == m.Origin(m.calls[x.fn][x.at])
    ensures Consistent(p, Retarget(m, x, t))
  {
    var n := Retarget(m, x, t);
    forall f | f in n.calls ensures FollowsOrigin(p, n.calls, n.origin, f) {
      RetargetFollows(p, m, x, t, f);
    }
    hide FollowsOrigin;
  }

  lemma RetargetFollows(p: Program, m: Module, x: Site, t: Fn, f: Fn)
    requires IsSite(m.calls, x) && m.Origin(t) == m.Origin(m.calls[x.fn][x.at])
    requires f in m.calls && FollowsOrigin(p, m.calls, m.origin, f)
    ensures FollowsOrigin(p, Retarget(m, x, t).calls, Retarget(m, x, t).origin, f)
  {
    var n := Retarget(m, x, t);
    forall i | 0 <= i < |n.calls[f]| ensures n.Origin(n.calls[f][i]) == p.calls[n.Origin(f)][i] {
      assert m.Origin(m.calls[f][i]) == p.calls[m.Origin(f)][i];
    }
  }

  lemma RetargetProgress(p: Program, m: Module, x: Site, t: Fn)
    requires Progress(p, m) && IsSite(m.calls, x) && t !in p.clonable
    ensures Progress(p, Retarget(m, x, t)) && Extends(p, m, Retarget(m, x, t)) && OnlyIn(m, Retarget(m, x, t), x.fn)
  {
  }

  // ---- Which functions are cloned -------------------------------------------

  /** The functions among `targets` that can be cloned and are not known, in order and each once. */
  ghost function New(p: Program, known: set<Fn>, targets: seq<Fn>): seq<Fn> {
    if targets == [] then []
    else
      var l, t := New(p, known, targets[..|targets| - 1]), targets[|targets| - 1];
      if t in p.clonable && t !in known && t !in l then l + [t] else l
  }

  /** Between `m` and `n` exactly the functions of `l` were cloned, in that order. */
  ghost predicate Grown(m: Module, n: Module, l: seq<Fn>) {
    n.pending == m.pending + l && forall k :: k in n.cloneOf <==> k in m.cloneOf || k in l
  }

  lemma {:induction false} NewMembers(p: Program, known: set<Fn>, targets: seq<Fn>)
    ensures forall k :: k in New(p, known, targets) <==> k in targets && k in p.clonable && k !in known
  {
    if targets != [] {
      var front, t := targets[..|targets| - 1], targets[|targets| - 1];
      assert targets == front + [t];
      NewMembers(p, known, front);
    }
  }

  lemma NewOne(p: Program, known: set<Fn>, t: Fn)
    ensures New(p, known, [t]) == if t in p.clonable && t !in known then [t] else []
  {
    assert [t][..0] == [];
  }

  lemma GrownStep(p: Program, a: Module, b: Module, n: Module, targets: seq<Fn>, t: Fn)
    requires Grown(a, b, New(p, a.cloneOf.Keys, targets)) && Grown(b, n, New(p, b.cloneOf.Keys, [t]))
    ensures Grown(a, n, New(p, a.cloneOf.Keys, targets + [t]))
  {
    var l, m := New(p, a.cloneOf.Keys, targets), New(p, b.cloneOf.Keys, [t]);
    NewOne(p, b.cloneOf.Keys, t);
    assert (targets + [t])[..|targets|] == targets;
    assert New(p, a.cloneOf.Keys, targets + [t]) == l + m;
    assert a.pending + l + m == a.pending + (l + m);
  }

  /** A call that no longer goes where it went before the pass goes to the clone made of that function. */
  lemma TargetNow(p: Program, m: Module, x: Site)
    requires Consistent(p, m) && IsSite(m.calls, x)
    ensures var y := Site(m.Origin(x.fn), x.at);
      && IsSite(p.calls, y)
      && New(p, m.cloneOf.Keys, [m.calls[x.fn][x.at]]) == New(p, m.cloneOf.Keys, [p.calls[y.fn][y.at]])
  {
    assert FollowsOrigin(p, m.calls, m.origin, x.fn);
    var t, o := m.calls[x.fn][x.at], m.Origin(x.fn);
    NewOne(p, m.cloneOf.Keys, t);
    NewOne(p, m.cloneOf.Keys, p.calls[o][x.at]);
    assert t in m.origin ==> t !in p.clonable && m.origin[t] in m.cloneOf;
  }

  /** Where the given calls went before the pass. */
  ghost function Targets(p: Program, sites: seq<Site>): seq<Fn> {
    if sites == [] then []
    else
      var x := sites[|sites| - 1];
      Targets(p, sites[..|sites| - 1]) + if IsSite(p.calls, x) then [p.calls[x.fn][x.at]] else []
  }

  lemma {:induction false} TargetsMembers(p: Program, sites: seq<Site>)
    ensures forall k ::
      k in Targets(p, sites) <==> exists x :: x in sites && IsSite(p.calls, x) && p.calls[x.fn][x.at] == k
  {
    if sites != [] {
      var front, x := sites[..|sites| - 1], sites[|sites| - 1];
      assert sites == front + [x];
      TargetsMembers(p, front);
      forall k | k in Targets(p, sites)
        ensures exists x :: x in sites && IsSite(p.calls, x) && p.calls[x.fn][x.at] == k
      {
        if k in Targets(p, front) {
          var y :| y in front && IsSite(p.calls, y) && p.calls[y.fn][y.at] == k;
          assert y in sites;
        } else {
          assert x in sites;
        }
      }
    }
  }

  /** The functions met by following calls first in, first out, from the targets `ts`, once the calls of the first
      `n` of them have been followed. */
  ghost function Queue(p: Program, ts: seq<Fn>, n: nat): seq<Fn> {
    if n == 0 then New(p, {}, ts)
    else
      var q := Queue(p, ts, n - 1);
      if n <= |q| && q[n - 1] in p.calls then q + New(p, Members(q), p.calls[q[n - 1]]) else q
  }

  ghost function Members(l: seq<Fn>): set<Fn> {
    set k | k in l
  }

  /** Each function of the path can be cloned and calls the next; the first is called at a site. */
  ghost predicate CallPath(p: Program, sites: seq<Site>, path: seq<Fn>) {
    && path != [] && (forall i :: 0 <= i < |path| ==> path[i] in p.clonable)
    && (exists x :: x in sites && IsSite(p.calls, x) && p.calls[x.fn][x.at] == path[0])
    && (forall i :: 0 <= i < |path| - 1 ==> Calls(p, path[i], path[i + 1]))
  }

  ghost predicate Calls(p: Program, f: Fn, g: Fn) {
    f in p.calls && g in p.calls[f]
  }

  /** Calls lead to `k` from a site, through functions that can be cloned. */
  ghost predicate Reached(p: Program, sites: seq<Site>, k: Fn) {
    exists path :: CallPath(p, sites, path) && path[|path| - 1] == k
  }

  lemma ReachedOn(p: Program, sites: seq<Site>, f: Fn, k: Fn)
    requires Reached(p, sites, f) && Calls(p, f, k) && k in p.clonable
    ensures Reached(p, sites, k)
  {
    var path :| CallPath(p, sites, path) && path[|path| - 1] == f;
    var w := path + [k];
    forall i | 0 <= i < |w| - 1 ensures Calls(p, w[i], w[i + 1]) {
      if i + 1 < |path| { assert Calls(p, path[i], path[i + 1]); }
    }
    assert CallPath(p, sites, w) && w[|w| - 1] == k;
  }

  lemma ReachedAtSite(p: Program, sites: seq<Site>, k: Fn)
    requires k in Targets(p, sites) && k in p.clonable
    ensures Reached(p, sites, k)
  {
    TargetsMembers(p, sites);
    assert CallPath(p, sites, [k]) && [k][0] == k;
  }

  lemma {:induction false} QueueReached(p: Program, sites: seq<Site>, n: nat)
    ensures forall k :: k in Queue(p, Targets(p, sites), n) ==> Reached(p, sites, k)
  {
    var ts := Targets(p, sites);
    if n == 0 {
      NewMembers(p, {}, ts);
      forall k | k in New(p, {}, ts) ensures Reached(p, sites, k) { ReachedAtSite(p, sites, k); }
    } else {
      QueueReached(p, sites, n - 1);
      var q := Queue(p, ts, n - 1);
      if n <= |q| && q[n - 1] in p.calls {
        var f, l := q[n - 1], New(p, Members(q), p.calls[q[n - 1]]);
        assert f in q;
        NewMembers(p, Members(q), p.calls[f]);
        forall k | k in l ensures Reached(p, sites, k) { ReachedOn(p, sites, f, k); }
      }
    }
  }

  lemma {:induction false} QueueGrows(p: Program, ts: seq<Fn>, i: nat, n: nat)
    requires i <= n
    ensures Queue(p, ts, i) <= Queue(p, ts, n)
  {
    if i < n { QueueGrows(p, ts, i, n - 1); }
  }

  /** Once the calls of all functions met have been followed, every function that calls lead to has been met. */
  lemma {:induction false} QueueHasAll(p: Program, sites: seq<Site>, n: nat, path: seq<Fn>)
    requires Known(p) && |Queue(p, Targets(p, sites), n)| == n && CallPath(p, sites, path)
    ensures path[|path| - 1] in Queue(p, Targets(p, sites), n)
  {
    var ts, k := Targets(p, sites), path[|path| - 1];
    if |path| == 1 {
      TargetsMembers(p, sites);
      NewMembers(p, {}, ts);
      QueueGrows(p, ts, 0, n);
      assert k in Queue(p, ts, 0);
    } else {
      var front, f := path[..|path| - 1], path[|path| - 2];
      forall i | 0 <= i < |front| - 1 ensures Calls(p, front[i], front[i + 1]) {
        assert Calls(p, path[i], path[i + 1]);
      }
      QueueHasAll(p, sites, n, front);
      assert Calls(p, f, k);
      var j: nat :| j < n && Queue(p, ts, n)[j] == f;
      FollowedAt(p, ts, n, j, k);
    }
  }

  lemma FollowedAt(p: Program, ts: seq<Fn>, n: nat, j: nat, k: Fn)
    requires j < n == |Queue(p, ts, n)| && Calls(p, Queue(p, ts, n)[j], k) && k in p.clonable
    ensures k in Queue(p, ts, n)
  {
    var q := Queue(p, ts, j);
    QueueGrows(p, ts, j, n);
    QueueGrows(p, ts, j + 1, n);
    QueueAhead(p, ts, n, j);
    NewMembers(p, Members(q), p.calls[q[j]]);
    assert k in Queue(p, ts, j + 1);
  }

  /** A queue that has more than `j` functions in the end has had as many when the next was followed. */
  lemma {:induction false} QueueAhead(p: Program, ts: seq<Fn>, n: nat, j: nat)
    requires j < n && j < |Queue(p, ts, n)|
    ensures j < |Queue(p, ts, j)|
  {
    if |Queue(p, ts, j)| <= j { QueueStuck(p, ts, j, n); }
  }

  lemma {:induction false} QueueStuck(p: Program, ts: seq<Fn>, j: nat, n: nat)
    requires j <= n && |Queue(p, ts, j)| <= j
    ensures Queue(p, ts, n) == Queue(p, ts, j)
  {
    if j < n { QueueStuck(p, ts, j, n - 1); }
  }

  /** Following the calls of the function at the front. */
  lemma QueueStep(p: Program, ts: seq<Fn>, done: seq<Fn>, a: Module, b: Module, k: Fn)
    requires done + a.pending == Queue(p, ts, |done|) && a.pending != [] && a.pending[0] == k && k in p.calls
    requires forall f :: f in a.cloneOf <==> f in done || f in a.pending
    requires b.pending == a.pending[1..] + New(p, a.cloneOf.Keys, p.calls[k])
    ensures done + [k] + b.pending == Queue(p, ts, |done + [k]|)
  {
    var q := done + a.pending;
    assert q[|done|] == k;
    assert Members(q) == a.cloneOf.Keys;
    assert done + [k] + b.pending == q + New(p, a.cloneOf.Keys, p.calls[k]);
  }

  // ---- The pass ------------------------------------------------------------

  class ModulePass {
    const p: Program
    const needs: Needs
    var m: Module
    var log: seq<Record>       // the profile records, in the order written
    var eventMax: nat          // RegionCounterEventMax
    var offset: nat            // IndirectFunctionCounterOffset
    ghost var done: seq<Fn>    // the functions whose clones have been instrumented, in order

    ghost predicate Valid()
      reads this
    {
      Consistent(p, m) && Progress(p, m)
    }

    constructor (p: Program, needs: Needs, next: Fn)
      requires Known(p) && (forall f :: f in p.calls ==> f < next)
      requires forall f, g :: f in p.calls && g in p.calls[f] ==> g < next
      ensures Valid() && this.p == p && this.needs == needs && m == Module(p.calls, map[], map[], [], next)
      ensures log == [] && eventMax == 0 && done == []
    {
      this.p, this.needs := p, needs;
      m := Module(p.calls, map[], map[], [], next);
      log, eventMax, offset, done := [], 0, 0, [];
    }

    /** The clone of a function: the one made before, or a new one. */
    method ProcessFunctionClone(f: Fn) returns (t: Fn)
      requires Valid() && f in p.clonable
      modifies this`m
      ensures Valid() && Extends(p, old(m), m) && f in m.cloneOf && t == m.cloneOf[f]
      ensures forall g :: g in old(m).calls ==> g in m.calls && m.calls[g] == old(m).calls[g]
      ensures f in old(m).cloneOf ==> m == old(m)
      ensures Grown(old(m), m, if f in old(m).cloneOf then [] else [f])
    {
      hide FollowsOrigin, OldNames, Redirected, Extends, Progress, Grown;
      if f in m.cloneOf {
        NothingDone(p, m, f);
        NothingGrown(p, m);
        t := m.cloneOf[f];
      } else {
        WithCloneConsistent(p, m, f);
        WithCloneProgress(p, m, f);
        WithCloneGrown(m, f);
        assert m.next !in m.calls by { WithCloneNames(p, m, f); }
        t := m.next;
        m := WithClone(m, f);
      }
    }

    /** Sends a call that could go to a clone to that clone; leaves any other call alone. */
    method ProcessCallInst(x: Site)
      requires Valid() && IsSite(m.calls, x)
      modifies this`m
      ensures Valid() && Extends(p, old(m), m) && OnlyIn(old(m), m, x.fn)
      ensures IsSite(m.calls, x) && m.calls[x.fn][x.at] !in p.clonable
      ensures forall i :: 0 <= i < |m.calls[x.fn]| && i != x.at ==> m.calls[x.fn][i] == old(m).calls[x.fn][i]
      // The one function that may have been cloned is the one called here before the pass.
      ensures var y := Site(old(m).Origin(x.fn), x.at);
        IsSite(p.calls, y) && Grown(old(m), m, New(p, old(m).cloneOf.Keys, [p.calls[y.fn][y.at]]))
    {
      hide Consistent, Progress, Extends, OnlyIn;
      TargetNow(p, m, x);
      NewOne(p, m.cloneOf.Keys, m.calls[x.fn][x.at]);
      var f := m.calls[x.fn][x.at];
      if f in p.clonable {
        ghost var a := m;
        var t := ProcessFunctionClone(f);
        RedirectCall(p, a, m, x, f);
        m := Retarget(m, x, t);
      } else {
        NothingDone(p, m, x.fn);
      }
    }

    /** Sends the calls made inside regions to clones. */
    method CloneRegionCalls(sites: seq<Site>)
      requires Valid() && forall x :: x in sites ==> IsSite(m.calls, x)
      modifies this`m
      ensures Valid() && Extends(p, old(m), m) && SitesRedirected(p, m, sites) && OnlyAt(old(m), m, sites)
      ensures InOriginals(p, sites) ==> Grown(old(m), m, New(p, old(m).cloneOf.Keys, Targets(p, sites)))
    {
      hide Consistent, Progress, Extends, Grown, New;
      NothingGrown(p, m);
      assert sites[..0] == [];
      NothingDone(p, m, 0);
      var n := 0;
      while n < |sites|
        invariant 0 <= n <= |sites| && Valid() && Extends(p, old(m), m)
        invariant SitesRedirected(p, m, sites[..n]) && OnlyAt(old(m), m, sites[..n])
        invariant InOriginals(p, sites) ==> Grown(old(m), m, New(p, old(m).cloneOf.Keys, Targets(p, sites[..n])))
      {
        ghost var a := m;
        ExtendsSites(p, old(m), m, sites[n]);
        ProcessCallInst(sites[n]);
        ExtendsTransitive(p, old(m), a, m);
        ExtendsCalls(p, a, m, sites[n].fn);
        SitesStep(p, old(m), a, m, sites, n);
        if InOriginals(p, sites) {
          SiteGrown(p, old(m), a, m, sites, n);
        }
        n := n + 1;
      }
      assert sites[..n] == sites;
    }

    /** Instruments one region: its counters take slots 0, 1, 2, ... of its row. */
    method InstrumentRegion(r: nat)
      modifies this`log, this`eventMax
      ensures log == old(log) + RegionRecords(needs, r, needs.region(r))
      ensures eventMax == Larger(needs.region(r), old(eventMax))
    {
      var total := 0;
      while total < needs.region(r)
        invariant 0 <= total <= needs.region(r) && eventMax == old(eventMax)
        invariant log == old(log) + RegionRecords(needs, r, total)
      {
        var name, mix := needs.name(false, r), needs.mix(false, r, total);
        log := log + [Record(name, Profile(total, r, needs.group(r), false, mix, 0))];
        assert RegionRecords(needs, r, total + 1) == RegionRecords(needs, r, total) + [log[|log| - 1]];
        total := total + 1;
      }
      if total > eventMax {
        eventMax := total;
      }
    }

    /** Instruments the clone of `k`: its counters take the slots above all used so far, and its calls
        are sent to clones. */
    method InstrumentClone(k: Fn)
      requires Valid() && k in m.cloneOf && k in m.pending
      modifies this`m, this`log, this`offset
      ensures Valid() && Extends(p, old(m), m) && k in m.cloneOf && k in m.pending
      ensures m.cloneOf[k] == old(m).cloneOf[k]
      ensures m.cloneOf[k] in old(m).calls && OnlyIn(old(m), m, m.cloneOf[k])
      ensures m.cloneOf[k] in m.calls && Redirected(p, m.calls[m.cloneOf[k]])
      ensures log == old(log) + CloneRecords(needs, k, eventMax, needs.clone(k)) && offset == eventMax + needs.clone(k)
      ensures k in p.calls && Grown(old(m), m, New(p, old(m).cloneOf.Keys, p.calls[k]))
    {
      hide Consistent, Progress, Extends, Grown, New;
      CloneFollows(p, m, k);
      NothingGrown(p, m);
      offset := eventMax;
      GiveSlots(k);
      var c := m.cloneOf[k];
      CloneCalls(p, m, k);
      var i := 0;
      NothingDone(p, m, c);
      ghost var l, o := log, offset;
      while i < |m.calls[c]|
        invariant log == l && offset == o
        invariant Valid() && Extends(p, old(m), m) && OnlyIn(old(m), m, c) && c in m.calls && c in old(m).calls
        invariant 0 <= i <= |m.calls[c]| == |old(m).calls[c]|
        invariant forall n :: 0 <= n < i ==> m.calls[c][n] !in p.clonable
        invariant Grown(old(m), m, New(p, old(m).cloneOf.Keys, p.calls[k][..i]))
      {
        ghost var a := m;
        ExtendsOrigin(p, old(m), m, c);
        ProcessCallInst(Site(c, i));
        GrownStep(p, old(m), a, m, p.calls[k][..i], p.calls[k][i]);
        assert p.calls[k][..i + 1] == p.calls[k][..i] + [p.calls[k][i]];
        ExtendsTransitive(p, old(m), a, m);
        ExtendsCalls(p, a, m, c);
        i := i + 1;
      }
      assert p.calls[k][..i] == p.calls[k];
      ExtendsKeeps(p, old(m), m, k);
    }

    method GiveSlots(k: Fn)
      requires offset == eventMax
      modifies this`log, this`offset
      ensures log == old(log) + CloneRecords(needs, k, eventMax, needs.clone(k)) && offset == eventMax + needs.clone(k)
    {
      var n := 0;
      while n < needs.clone(k)
        invariant 0 <= n <= needs.clone(k) && offset == eventMax + n
        invariant log == old(log) + CloneRecords(needs, k, eventMax, n)
      {
        log := log + [Record(needs.name(true, k), Profile(offset, 0, 0, true, needs.mix(true, k, n), 0))];
        assert CloneRecords(needs, k, eventMax, n + 1) == CloneRecords(needs, k, eventMax, n) + [log[|log| - 1]];
        offset := offset + 1;
        n := n + 1;
      }
    }

    /** Every cloned function is either pending or has been instrumented, once. */
    ghost predicate Tracked()
      reads this
    {
      && NoDup(done)
      && (forall k :: k in done ==> k in m.cloneOf && k !in m.pending)
      && (forall k :: k in m.cloneOf ==> k in done || k in m.pending)
    }

    /** One turn of the worklist: instruments the clone at the front and takes it off the list. */
    method NextClone(k: Fn, maxIndirect: nat) returns (max: nat)
      requires Valid() && Tracked() && m.pending != [] && m.pending[0] == k && maxIndirect <= eventMax
      modifies this
      ensures Valid() && Tracked() && max <= eventMax && done == old(done) + [k]
      ensures SameOriginals(p, old(m), m) && old(m).cloneOf.Keys <= m.cloneOf.Keys
      ensures old(m).pending[1..] <= m.pending
      ensures forall f :: f in m.pending[|old(m).pending| - 1..] ==> f !in old(m).cloneOf
      ensures k in p.calls && m.pending == old(m).pending[1..] + New(p, old(m).cloneOf.Keys, p.calls[k])
      ensures log == old(log) + CloneRecords(needs, k, old(eventMax), needs.clone(k))
      ensures eventMax == old(eventMax) + needs.clone(k)
    {
      hide Consistent, Progress, Extends, OnlyIn, NoDup, New, Grown, SameOriginals, Redirected, CloneRecords;
      ghost var a := m;
      FrontFacts(p, a);
      InstrumentClone(k);
      ghost var b := m;
      max := maxIndirect;
      m := m.(pending := m.pending[1..]);
      PopFront(p, a, b, k);
      if offset > max {
        max := offset;
        if max > eventMax {
          eventMax := max;
        }
      }
      done := done + [k];
      PendingAfter(a, b, k, New(p, a.cloneOf.Keys, p.calls[k]));
      TrackedStep(p, a, b, old(done), k);
    }

    lemma TrackedKeys()
      requires Valid() && Tracked()
      ensures forall k :: k in m.cloneOf <==> k in done || k in m.pending
    {
    }

    /** Since the log was `l`, with slots used up to `from`, exactly the instrumented clones have been
        given counters, one after the other. */
    ghost predicate Handed(l: seq<Record>, from: nat)
      reads this
    {
      log == l + CloneLog(needs, done, from) && eventMax == from + SumNeeds(needs, done)
    }

    /** The clones made so far, instrumented or pending, are those met from `ts`, in order. */
    ghost predicate Queued(ts: seq<Fn>)
      reads this
    {
      done + m.pending == Queue(p, ts, |done|)
    }

    /** One pass over the clones pending at its start. */
    method DrainOnce(maxIndirect: nat, ghost l: seq<Record>, ghost from: nat, ghost ts: seq<Fn>) returns (max: nat)
      requires Valid() && Tracked() && Handed(l, from) && Queued(ts) && maxIndirect <= eventMax
      modifies this
      ensures Valid() && Tracked() && Handed(l, from) && Queued(ts) && max <= eventMax
      ensures SameOriginals(p, old(m), m) && old(m).cloneOf.Keys <= m.cloneOf.Keys
      ensures forall f :: f in m.pending ==> f !in old(m).cloneOf
    {
      hide Consistent, Progress, SameOriginals, Tracked, CloneLog, SumNeeds, Queue, New;
      max := maxIndirect;
      SameSelf(p, m);
      var keys := m.pending;
      var n := 0;
      while n < |keys|
        invariant 0 <= n <= |keys| && Valid() && Tracked() && Handed(l, from) && Queued(ts) && max <= eventMax
        invariant SameOriginals(p, old(m), m) && old(m).cloneOf.Keys <= m.cloneOf.Keys
        invariant keys[n..] <= m.pending && forall f :: f in m.pending[|keys| - n..] ==> f !in old(m).cloneOf
      {
        ghost var before, ds := m, done;
        TrackedKeys();
        max := NextClone(keys[n], max);
        NewOnes(keys, n, old(m), before, m);
        SameTransitive(p, old(m), before, m);
        OneMoreClone(needs, ds, keys[n], l, from);
        QueueStep(p, ts, ds, before, m, keys[n]);
        n := n + 1;
      }
    }

    /** Instruments clones until none is pending. */
    method DrainClones(ghost ts: seq<Fn>) returns (maxIndirect: nat)
      requires Valid() && Tracked() && Queued(ts) && done == []
      modifies this
      ensures Valid() && Tracked() && Handed(old(log), old(eventMax)) && m.pending == [] && maxIndirect <= eventMax
      ensures Queued(ts)
      ensures SameOriginals(p, old(m), m)
    {
      hide Consistent, Progress, Queue;
      maxIndirect := 0;
      while m.pending != []
        invariant Valid() && Tracked() && Handed(old(log), old(eventMax)) && Queued(ts) && maxIndirect <= eventMax
        invariant SameOriginals(p, old(m), m)
        decreases |p.clonable - m.cloneOf.Keys|, |m.pending|
      {
        ghost var start := m;
        maxIndirect := DrainOnce(maxIndirect, old(log), old(eventMax), ts);
        SameTransitive(p, old(m), start, m);
        FewerUncloned(p, start, m);
      }
    }

    /** The part of `runOnModule` that clones and instruments: `sites` are the calls inside regions, in
        order, and `regions` is the number of regions.  Returns the width of the counter array. */
    method RunOnModule(sites: seq<Site>, regions: nat) returns (width: nat)
      requires Valid() && m.cloneOf == map[] && m.pending == [] && log == [] && done == [] && eventMax == 0
      requires forall x :: x in sites ==> IsSite(m.calls, x) && x.fn in p.calls
      modifies this
      // The worklist is closed: nothing is pending, and each cloned function was instrumented once.
      ensures Consistent(p, m) && m.pending == [] && NoDup(done) && forall k :: k in done <==> k in m.cloneOf
      // The functions cloned are exactly those that calls lead to from the regions, first in, first out, and the
      // pass adds no other function.
      ensures forall k :: k in m.cloneOf <==> Reached(p, sites, k)
      ensures done == Queue(p, Targets(p, sites), |done|)
      ensures m.calls.Keys == p.calls.Keys + set k | k in m.cloneOf :: m.cloneOf[k]
      // Every call in a region or a clone that could go to a clone does; other calls are untouched.
      ensures forall k :: k in m.cloneOf ==> m.cloneOf[k] in m.calls && Redirected(p, m.calls[m.cloneOf[k]])
      ensures SitesRedirected(p, m, sites) && OnlyAt(old(m), m, sites)
      // The log is that of the regions, in order, and then of the clones, in the order instrumented.
      ensures log == RegionLog(needs, regions) + CloneLog(needs, done, MaxNeeds(needs, regions))
      ensures width == MaxNeeds(needs, regions) + SumNeeds(needs, done)
      // So each counter of a region and of a clone has a record with its own slot, mix, group and name.
      ensures forall d :: d in log <==>
        || (exists r: nat, i: nat :: OfRegion(needs, regions, d, r, i))
        || (exists j: nat, i: nat :: OfClone(needs, done, MaxNeeds(needs, regions), d, j, i))
      // No two counters that can be addressed in one row share a slot, and all fit the array.
      ensures DistinctSlots(log) && RecordsFit(log, width, regions)
      ensures (forall r :: 0 <= r < regions ==> needs.region(r) > 0) ==> AllDirect(log, regions)
    {
      hide Consistent, Progress, Extends, SitesRedirected, OnlyAt, SameOriginals, Redirected;
      hide DistinctSlots, RecordsFit, AllDirect, Grown, New, Queue, Reached;
      ghost var a := m;
      CloneRegionCalls(sites);
      ghost var b := m;
      InstrumentRegions(regions);
      AllPending(p, a, b);
      assert done == [];
      FirstQueue(p, a, b, sites);
      var maxIndirect := DrainClones(Targets(p, sites));
      ClonedIffReached(p, m, sites, done);
      NoOtherNames(p, m);
      width := Larger(maxIndirect, eventMax);
      LogFacts(needs, regions, done);
      LogHas(needs, regions, done);
      OriginalsOnly(p, a);
      SitesLater(p, a, b, m, sites);
      AllRedirected(p, m);
    }

    /** Instruments every region in turn. */
    method InstrumentRegions(regions: nat)
      requires log == [] && eventMax == 0
      modifies this`log, this`eventMax
      ensures log == RegionLog(needs, regions) && eventMax == MaxNeeds(needs, regions)
    {
      var r := 0;
      while r < regions
        invariant 0 <= r <= regions
        invariant log == RegionLog(needs, r) && eventMax == MaxNeeds(needs, r)
      {
        InstrumentRegion(r);
        r := r + 1;
      }
    }
  }

  ghost predicate InOriginals(p: Program, sites: seq<Site>) {
    forall x :: x in sites ==> x.fn in p.calls
  }

  lemma WithCloneGrown(m: Module, f: Fn)
    requires f in m.calls
    ensures Grown(m, m, []) && Grown(m, WithClone(m, f), [f])
  {
  }

  lemma NothingGrown(p: Program, m: Module)
    ensures Grown(m, m, New(p, m.cloneOf.Keys, []))
  {
    assert m.pending + [] == m.pending;
  }

  lemma SiteGrown(p: Program, a: Module, b: Module, n: Module, sites: seq<Site>, i: nat)
    requires i < |sites| && InOriginals(p, sites) && Consistent(p, b)
    requires Grown(a, b, New(p, a.cloneOf.Keys, Targets(p, sites[..i])))
    requires var y := Site(b.Origin(sites[i].fn), sites[i].at);
      IsSite(p.calls, y) && Grown(b, n, New(p, b.cloneOf.Keys, [p.calls[y.fn][y.at]]))
    ensures Grown(a, n, New(p, a.cloneOf.Keys, Targets(p, sites[..i + 1])))
  {
    var x := sites[i];
    assert x in sites && b.Origin(x.fn) == x.fn;
    assert sites[..i + 1][..i] == sites[..i];
    hide Grown, New;
    GrownStep(p, a, b, n, Targets(p, sites[..i]), p.calls[x.fn][x.at]);
  }

  lemma CloneFollows(p: Program, m: Module, k: Fn)
    requires Consistent(p, m) && k in m.cloneOf
    ensures m.cloneOf[k] in m.calls && m.Origin(m.cloneOf[k]) == k && m.cloneOf[k] in m.origin
    ensures k in p.calls && |p.calls[k]| == |m.calls[m.cloneOf[k]]|
  {
    assert FollowsOrigin(p, m.calls, m.origin, m.cloneOf[k]);
  }

  lemma ExtendsOrigin(p: Program, a: Module, b: Module, c: Fn)
    requires Extends(p, a, b) && c in a.origin
    ensures b.Origin(c) == a.Origin(c)
  {
  }

  lemma PendingAfter(a: Module, b: Module, k: Fn, l: seq<Fn>)
    requires a.pending != [] && a.pending[0] == k && Grown(a, b, l)
    ensures b.pending != [] && b.pending[1..] == a.pending[1..] + l
  {
  }

  lemma FirstQueue(p: Program, a: Module, b: Module, sites: seq<Site>)
    requires a.cloneOf == map[] && a.pending == [] && Grown(a, b, New(p, a.cloneOf.Keys, Targets(p, sites)))
    ensures b.pending == Queue(p, Targets(p, sites), 0)
  {
    assert a.cloneOf.Keys == {};
  }

  /** When no clone is pending, the functions cloned are those that calls lead to. */
  lemma ClonedIffReached(p: Program, m: Module, sites: seq<Site>, done: seq<Fn>)
    requires Consistent(p, m) && done == Queue(p, Targets(p, sites), |done|)
    requires forall k :: k in m.cloneOf <==> k in done
    ensures forall k :: k in m.cloneOf <==> Reached(p, sites, k)
  {
    hide Names, FollowsOrigin;
    QueueReached(p, sites, |done|);
    forall k | Reached(p, sites, k) ensures k in done {
      var path :| CallPath(p, sites, path) && path[|path| - 1] == k;
      QueueHasAll(p, sites, |done|, path);
    }
  }

  lemma NoOtherNames(p: Program, m: Module)
    requires Consistent(p, m)
    ensures m.calls.Keys == p.calls.Keys + set k | k in m.cloneOf :: m.cloneOf[k]
  {
    hide FollowsOrigin, OldNames;
    forall f | f in m.origin ensures f in (set k | k in m.cloneOf :: m.cloneOf[k]) {
      assert m.cloneOf[m.origin[f]] == f;
    }
  }

  lemma OriginalsOnly(p: Program, a: Module)
    requires Consistent(p, a) && a.cloneOf == map[]
    ensures forall f :: f in a.calls ==> f in p.calls
  {
  }

  ghost function SumNeeds(n: Needs, done: seq<Fn>): nat {
    if done == [] then 0 else SumNeeds(n, done[..|done| - 1]) + n.clone(done[|done| - 1])
  }

  ghost function MaxNeeds(n: Needs, regions: nat): nat {
    if regions == 0 then 0 else Larger(n.region(regions - 1), MaxNeeds(n, regions - 1))
  }

  /** The records of all regions, in order. */
  ghost function RegionLog(n: Needs, regions: nat): seq<Record> {
    if regions == 0 then []
    else RegionLog(n, regions - 1) + RegionRecords(n, regions - 1, n.region(regions - 1))
  }

  /** The records of the clones, in the order instrumented, each above the one before. */
  ghost function CloneLog(n: Needs, done: seq<Fn>, from: nat): seq<Record> {
    if done == [] then []
    else
      var front, k := done[..|done| - 1], done[|done| - 1];
      CloneLog(n, front, from) + CloneRecords(n, k, from + SumNeeds(n, front), n.clone(k))
  }

  lemma OneMoreClone(n: Needs, done: seq<Fn>, k: Fn, l: seq<Record>, from: nat)
    ensures SumNeeds(n, done + [k]) == SumNeeds(n, done) + n.clone(k)
    ensures l + CloneLog(n, done + [k], from)
            == (l + CloneLog(n, done, from)) + CloneRecords(n, k, from + SumNeeds(n, done), n.clone(k))
  {
    assert (done + [k])[..|done|] == done;
  }

  lemma DistinctJoin(a: seq<Record>, b: seq<Record>)
    requires DistinctSlots(a) && DistinctSlots(b)
    requires forall d, e :: d in a && e in b && d.profile.slot == e.profile.slot ==>
      !d.profile.indirect && !e.profile.indirect && d.profile.region != e.profile.region
    ensures DistinctSlots(a + b)
  {
    var c := a + b;
    forall i, j | 0 <= i < j < |c| && c[i].profile.slot == c[j].profile.slot
      ensures !c[i].profile.indirect && !c[j].profile.indirect && c[i].profile.region != c[j].profile.region
    {
      if j < |a| {
        assert c[i] == a[i] && c[j] == a[j];
      } else if i >= |a| {
        assert c[i] == b[i - |a|] && c[j] == b[j - |a|];
      } else {
        assert c[i] in a && c[j] in b;
      }
    }
  }

  lemma RegionRecordsFacts(n: Needs, r: nat)
    ensures DistinctSlots(RegionRecords(n, r, n.region(r)))
    ensures forall d :: d in RegionRecords(n, r, n.region(r)) ==>
      !d.profile.indirect && d.profile.region == r && d.profile.slot < n.region(r)
  {
  }

  lemma {:induction false} RegionLogFacts(n: Needs, regions: nat)
    ensures DistinctSlots(RegionLog(n, regions))
    ensures forall d :: d in RegionLog(n, regions) ==>
      !d.profile.indirect && d.profile.region < regions && d.profile.slot < MaxNeeds(n, regions)
  {
    if regions != 0 {
      var r := regions - 1;
      RegionLogFacts(n, r);
      RegionRecordsFacts(n, r);
      hide DistinctSlots, RegionRecords;
      DistinctJoin(RegionLog(n, r), RegionRecords(n, r, n.region(r)));
    }
  }

  lemma {:induction false} RegionsDirect(n: Needs, regions: nat, q: nat)
    requires q < regions && n.region(q) > 0
    ensures HasDirect(RegionLog(n, regions), 0, q)
  {
    var r := regions - 1;
    var l, m := RegionLog(n, r), RegionRecords(n, r, n.region(r));
    if q < r {
      RegionsDirect(n, r, q);
      HasDirectLater(l, l + m, q);
    } else {
      HasDirectAt(l + m, |l|, q);
    }
  }

  lemma {:induction false} CloneLogFacts(n: Needs, done: seq<Fn>, from: nat)
    ensures DistinctSlots(CloneLog(n, done, from))
    ensures forall d :: d in CloneLog(n, done, from) ==>
      d.profile.indirect && from <= d.profile.slot < from + SumNeeds(n, done)
  {
    if done != [] {
      var front, k := done[..|done| - 1], done[|done| - 1];
      CloneLogFacts(n, front, from);
      DistinctJoin(CloneLog(n, front, from), CloneRecords(n, k, from + SumNeeds(n, front), n.clone(k)));
    }
  }

  /** A record of counter `i` of region `r`. */
  ghost predicate OfRegion(n: Needs, regions: nat, d: Record, r: nat, i: nat) {
    && r < regions && i < n.region(r) && d.name == n.name(false, r)
    && d.profile == Profile(i, r, n.group(r), false, n.mix(false, r, i), 0)
  }

  /** A record of counter `i` of the clone instrumented `j`-th. */
  ghost predicate OfClone(n: Needs, done: seq<Fn>, from: nat, d: Record, j: nat, i: nat) {
    && j < |done| && i < n.clone(done[j]) && d.name == n.name(true, done[j])
    && d.profile == Profile(from + SumNeeds(n, done[..j]) + i, 0, 0, true, n.mix(true, done[j], i), 0)
  }

  lemma {:induction false} RegionLogHas(n: Needs, regions: nat, d: Record)
    ensures d in RegionLog(n, regions) <==> exists r: nat, i: nat :: OfRegion(n, regions, d, r, i)
  {
    if regions != 0 {
      var r := regions - 1;
      RegionLogHas(n, r, d);
      var l := RegionRecords(n, r, n.region(r));
      assert d in l <==> exists i: nat :: OfRegion(n, regions, d, r, i) by {
        if d in l {
          var i: nat :| i < |l| && l[i] == d;
          assert OfRegion(n, regions, d, r, i);
        }
        if i: nat :| OfRegion(n, regions, d, r, i) { assert l[i] == d; }
      }
      forall q: nat, i: nat | q < r ensures OfRegion(n, r, d, q, i) <==> OfRegion(n, regions, d, q, i) {
      }
      hide RegionRecords;
      if d in RegionLog(n, r) {
        var q: nat, i: nat :| OfRegion(n, r, d, q, i);
        assert OfRegion(n, regions, d, q, i);
      }
      if q: nat, i: nat :| OfRegion(n, regions, d, q, i) {
        assert q < r ==> OfRegion(n, r, d, q, i);
      }
    }
  }

  lemma {:induction false} CloneLogHas(n: Needs, done: seq<Fn>, from: nat, d: Record)
    ensures d in CloneLog(n, done, from) <==> exists j: nat, i: nat :: OfClone(n, done, from, d, j, i)
  {
    if done != [] {
      var front, m, k := done[..|done| - 1], |done| - 1, done[|done| - 1];
      CloneLogHas(n, front, from, d);
      var l := CloneRecords(n, k, from + SumNeeds(n, front), n.clone(k));
      assert d in l <==> exists i: nat :: OfClone(n, done, from, d, m, i) by {
        if d in l {
          var i: nat :| i < |l| && l[i] == d;
          assert OfClone(n, done, from, d, m, i);
        }
        if i: nat :| OfClone(n, done, from, d, m, i) { assert l[i] == d; }
      }
      hide CloneRecords;
      forall j: nat, i: nat | j < m ensures OfClone(n, front, from, d, j, i) <==> OfClone(n, done, from, d, j, i) {
        assert front[..j] == done[..j];
      }
      if d in CloneLog(n, front, from) {
        var j: nat, i: nat :| OfClone(n, front, from, d, j, i);
        assert OfClone(n, done, from, d, j, i);
      }
      if j: nat, i: nat :| OfClone(n, done, from, d, j, i) {
        assert j < m ==> OfClone(n, front, from, d, j, i);
      }
    }
  }

  lemma LogHas(n: Needs, regions: nat, done: seq<Fn>)
    ensures forall d :: d in RegionLog(n, regions) + CloneLog(n, done, MaxNeeds(n, regions)) <==>
      || (exists r: nat, i: nat :: OfRegion(n, regions, d, r, i))
      || (exists j: nat, i: nat :: OfClone(n, done, MaxNeeds(n, regions), d, j, i))
  {
    hide *;
    var from := MaxNeeds(n, regions);
    forall d ensures d in RegionLog(n, regions) + CloneLog(n, done, from) <==>
      || (exists r: nat, i: nat :: OfRegion(n, regions, d, r, i))
      || (exists j: nat, i: nat :: OfClone(n, done, from, d, j, i))
    {
      RegionLogHas(n, regions, d);
      CloneLogHas(n, done, from, d);
    }
  }

  /** What the exact log gives aggregation. */
  lemma LogFacts(n: Needs, regions: nat, done: seq<Fn>)
    ensures var l := RegionLog(n, regions) + CloneLog(n, done, MaxNeeds(n, regions));
      && DistinctSlots(l) && RecordsFit(l, MaxNeeds(n, regions) + SumNeeds(n, done), regions)
      && ((forall r :: 0 <= r < regions ==> n.region(r) > 0) ==> AllDirect(l, regions))
  {
    var a, b := RegionLog(n, regions), CloneLog(n, done, MaxNeeds(n, regions));
    RegionLogFacts(n, regions);
    CloneLogFacts(n, done, MaxNeeds(n, regions));
    hide HasDirect, RegionLog, CloneLog;
    DistinctJoin(a, b);
    forall q | 1 <= q < regions && n.region(q) > 0 ensures HasDirect(a + b, 0, q) {
      RegionsDirect(n, regions, q);
      HasDirectLater(a, a + b, q);
    }
  }

  /** The calls of the functions the module came with are untouched. */
  ghost predicate SameOriginals(p: Program, m: Module, n: Module) {
    forall f :: f in p.calls && f in m.calls ==> f in n.calls && n.calls[f] == m.calls[f]
  }

  lemma SameSelf(p: Program, m: Module)
    ensures SameOriginals(p, m, m)
  {
  }

  lemma SameTransitive(p: Program, a: Module, b: Module, n: Module)
    requires SameOriginals(p, a, b) && SameOriginals(p, b, n)
    ensures SameOriginals(p, a, n)
  {
  }

  lemma FrontFacts(p: Program, a: Module)
    requires Progress(p, a) && a.pending != []
    ensures a.pending[0] in a.cloneOf && a.pending[0] in a.pending
  {
  }

  /** Taking the instrumented clone off the list. */
  lemma PopFront(p: Program, a: Module, b: Module, k: Fn)
    requires Consistent(p, a) && a.pending != [] && a.pending[0] == k && k in a.cloneOf
    requires Consistent(p, b) && Progress(p, b) && Extends(p, a, b) && OnlyIn(a, b, a.cloneOf[k])
    requires a.cloneOf[k] in b.calls && Redirected(p, b.calls[a.cloneOf[k]])
    ensures b.pending != []
    ensures var n := b.(pending := b.pending[1..]);
      && Consistent(p, n) && Progress(p, n) && SameOriginals(p, a, n) && a.cloneOf.Keys <= n.cloneOf.Keys
      && a.pending[1..] <= n.pending && forall f :: f in n.pending[|a.pending| - 1..] ==> f !in a.cloneOf
  {
    hide Redirected, FollowsOrigin, Consistent, Progress;
    var n := b.(pending := b.pending[1..]);
    assert b.pending[0] == k && b.pending == [k] + n.pending;
    assert n.pending[|a.pending| - 1..] == b.pending[|a.pending|..];
    assert b.cloneOf[k] == a.cloneOf[k];
    CloneApart(p, a, k);
    PopConsistent(p, b, n);
    PopProgress(p, b, n, k);
    assert a.pending[1..] <= n.pending;
  }

  lemma CloneApart(p: Program, a: Module, k: Fn)
    requires Consistent(p, a) && k in a.cloneOf
    ensures a.cloneOf[k] !in p.calls && a.cloneOf.Keys <= p.clonable
  {
  }

  lemma PopConsistent(p: Program, b: Module, n: Module)
    requires Consistent(p, b) && n == b.(pending := n.pending)
    ensures Consistent(p, n)
  {
    hide FollowsOrigin;
  }

  lemma PopProgress(p: Program, b: Module, n: Module, k: Fn)
    requires Progress(p, b) && b.pending == [k] + n.pending && n == b.(pending := n.pending)
    requires k in b.cloneOf && b.cloneOf[k] in b.calls && Redirected(p, b.calls[b.cloneOf[k]])
    ensures Progress(p, n)
  {
    hide Redirected;
    forall i, j | 0 <= i < j < |n.pending| ensures n.pending[i] != n.pending[j] {
      assert b.pending[i + 1] != b.pending[j + 1];
    }
  }

  lemma TrackedStep(p: Program, a: Module, b: Module, done: seq<Fn>, k: Fn)
    requires Progress(p, b) && Extends(p, a, b) && a.pending != [] && a.pending[0] == k && k in a.cloneOf
    requires NoDup(done)
    requires forall f :: f in done ==> f in a.cloneOf && f !in a.pending
    requires forall f :: f in a.cloneOf ==> f in done || f in a.pending
    ensures b.pending != [] && k in a.pending
    ensures NoDup(done + [k])
    ensures forall f :: f in done + [k] ==> f in b.cloneOf && f !in b.pending[1..]
    ensures forall f :: f in b.cloneOf ==> f in done + [k] || f in b.pending[1..]
  {
    hide Redirected;
    assert a.pending[0] in a.pending && b.pending[0] == k;
    assert b.pending == a.pending + b.pending[|a.pending|..] && b.pending == [k] + b.pending[1..];
  }

  lemma NewOnes(keys: seq<Fn>, n: nat, start: Module, a: Module, b: Module)
    requires n < |keys| && keys[n..] <= a.pending && start.cloneOf.Keys <= a.cloneOf.Keys
    requires forall f :: f in a.pending[|keys| - n..] ==> f !in start.cloneOf
    requires a.pending[1..] <= b.pending && forall f :: f in b.pending[|a.pending| - 1..] ==> f !in a.cloneOf
    ensures keys[n + 1..] <= b.pending && forall f :: f in b.pending[|keys| - n - 1..] ==> f !in start.cloneOf
  {
    var i := |keys| - n - 1;
    assert keys[n..][1..] == keys[n + 1..];
    assert b.pending[i..] == a.pending[|keys| - n..] + b.pending[|a.pending| - 1..];
  }

  lemma FewerUncloned(p: Program, start: Module, m: Module)
    requires Consistent(p, m) && Progress(p, m) && start.cloneOf.Keys <= m.cloneOf.Keys
    requires m.pending != [] ==> m.pending[0] !in start.cloneOf
    ensures |p.clonable - m.cloneOf.Keys| <= |p.clonable - start.cloneOf.Keys|
    ensures m.pending != [] ==> |p.clonable - m.cloneOf.Keys| < |p.clonable - start.cloneOf.Keys|
  {
    AreClonable(p, m);
    var k: set<Fn>, l := start.cloneOf.Keys, m.cloneOf.Keys;
    if m.pending != [] {
      FewerLeft(p.clonable, k, l, m.pending[0]);
    }
    hide *;
    SubsetSize(p.clonable - l, p.clonable - k);
  }

  lemma FewerLeft(c: set<Fn>, k: set<Fn>, l: set<Fn>, f: Fn)
    requires k <= l <= c && f in l && f !in k
    ensures |c - l| < |c - k|
  {
    assert f in c - k && f !in c - l;
    SubsetSize((c - l) + {f}, c - k);
  }

  lemma AreClonable(p: Program, m: Module)
    requires Consistent(p, m) && Progress(p, m)
    ensures m.cloneOf.Keys <= p.clonable && (m.pending != [] ==> m.pending[0] in m.cloneOf)
  {
  }

  lemma HasDirectLater(a: seq<Record>, b: seq<Record>, q: nat)
    requires a <= b && HasDirect(a, 0, q)
    ensures HasDirect(b, 0, q)
  {
    var k :| 0 <= k < |a| && Selected(a[k].profile, 0) && a[k].profile.region == q;
    assert b[k] == a[k];
  }

  lemma AllPending(p: Program, a: Module, b: Module)
    requires Extends(p, a, b) && a.cloneOf == map[] && a.pending == []
    ensures forall k :: k in b.cloneOf ==> k in b.pending
  {
  }

  lemma SitesLater(p: Program, a: Module, b: Module, n: Module, sites: seq<Site>)
    requires SitesRedirected(p, b, sites) && OnlyAt(a, b, sites) && SameOriginals(p, b, n)
    requires forall x :: x in sites ==> x.fn in p.calls
    requires forall f :: f in a.calls ==> f in p.calls
    ensures SitesRedirected(p, n, sites) && OnlyAt(a, n, sites)
  {
  }

  lemma AllRedirected(p: Program, m: Module)
    requires Consistent(p, m) && Progress(p, m) && m.pending == []
    ensures forall k :: k in m.cloneOf ==> m.cloneOf[k] in m.calls && Redirected(p, m.calls[m.cloneOf[k]])
  {
    hide Redirected, FollowsOrigin;
  }

  ghost predicate SitesRedirected(p: Program, m: Module, sites: seq<Site>) {
    forall x :: x in sites ==> IsSite(m.calls, x) && m.calls[x.fn][x.at] !in p.clonable
  }

  /** Only the calls at the given sites have changed. */
  ghost predicate OnlyAt(m: Module, n: Module, sites: seq<Site>) {
    forall f, i :: f in m.calls && 0 <= i < |m.calls[f]| && Site(f, i) !in sites ==>
      f in n.calls && i < |n.calls[f]| && n.calls[f][i] == m.calls[f][i]
  }

  lemma SitesStep(p: Program, a: Module, b: Module, n: Module, sites: seq<Site>, k: nat)
    requires k < |sites| && IsSite(b.calls, sites[k])
    requires SitesRedirected(p, b, sites[..k]) && OnlyAt(a, b, sites[..k])
    requires OnlyIn(b, n, sites[k].fn) && IsSite(n.calls, sites[k]) && |n.calls[sites[k].fn]| == |b.calls[sites[k].fn]|
    requires n.calls[sites[k].fn][sites[k].at] !in p.clonable
    requires forall i :: 0 <= i < |n.calls[sites[k].fn]| && i != sites[k].at ==>
      n.calls[sites[k].fn][i] == b.calls[sites[k].fn][i]
    ensures SitesRedirected(p, n, sites[..k + 1]) && OnlyAt(a, n, sites[..k + 1])
  {
    assert sites[..k + 1] == sites[..k] + [sites[k]];
    forall x | x in sites[..k + 1] ensures IsSite(n.calls, x) && n.calls[x.fn][x.at] !in p.clonable {
      if x != sites[k] { assert x in sites[..k]; }
    }
    forall f, i | f in a.calls && 0 <= i < |a.calls[f]| && Site(f, i) !in sites[..k + 1]
      ensures f in n.calls && i < |n.calls[f]| && n.calls[f][i] == a.calls[f][i]
    {
      assert Site(f, i) !in sites[..k] && Site(f, i) != sites[k];
    }
  }

  lemma ExtendsSites(p: Program, a: Module, b: Module, x: Site)
    requires Extends(p, a, b) && IsSite(a.calls, x)
    ensures IsSite(b.calls, x)
  {
  }

  lemma ExtendsCalls(p: Program, a: Module, b: Module, f: Fn)
    requires Extends(p, a, b) && f in a.calls
    ensures f in b.calls && |b.calls[f]| == |a.calls[f]|
  {
  }

  lemma ExtendsKeeps(p: Program, a: Module, b: Module, k: Fn)
    requires Extends(p, a, b) && k in a.cloneOf && k in a.pending
    ensures k in b.cloneOf && b.cloneOf[k] == a.cloneOf[k] && k in b.pending
  {
    var i :| 0 <= i < |a.pending| && a.pending[i] == k;
    assert b.pending[i] == k;
  }

  lemma CloneCalls(p: Program, m: Module, k: Fn)
    requires Consistent(p, m) && k in m.cloneOf
    ensures m.cloneOf[k] in m.calls
  {
  }

  lemma HasDirectAt(log: seq<Record>, i: nat, r: nat)
    requires i < |log| && !log[i].profile.indirect && log[i].profile.region == r
    ensures HasDirect(log, 0, r)
  {
  }

  lemma NothingDone(p: Program, m: Module, g: Fn)
    ensures Extends(p, m, m) && OnlyIn(m, m, g)
  {
  }

  lemma RedirectCall(p: Program, a: Module, b: Module, x: Site, f: Fn)
    requires Consistent(p, b) && Progress(p, b) && Extends(p, a, b)
    requires forall g :: g in a.calls ==> g in b.calls && b.calls[g] == a.calls[g]
    requires IsSite(a.calls, x) && a.calls[x.fn][x.at] == f && f in b.cloneOf
    ensures IsSite(a.calls, x) && IsSite(b.calls, x)
    ensures var n := Retarget(b, x, b.cloneOf[f]);
      && Consistent(p, n) && Progress(p, n) && Extends(p, a, n) && OnlyIn(a, n, x.fn)
      && IsSite(n.calls, x) && n.calls[x.fn] == a.calls[x.fn][x.at := b.cloneOf[f]] && b.cloneOf[f] !in p.clonable
  {
    hide Progress, FollowsOrigin, Redirected, Extends;
    CloneFacts(p, b, f);
    var t := b.cloneOf[f];
    assert IsSite(b.calls, x);
    RetargetConsistent(p, b, x, t);
    RetargetProgress(p, b, x, t);
    ExtendsTransitive(p, a, b, Retarget(b, x, t));
    hide *;
    RetargetFrame(a, b, x, t);
  }

  lemma RetargetFrame(a: Module, b: Module, x: Site, t: Fn)
    requires forall g :: g in a.calls ==> g in b.calls && b.calls[g] == a.calls[g]
    requires IsSite(a.calls, x) && IsSite(b.calls, x)
    ensures var n := Retarget(b, x, t);
      OnlyIn(a, n, x.fn) && IsSite(n.calls, x) && n.calls[x.fn] == a.calls[x.fn][x.at := t]
  {
  }

  lemma ExtendsTransitive(p: Program, a: Module, b: Module, n: Module)
    requires Extends(p, a, b) && Extends(p, b, n)
    ensures Extends(p, a, n)
  {
  }

  lemma CloneFacts(p: Program, m: Module, f: Fn)
    requires Consistent(p, m) && f in m.cloneOf
    ensures m.cloneOf[f] !in p.clonable && m.Origin(m.cloneOf[f]) == f == m.Origin(f) && m.cloneOf[f] in m.calls
  {
  }
}
