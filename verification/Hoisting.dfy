/** Exactly when a hoisted counter is right for a block that post-dominates its loop's header. */
module Hoisting {
  import opened Cfg
  import opened Grouping
  import opened LoopTree
  import opened Plan
  import opened Placement

  /** Loop `k` is a natural loop whose split block leads nowhere but to the header, and block `b` is one
      that the pass claims for hoisting. */
  ghost predicate Claimed(pr: Program, k: nat, b: Block) {
    && LaidOut(pr) && 0 < k < |pr.t|
    && pr.pre[k] !in pr.g.exits && (forall x :: (pr.pre[k], x) in pr.g.edges ==> x == pr.t[k].header)
    && Dom(pr.g, pr.t[k].header, b) && PDom(pr.g, b, pr.t[k].header)
    && Reachable(pr.g, pr.t[k].header) && Exiting(pr.g, pr.t[k].header)
  }

  /** After the split block comes the header. */
  lemma HeaderNext(pr: Program, k: nat, b: Block, w: seq<Block>, i: nat)
    requires Claimed(pr, k, b) && ToExit(pr.g, w) && i < |w| && w[i] == pr.pre[k]
    ensures i + 1 < |w| && w[i + 1] == pr.t[k].header
  {
    assert StepAt(pr.g, w, |w| - 1) || |w| == 1;
    assert i + 1 < |w|;
    assert StepAt(pr.g, w, i + 1);
  }

  lemma SplitLeads(pr: Program, k: nat, b: Block, d: seq<Block>)
    requires Claimed(pr, k, b) && Walk(pr.g, d)
    ensures forall i :: 0 <= i < |d| - 1 && d[i] == pr.pre[k] ==> d[i + 1] == pr.t[k].header
  {
    forall i | 0 <= i < |d| - 1 && d[i] == pr.pre[k] ensures d[i + 1] == pr.t[k].header {
      assert StepAt(pr.g, d, i + 1);
    }
  }

  // ---- Loops whose trip count is found at run time ----------------------------------

  ghost predicate Expands(pr: Program, k: nat, w: seq<Block>, btc: (nat, nat) -> nat)
    requires k < |pr.t| == |pr.pre|
  {
    forall i :: 0 <= i < |w| && w[i] == pr.pre[k] ==>
      Until(w[i + 1..], pr.pre[k], pr.t[k].header) == btc(k, i) + 1
  }

  /** In every complete run, if the count expanded at each entry is that of the entry, the counter comes
      to the number of times the block runs. */
  ghost predicate DynamicRight(pr: Program, k: nat, b: Block)
    requires k < |pr.t| == |pr.pre|
  {
    forall w, btc :: Run(pr.g, w) && Expands(pr, k, w, btc) ==> Advanced(w, 0, pr.pre[k], k, btc) == Times(w, b)
  }

  /** How often the loop comes back to its header after the entry at `i`. */
  ghost function Backedges(w: seq<Block>, p: Block, h: Block, i: nat): nat {
    if i < |w| && Until(w[i + 1..], p, h) != 0 then Until(w[i + 1..], p, h) - 1 else 0
  }

  lemma HeaderCounts(s: seq<Block>, p: Block, h: Block)
    requires s != [] && s[0] == h && p != h
    ensures Until(s, p, h) > 0
  {
  }

  /** Every run has counts to go with it. */
  lemma SomeExpansion(pr: Program, k: nat, b: Block, w: seq<Block>) returns (btc: (nat, nat) -> nat)
    requires Claimed(pr, k, b) && Run(pr.g, w)
    ensures Expands(pr, k, w, btc)
  {
    var p, h := pr.pre[k], pr.t[k].header;
    btc := (j: nat, i: nat) => Backedges(w, p, h, i);
    hide Claimed, Run, Until, Backedges;
    forall i | 0 <= i < |w| && w[i] == p ensures Until(w[i + 1..], p, h) == Backedges(w, p, h, i) + 1 {
      EntryCounts(pr, k, b, w, i);
    }
  }

  lemma EntryCounts(pr: Program, k: nat, b: Block, w: seq<Block>, i: nat)
    requires Claimed(pr, k, b) && Run(pr.g, w) && i < |w| && w[i] == pr.pre[k]
    ensures Until(w[i + 1..], pr.pre[k], pr.t[k].header) == Backedges(w, pr.pre[k], pr.t[k].header, i) + 1
  {
    assert pr.pre[k] != pr.t[k].header by { assert NaturalLoop(pr, k); }
    hide Claimed, Until, Run;
    HeaderNext(pr, k, b, w, i);
    HeaderCounts(w[i + 1..], pr.pre[k], pr.t[k].header);
  }

  lemma AdvancedIsHeader(pr: Program, k: nat, w: seq<Block>, btc: (nat, nat) -> nat)
    requires LaidOut(pr) && 0 < k < |pr.t| && Run(pr.g, w) && Expands(pr, k, w, btc)
    ensures Advanced(w, 0, pr.pre[k], k, btc) == Times(w, pr.t[k].header)
  {
    HeaderTimes(pr, k, w);
    DynamicEntries(w, 0, pr.pre[k], pr.t[k].header, k, btc);
    assert w[0..] == w;
  }

  /** A counter advanced by the trip count at every entry is right for the block, in all runs, if and only
      if no cycle passes the header without the block or the block without the header. */
  lemma DynamicRightIffTied(pr: Program, k: nat, b: Block)
    requires Claimed(pr, k, b)
    ensures DynamicRight(pr, k, b) <==> Tied(pr.g, pr.t[k].header, b)
  {
    var h := pr.t[k].header;
    SameTimesIffTied(pr.g, h, b);
    hide Run, Tied, Times;
    if DynamicRight(pr, k, b) {
      forall w | Run(pr.g, w) ensures Times(w, h) == Times(w, b) {
        var btc := SomeExpansion(pr, k, b, w);
        AdvancedIsHeader(pr, k, w, btc);
        assert Advanced(w, 0, pr.pre[k], k, btc) == Times(w, b);
      }
    }
    if SameTimes(pr.g, h, b) {
      forall w, btc | Run(pr.g, w) && Expands(pr, k, w, btc)
        ensures Advanced(w, 0, pr.pre[k], k, btc) == Times(w, b)
      {
        AdvancedIsHeader(pr, k, w, btc);
      }
    }
  }

  // ---- Loops of a scale-factor set ---------------------------------------------------

  /** A chained loop is entered once for each run of its parent's header, in all runs, if and only if no
      cycle passes one without the other. */
  lemma EntryRightIffTied(pr: Program, k: nat)
    requires LaidOut(pr) && 0 < k < |pr.t| && pr.t[k].parent != 0
    requires PDom(pr.g, pr.t[k].header, pr.t[pr.t[k].parent].header)
    requires Reachable(pr.g, pr.t[pr.t[k].parent].header) && Exiting(pr.g, pr.t[pr.t[k].parent].header)
    ensures SameTimes(pr.g, pr.t[pr.t[k].parent].header, pr.pre[k])
            <==> Tied(pr.g, pr.t[pr.t[k].parent].header, pr.pre[k])
  {
    ParentDominatesEntry(pr, k);
    EntryPostDominates(pr, k);
    SameTimesIffTied(pr.g, pr.t[pr.t[k].parent].header, pr.pre[k]);
  }

  /** Every entry into loop `k` runs its header `n` times. */
  ghost predicate Trips(w: seq<Block>, p: Block, h: Block, n: nat) {
    forall i :: 0 <= i < |w| && w[i] == p ==> Until(w[i + 1..], p, h) == n
  }

  ghost predicate StaticRight(pr: Program, k: nat, b: Block, n: nat)
    requires k < |pr.t| == |pr.pre|
  {
    forall w :: Run(pr.g, w) && Trips(w, pr.pre[k], pr.t[k].header, n) ==> n * Times(w, pr.pre[k]) == Times(w, b)
  }

  /** A way round from a block to itself, meeting it nowhere in between. */
  ghost predicate Lap(g: Graph, l: seq<Block>, h: Block) {
    Walk(g, l) && 1 < |l| && l[0] == h == l[|l| - 1] && Times(l[..|l| - 1], h) == 1
  }

  /** `m` laps, and then `z`. */
  ghost function Laps(l: seq<Block>, m: nat, z: seq<Block>): seq<Block>
    requires l != []
  {
    if m == 0 then z else l[..|l| - 1] + Laps(l, m - 1, z)
  }

  lemma TimesConcat(a: seq<Block>, c: seq<Block>, x: Block)
    ensures Times(a + c, x) == Times(a, x) + Times(c, x)
  {
  }

  /** Two walks that meet, with the meeting point counted once. */
  lemma Hook(g: Graph, a: seq<Block>, z: seq<Block>)
    requires Walk(g, a) && Walk(g, z) && a[|a| - 1] == z[0]
    ensures Walk(g, a[..|a| - 1] + z)
    ensures (a[..|a| - 1] + z)[0] == a[0] && (a[..|a| - 1] + z)[|a| - 1 + |z| - 1] == z[|z| - 1]
  {
    Join(g, a, z);
    assert a[..|a| - 1] + z == a + z[1..];
  }

  lemma HookRun(g: Graph, a: seq<Block>, y: seq<Block>)
    requires FromEntry(g, a) && ToExit(g, y) && a[|a| - 1] == y[0]
    ensures Run(g, a[..|a| - 1] + y)
  {
    Hook(g, a, y);
    hide Walk;
    var w := a[..|a| - 1] + y;
    assert w[|w| - 1] == w[|a| - 1 + |y| - 1];
  }

  lemma HookExit(g: Graph, v: seq<Block>, z: seq<Block>)
    requires Walk(g, v) && ToExit(g, z) && v[|v| - 1] == z[0]
    ensures ToExit(g, v[..|v| - 1] + z) && (v[..|v| - 1] + z)[0] == v[0]
  {
    Hook(g, v, z);
    hide Walk;
    var w := v[..|v| - 1] + z;
    assert w[|w| - 1] == w[|v| - 1 + |z| - 1];
  }

  lemma {:induction false} LapsWalk(g: Graph, l: seq<Block>, h: Block, m: nat, z: seq<Block>)
    requires Lap(g, l, h) && Walk(g, z) && z[0] == h
    ensures var w := Laps(l, m, z); Walk(g, w) && w[0] == h && w[|w| - 1] == z[|z| - 1]
  {
    if m != 0 {
      LapsWalk(g, l, h, m - 1, z);
      hide Walk;
      Hook(g, l, Laps(l, m - 1, z));
    }
  }

  /** How often `m` laps meet a block, not counting their end. */
  ghost function InLaps(l: seq<Block>, m: nat, x: Block): nat
    requires l != []
  {
    m * Times(l[..|l| - 1], x)
  }

  lemma InLapsKnown(l: seq<Block>, m: nat, x: Block)
    requires l != []
    ensures Times(l[..|l| - 1], x) == 0 ==> InLaps(l, m, x) == 0
    ensures Times(l[..|l| - 1], x) == 1 ==> InLaps(l, m, x) == m
  {
    assert m * 0 == 0;
  }

  lemma {:induction false} LapsTimes(l: seq<Block>, m: nat, z: seq<Block>, x: Block)
    requires l != []
    ensures Times(Laps(l, m, z), x) == InLaps(l, m, x) + Times(z, x)
  {
    hide Times;
    if m != 0 {
      LapsTimes(l, m - 1, z, x);
      TimesConcat(l[..|l| - 1], Laps(l, m - 1, z), x);
      OneMore(Times(l[..|l| - 1], x), m - 1);
    }
  }

  lemma {:induction false} UntilNever(s: seq<Block>, p: Block, h: Block)
    requires Times(s, p) == 0
    ensures Until(s, p, h) == Times(s, h)
  {
    if s != [] {
      TimesCons(s, p);
      TimesCons(s, h);
      UntilNever(s[1..], p, h);
    }
  }

  lemma {:induction false} UntilStops(x: seq<Block>, y: seq<Block>, p: Block, h: Block)
    requires x != [] && x[|x| - 1] == p && Times(x, p) == 1 && p != h
    ensures Until(x + y, p, h) == Times(x, h)
  {
    TimesCons(x, p);
    TimesCons(x, h);
    if |x| == 1 {
      assert x[1..] == [];
    } else {
      assert (x + y)[1..] == x[1..] + y;
      assert x[0] != p by {
        assert p in x[1..];
      }
      UntilStops(x[1..], y, p, h);
    }
  }

  lemma TimesOnce(s: seq<Block>, x: Block, i: nat)
    requires i < |s| && s[i] == x && forall j :: 0 <= j < |s| && j != i ==> s[j] != x
    ensures Times(s, x) == 1
  {
    assert s == s[..i] + [x] + s[i + 1..];
    assert x !in s[..i] && x !in s[i + 1..];
  }

  /** A cycle through a block has a lap within it. */
  lemma FirstLap(g: Graph, h: Block, c: seq<Block>) returns (l: seq<Block>)
    requires ClosedWalk(g, c) && h in c
    ensures Lap(g, l, h) && forall x :: x in l ==> x in c
  {
    var d := FromInside(g, h, c);
    var t := d[1..];
    assert t[|t| - 1] == h;
    var j := FirstAt(t, h);
    SubWalk(g, d, 0, j + 2);
    l := d[..j + 2];
    assert l[..|l| - 1] == [h] + t[..j];
    assert forall x :: x in l ==> x in d;
  }

  /** A lap that leaves the loop comes back through the split block, at its end. */
  lemma LapEntry(pr: Program, k: nat, b: Block, l: seq<Block>)
    requires Claimed(pr, k, b) && Lap(pr.g, l, pr.t[k].header) && pr.pre[k] in l
    ensures l[|l| - 2] == pr.pre[k] && Times(l[..|l| - 1], pr.pre[k]) == 1
  {
    var p, h, m := pr.pre[k], pr.t[k].header, |l| - 1;
    assert NaturalLoop(pr, k);
    OnlyFirst(l[..m], h);
    SplitLeads(pr, k, b, l);
    forall i | 0 < i < m ensures l[i] != h {
      assert l[i] == l[..m][i];
    }
    forall i | 0 <= i < m - 1 ensures l[i] != p {
      var next := l[i + 1];
    }
    TimesOnce(l[..m], p, m - 1);
  }

  lemma OnlyFirst(s: seq<Block>, h: Block)
    requires s != [] && s[0] == h && Times(s, h) == 1
    ensures forall i :: 0 < i < |s| ==> s[i] != h
  {
    TimesCons(s, h);
    assert h !in s[1..];
    forall i | 0 < i < |s| ensures s[i] != h {
      assert s[i] == s[1..][i - 1];
    }
  }

  lemma {:induction false} OnlyLast(s: seq<Block>, x: Block)
    requires s != [] && s[|s| - 1] == x && Times(s, x) == 1
    ensures forall i :: 0 <= i < |s| - 1 ==> s[i] != x
  {
    var m := |s| - 1;
    assert s == s[..m] + [x];
    TimesConcat(s[..m], [x], x);
    assert x !in s[..m];
    forall i | 0 <= i < m ensures s[i] != x {
      assert s[i] == s[..m][i];
    }
  }

  /** A first arrival at the header. */
  lemma Arrival(pr: Program, k: nat, b: Block) returns (a: seq<Block>)
    requires Claimed(pr, k, b)
    ensures FromEntry(pr.g, a) && 1 < |a| && a[|a| - 1] == pr.t[k].header && a[|a| - 2] == pr.pre[k]
    ensures var x := a[..|a| - 1];
      Times(x, pr.pre[k]) == 1 && Times(x, pr.t[k].header) == 0 && (b != pr.t[k].header ==> Times(x, b) == 0)
  {
    var p, h := pr.pre[k], pr.t[k].header;
    assert NaturalLoop(pr, k);
    a := Arrive(pr.g, h);
    var m := |a| - 1;
    ArrivesFromEntry(pr, k, a, m);
    SplitLeads(pr, k, b, a);
    forall i | 0 <= i < m ensures a[i] != h {
      assert a[i] == a[..m][i];
    }
    forall i | 0 <= i < m - 1 ensures a[i] != p {
      var next := a[i + 1];
    }
    TimesOnce(a[..m], p, m - 1);
    SubWalk(pr.g, a, 0, m);
    if b != h {
      NotBefore(pr.g, h, b, a[..m]);
    }
  }

  lemma NotBefore(g: Graph, h: Block, b: Block, a: seq<Block>)
    requires Dom(g, h, b) && FromEntry(g, a) && h !in a
    ensures b !in a
  {
    if b in a {
      var j := DomBefore(g, h, b, a, FirstAt(a, b));
    }
  }

  /** The last way from the header out of the function. */
  lemma LastDeparture(pr: Program, k: nat, b: Block) returns (d: seq<Block>)
    requires Claimed(pr, k, b)
    ensures ToExit(pr.g, d) && d[0] == pr.t[k].header && b in d
    ensures forall j :: 0 <= j < |d| ==> d[j] != pr.pre[k] && (j > 0 ==> d[j] != pr.t[k].header)
  {
    var g, p, h := pr.g, pr.pre[k], pr.t[k].header;
    assert p != h by { assert NaturalLoop(pr, k); }
    var q :| ToExit(g, q) && q[0] == h;
    var i := LastAt(q, h);
    SubWalk(g, q, i, |q|);
    d := q[i..];
    forall j | 0 < j < |d| ensures d[j] != h {
      assert d[j] == q[i + 1..][j - 1];
    }
    SplitLeads(pr, k, b, d);
    forall j | 0 <= j < |d| ensures d[j] != p {
      if j < |d| - 1 {
        assert d[j + 1] != h;
      }
    }
  }

  /** A way from the header out of the function that meets the block once. */
  lemma Departure(pr: Program, k: nat, b: Block) returns (e: seq<Block>)
    requires Claimed(pr, k, b) && b != pr.t[k].header
    ensures Leaving(pr.g, pr.pre[k], pr.t[k].header, e) && Times(e, b) == 1
  {
    var d := LastDeparture(pr, k, b);
    TimesOnce(d, pr.t[k].header, 0);
    hide Claimed;
    assert Times(d, pr.pre[k]) == 0;
    e := Cut(d, b);
    CutWalk(pr.g, d, b);
    CutCounts(d, b);
    hide Cut;
    assert Times(e, pr.t[k].header) <= Times(d, pr.t[k].header);
    assert Times(e, pr.pre[k]) <= Times(d, pr.pre[k]);
    TimesCons(e, pr.t[k].header);
  }

  /** The walk with what lies between its first and last visit of a block cut out. */
  ghost function Cut(d: seq<Block>, b: Block): seq<Block>
    requires b in d
  {
    (d[..FirstAt(d, b)] + [b]) + d[LastAt(d, b) + 1..]
  }

  lemma CutWalk(g: Graph, d: seq<Block>, b: Block)
    requires ToExit(g, d) && b in d
    ensures ToExit(g, Cut(d, b)) && Cut(d, b)[0] == d[0]
  {
    var m, n := FirstAt(d, b), LastAt(d, b);
    SubWalk(g, d, 0, m + 1);
    SubWalk(g, d, n, |d|);
    Join(g, d[..m + 1], d[n..]);
    assert d[n..][1..] == d[n + 1..] && d[..m + 1] == d[..m] + [b];
  }

  lemma CutCounts(d: seq<Block>, b: Block)
    requires b in d
    ensures Times(Cut(d, b), b) == 1 && forall x :: Times(Cut(d, b), x) <= Times(d, x)
  {
    var m, n := FirstAt(d, b), LastAt(d, b);
    Ordered(d, b);
    Parts(d, m, n, b);
    CutTimes(d[..m], d[m..n], d[n + 1..], b);
  }

  lemma Ordered(d: seq<Block>, b: Block)
    requires b in d
    ensures FirstAt(d, b) <= LastAt(d, b)
  {
    assert d[LastAt(d, b)] == b;
  }

  lemma Parts(d: seq<Block>, m: nat, n: nat, b: Block)
    requires m <= n < |d| && d[n] == b
    ensures d == (d[..m] + d[m..n]) + ([b] + d[n + 1..])
  {
    assert d[..n] == d[..m] + d[m..n] && d[n..] == [b] + d[n + 1..];
  }

  lemma CutTimes(x: seq<Block>, y: seq<Block>, z: seq<Block>, b: Block)
    requires b !in x && b !in z
    ensures Times((x + [b]) + z, b) == 1
    ensures forall a :: Times((x + [b]) + z, a) <= Times((x + y) + ([b] + z), a)
  {
  }

  /** A walk from the header out of the function, past neither the header nor its split block again. */
  ghost predicate Leaving(g: Graph, p: Block, h: Block, e: seq<Block>) {
    ToExit(g, e) && e[0] == h && Times(e, h) == 1 && Times(e, p) == 0
  }

  lemma TripsJoin(x: seq<Block>, y: seq<Block>, p: Block, h: Block, n: nat)
    requires x != [] && x[|x| - 1] == p && Times(x, p) == 1 && Until(y, p, h) == n && Trips(y, p, h, n)
    ensures Trips(x + y, p, h, n)
  {
    var w, m := x + y, |x| - 1;
    OnlyLast(x, p);
    forall i | 0 <= i < |w| && w[i] == p ensures Until(w[i + 1..], p, h) == n {
      if i <= m {
        assert w[i] == x[i];
        assert w[m + 1..] == y;
      } else {
        assert w[i + 1..] == y[i - |x| + 1..] && y[i - |x|] == p;
      }
    }
  }

  /** Laps inside the loop, and then out. */
  lemma LapsOut(g: Graph, p: Block, h: Block, r: seq<Block>, e: seq<Block>, n: nat)
    requires n > 0 && Lap(g, r, h) && p !in r && Leaving(g, p, h, e)
    ensures var y := Laps(r, n - 1, e);
      ToExit(g, y) && y[0] == h && Times(y, p) == 0 && Times(y, h) == n && Until(y, p, h) == n && Trips(y, p, h, n)
  {
    var l, y := r[..|r| - 1], Laps(r, n - 1, e);
    LapsWalk(g, r, h, n - 1, e);
    TimesNone(l, p);
    hide Times, Walk, Laps;
    LapsTimes(r, n - 1, e, p);
    LapsTimes(r, n - 1, e, h);
    InLapsKnown(r, n - 1, p);
    InLapsKnown(r, n - 1, h);
    hide InLaps;
    UntilNever(y, p, h);
    TimesSome(y, p);
  }

  /** A run that enters the loop once, with the given trip count. */
  lemma OneEntry(pr: Program, k: nat, b: Block, r: seq<Block>, e: seq<Block>, n: nat) returns (w: seq<Block>)
    requires Claimed(pr, k, b) && b != pr.t[k].header && n > 0
    requires Lap(pr.g, r, pr.t[k].header) && pr.pre[k] !in r && Leaving(pr.g, pr.pre[k], pr.t[k].header, e)
    ensures Run(pr.g, w) && Trips(w, pr.pre[k], pr.t[k].header, n) && Times(w, pr.pre[k]) == 1
    ensures Times(w, b) == InLaps(r, n - 1, b) + Times(e, b)
  {
    var p, h := pr.pre[k], pr.t[k].header;
    var a := Arrival(pr, k, b);
    LapsOut(pr.g, p, h, r, e, n);
    LapsTimes(r, n - 1, e, b);
    hide Claimed, Lap, Leaving;
    w := Approach(pr.g, a, Laps(r, n - 1, e), p, h, b, n);
  }

  /** A first arrival, and from there on. */
  lemma Approach(g: Graph, a: seq<Block>, y: seq<Block>, p: Block, h: Block, b: Block, n: nat) returns (w: seq<Block>)
    requires FromEntry(g, a) && 1 < |a| && a[|a| - 1] == h && a[|a| - 2] == p
    requires Times(a[..|a| - 1], p) == 1 && Times(a[..|a| - 1], b) == 0
    requires ToExit(g, y) && y[0] == h && Until(y, p, h) == n && Trips(y, p, h, n)
    ensures Run(g, w) && Trips(w, p, h, n) && Times(w, p) == Times(y, p) + 1 && Times(w, b) == Times(y, b)
  {
    var x := a[..|a| - 1];
    w := x + y;
    HookRun(g, a, y);
    assert x[|x| - 1] == p;
    hide Run, Walk, Times, Trips, Until;
    TripsJoin(x, y, p, h, n);
    TimesConcat(x, y, p);
    TimesConcat(x, y, b);
  }

  /** A run that leaves the loop along `d`, comes back, and enters it once more. */
  lemma TwoEntries(pr: Program, k: nat, b: Block, r: seq<Block>, d: seq<Block>, e: seq<Block>, n: nat)
    returns (w: seq<Block>)
    requires Claimed(pr, k, b) && b != pr.t[k].header && n > 0
    requires Lap(pr.g, r, pr.t[k].header) && pr.pre[k] !in r && Leaving(pr.g, pr.pre[k], pr.t[k].header, e)
    requires Lap(pr.g, d, pr.t[k].header) && pr.pre[k] in d
    ensures Run(pr.g, w) && Trips(w, pr.pre[k], pr.t[k].header, n) && Times(w, pr.pre[k]) == 2
    ensures Times(w, b) == 2 * InLaps(r, n - 1, b) + Times(d[..|d| - 1], b) + Times(e, b)
  {
    var p, h := pr.pre[k], pr.t[k].header;
    assert p != h by { assert NaturalLoop(pr, k); }
    var a := Arrival(pr, k, b);
    LapEntry(pr, k, b, d);
    hide Claimed;
    var t := TwoRounds(pr.g, p, h, b, r, d, e, n);
    hide Lap, Leaving;
    w := Approach(pr.g, a, t, p, h, b, n);
  }

  /** Both rounds, from the first visit of the header on. */
  lemma TwoRounds(g: Graph, p: Block, h: Block, b: Block, r: seq<Block>, d: seq<Block>, e: seq<Block>, n: nat)
    returns (t: seq<Block>)
    requires n > 0 && p != h && Lap(g, r, h) && p !in r && Leaving(g, p, h, e)
    requires Lap(g, d, h) && d[|d| - 2] == p && Times(d[..|d| - 1], p) == 1
    ensures ToExit(g, t) && t[0] == h && Until(t, p, h) == n && Trips(t, p, h, n) && Times(t, p) == 1
    ensures Times(t, b) == 2 * InLaps(r, n - 1, b) + Times(d[..|d| - 1], b) + Times(e, b)
  {
    assert r != [] && d != [] && e != [];
    hide Lap, Leaving, Laps, InLaps, Walk, Times, Trips, Until;
    var v, z := Laps(r, n - 1, d), Laps(r, n - 1, e);
    LapsOut(g, p, h, r, e, n);
    LapsTimes(r, n - 1, e, b);
    MiddleLaps(g, p, h, r, d, n);
    MiddleTimes(g, h, r, d, n, b);
    t := Rejoin(g, v, z, p, h, b, n);
  }

  lemma Rejoin(g: Graph, v: seq<Block>, z: seq<Block>, p: Block, h: Block, b: Block, n: nat) returns (t: seq<Block>)
    requires Walk(g, v) && 1 < |v| && v[0] == h == v[|v| - 1] && v[|v| - 2] == p && p != h
    requires Times(v[..|v| - 1], p) == 1 && Times(v[..|v| - 1], h) == n
    requires ToExit(g, z) && z[0] == h && Times(z, p) == 0 && Until(z, p, h) == n && Trips(z, p, h, n)
    ensures ToExit(g, t) && t[0] == h && Until(t, p, h) == n && Trips(t, p, h, n) && Times(t, p) == 1
    ensures Times(t, b) == Times(v[..|v| - 1], b) + Times(z, b)
  {
    var y := v[..|v| - 1];
    t := y + z;
    HookExit(g, v, z);
    assert y[|y| - 1] == p;
    hide Walk, Times, Trips, Until;
    UntilStops(y, z, p, h);
    TripsJoin(y, z, p, h, n);
    TimesConcat(y, z, p);
    TimesConcat(y, z, b);
  }

  /** Laps inside the loop, and then one that leaves it and comes back. */
  lemma MiddleLaps(g: Graph, p: Block, h: Block, r: seq<Block>, d: seq<Block>, n: nat)
    requires n > 0 && p != h && Lap(g, r, h) && p !in r
    requires Lap(g, d, h) && d[|d| - 2] == p && Times(d[..|d| - 1], p) == 1
    ensures var v := Laps(r, n - 1, d);
      && Walk(g, v) && 1 < |v| && v[0] == h == v[|v| - 1] && v[|v| - 2] == p
      && Times(v[..|v| - 1], p) == 1 && Times(v[..|v| - 1], h) == n
  {
    LapsWalk(g, r, h, n - 1, d);
    LapsEnd(r, n - 1, d);
    TimesNone(r[..|r| - 1], p);
    MiddleTimes(g, h, r, d, n, p);
    MiddleTimes(g, h, r, d, n, h);
    InLapsKnown(r, n - 1, p);
    InLapsKnown(r, n - 1, h);
    hide Times, Walk, Laps, InLaps;
  }

  lemma MiddleTimes(g: Graph, h: Block, r: seq<Block>, d: seq<Block>, n: nat, x: Block)
    requires n > 0 && Lap(g, r, h) && Lap(g, d, h)
    ensures var v := Laps(r, n - 1, d);
      v != [] && Times(v[..|v| - 1], x) == InLaps(r, n - 1, x) + Times(d[..|d| - 1], x)
  {
    LapsWalk(g, r, h, n - 1, d);
    LapsTimes(r, n - 1, d, x);
    hide Times, Walk, Laps, InLaps;
    ButLast(Laps(r, n - 1, d), d, InLaps(r, n - 1, x), h, x);
  }

  /** Taking the last element off both. */
  lemma ButLast(v: seq<Block>, d: seq<Block>, m: nat, h: Block, x: Block)
    requires v != [] && d != [] && v[|v| - 1] == h == d[|d| - 1] && Times(v, x) == m + Times(d, x)
    ensures Times(v[..|v| - 1], x) == m + Times(d[..|d| - 1], x)
  {
    var y, f := v[..|v| - 1], d[..|d| - 1];
    assert v == y + [h] && d == f + [h];
    TimesConcat(y, [h], x);
    TimesConcat(f, [h], x);
  }

  lemma TimesSome(l: seq<Block>, p: Block)
    requires Times(l, p) == 0
    ensures forall i :: 0 <= i < |l| ==> l[i] != p
  {
    forall i | 0 <= i < |l| ensures l[i] != p {
      assert l[i] in l;
    }
  }

  lemma TimesNone(l: seq<Block>, p: Block)
    requires p !in l
    ensures Times(l, p) == 0
  {
  }

  lemma {:induction false} LapsEnd(l: seq<Block>, m: nat, z: seq<Block>)
    requires l != [] && 1 < |z|
    ensures var v := Laps(l, m, z); |z| <= |v| && v[|v| - 2] == z[|z| - 2]
  {
    if m != 0 {
      LapsEnd(l, m - 1, z);
    }
  }

  /** A trip count of `n` makes the header run `n` times for each entry. */
  lemma TripsHeader(pr: Program, k: nat, w: seq<Block>, n: nat)
    requires LaidOut(pr) && 0 < k < |pr.t| && FromEntry(pr.g, w) && Trips(w, pr.pre[k], pr.t[k].header, n)
    ensures Times(w, pr.t[k].header) == n * Times(w, pr.pre[k])
  {
    HeaderTimes(pr, k, w);
    ConstantEntries(w, pr.pre[k], pr.t[k].header, n);
  }

  /** A loop that can go round. */
  ghost predicate GoesRound(pr: Program, k: nat)
    requires k < |pr.t| == |pr.pre|
  {
    exists c :: ClosedWalk(pr.g, c) && pr.t[k].header in c && pr.pre[k] !in c
  }

  lemma Inserted(x: seq<Block>, y: seq<Block>, z: seq<Block>)
    ensures forall a :: Times((x + y) + z, a) == Times(x + z, a) + Times(y, a)
  {
  }

  /** A cycle that misses the header misses its split block. */
  lemma NoSplitAlone(pr: Program, k: nat, b: Block, d: seq<Block>)
    requires Claimed(pr, k, b) && ClosedWalk(pr.g, d) && pr.t[k].header !in d
    ensures pr.pre[k] !in d
  {
    SplitLeads(pr, k, b, d);
    forall i | 0 <= i < |d| - 1 ensures d[i] != pr.pre[k] {
      assert d[i + 1] in d;
    }
  }

  /** A cycle through the block alone can be added to a run without changing any trip. */
  lemma BlockAlone(pr: Program, k: nat, b: Block, c: seq<Block>, e: seq<Block>) returns (f: seq<Block>)
    requires Claimed(pr, k, b) && Leaving(pr.g, pr.pre[k], pr.t[k].header, e) && b in e
    requires ClosedWalk(pr.g, c) && b in c && pr.t[k].header !in c
    ensures Leaving(pr.g, pr.pre[k], pr.t[k].header, f) && Times(f, b) > Times(e, b)
  {
    var d := FromInside(pr.g, b, c);
    NoSplitAlone(pr, k, b, d);
    hide Claimed, Insert, Walk, Times;
    f := Insert(pr.g, e, d, b);
    InsertTimes(pr.g, e, d, b);
    TimesNone(d, pr.pre[k]);
    TimesNone(d, pr.t[k].header);
  }

  /** The walk `e` with a cycle through one of its blocks put in. */
  ghost function Insert(g: Graph, e: seq<Block>, d: seq<Block>, b: Block): (f: seq<Block>)
    requires ToExit(g, e) && b in e && ClosedWalk(g, d) && d[0] == b
    ensures ToExit(g, f) && f[0] == e[0]
  {
    var i := FirstAt(e, b);
    SubWalk(g, e, 0, i + 1);
    SubWalk(g, e, i, |e|);
    Join(g, e[..i + 1], d);
    Join(g, e[..i + 1] + d[1..], e[i..]);
    assert e[i..][1..] == e[i + 1..];
    (e[..i + 1] + d[1..]) + e[i + 1..]
  }

  lemma InsertTimes(g: Graph, e: seq<Block>, d: seq<Block>, b: Block)
    requires ToExit(g, e) && b in e && ClosedWalk(g, d) && d[0] == b
    ensures Times(Insert(g, e, d, b), b) > Times(e, b)
    ensures forall x :: Times(d, x) == 0 ==> Times(Insert(g, e, d, b), x) == Times(e, x)
  {
    var i := FirstAt(e, b);
    var f := (e[..i + 1] + d[1..]) + e[i + 1..];
    assert Insert(g, e, d, b) == f;
    hide Insert, Walk, Times;
    InsertedAt(e, d, i);
    assert Times(d[1..], b) > 0 by {
      assert d[1..][|d| - 2] == b;
      TimesIn(d[1..], b);
    }
    forall x | Times(d, x) == 0 ensures Times(f, x) == Times(e, x) {
      assert d == [d[0]] + d[1..];
      TimesConcat([d[0]], d[1..], x);
    }
  }

  lemma TimesIn(l: seq<Block>, x: Block)
    requires x in l
    ensures Times(l, x) > 0
  {
  }

  lemma InsertedAt(e: seq<Block>, d: seq<Block>, i: nat)
    requires i < |e| && d != []
    ensures forall x :: Times((e[..i + 1] + d[1..]) + e[i + 1..], x) == Times(e, x) + Times(d[1..], x)
  {
    assert e == e[..i + 1] + e[i + 1..];
    Inserted(e[..i + 1], d[1..], e[i + 1..]);
  }

  /** A counter on the entry edge, times a constant trip count of at least two, is right for the block in
      all runs with these trips if and only if no cycle passes the header without the block or the block
      without the header. */
  lemma StaticRightIffTied(pr: Program, k: nat, b: Block, n: nat)
    requires Claimed(pr, k, b) && GoesRound(pr, k) && 2 <= n
    ensures StaticRight(pr, k, b, n) <==> Tied(pr.g, pr.t[k].header, b)
  {
    var h := pr.t[k].header;
    if Tied(pr.g, h, b) {
      forall w | Run(pr.g, w) && Trips(w, pr.pre[k], h, n) ensures n * Times(w, pr.pre[k]) == Times(w, b) {
        TripsHeader(pr, k, w, n);
        EqualTimes(pr.g, h, b, w);
      }
    } else {
      var w := WrongRun(pr, k, b, n);
    }
  }

  lemma WrongRun(pr: Program, k: nat, b: Block, n: nat) returns (w: seq<Block>)
    requires Claimed(pr, k, b) && GoesRound(pr, k) && 2 <= n && !Tied(pr.g, pr.t[k].header, b)
    ensures Run(pr.g, w) && Trips(w, pr.pre[k], pr.t[k].header, n) && n * Times(w, pr.pre[k]) != Times(w, b)
  {
    var p, h := pr.pre[k], pr.t[k].header;
    if b == h { TiedSelf(pr.g, h); }
    var round :| ClosedWalk(pr.g, round) && h in round && p !in round;
    var r := FirstLap(pr.g, h, round);
    var e := Departure(pr, k, b);
    var c :| ClosedWalk(pr.g, c) && !(h in c <==> b in c);
    hide Claimed, Run, Trips, Tied, Leaving;
    if h in c {
      var l := FirstLap(pr.g, h, c);
      assert b !in l[..|l| - 1];
      if p in l {
        w := TwoEntries(pr, k, b, r, l, e, n);
        OddEven(InLaps(r, n - 1, b), n);
      } else {
        w := OneEntry(pr, k, b, l, e, n);
        InLapsKnown(l, n - 1, b);
      }
    } else {
      w := OneEntry(pr, k, b, r, e, n);
      if n * Times(w, p) == Times(w, b) {
        var f := BlockAlone(pr, k, b, c, e);
        w := OneEntry(pr, k, b, r, f, n);
      }
    }
  }

  lemma OddEven(x: nat, n: nat)
    ensures 2 * x + 1 != n * 2
  {
  }

  /** The same for a loop chained to its parent: with the parent's trip count constant and at least two, the
      child is entered that often for each entry of the parent, in all runs with this count, if and only if
      no cycle passes the parent's header without the child's split block or the other way round. */
  lemma EntriesPerTripIffTied(pr: Program, k: nat, n: nat)
    requires LaidOut(pr) && 0 < k < |pr.t| && 0 < pr.t[k].parent && 2 <= n
    requires Claimed(pr, pr.t[k].parent, pr.t[k].header) && GoesRound(pr, pr.t[k].parent)
    ensures StaticRight(pr, pr.t[k].parent, pr.pre[k], n) <==> Tied(pr.g, pr.t[pr.t[k].parent].header, pr.pre[k])
  {
    ParentDominatesEntry(pr, k);
    EntryPostDominates(pr, k);
    hide LaidOut, GoesRound, StaticRight, Tied;
    StaticRightIffTied(pr, pr.t[k].parent, pr.pre[k], n);
  }

  // ---- A loop that runs once ----------------------------------------------------------

  /** No cycle passes the block without the header, and no way round through the split block passes the
      header without the block. */
  ghost predicate ReturnsMeet(pr: Program, k: nat, b: Block)
    requires k < |pr.t| == |pr.pre|
  {
    && (forall c :: ClosedWalk(pr.g, c) && b in c ==> pr.t[k].header in c)
    && (forall l :: Lap(pr.g, l, pr.t[k].header) && pr.pre[k] in l ==> b in l)
  }

  lemma LeavingTrips(g: Graph, p: Block, h: Block, e: seq<Block>)
    requires Leaving(g, p, h, e)
    ensures Until(e, p, h) == 1 && Trips(e, p, h, 1)
  {
    UntilNever(e, p, h);
    TimesSome(e, p);
  }

  lemma WrongOnce(pr: Program, k: nat, b: Block) returns (w: seq<Block>)
    requires Claimed(pr, k, b) && b != pr.t[k].header && !ReturnsMeet(pr, k, b)
    ensures Run(pr.g, w) && Trips(w, pr.pre[k], pr.t[k].header, 1) && Times(w, pr.pre[k]) != Times(w, b)
  {
    var g, p, h := pr.g, pr.pre[k], pr.t[k].header;
    assert p != h by { assert NaturalLoop(pr, k); }
    var a := Arrival(pr, k, b);
    var e := Departure(pr, k, b);
    LeavingTrips(g, p, h, e);
    if c :| ClosedWalk(g, c) && b in c && h !in c {
      TimesSomewhere(e, b);
      var f := BlockAlone(pr, k, b, c, e);
      LeavingTrips(g, p, h, f);
      hide Claimed, Lap;
      w := Approach(g, a, f, p, h, b, 1);
    } else {
      var l :| Lap(g, l, h) && p in l && b !in l;
      LapEntry(pr, k, b, l);
      TimesNone(l[..|l| - 1], b);
      hide Claimed;
      var t := Rejoin(g, l, e, p, h, b, 1);
      hide Lap;
      w := Approach(g, a, t, p, h, b, 1);
    }
  }

  lemma TimesSomewhere(l: seq<Block>, x: Block)
    requires Times(l, x) > 0
    ensures x in l
  {
  }

  lemma {:induction false} UntilSkip(x: seq<Block>, y: seq<Block>, p: Block, h: Block)
    requires p !in x
    ensures Until(x + y, p, h) == Times(x, h) + Until(y, p, h)
  {
    if x == [] {
      assert x + y == y;
    } else {
      assert (x + y)[1..] == x[1..] + y && x[0] in x;
      TimesCons(x, h);
      UntilSkip(x[1..], y, p, h);
    }
  }

  lemma UntilTwice(q: seq<Block>, p: Block, h: Block, i: nat, j: nat)
    requires i < j < |q| && q[i] == q[j] == h && p !in q[..j + 1]
    ensures Until(q, p, h) >= 2
  {
    assert q == q[..j + 1] + q[j + 1..];
    UntilSkip(q[..j + 1], q[j + 1..], p, h);
    TwiceIn(q[..j + 1], h, i, j);
  }

  lemma EnteredAgain(w: seq<Block>, p: Block, h: Block, i: nat, j: nat)
    requires Trips(w, p, h, 1) && i < j < |w| && w[i] == w[j] == h && p in w[..i]
    ensures p in w[i..j + 1]
  {
    var m := LastAt(w[..i], p);
    assert w[m] == p && Until(w[m + 1..], p, h) == 1;
    var q := w[m + 1..];
    hide Until, Trips;
    if p !in w[i..j + 1] {
      assert q[..j - m] == w[..i][m + 1..] + w[i..j + 1];
      UntilTwice(q, p, h, i - m - 1, j - m - 1);
    }
  }

  /** Between two runs of the header its loop is entered again. */
  lemma EntryBetween(pr: Program, k: nat, w: seq<Block>, i: nat, j: nat)
    requires LaidOut(pr) && 0 < k < |pr.t| && FromEntry(pr.g, w) && Trips(w, pr.pre[k], pr.t[k].header, 1)
    requires i < j < |w| && w[i] == w[j] == pr.t[k].header
    ensures pr.pre[k] in w[i..j + 1]
  {
    var p, h := pr.pre[k], pr.t[k].header;
    var f := FirstAt(w, h);
    ArrivesFromEntry(pr, k, w, f);
    hide LaidOut;
    assert w[..i][f - 1] == p;
    EnteredAgain(w, p, h, i, j);
  }

  lemma TwiceIn(x: seq<Block>, h: Block, i: nat, j: nat)
    requires i < j < |x| && x[i] == x[j] == h
    ensures Times(x, h) >= 2
  {
    assert x == x[..i] + [h] + x[i + 1..j] + [h] + x[j + 1..];
  }

  lemma HeaderBetween(pr: Program, k: nat, b: Block, w: seq<Block>, m: nat, n: nat)
    requires k < |pr.t| == |pr.pre| && ReturnsMeet(pr, k, b) && Walk(pr.g, w) && m < n < |w| && w[m] == w[n] == b
    ensures pr.t[k].header in w[m..n + 1]
  {
    SubWalk(pr.g, w, m, n + 1);
    assert ClosedWalk(pr.g, w[m..n + 1]);
  }

  lemma BlockBetween(pr: Program, k: nat, b: Block, w: seq<Block>, m: nat, n: nat)
    requires LaidOut(pr) && 0 < k < |pr.t| && ReturnsMeet(pr, k, b)
    requires FromEntry(pr.g, w) && Trips(w, pr.pre[k], pr.t[k].header, 1)
    requires m < n < |w| && w[m] == w[n] == pr.t[k].header && pr.t[k].header !in w[m + 1..n]
    ensures b in w[m..n + 1]
  {
    EntryBetween(pr, k, w, m, n);
    hide LaidOut, Trips;
    var c, mid := w[m..n + 1], w[m + 1..n];
    SubWalk(pr.g, w, m, n + 1);
    assert c == [pr.t[k].header] + mid + [pr.t[k].header];
    OneLap(pr.g, c, mid, pr.t[k].header);
  }

  /** In a run that enters the loop for one iteration at a time, header and block take turns. */
  lemma TakeTurns(pr: Program, k: nat, b: Block, w: seq<Block>, n: nat)
    requires Claimed(pr, k, b) && b != pr.t[k].header && ReturnsMeet(pr, k, b) && n < |w|
    requires Run(pr.g, w) && Trips(w, pr.pre[k], pr.t[k].header, 1)
    ensures InTurn(w, pr.t[k].header, b, n)
  {
    var h := pr.t[k].header;
    var m := LastOf(w, n, h, b);
    LastOfIsLast(w, n, h, b);
    if 0 <= m {
      Among(w, m, n);
      if w[n] == h && w[m] == h {
        BlockBetween(pr, k, b, w, m, n);
      } else if w[n] == b && w[m] == b {
        HeaderBetween(pr, k, b, w, m, n);
      }
    } else if w[n] == b {
      var j := DomBefore(pr.g, h, b, w, n);
    }
  }

  lemma Among(w: seq<Block>, m: nat, n: nat)
    requires m < n < |w|
    ensures w[m..n + 1] == [w[m]] + w[m + 1..n] + [w[n]]
  {
  }

  lemma OneLap(g: Graph, c: seq<Block>, mid: seq<Block>, h: Block)
    requires Walk(g, c) && c == [h] + mid + [h] && h !in mid
    ensures Lap(g, c, h)
  {
    assert c[..|c| - 1] == [h] + mid;
  }

  /** With a constant trip count of one, the counter on the entry edge is right for the block in all runs
      with this count if and only if no cycle passes the block without the header, and no way round
      through the split block passes the header without the block. */
  lemma OnceRightIffReturnsMeet(pr: Program, k: nat, b: Block)
    requires Claimed(pr, k, b)
    ensures StaticRight(pr, k, b, 1) <==> ReturnsMeet(pr, k, b)
  {
    var p, h := pr.pre[k], pr.t[k].header;
    if b == h {
      assert ReturnsMeet(pr, k, b);
      forall w | Run(pr.g, w) && Trips(w, p, h, 1) ensures 1 * Times(w, p) == Times(w, b) {
        TripsHeader(pr, k, w, 1);
      }
    } else if ReturnsMeet(pr, k, b) {
      forall w | Run(pr.g, w) && Trips(w, p, h, 1) ensures 1 * Times(w, p) == Times(w, b) {
        TripsHeader(pr, k, w, 1);
        forall n | 0 <= n < |w| ensures InTurn(w, h, b, n) {
          TakeTurns(pr, k, b, w, n);
        }
        InTurnEqual(pr.g, h, b, w);
      }
    } else {
      var w := WrongOnce(pr, k, b);
    }
  }

  lemma InTurnEqual(g: Graph, h: Block, b: Block, w: seq<Block>)
    requires PDom(g, b, h) && h != b && Run(g, w) && forall n :: 0 <= n < |w| ==> InTurn(w, h, b, n)
    ensures Times(w, h) == Times(w, b)
  {
    var n := |w|;
    assert w[..n] == w;
    AlternatingTimes(w, h, b, n);
    TimesFromStart(w, n, h);
    TimesFromStart(w, n, b);
    var m := LastOf(w, n, h, b);
    LastOfIsLast(w, n, h, b);
    if 0 <= m && w[m] == h {
      var j := PDomAfter(g, b, h, w, m);
    }
  }

  // ---- What the structure of a loop gives --------------------------------------------

  /** The blocks of a loop from which its trip count is known: the blocks it is left from dominate the
      ones it is continued from. */
  ghost predicate Countable(g: Graph, h: Block, body: set<Block>) {
    && h in body && (forall x :: x in body ==> Dom(g, h, x) && x !in g.exits)
    && (forall x, y, z :: x in body && y !in body && (x, y) in g.edges && z in body && (z, h) in g.edges ==>
          Dom(g, x, z))
  }

  lemma {:induction false} LastInside(q: seq<Block>, body: set<Block>) returns (i: nat)
    requires q != [] && q[0] in body && q[|q| - 1] !in body
    ensures i < |q| - 1 && q[i] in body && forall j :: i < j < |q| ==> q[j] !in body
  {
    i := |q| - 2;
    while q[i] !in body
      invariant i < |q| - 1 && forall j :: i < j < |q| ==> q[j] !in body
      decreases i
    {
      i := i - 1;
    }
  }

  /** The block from which a way out finally leaves the loop lies on every way round. */
  lemma ExitOnRound(g: Graph, h: Block, body: set<Block>, x: Block, s: seq<Block>)
    requires Countable(g, h, body) && x in body && Reachable(g, h) && ClosedWalk(g, s) && s[0] == h
    requires Dom(g, x, s[|s| - 2])
    ensures x in s
  {
    var a := Arrive(g, h);
    SubWalk(g, s, 0, |s| - 1);
    var t := s[..|s| - 1];
    Join(g, a, t);
    var r := a + t[1..];
    assert FromEntry(g, r) && r[|r| - 1] == t[|t| - 1] == s[|s| - 2];
    assert x in a || x in t;
    if |a| > 1 {
      SubWalk(g, a, 0, |a| - 1);
      NotBefore(g, h, x, a[..|a| - 1]);
    }
    assert a == a[..|a| - 1] + [h];
  }

  /** No iteration that stays in the loop skips a block that post-dominates the header: otherwise one
      could go along it to the block where a way out leaves the loop, and out from there. */
  lemma IterationsMeet(g: Graph, h: Block, b: Block, body: set<Block>, s: seq<Block>)
    requires Countable(g, h, body) && b in body && PDom(g, b, h) && Reachable(g, h) && Exiting(g, h)
    requires ClosedWalk(g, s) && s[0] == h && forall y :: y in s ==> y in body
    ensures b in s
  {
    var q :| ToExit(g, q) && q[0] == h;
    assert q[|q| - 1] !in body;
    var i := LastInside(q, body);
    assert StepAt(g, q, i + 1) && StepAt(g, s, |s| - 1);
    assert s[|s| - 2] in s;
    ExitOnRound(g, h, body, q[i], s);
    hide Countable, Walk;
    Detour(g, h, b, s, q[i..]) by {
      SubWalk(g, q, i, |q|);
    }
    assert q[i..] == [q[i]] + q[i + 1..];
  }

  /** Going along `s` as far as the start of `q`, and then along `q`, one meets what post-dominates. */
  lemma Detour(g: Graph, h: Block, b: Block, s: seq<Block>, q: seq<Block>)
    requires PDom(g, b, h) && Walk(g, s) && s[0] == h && ToExit(g, q) && q[0] in s
    ensures b in s || b in q
  {
    var j := FirstAt(s, q[0]);
    SubWalk(g, s, 0, j + 1);
    Join(g, s[..j + 1], q);
    var r := s[..j + 1] + q[1..];
    assert ToExit(g, r) && r[0] == h;
  }

  /** A way out of the loop and back to its header meets the block. */
  ghost predicate NoEarlyReturn(g: Graph, h: Block, b: Block, body: set<Block>) {
    forall c :: ClosedWalk(g, c) && h in c && Outside(c, body) ==> b in c
  }

  ghost predicate Outside(c: seq<Block>, body: set<Block>) {
    exists x :: x in c && x !in body
  }

  /** For a block of no inner cycle in a loop whose trip count is known, the condition comes down to this:
      no way out of the loop and back in misses the block. */
  lemma TiedIffNoEarlyReturn(g: Graph, h: Block, b: Block, body: set<Block>)
    requires Countable(g, h, body) && b in body && PDom(g, b, h) && Reachable(g, h) && Exiting(g, h)
    requires forall c :: ClosedWalk(g, c) && b in c ==> h in c
    ensures Tied(g, h, b) <==> NoEarlyReturn(g, h, b, body)
  {
    if NoEarlyReturn(g, h, b, body) {
      forall c | ClosedWalk(g, c) && h in c ensures b in c {
        if !Outside(c, body) {
          var s := FromInside(g, h, c);
          IterationsMeet(g, h, b, body, s);
        }
      }
    }
  }

  // ---- A loop left before the block is met ---------------------------------------------

  /** An outer loop 2 -> 3 -> 4 -> 6 -> 2, entered through 1; an inner loop 4 -> 5 -> 4, entered through 3,
      that is left from its header for 6, and from 5 for the exit 7.  The inner loop has one latch and
      two exits, both on every iteration, and 5 lies on every way out of the function. */
  const EARLY := Graph({(0, 1), (1, 2), (2, 3), (3, 4), (4, 5), (4, 6), (5, 4), (5, 7), (6, 2)}, {0}, {7})
  const EARLY_TREE := [LoopNode(0, 3, 0, 0, [], false, false), LoopNode(0, 3, 2, 0, [2, 6], false, false),
                       LoopNode(1, 3, 4, 0, [4, 5], true, true)]

  /** The inner loop's header runs twice on the first entry and once on the second. */
  function EarlyCount(k: nat, i: nat): nat {
    if i == 3 then 1 else 0
  }

  const EARLY_PROGRAM := Program(EARLY, EARLY_TREE, [0, 1, 3], (k, i) => EarlyCount(k, i))
  const EARLY_RUN: seq<Block> := [0, 1, 2, 3, 4, 5, 4, 6, 2, 3, 4, 5, 7]
  const EARLY_HOIST := Dynamic(2, [4, 5])

  lemma EarlyDom()
    ensures Dom(EARLY, 2, 4) && Dom(EARLY, 2, 6) && Dom(EARLY, 4, 5) && Dom(EARLY, 2, 2) && Dom(EARLY, 4, 4)
  {
    forall p | FromEntry(EARLY, p) && p[|p| - 1] == 5 ensures 4 in p {
      assert StepAt(EARLY, p, |p| - 1);
    }
    forall p | FromEntry(EARLY, p) && p[|p| - 1] == 4 ensures 2 in p {
      EarlyArrival(p, 4);
    }
    forall p | FromEntry(EARLY, p) && p[|p| - 1] == 6 ensures 2 in p {
      assert StepAt(EARLY, p, |p| - 1);
      EarlyArrival(p, 4);
    }
  }

  lemma EarlyArrival(p: seq<Block>, x: Block)
    requires FromEntry(EARLY, p) && x == 4 && x in p
    ensures 2 in p
  {
    var i := FirstAt(p, 4);
    assert StepAt(EARLY, p, i);
    if p[i - 1] == 5 {
      assert StepAt(EARLY, p, i - 1);
    } else {
      assert StepAt(EARLY, p, i - 1);
    }
  }

  lemma EarlyPDom()
    ensures PDom(EARLY, 5, 4)
  {
    forall p | ToExit(EARLY, p) && p[0] == 4 ensures 5 in p {
      assert StepAt(EARLY, p, |p| - 1);
    }
  }

  lemma EarlyLoops()
    ensures NaturalLoop(EARLY_PROGRAM, 1) && NaturalLoop(EARLY_PROGRAM, 2)
  {
    EarlyDom();
    hide Dom;
  }

  lemma EarlyWellFormed()
    ensures WellFormed(EARLY_TREE)
  {
    var t := EARLY_TREE;
    assert |t| == 3 && t[0].parent == 0 && t[0].end == 3 && t[1].parent == 0 && t[1].end == 3;
    assert t[2].parent == 1 && t[2].end == 3;
    forall i, c | 0 <= i < c < |t| ensures c < t[i].end && i <= t[c].parent && t[c].end <= t[i].end {
      assert c == 1 || c == 2;
    }
  }

  lemma EarlyLaidOut()
    ensures LaidOut(EARLY_PROGRAM)
  {
    EarlyWellFormed();
    EarlyLoops();
    hide NaturalLoop, WellFormed;
  }

  lemma EarlyCounter(tr: Trees)
    requires WellFormed(EARLY_TREE) && tr.pdom(5, 4) && tr.pdom(4, 4)
    ensures CounterOk(EARLY_TREE, tr, EARLY_HOIST)
  {
    hide WellFormed;
    assert EARLY_TREE[2].unique == [4, 5] && EARLY_TREE[2].header == 4;
  }

  lemma EarlyCountable()
    ensures Countable(EARLY, 4, {4, 5})
  {
    EarlyDom();
    assert Dom(EARLY, 5, 5);
    hide Dom;
  }

  /** The pass may hoist blocks 4 and 5 together, and the trip count is one that can be computed. */
  lemma EarlyPlaced(tr: Trees)
    requires tr.Faithful(EARLY)
    ensures LaidOut(EARLY_PROGRAM) && CounterOk(EARLY_TREE, tr, EARLY_HOIST) && Countable(EARLY, 4, {4, 5})
  {
    EarlyPDom();
    assert PDom(EARLY, 4, 4);
    assert tr.pdom(5, 4) && tr.pdom(4, 4);
    hide *;
    EarlyLaidOut();
    EarlyWellFormed();
    EarlyCounter(tr);
    EarlyCountable();
  }

  lemma EarlyRun()
    ensures Run(EARLY, EARLY_RUN)
  {
    forall i | 0 < i < |EARLY_RUN| ensures StepAt(EARLY, EARLY_RUN, i) {
    }
  }

  lemma FirstTrip()
    ensures Until(EARLY_RUN[3 + 1..], 3, 4) == 2
  {
    var s := [3, 4, 5, 7];
    var s2, s3 := [6] + ([2] + s), [4] + ([6] + ([2] + s));
    assert EARLY_RUN[3 + 1..] == [4] + ([5] + s3);
    UntilCons(4, [5] + s3, 3, 4);
    UntilCons(5, s3, 3, 4);
    UntilCons(4, s2, 3, 4);
    UntilCons(6, [2] + s, 3, 4);
    UntilCons(2, s, 3, 4);
  }

  lemma SecondTrip()
    ensures Until(EARLY_RUN[9 + 1..], 3, 4) == 1
  {
    assert EARLY_RUN[9 + 1..] == [4] + ([5] + ([7] + []));
    UntilCons(4, [5] + ([7] + []), 3, 4);
    UntilCons(5, [7] + [], 3, 4);
    UntilCons(7, [], 3, 4);
  }

  lemma EarlyEntries(i: nat)
    requires i < |EARLY_RUN| && EARLY_RUN[i] == 3
    ensures i == 3 || i == 9
  {
  }

  lemma EarlyCounts()
    ensures TripCounts(EARLY_PROGRAM, EARLY_RUN)
  {
    hide Until;
    forall k, i | 0 < k < |EARLY_TREE| && 0 <= i < |EARLY_RUN| && EARLY_RUN[i] == EARLY_PROGRAM.pre[k] && k == 2
      ensures Until(EARLY_RUN[i + 1..], 3, 4) == EarlyCount(k, i) + 1
    {
      EarlyEntries(i);
      FirstTrip();
      SecondTrip();
    }
  }

  ghost predicate Miscounts(w: seq<Block>) {
    && Run(EARLY, w) && TripCounts(EARLY_PROGRAM, w)
    && Value(EARLY_PROGRAM, w, EARLY_HOIST) * Mix(EARLY_HOIST, One) != Executed(w, [4, 5], One)
  }

  lemma EarlyCosts()
    ensures Mix(EARLY_HOIST, One) == 2
    ensures forall w :: Executed(w, [4, 5], One) == Times(w, 4) + Times(w, 5)
  {
    hide Times;
    var l := [4, 5];
    assert l[1..] == [5] && [5][1..] == [];
    assert Cost([5], One) == 1;
    forall w ensures Executed(w, l, One) == Times(w, 4) + Times(w, 5) {
      assert Executed(w, [5], One) == Times(w, 5) * 1;
    }
  }

  /** Post-dominating the header of a loop whose trip count is known does not make a block run once per
      iteration: the last iteration may leave the loop before the block, if the loop is entered again.
      The counter that the pass places, advanced by the right count at each entry, is wrong. */
  lemma EarlyExitMiscounts(tr: Trees)
    requires tr.Faithful(EARLY)
    ensures LaidOut(EARLY_PROGRAM) && CounterOk(EARLY_TREE, tr, EARLY_HOIST) && Countable(EARLY, 4, {4, 5})
    ensures exists w :: Miscounts(w)
  {
    EarlyPlaced(tr);
    EarlyWrong();
  }

  lemma EarlyTimes()
    ensures Times(EARLY_RUN, 4) == 3 && Times(EARLY_RUN, 5) == 2
  {
  }

  lemma EarlyWrong()
    ensures Miscounts(EARLY_RUN)
  {
    EarlyLaidOut();
    EarlyRun();
    EarlyCounts();
    EarlyCosts();
    EarlyTimes();
    assert EARLY_TREE[2].scale == 0 && EARLY_TREE[2].computable && EARLY_TREE[2].header == 4;
    hide Mix, Executed, LaidOut, Times, TripCounts;
    DynamicTrips(EARLY_PROGRAM, 2, EARLY_RUN);
  }
}
