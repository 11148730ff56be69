/** Control-flow graphs, with dominance and post-dominance defined by walks.

    A graph may have several entries and exits.  A function has one entry; allowing a set makes
    post-dominance the mirror image of dominance (see `Rev`), so that every fact is proved once. */
module Cfg {
  type Block = nat

  datatype Graph = Graph(edges: set<(Block, Block)>, entries: set<Block>, exits: set<Block>)

  /** The step of `p` that arrives at position `i` follows an edge. */
  ghost predicate StepAt(g: Graph, p: seq<Block>, i: nat)
    requires 0 < i < |p|
  {
    (p[i - 1], p[i]) in g.edges
  }

  ghost predicate Walk(g: Graph, p: seq<Block>) {
    && p != []
    && forall i :: 0 < i < |p| ==> StepAt(g, p, i)
  }

  ghost predicate FromEntry(g: Graph, p: seq<Block>) {
    Walk(g, p) && p[0] in g.entries
  }

  ghost predicate ToExit(g: Graph, p: seq<Block>) {
    Walk(g, p) && p[|p| - 1] in g.exits
  }

  /** A complete run of the function. */
  ghost predicate Run(g: Graph, w: seq<Block>) {
    FromEntry(g, w) && ToExit(g, w)
  }

  ghost predicate ClosedWalk(g: Graph, p: seq<Block>) {
    Walk(g, p) && 1 < |p| && p[0] == p[|p| - 1]
  }

  ghost predicate Dom(g: Graph, a: Block, b: Block) {
    forall p :: FromEntry(g, p) && p[|p| - 1] == b ==> a in p
  }

  ghost predicate PDom(g: Graph, a: Block, b: Block) {
    forall p :: ToExit(g, p) && p[0] == b ==> a in p
  }

  ghost predicate Reachable(g: Graph, b: Block) {
    exists p :: FromEntry(g, p) && p[|p| - 1] == b
  }

  ghost predicate Exiting(g: Graph, b: Block) {
    exists p :: ToExit(g, p) && p[0] == b
  }

  /** Every cycle through one of the two blocks passes the other: neither can run twice without
      the other running in between. */
  ghost predicate Tied(g: Graph, a: Block, b: Block) {
    forall p :: ClosedWalk(g, p) ==> (a in p <==> b in p)
  }

  /** The test `createPostDomSets` makes with anchor `b`. */
  ghost predicate Follows(g: Graph, b: Block, x: Block) {
    PDom(g, x, b) && Dom(g, b, x)
  }

  /** Control equivalence: the symmetric closure of that test. */
  ghost predicate CtrlEq(g: Graph, b: Block, x: Block) {
    Follows(g, b, x) || Follows(g, x, b)
  }

  /** How often a run executes a block. */
  ghost function Times(w: seq<Block>, b: Block): nat {
    multiset(w)[b]
  }

  // ---- Walks --------------------------------------------------------------

  lemma SubWalk(g: Graph, p: seq<Block>, i: nat, j: nat)
    requires Walk(g, p) && i < j <= |p|
    ensures Walk(g, p[i..j])
    ensures Walk(g, p[i..]) && Walk(g, p[..j])
  {
    assert p[i..] == p[i..|p|] && p[..j] == p[0..j];
    SubWalkStep(g, p, i, j);
    SubWalkStep(g, p, i, |p|);
    SubWalkStep(g, p, 0, j);
  }

  lemma SubWalkStep(g: Graph, p: seq<Block>, i: nat, j: nat)
    requires Walk(g, p) && i < j <= |p|
    ensures Walk(g, p[i..j])
  {
    forall k | 0 < k < j - i ensures StepAt(g, p[i..j], k) {
      assert StepAt(g, p, i + k);
    }
  }

  /** Two walks that meet in a block make one walk. */
  lemma Join(g: Graph, p: seq<Block>, q: seq<Block>)
    requires Walk(g, p) && Walk(g, q) && p[|p| - 1] == q[0]
    ensures Walk(g, p + q[1..])
    ensures (p + q[1..])[0] == p[0] && (p + q[1..])[|p| + |q| - 2] == q[|q| - 1]
    ensures forall b :: b in p + q[1..] <==> b in p || b in q
  {
    var r := p + q[1..];
    forall k | 0 < k < |r| ensures StepAt(g, r, k) {
      if k < |p| {
        assert StepAt(g, p, k);
      } else {
        assert StepAt(g, q, k - |p| + 1);
      }
    }
    assert q == [q[0]] + q[1..];
  }

  ghost function FirstAt(p: seq<Block>, b: Block): (i: nat)
    requires b in p
    ensures i < |p| && p[i] == b && b !in p[..i]
    ensures forall j :: 0 <= j < i ==> p[j] != b
  {
    if p[0] == b then 0 else
      var i := FirstAt(p[1..], b);
      assert p[..i + 1] == [p[0]] + p[1..][..i];
      i + 1
  }

  ghost function LastAt(p: seq<Block>, b: Block): (i: nat)
    requires b in p
    ensures i < |p| && p[i] == b && b !in p[i + 1..]
  {
    if p[|p| - 1] == b then |p| - 1 else
      assert p == p[..|p| - 1] + [p[|p| - 1]];
      var i := LastAt(p[..|p| - 1], b);
      assert p[i + 1..] == p[..|p| - 1][i + 1..] + [p[|p| - 1]];
      i
  }

  /** A block is reached by a walk that visits it only at the end. */
  lemma Arrive(g: Graph, b: Block) returns (p: seq<Block>)
    requires Reachable(g, b)
    ensures FromEntry(g, p) && p[|p| - 1] == b && b !in p[..|p| - 1]
  {
    var q :| FromEntry(g, q) && q[|q| - 1] == b;
    var i := FirstAt(q, b);
    SubWalk(g, q, 0, i + 1);
    p := q[..i + 1];
    assert p[..|p| - 1] == q[..i];
  }

  /** A dominator of the block at position `i` occurs at or before `i`. */
  lemma DomBefore(g: Graph, a: Block, b: Block, p: seq<Block>, i: nat) returns (j: nat)
    requires Dom(g, a, b) && FromEntry(g, p) && i < |p| && p[i] == b
    ensures j <= i && p[j] == a
  {
    SubWalk(g, p, 0, i + 1);
    assert FromEntry(g, p[..i + 1]) && p[..i + 1][i] == b;
    j :| 0 <= j <= i && p[..i + 1][j] == a;
  }

  /** A post-dominator of the block at position `i` occurs at or after `i`. */
  lemma PDomAfter(g: Graph, a: Block, b: Block, p: seq<Block>, i: nat) returns (j: nat)
    requires PDom(g, a, b) && ToExit(g, p) && i < |p| && p[i] == b
    ensures i <= j < |p| && p[j] == a
  {
    SubWalk(g, p, i, |p|);
    assert ToExit(g, p[i..]) && p[i..][0] == b;
    var m :| 0 <= m < |p| - i && p[i..][m] == a;
    j := i + m;
  }

  /** If `b` dominates `z`, a first arrival at `b` has not met `z`. */
  lemma ArriveBefore(g: Graph, b: Block, z: Block) returns (p: seq<Block>)
    requires Reachable(g, b) && Dom(g, b, z) && z != b
    ensures FromEntry(g, p) && p[|p| - 1] == b && z !in p
  {
    p := Arrive(g, b);
    if z in p {
      var i := FirstAt(p, z);
      var j := DomBefore(g, b, z, p, i);
    }
  }

  // ---- Mirror image --------------------------------------------------------

  ghost function Rev(g: Graph): Graph {
    Graph(set e | e in g.edges :: (e.1, e.0), g.exits, g.entries)
  }

  ghost function Flip(p: seq<Block>): (q: seq<Block>)
    ensures |q| == |p|
    ensures forall i :: 0 <= i < |p| ==> q[i] == p[|p| - 1 - i]
    ensures forall b :: b in q <==> b in p
  {
    var q := seq(|p|, i requires 0 <= i < |p| => p[|p| - 1 - i]);
    assert forall i :: 0 <= i < |p| ==> p[i] == q[|p| - 1 - i];
    q
  }

  lemma FlipWalk(g: Graph, p: seq<Block>)
    requires Walk(g, p)
    ensures Walk(Rev(g), Flip(p))
  {
    var q := Flip(p);
    forall i | 0 < i < |q| ensures StepAt(Rev(g), q, i) {
      assert StepAt(g, p, |p| - i);
    }
  }

  lemma RevRev(g: Graph)
    ensures Rev(Rev(g)) == g
  {
    forall e | e in g.edges ensures e in Rev(Rev(g)).edges {
      assert (e.1, e.0) in Rev(g).edges;
    }
  }

  lemma {:induction false} Mirror(g: Graph, a: Block, b: Block)
    ensures PDom(g, a, b) <==> Dom(Rev(g), a, b)
    ensures Dom(g, a, b) <==> PDom(Rev(g), a, b)
    ensures Exiting(g, b) ==> Reachable(Rev(g), b)
  {
    MirrorHalf(g, a, b);
    MirrorHalf(Rev(g), a, b);
    RevRev(g);
    if Exiting(g, b) {
      var p :| ToExit(g, p) && p[0] == b;
      FlipWalk(g, p);
      assert FromEntry(Rev(g), Flip(p));
    }
  }

  lemma MirrorHalf(g: Graph, a: Block, b: Block)
    ensures Dom(Rev(g), a, b) ==> PDom(g, a, b)
    ensures PDom(Rev(g), a, b) ==> Dom(g, a, b)
  {
    if Dom(Rev(g), a, b) {
      forall p | ToExit(g, p) && p[0] == b ensures a in p {
        FlipWalk(g, p);
        assert FromEntry(Rev(g), Flip(p));
      }
    }
    if PDom(Rev(g), a, b) {
      forall p | FromEntry(g, p) && p[|p| - 1] == b ensures a in p {
        FlipWalk(g, p);
        assert ToExit(Rev(g), Flip(p));
      }
    }
  }

  // ---- Dominance -----------------------------------------------------------

  lemma DomTransitive(g: Graph, a: Block, b: Block, c: Block)
    requires Dom(g, a, b) && Dom(g, b, c)
    ensures Dom(g, a, c)
  {
    forall p | FromEntry(g, p) && p[|p| - 1] == c ensures a in p {
      var i := FirstAt(p, b);
      var j := DomBefore(g, a, b, p, i);
    }
  }

  lemma PDomTransitive(g: Graph, a: Block, b: Block, c: Block)
    requires PDom(g, a, b) && PDom(g, b, c)
    ensures PDom(g, a, c)
  {
    Mirror(g, a, b);
    Mirror(g, b, c);
    DomTransitive(Rev(g), a, b, c);
    Mirror(g, a, c);
  }

  /** Following a walk from the last `z` on, `b` is not met again, so `b` must dominate `z`. */
  lemma DomFromSuffix(g: Graph, b: Block, z: Block, x: Block, p: seq<Block>, i: nat)
    requires Dom(g, b, x) && FromEntry(g, p) && p[|p| - 1] == x
    requires i < |p| && p[i] == z && b !in p[i..]
    ensures Dom(g, b, z)
  {
    forall q | FromEntry(g, q) && q[|q| - 1] == z ensures b in q {
      SubWalk(g, p, i, |p|);
      Join(g, q, p[i..]);
      assert FromEntry(g, q + p[i..][1..]);
    }
  }

  /** The dominators of a reachable block form a chain. */
  lemma DomChain(g: Graph, b: Block, z: Block, x: Block)
    requires Reachable(g, x) && Dom(g, b, x) && Dom(g, z, x)
    ensures Dom(g, b, z) || Dom(g, z, b)
  {
    if b != z {
      var p :| FromEntry(g, p) && p[|p| - 1] == x;
      var i, j := LastAt(p, b), LastAt(p, z);
      if i < j {
        assert p[j..] == p[i + 1..][j - i - 1..];
        DomFromSuffix(g, b, z, x, p, j);
      } else {
        assert p[i..] == p[j + 1..][i - j - 1..];
        DomFromSuffix(g, z, b, x, p, i);
      }
    }
  }

  /** A block between a block and its control-equivalent post-dominator post-dominates too. */
  lemma PDomBetween(g: Graph, b: Block, z: Block, x: Block)
    requires Reachable(g, b) && Dom(g, b, z) && Dom(g, z, x) && PDom(g, x, b)
    ensures PDom(g, z, b)
  {
    forall q | ToExit(g, q) && q[0] == b ensures z in q {
      if z != b {
        var p := ArriveBefore(g, b, z);
        var i := FirstAt(q, x);
        SubWalk(g, q, 0, i + 1);
        Join(g, p, q[..i + 1]);
        assert FromEntry(g, p + q[..i + 1][1..]);
        assert z in q[..i + 1];
      }
    }
  }

  lemma FollowsMirror(g: Graph, b: Block, x: Block)
    ensures Follows(g, b, x) <==> Follows(Rev(g), x, b)
  {
    Mirror(g, x, b);
    Mirror(g, b, x);
  }

  /** Two blocks followed by a third are control equivalent. */
  lemma FollowJoin(g: Graph, b: Block, z: Block, x: Block)
    requires Reachable(g, b) && Reachable(g, z) && Reachable(g, x)
    requires Follows(g, b, x) && Follows(g, z, x)
    ensures CtrlEq(g, b, z)
  {
    DomChain(g, b, z, x);
    if Dom(g, b, z) {
      PDomBetween(g, b, z, x);
    } else {
      PDomBetween(g, z, b, x);
    }
  }

  /** Control equivalence is an equivalence relation on blocks that are reachable and reach an exit. */
  lemma {:induction false} CtrlEqIsEquivalence(g: Graph, b: Block, x: Block, z: Block)
    requires forall a :: a in {b, x, z} ==> Reachable(g, a) && Exiting(g, a)
    ensures CtrlEq(g, b, b)
    ensures CtrlEq(g, b, x) ==> CtrlEq(g, x, b)
    ensures CtrlEq(g, b, x) && CtrlEq(g, x, z) ==> CtrlEq(g, b, z)
  {
    assert b in {b, x, z} && x in {b, x, z} && z in {b, x, z};
    if Follows(g, b, x) && Follows(g, x, z) {
      DomTransitive(g, b, x, z);
      PDomTransitive(g, z, x, b);
    } else if Follows(g, x, b) && Follows(g, z, x) {
      DomTransitive(g, z, x, b);
      PDomTransitive(g, b, x, z);
    } else if Follows(g, b, x) && Follows(g, z, x) {
      FollowJoin(g, b, z, x);
    } else if Follows(g, x, b) && Follows(g, x, z) {
      FollowsMirror(g, x, b);
      FollowsMirror(g, x, z);
      Mirror(g, x, b);
      Mirror(g, x, x);
      Mirror(g, x, z);
      FollowJoin(Rev(g), b, z, x);
      FollowsMirror(g, b, z);
      FollowsMirror(g, z, b);
    }
  }

  // ---- Equal counts --------------------------------------------------------

  /** A complete run executes one of two control-equivalent blocks iff it executes the other. */
  lemma OccursTogether(g: Graph, b: Block, x: Block, w: seq<Block>)
    requires CtrlEq(g, b, x) && Run(g, w)
    ensures b in w <==> x in w
  {
    if Follows(g, b, x) {
      OccursTogetherHalf(g, b, x, w);
    } else {
      OccursTogetherHalf(g, x, b, w);
    }
  }

  lemma OccursTogetherHalf(g: Graph, b: Block, x: Block, w: seq<Block>)
    requires Follows(g, b, x) && Run(g, w)
    ensures b in w <==> x in w
  {
    if x in w {
      var j := DomBefore(g, b, x, w, FirstAt(w, x));
    }
    if b in w {
      var j := PDomAfter(g, x, b, w, FirstAt(w, b));
    }
  }

  /** The last position before `n` that holds `b` or `x`, or -1. */
  ghost function LastOf(w: seq<Block>, n: nat, b: Block, x: Block): (k: int)
    requires n <= |w|
    ensures -1 <= k < n
    ensures 0 <= k ==> w[k] == b || w[k] == x
  {
    if n == 0 then -1
    else if w[n - 1] == b || w[n - 1] == x then n - 1
    else LastOf(w, n - 1, b, x)
  }

  lemma {:induction false} LastOfIsLast(w: seq<Block>, n: nat, b: Block, x: Block)
    requires n <= |w|
    ensures var k := LastOf(w, n, b, x); b !in w[k + 1..n] && x !in w[k + 1..n]
  {
    if n != 0 && w[n - 1] != b && w[n - 1] != x {
      LastOfIsLast(w, n - 1, b, x);
      var k := LastOf(w, n - 1, b, x);
      assert w[k + 1..n] == w[k + 1..n - 1] + [w[n - 1]];
    }
  }

  /** Between two runs of a block, a block tied to it runs. */
  lemma TiedBetween(g: Graph, b: Block, x: Block, w: seq<Block>, k: nat, n: nat)
    requires Tied(g, b, x) && Walk(g, w) && b != x && k < n < |w|
    ensures w[k] == w[n] == b ==> x in w[k + 1..n]
    ensures w[k] == w[n] == x ==> b in w[k + 1..n]
  {
    var c := w[k..n + 1];
    SubWalk(g, w, k, n + 1);
    assert c == [w[k]] + w[k + 1..n] + [w[n]];
    assert w[k] == w[n] ==> ClosedWalk(g, c);
  }

  /** Whichever of the two blocks a run meets next, it is not the one it met last; and the first
      it meets is the anchor. */
  lemma NextOf(g: Graph, b: Block, x: Block, w: seq<Block>, n: nat, k: int)
    requires Follows(g, b, x) && Tied(g, b, x) && FromEntry(g, w) && b != x && n < |w|
    requires w[n] == b || w[n] == x
    requires -1 <= k < n && b !in w[k + 1..n] && x !in w[k + 1..n]
    ensures if 0 <= k then w[k] != w[n] else w[n] == b
  {
    if 0 <= k {
      TiedBetween(g, b, x, w, k, n);
    } else if w[n] == x {
      var j := DomBefore(g, b, x, w, n);
    }
  }

  /** If position `n` holds `b` or `x`, then it holds the other one of the two than the last such
      position before it, and `b` when there is none before. */
  ghost predicate InTurn(w: seq<Block>, b: Block, x: Block, n: nat)
    requires n < |w|
  {
    w[n] == b || w[n] == x ==>
      var k := LastOf(w, n, b, x);
      if 0 <= k then w[k] != w[n] else w[n] == b
  }

  /** Blocks strictly alternate along a run, the anchor first. */
  lemma StrictlyAlternate(g: Graph, b: Block, x: Block, w: seq<Block>)
    requires Follows(g, b, x) && Tied(g, b, x) && FromEntry(g, w) && b != x
    ensures forall n :: 0 <= n < |w| ==> InTurn(w, b, x, n)
  {
    forall n | 0 <= n < |w| && (w[n] == b || w[n] == x) ensures InTurn(w, b, x, n) {
      LastOfIsLast(w, n, b, x);
      NextOf(g, b, x, w, n, LastOf(w, n, b, x));
    }
  }

  ghost function TimesBefore(w: seq<Block>, n: nat, b: Block): nat
    requires n <= |w|
  {
    if n == 0 then 0 else TimesBefore(w, n - 1, b) + (if w[n - 1] == b then 1 else 0)
  }

  /** When two blocks alternate, the anchor is ahead by one exactly when it ran last. */
  lemma {:induction false} AlternatingTimes(w: seq<Block>, b: Block, x: Block, n: nat)
    requires n <= |w| && b != x && forall m :: 0 <= m < n ==> InTurn(w, b, x, m)
    ensures var k := LastOf(w, n, b, x);
      TimesBefore(w, n, b) == TimesBefore(w, n, x) + (if 0 <= k && w[k] == b then 1 else 0)
  {
    if n != 0 {
      AlternatingTimes(w, b, x, n - 1);
      assert InTurn(w, b, x, n - 1);
    }
  }

  lemma {:induction false} TimesFromStart(w: seq<Block>, n: nat, b: Block)
    requires n <= |w|
    ensures TimesBefore(w, n, b) == Times(w[..n], b)
  {
    if n != 0 {
      TimesFromStart(w, n - 1, b);
      assert w[..n] == w[..n - 1] + [w[n - 1]];
    }
  }

  /** Control-equivalent blocks with no bypassing cycle run equally often in every complete run. */
  lemma EqualTimes(g: Graph, b: Block, x: Block, w: seq<Block>)
    requires Follows(g, b, x) && Tied(g, b, x) && Run(g, w)
    ensures Times(w, b) == Times(w, x)
  {
    if b != x {
      var n := |w|;
      assert w[..n] == w;
      StrictlyAlternate(g, b, x, w);
      AlternatingTimes(w, b, x, n);
      TimesFromStart(w, n, b);
      TimesFromStart(w, n, x);
      var k := LastOf(w, n, b, x);
      LastOfIsLast(w, n, b, x);
      if 0 <= k && w[k] == b {
        var j := PDomAfter(g, x, b, w, k);
      }
    }
  }

  /** A run with a cycle through one of its blocks taken once more. */
  lemma OnceMore(g: Graph, b: Block, x: Block, c: seq<Block>, w: seq<Block>) returns (v: seq<Block>)
    requires ClosedWalk(g, c) && b in c && x !in c && Run(g, w) && b in w
    ensures Run(g, v) && Times(v, x) == Times(w, x) && Times(v, b) > Times(w, b)
  {
    var d := FromInside(g, b, c);
    var i := FirstAt(w, b);
    SubWalk(g, w, 0, i + 1);
    SubWalk(g, w, i, |w|);
    var p, q := w[..i + 1], w[i..];
    Join(g, p, d);
    Join(g, p + d[1..], q);
    v := (p + d[1..]) + q[1..];
    assert w == p + q[1..];
    assert d == [b] + d[1..] && d[1..] == d[1..|d| - 1] + [b];
  }

  /** The same cycle, starting at another of its blocks. */
  lemma FromInside(g: Graph, b: Block, c: seq<Block>) returns (d: seq<Block>)
    requires ClosedWalk(g, c) && b in c
    ensures ClosedWalk(g, d) && d[0] == b && forall y :: y in d <==> y in c
  {
    var i := FirstAt(c, b);
    if i == 0 {
      d := c;
    } else {
      SubWalk(g, c, i, |c|);
      SubWalk(g, c, 0, i + 1);
      Join(g, c[i..], c[..i + 1]);
      d := c[i..] + c[..i + 1][1..];
      assert c == c[..i] + c[i..];
      forall y ensures y in d <==> y in c {
        assert y in c ==> y in c[..i + 1] || y in c[i..];
      }
    }
  }

  /** Some complete run passes a block that is reachable and reaches an exit. */
  lemma RunThrough(g: Graph, b: Block) returns (w: seq<Block>)
    requires Reachable(g, b) && Exiting(g, b)
    ensures Run(g, w) && b in w
  {
    var p :| FromEntry(g, p) && p[|p| - 1] == b;
    var q :| ToExit(g, q) && q[0] == b;
    Join(g, p, q);
    w := p + q[1..];
    assert w[|p| - 1] == b;
  }

  ghost predicate SameTimes(g: Graph, b: Block, x: Block) {
    forall w :: Run(g, w) ==> Times(w, b) == Times(w, x)
  }

  /** For a block and one that follows it, equal counts in all runs mean exactly that no cycle passes
      one of them without the other. */
  lemma SameTimesIffTied(g: Graph, b: Block, x: Block)
    requires Follows(g, b, x) && Reachable(g, b) && Exiting(g, b)
    ensures SameTimes(g, b, x) <==> Tied(g, b, x)
  {
    if Tied(g, b, x) {
      forall w | Run(g, w) ensures Times(w, b) == Times(w, x) {
        EqualTimes(g, b, x, w);
      }
    } else {
      var c :| ClosedWalk(g, c) && !(b in c <==> x in c);
      var w := RunThrough(g, b);
      OccursTogetherHalf(g, b, x, w);
      if b in c {
        var v := OnceMore(g, b, x, c, w);
        assert Times(v, b) != Times(v, x) || Times(w, b) != Times(w, x);
      } else {
        var v := OnceMore(g, x, b, c, w);
        assert Times(v, b) != Times(v, x) || Times(w, b) != Times(w, x);
      }
    }
  }
}
