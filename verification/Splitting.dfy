/** Splitting blocks at region markers (`splitInstrumentedBlocks`), so that each block lies wholly
    inside or wholly outside every region. */
module Splitting {
  import opened Regions

  /** An instruction other than the terminator: a marker, or one that does not matter here. */
  datatype Inst = Mark(m: Marker) | Other(id: nat)

  /** A basic block; its terminator goes to one of `succs`. Blocks are named by their index. */
  datatype Node = Node(insts: seq<Inst>, succs: seq<nat>)

  ghost predicate Closed(g: seq<Node>) {
    forall b, c :: 0 <= b < |g| && c in g[b].succs ==> c < |g|
  }

  predicate Opens(i: Inst) {
    i.Mark? && i.m.Begin?
  }

  predicate Shuts(i: Inst) {
    i.Mark? && i.m.End?
  }

  /** Begin markers come first in their block and end markers last, up to the terminator. */
  ghost predicate Clean(insts: seq<Inst>) {
    (forall i :: 0 < i < |insts| ==> !Opens(insts[i]))
    && (forall i :: 0 <= i < |insts| - 1 ==> !Shuts(insts[i]))
  }

  /** `SplitBlock`: moves the instructions of `b` from `i` on, with its terminator, to a new block. */
  function SplitAt(g: seq<Node>, b: nat, i: nat): seq<Node>
    requires b < |g| && i <= |g[b].insts|
  {
    g[b := Node(g[b].insts[..i], [|g|])] + [Node(g[b].insts[i..], g[b].succs)]
  }

  // ---- Every path keeps its instructions ------------------------------------

  /** The blocks of `c`, entered one after the other, are what the block with these instructions and
      successors has become. */
  ghost predicate Chain(c: seq<nat>, g: seq<Node>, insts: seq<Inst>, succs: seq<nat>) {
    && c != [] && c[0] < |g|
    && (if |c| == 1 then g[c[0]] == Node(insts, succs)
        else
          var n := |g[c[0]].insts|;
          n <= |insts| && g[c[0]] == Node(insts[..n], [c[1]]) && Chain(c[1..], g, insts[n..], succs))
  }

  ghost predicate Distinct(c: seq<nat>) {
    c != [] ==> c[0] !in c[1..] && Distinct(c[1..])
  }

  ghost predicate Within(c: seq<nat>, n: nat) {
    forall k :: k in c ==> k < n
  }

  /** Puts `n` behind `k`. */
  ghost function Insert(c: seq<nat>, k: nat, n: nat): seq<nat> {
    if c == [] then [] else if c[0] == k then [k, n] + c[1..] else [c[0]] + Insert(c[1..], k, n)
  }

  lemma {:induction false} InsertKeeps(c: seq<nat>, k: nat, n: nat)
    requires Distinct(c) && Within(c, n)
    ensures var d := Insert(c, k, n);
      Distinct(d) && (c != [] ==> d != [] && d[0] == c[0]) && (forall x :: x in d ==> x == n || x in c)
  {
    if c != [] {
      var t := c[1..];
      forall x | x in t ensures x < n { assert x in c; }
      assert c[0] in c;
      if c[0] != k {
        InsertKeeps(t, k, n);
        assert ([c[0]] + Insert(t, k, n))[1..] == Insert(t, k, n);
      } else {
        assert ([k, n] + t)[1..] == [n] + t && ([n] + t)[1..] == t;
      }
    }
  }

  /** Only the blocks of a chain matter to it. */
  lemma {:induction false} ChainKept(c: seq<nat>, g: seq<Node>, h: seq<Node>, insts: seq<Inst>, succs: seq<nat>)
    requires Chain(c, g, insts, succs) && |g| <= |h|
    requires forall k :: k in c && k < |g| ==> h[k] == g[k]
    ensures Chain(c, h, insts, succs)
  {
    if |c| > 1 {
      forall k | k in c[1..] && k < |g| ensures h[k] == g[k] { assert k in c; }
      ChainKept(c[1..], g, h, insts[|g[c[0]].insts|..], succs);
    }
  }

  lemma ChainFront(c0: nat, c: seq<nat>, g: seq<Node>, n: nat, insts: seq<Inst>, succs: seq<nat>)
    requires c0 < |g| && n <= |insts| && c != [] && g[c0] == Node(insts[..n], [c[0]]) && Chain(c, g, insts[n..], succs)
    ensures Chain([c0] + c, g, insts, succs)
  {
    assert ([c0] + c)[1..] == c;
  }

  lemma {:induction false} ChainSplit(c: seq<nat>, g: seq<Node>, k: nat, i: nat, insts: seq<Inst>, succs: seq<nat>)
    requires Chain(c, g, insts, succs) && Distinct(c) && Within(c, |g|) && k < |g| && i <= |g[k].insts|
    ensures Chain(Insert(c, k, |g|), SplitAt(g, k, i), insts, succs)
  {
    var h, n, t := SplitAt(g, k, i), |g[c[0]].insts|, c[1..];
    if c[0] == k {
      ChainSplitHere(c, g, i, insts, succs);
    } else if |c| > 1 {
      assert Within(t, |g|) by {
        forall x | x in t ensures x < |g| { assert x in c; }
      }
      ChainSplit(t, g, k, i, insts[n..], succs);
      InsertKeeps(t, k, |g|);
      ChainFront(c[0], Insert(t, k, |g|), h, n, insts, succs);
    } else {
      assert Insert(t, k, |g|) == [];
      assert Insert(c, k, |g|) == [c[0]] + [];
    }
  }

  lemma ChainSplitHere(c: seq<nat>, g: seq<Node>, i: nat, insts: seq<Inst>, succs: seq<nat>)
    requires Chain(c, g, insts, succs) && Distinct(c) && i <= |g[c[0]].insts|
    ensures Chain([c[0], |g|] + c[1..], SplitAt(g, c[0], i), insts, succs)
  {
    var k, h, n, t := c[0], SplitAt(g, c[0], i), |g[c[0]].insts|, c[1..];
    var later := insts[i..];
    if t != [] {
      ChainKept(t, g, h, insts[n..], succs);
      assert insts[..n][i..] == later[..n - i] && later[n - i..] == insts[n..];
      ChainFront(|g|, t, h, n - i, later, succs);
    } else {
      assert [|g|] + t == [|g|];
    }
    assert insts[..n][..i] == insts[..i];
    ChainFront(k, [|g|] + t, h, i, insts, succs);
    assert [k, |g|] + t == [k] + ([|g|] + t);
  }

  /** `g` is `f` with every block turned into a chain that starts at the block itself. */
  ghost predicate Refines(f: seq<Node>, g: seq<Node>, chains: seq<seq<nat>>) {
    && |chains| == |f| <= |g|
    && forall b :: 0 <= b < |f| ==> IsChainOf(f, g, chains[b], b)
  }

  ghost predicate IsChainOf(f: seq<Node>, g: seq<Node>, c: seq<nat>, b: nat)
    requires b < |f|
  {
    Chain(c, g, f[b].insts, f[b].succs) && c[0] == b && Distinct(c) && Within(c, |g|)
  }

  ghost function InsertAll(chains: seq<seq<nat>>, k: nat, n: nat): seq<seq<nat>> {
    seq<seq<nat>>(|chains|, b requires 0 <= b < |chains| => Insert(chains[b], k, n))
  }

  lemma SplitRefines(f: seq<Node>, g: seq<Node>, chains: seq<seq<nat>>, k: nat, i: nat)
    requires Refines(f, g, chains) && k < |g| && i <= |g[k].insts|
    ensures Refines(f, SplitAt(g, k, i), InsertAll(chains, k, |g|))
  {
    forall b | 0 <= b < |f| ensures IsChainOf(f, SplitAt(g, k, i), Insert(chains[b], k, |g|), b) {
      assert IsChainOf(f, g, chains[b], b);
      ChainSplit(chains[b], g, k, i, f[b].insts, f[b].succs);
      InsertKeeps(chains[b], k, |g|);
    }
  }

  lemma Unsplit(f: seq<Node>)
    ensures Refines(f, f, seq<seq<nat>>(|f|, b => [b]))
  {
    forall b | 0 <= b < |f| ensures IsChainOf(f, f, [b], b) {
      assert [b][1..] == [];
    }
  }

  // ---- Where blocks are cut --------------------------------------------------

  /** Position `p` is directly before a begin marker, other than one that comes first, or directly after an end
      marker. */
  predicate Cut(insts: seq<Inst>, p: nat) {
    0 < p <= |insts| && ((p < |insts| && Opens(insts[p])) || Shuts(insts[p - 1]))
  }

  /** The blocks of the chain meet only at such positions of the original block. */
  ghost predicate CutRight(c: seq<nat>, g: seq<Node>, insts: seq<Inst>) {
    |c| <= 1 ||
    (c[0] < |g| &&
     var n := |g[c[0]].insts|;
     Cut(insts, n) && CutRight(c[1..], g, insts[n..]))
  }

  /** And at all of them. */
  ghost predicate AllCut(c: seq<nat>, g: seq<Node>, insts: seq<Inst>) {
    if |c| <= 1 then forall p :: !Cut(insts, p)
    else
      c[0] < |g| &&
      var n := |g[c[0]].insts|;
      n <= |insts| && (forall p :: 0 <= p < n ==> !Cut(insts, p)) && AllCut(c[1..], g, insts[n..])
  }

  /** A block without such a position stays one block. */
  lemma NoCutNoSplit(c: seq<nat>, g: seq<Node>, insts: seq<Inst>)
    requires CutRight(c, g, insts) && forall p :: !Cut(insts, p)
    ensures |c| <= 1
  {
  }

  /** The cuts determine the blocks: there is one way to cut at all of these positions and at no others. */
  lemma {:induction false} CutsDecide(
      c: seq<nat>, g: seq<Node>, d: seq<nat>, h: seq<Node>, insts: seq<Inst>, succs: seq<nat>, i: nat)
    requires Chain(c, g, insts, succs) && CutRight(c, g, insts) && AllCut(c, g, insts)
    requires Chain(d, h, insts, succs) && CutRight(d, h, insts) && AllCut(d, h, insts)
    requires i < |c|
    ensures |c| == |d| && c[i] < |g| && d[i] < |h| && g[c[i]].insts == h[d[i]].insts
  {
    if |c| > 1 && |d| > 1 {
      var n := |g[c[0]].insts|;
      assert Cut(insts, n) && Cut(insts, |h[d[0]].insts|);
      CutsDecide(c[1..], g, d[1..], h, insts[n..], succs, if i == 0 then 0 else i - 1);
    }
  }

  lemma CutEarlier(insts: seq<Inst>, n: nat, p: nat)
    requires p < n <= |insts|
    ensures Cut(insts[..n], p) <==> Cut(insts, p)
  {
  }

  lemma {:induction false} CutKept(c: seq<nat>, g: seq<Node>, h: seq<Node>, insts: seq<Inst>)
    requires CutRight(c, g, insts) && |g| <= |h| && forall k :: k in c && k < |g| ==> h[k] == g[k]
    ensures CutRight(c, h, insts)
  {
    if |c| > 1 {
      assert c[0] in c;
      forall k | k in c[1..] && k < |g| ensures h[k] == g[k] { assert k in c; }
      CutKept(c[1..], g, h, insts[|g[c[0]].insts|..]);
    }
  }

  lemma CutFront(c0: nat, c: seq<nat>, g: seq<Node>, n: nat, insts: seq<Inst>)
    requires c0 < |g| && |g[c0].insts| == n && Cut(insts, n) && CutRight(c, g, insts[n..])
    ensures CutRight([c0] + c, g, insts)
  {
    assert ([c0] + c)[1..] == c;
  }

  /** Splitting the last block of the chain at such a position of its own. */
  lemma {:induction false} CutSplit(c: seq<nat>, g: seq<Node>, k: nat, i: nat, insts: seq<Inst>, succs: seq<nat>)
    requires Chain(c, g, insts, succs) && Distinct(c) && Within(c, |g|) && k < |g| && Cut(g[k].insts, i)
    requires CutRight(c, g, insts) && forall j :: 0 <= j < |c| - 1 ==> c[j] != k
    ensures CutRight(Insert(c, k, |g|), SplitAt(g, k, i), insts)
  {
    var h, n, t := SplitAt(g, k, i), |g[c[0]].insts|, c[1..];
    if |c| > 1 {
      forall x | x in t ensures x < |g| { assert x in c; }
      CutSplit(t, g, k, i, insts[n..], succs);
      CutFront(c[0], Insert(t, k, |g|), h, n, insts);
      assert Insert(c, k, |g|) == [c[0]] + Insert(t, k, |g|);
    } else if c[0] == k {
      assert t == [] && [k, |g|] + t == [k, |g|] && [k, |g|][1..] == [|g|];
      assert insts[..i] == h[k].insts;
    } else {
      assert Insert(t, k, |g|) == [];
      assert Insert(c, k, |g|) == [c[0]] + [];
    }
  }

  ghost predicate IsWalk(g: seq<Node>, w: seq<nat>) {
    Within(w, |g|) && forall i :: 0 <= i < |w| - 1 ==> Edge(g, w[i], w[i + 1])
  }

  ghost predicate Edge(g: seq<Node>, b: nat, c: nat) {
    b < |g| && c in g[b].succs
  }

  /** The instructions met on a walk. */
  ghost function Trace(g: seq<Node>, w: seq<nat>): seq<Inst> {
    if w == [] then []
    else Trace(g, w[..|w| - 1]) + if w[|w| - 1] < |g| then g[w[|w| - 1]].insts else []
  }

  ghost function Expand(chains: seq<seq<nat>>, w: seq<nat>): seq<nat> {
    if w == [] then []
    else Expand(chains, w[..|w| - 1]) + if w[|w| - 1] < |chains| then chains[w[|w| - 1]] else []
  }

  lemma {:induction false} TraceJoin(g: seq<Node>, v: seq<nat>, w: seq<nat>)
    ensures Trace(g, v + w) == Trace(g, v) + Trace(g, w)
  {
    if w == [] {
      assert v + w == v;
    } else {
      assert (v + w)[..|v + w| - 1] == v + w[..|w| - 1];
      TraceJoin(g, v, w[..|w| - 1]);
    }
  }

  lemma {:induction false} ChainTrace(c: seq<nat>, g: seq<Node>, insts: seq<Inst>, succs: seq<nat>)
    requires Chain(c, g, insts, succs)
    ensures Trace(g, c) == insts
  {
    assert c == [c[0]] + c[1..];
    TraceJoin(g, [c[0]], c[1..]);
    assert [c[0]][..0] == [];
    assert Trace(g, [c[0]]) == [] + g[c[0]].insts;
    if |c| > 1 {
      ChainTrace(c[1..], g, insts[|g[c[0]].insts|..], succs);
    }
  }

  /** Inside a chain there is one way on; at its end, those of the original block. */
  lemma {:induction false} ChainNext(c: seq<nat>, g: seq<Node>, insts: seq<Inst>, succs: seq<nat>, i: nat)
    requires Chain(c, g, insts, succs) && i < |c|
    ensures c[i] < |g| && g[c[i]].succs == if i + 1 < |c| then [c[i + 1]] else succs
  {
    if i > 0 {
      ChainNext(c[1..], g, insts[|g[c[0]].insts|..], succs, i - 1);
    }
  }

  lemma ExpandBack(chains: seq<seq<nat>>, u: seq<nat>, b: nat)
    requires b < |chains|
    ensures Expand(chains, u + [b]) == Expand(chains, u) + chains[b]
  {
    assert (u + [b])[..|u|] == u;
  }

  lemma TraceBack(f: seq<Node>, u: seq<nat>, b: nat)
    requires b < |f|
    ensures Trace(f, u + [b]) == Trace(f, u) + f[b].insts
  {
    assert (u + [b])[..|u|] == u;
  }

  lemma WalkJoin(g: seq<Node>, v: seq<nat>, c: seq<nat>)
    requires IsWalk(g, v) && IsWalk(g, c) && (v != [] && c != [] ==> Edge(g, v[|v| - 1], c[0]))
    ensures IsWalk(g, v + c)
  {
    forall i | 0 <= i < |v + c| - 1 ensures Edge(g, (v + c)[i], (v + c)[i + 1]) {
      if i + 1 < |v| {
        assert Edge(g, v[i], v[i + 1]);
      } else if i >= |v| {
        assert Edge(g, c[i - |v|], c[i - |v| + 1]);
      }
    }
  }

  lemma ChainIsWalk(f: seq<Node>, g: seq<Node>, c: seq<nat>, b: nat)
    requires b < |f| && IsChainOf(f, g, c, b)
    ensures IsWalk(g, c)
  {
    forall i | 0 <= i < |c| - 1 ensures Edge(g, c[i], c[i + 1]) {
      ChainNext(c, g, f[b].insts, f[b].succs, i);
    }
  }

  /** Every walk of the function is still there, with the same instructions in the same order. */
  lemma {:induction false} WalksKept(f: seq<Node>, g: seq<Node>, chains: seq<seq<nat>>, w: seq<nat>)
    requires Refines(f, g, chains) && IsWalk(f, w)
    ensures IsWalk(g, Expand(chains, w)) && Trace(g, Expand(chains, w)) == Trace(f, w)
    ensures w != [] ==> Expand(chains, w) != [] && Expand(chains, w)[0] == w[0]
    ensures w != [] ==> var v := Expand(chains, w);
      v[|v| - 1] < |g| && w[|w| - 1] < |f| && g[v[|v| - 1]].succs == f[w[|w| - 1]].succs
  {
    if w != [] {
      var u, b := w[..|w| - 1], w[|w| - 1];
      assert w == u + [b] && b in w;
      forall x | x in u ensures x < |f| { assert x in w; }
      forall i | 0 <= i < |u| - 1 ensures Edge(f, u[i], u[i + 1]) { assert Edge(f, w[i], w[i + 1]); }
      WalksKept(f, g, chains, u);
      ExpandBack(chains, u, b);
      TraceBack(f, u, b);
      var v, c := Expand(chains, u), chains[b];
      assert IsChainOf(f, g, c, b);
      ChainIsWalk(f, g, c, b);
      ChainNext(c, g, f[b].insts, f[b].succs, |c| - 1);
      if u != [] { assert Edge(f, w[|w| - 2], w[|w| - 1]); }
      WalkJoin(g, v, c);
      TraceJoin(g, v, c);
      ChainTrace(c, g, f[b].insts, f[b].succs);
    }
  }

  /** `v` runs along the chains of the walk `w`, and ends in the last of them. */
  ghost predicate RunsAlong(f: seq<Node>, chains: seq<seq<nat>>, v: seq<nat>, w: seq<nat>) {
    IsWalk(f, w) && w != [] && v != [] && w[0] == v[0]
    && v <= Expand(chains, w) && |Expand(chains, w[..|w| - 1])| < |v|
  }

  /** And no other has come: each walk from an original block runs along the chains of one. */
  lemma {:induction false} WalksComeFrom(f: seq<Node>, g: seq<Node>, chains: seq<seq<nat>>, v: seq<nat>)
    requires Refines(f, g, chains) && Closed(f) && IsWalk(g, v) && v != [] && v[0] < |f|
    ensures exists w :: RunsAlong(f, chains, v, w)
  {
    if |v| == 1 {
      var w := [v[0]];
      ExpandBack(chains, [], v[0]);
      assert [] + [v[0]] == w && [] + chains[v[0]] == chains[v[0]];
      assert IsChainOf(f, g, chains[v[0]], v[0]);
      assert w[..0] == [];
      assert RunsAlong(f, chains, v, w);
    } else {
      var front, x := v[..|v| - 1], v[|v| - 1];
      assert v == front + [x];
      assert IsWalk(g, front) by {
        forall k | k in front ensures k < |g| { assert k in v; }
        forall i | 0 <= i < |front| - 1 ensures Edge(g, front[i], front[i + 1]) { assert Edge(g, v[i], v[i + 1]); }
      }
      WalksComeFrom(f, g, chains, front);
      var w :| RunsAlong(f, chains, front, w);
      assert Edge(g, v[|v| - 2], v[|v| - 1]);
      hide IsWalk, Edge;
      OneFurther(f, g, chains, front, x, w);
    }
  }

  /** Where the walk can go from the end of `v`. */
  lemma NextBlocks(f: seq<Node>, g: seq<Node>, chains: seq<seq<nat>>, v: seq<nat>, w: seq<nat>)
    requires Refines(f, g, chains) && RunsAlong(f, chains, v, w)
    ensures v[|v| - 1] < |g| && w[|w| - 1] < |f|
    ensures g[v[|v| - 1]].succs ==
            if |v| < |Expand(chains, w)| then [Expand(chains, w)[|v|]] else f[w[|w| - 1]].succs
  {
    var u, b := w[..|w| - 1], w[|w| - 1];
    assert w == u + [b] && b in w;
    assert IsChainOf(f, g, chains[b], b);
    hide Refines, IsWalk;
    ExpandBack(chains, u, b);
    var i := |v| - 1 - |Expand(chains, u)|;
    assert v[|v| - 1] == Expand(chains, w)[|v| - 1] == chains[b][i];
    ChainNext(chains[b], g, f[b].insts, f[b].succs, i);
  }

  lemma OneFurther(f: seq<Node>, g: seq<Node>, chains: seq<seq<nat>>, v: seq<nat>, x: nat, w: seq<nat>)
    requires Refines(f, g, chains) && Closed(f) && RunsAlong(f, chains, v, w) && Edge(g, v[|v| - 1], x)
    ensures exists w' :: RunsAlong(f, chains, v + [x], w')
  {
    NextBlocks(f, g, chains, v, w);
    if |v| < |Expand(chains, w)| {
      assert v + [x] <= Expand(chains, w);
      assert RunsAlong(f, chains, v + [x], w);
    } else {
      assert v == Expand(chains, w);
      AlongEdge(f, g, chains, w, x);
      assert RunsAlong(f, chains, v + [x], w + [x]);
    }
  }

  lemma AlongEdge(f: seq<Node>, g: seq<Node>, chains: seq<seq<nat>>, w: seq<nat>, x: nat)
    requires Refines(f, g, chains) && IsWalk(f, w) && w != [] && Expand(chains, w) != []
    requires Expand(chains, w)[0] == w[0] && Edge(f, w[|w| - 1], x) && x < |f|
    ensures RunsAlong(f, chains, Expand(chains, w) + [x], w + [x])
  {
    assert IsWalk(f, [x]);
    WalkJoin(f, w, [x]);
    ExpandBack(chains, w, x);
    assert IsChainOf(f, g, chains[x], x);
    assert (w + [x])[..|w|] == w;
  }

  // ---- How much there is left to do ------------------------------------------

  /** Work left in the first `n` blocks: splitting an unvisited block leaves less of it. */
  ghost function Work(g: seq<Node>, visited: set<nat>, n: nat): nat
    requires n <= |g|
  {
    if n == 0 then 0 else Work(g, visited, n - 1) + if n - 1 in visited then 0 else |g[n - 1].insts| + 1
  }

  lemma {:induction false} WorkVisit(g: seq<Node>, h: seq<Node>, visited: set<nat>, b: nat, n: nat)
    requires b !in visited && n <= |g| && n <= |h|
    requires forall k :: 0 <= k < n && k != b ==> h[k] == g[k]
    ensures Work(h, visited + {b}, n) + (if b < n then |g[b].insts| + 1 else 0) == Work(g, visited, n)
  {
    if n != 0 {
      WorkVisit(g, h, visited, b, n - 1);
    }
  }

  lemma WorkSplit(g: seq<Node>, visited: set<nat>, b: nat, i: nat)
    requires b < |g| && b !in visited && |g| !in visited && 0 < i <= |g[b].insts|
    ensures Work(SplitAt(g, b, i), visited + {b}, |g| + 1) < Work(g, visited, |g|)
  {
    WorkVisit(g, SplitAt(g, b, i), visited, b, |g|);
  }

  // ---- The walk --------------------------------------------------------------

  /** In a visited block there is nothing left to cut: not inside, and at its end only if a new block follows. */
  ghost predicate Settled(n: Node, n0: nat) {
    && (forall p :: 0 <= p < |n.insts| ==> !Cut(n.insts, p))
    && (Cut(n.insts, |n.insts|) ==> exists x :: x in n.succs && n0 <= x)
  }

  /** What is known of the chain of block `h` while blocks are being split: it was cut at the right places, its
      blocks but the last have been visited, and those after the first are new; a block that cannot run has
      not been touched. */
  ghost predicate Cutting(f: seq<Node>, g: seq<Node>, c: seq<nat>, visited: set<nat>, h: nat)
    requires h < |f|
  {
    && CutRight(c, g, f[h].insts)
    && (forall j :: 0 <= j < |c| - 1 ==> c[j] in visited)
    && (forall x :: x in c && x != h ==> |f| <= x)
    && (h !in visited ==> h < |g| && g[h] == f[h] && c == [h])
  }

  /** Block `b` has come from one that can run. */
  ghost predicate Arrived(f: seq<Node>, chains: seq<seq<nat>>, entry: nat, b: nat) {
    exists h :: 0 <= h < |f| && h < |chains| && b in chains[h] && Runs(f, entry, h)
  }

  ghost predicate Runs(f: seq<Node>, entry: nat, b: nat) {
    exists w :: IsWalk(f, w) && w != [] && w[0] == entry && w[|w| - 1] == b
  }

  /** The first position from `i` on at which a block is to be cut, or 0. */
  ghost function FirstCut(insts: seq<Inst>, i: nat): (p: nat)
    ensures p == 0 ==> forall q :: i <= q ==> !Cut(insts, q)
    ensures p != 0 ==> i <= p && Cut(insts, p) && forall q :: i <= q < p ==> !Cut(insts, q)
    decreases |insts| - i
  {
    if i > |insts| then 0 else if Cut(insts, i) then i else FirstCut(insts, i + 1)
  }

  // ---- What a step of the walk keeps ------------------------------------------

  /** Each chain has kept its blocks. */
  ghost predicate Longer(a: seq<seq<nat>>, b: seq<seq<nat>>) {
    |a| == |b| && forall h, x :: 0 <= h < |a| && x in a[h] ==> x in b[h]
  }

  lemma LongerSame(a: seq<seq<nat>>)
    ensures Longer(a, a)
  {
  }

  lemma LongerVia(a: seq<seq<nat>>, b: seq<seq<nat>>, c: seq<seq<nat>>)
    requires Longer(a, b) && Longer(b, c)
    ensures Longer(a, c)
  {
  }

  lemma LongerArrived(f: seq<Node>, a: seq<seq<nat>>, c: seq<seq<nat>>, entry: nat, b: nat)
    requires Longer(a, c) && Arrived(f, a, entry, b)
    ensures Arrived(f, c, entry, b)
  {
    var h: nat :| h < |f| && h < |a| && b in a[h] && Runs(f, entry, h);
    assert b in c[h];
  }

  lemma {:induction false} InsertMembers(c: seq<nat>, k: nat, n: nat, x: nat)
    requires x in c
    ensures x in Insert(c, k, n)
  {
    if c[0] != k && x != c[0] {
      InsertMembers(c[1..], k, n, x);
    }
  }

  lemma InsertLonger(chains: seq<seq<nat>>, k: nat, n: nat)
    ensures Longer(chains, InsertAll(chains, k, n))
  {
    forall h, x | 0 <= h < |chains| && x in chains[h] ensures x in InsertAll(chains, k, n)[h] {
      InsertMembers(chains[h], k, n, x);
    }
  }

  /** A block that is not among those before the last gets its new block at the end. */
  lemma {:induction false} InsertLast(c: seq<nat>, k: nat, n: nat)
    requires c != [] && forall j :: 0 <= j < |c| - 1 ==> c[j] != k
    ensures Insert(c, k, n) == if c[|c| - 1] == k then c + [n] else c
  {
    if |c| > 1 {
      InsertLast(c[1..], k, n);
      assert c == [c[0]] + c[1..];
    } else {
      assert Insert(c[1..], k, n) == [] && c == [c[0]];
    }
  }

  lemma CuttingStep(f: seq<Node>, g: seq<Node>, c: seq<nat>, visited: set<nat>, h: nat, k: nat, i: nat)
    requires h < |f| <= |g| && IsChainOf(f, g, c, h) && Cutting(f, g, c, visited, h)
    requires k < |g| && k !in visited && Cut(g[k].insts, i)
    ensures Cutting(f, SplitAt(g, k, i), Insert(c, k, |g|), visited + {k}, h)
  {
    CutSplit(c, g, k, i, f[h].insts, f[h].succs);
    InsertLast(c, k, |g|);
  }

  lemma SettledSplit(g: seq<Node>, k: nat, i: nat, n0: nat)
    requires k < |g| && n0 <= |g| && Cut(g[k].insts, i) && forall p :: 0 <= p < i ==> !Cut(g[k].insts, p)
    ensures var n := SplitAt(g, k, i)[k]; Settled(n, n0) && Clean(n.insts)
  {
    var insts := g[k].insts;
    forall p | 0 <= p < i ensures !Cut(insts[..i], p) {
      CutEarlier(insts, i, p);
    }
    assert |g| in SplitAt(g, k, i)[k].succs;
    SettledIsClean(SplitAt(g, k, i)[k], n0);
  }

  lemma SettledIsClean(n: Node, n0: nat)
    requires Settled(n, n0)
    ensures Clean(n.insts)
  {
    forall q | 0 < q < |n.insts| ensures !Opens(n.insts[q]) {
      assert !Cut(n.insts, q);
    }
    forall q | 0 <= q < |n.insts| - 1 ensures !Shuts(n.insts[q]) {
      assert !Cut(n.insts, q + 1);
    }
  }

  lemma SuccessorsArrive(f: seq<Node>, g: seq<Node>, chains: seq<seq<nat>>, entry: nat, b: nat)
    requires Refines(f, g, chains) && Closed(f) && Arrived(f, chains, entry, b) && b < |g|
    ensures forall x :: x in g[b].succs ==> Arrived(f, chains, entry, x)
  {
    var h: nat :| h < |f| && h < |chains| && b in chains[h] && Runs(f, entry, h);
    assert IsChainOf(f, g, chains[h], h);
    var i: nat :| i < |chains[h]| && chains[h][i] == b;
    ChainNext(chains[h], g, f[h].insts, f[h].succs, i);
    forall x | x in g[b].succs ensures Arrived(f, chains, entry, x) {
      if i + 1 < |chains[h]| {
        assert x in chains[h];
      } else {
        RunsOn(f, entry, h, x);
        assert IsChainOf(f, g, chains[x], x);
      }
    }
  }

  lemma RunsOn(f: seq<Node>, entry: nat, h: nat, x: nat)
    requires Runs(f, entry, h) && h < |f| && x in f[h].succs && x < |f|
    ensures Runs(f, entry, x)
  {
    var w :| IsWalk(f, w) && w != [] && w[0] == entry && w[|w| - 1] == h;
    assert IsWalk(f, [x]) && Edge(f, h, x);
    WalkJoin(f, w, [x]);
    assert (w + [x])[|w + [x]| - 1] == x;
  }

  lemma EntryArrives(f: seq<Node>, g: seq<Node>, chains: seq<seq<nat>>, entry: nat)
    requires Refines(f, g, chains) && entry < |f|
    ensures Arrived(f, chains, entry, entry)
  {
    assert IsWalk(f, [entry]) && [entry][0] == entry;
    assert IsChainOf(f, g, chains[entry], entry);
  }

  lemma InGraph(g: seq<Node>, b: nat, x: nat)
    requires Closed(g) && b < |g| && x in g[b].succs
    ensures x < |g|
  {
  }

  /** What the walk keeps. */
  ghost predicate Okay(f: seq<Node>, g: seq<Node>, chains: seq<seq<nat>>, visited: set<nat>, entry: nat) {
    && Refines(f, g, chains) && Closed(g) && Closed(f)
    && (forall b :: b in visited ==> b < |g| && Settled(g[b], |f|) && Arrived(f, chains, entry, b))
    && (forall h :: 0 <= h < |f| ==> Cutting(f, g, chains[h], visited, h))
  }

  lemma OkayShape(f: seq<Node>, g: seq<Node>, chains: seq<seq<nat>>, visited: set<nat>, entry: nat)
    requires Okay(f, g, chains, visited, entry)
    ensures Refines(f, g, chains) && Closed(g) && Closed(f) && |chains| == |f| <= |g|
    ensures forall b :: b in visited ==> b < |g|
  {
  }

  /** Visiting a block that needs no cut. */
  lemma VisitOkay(f: seq<Node>, g: seq<Node>, chains: seq<seq<nat>>, visited: set<nat>, entry: nat, b: nat)
    requires Okay(f, g, chains, visited, entry) && Arrived(f, chains, entry, b)
    requires b < |g| && b !in visited && forall p :: !Cut(g[b].insts, p)
    ensures Okay(f, g, chains, visited + {b}, entry) && Longer(chains, chains)
    ensures Work(g, visited + {b}, |g|) < Work(g, visited, |g|)
  {
    WorkVisit(g, g, visited, b, |g|);
    forall h | 0 <= h < |f| ensures Cutting(f, g, chains[h], visited + {b}, h) {
      assert Cutting(f, g, chains[h], visited, h);
    }
  }

  /** Splitting a block where it is first to be cut. */
  lemma SplitOkay(
      f: seq<Node>, g: seq<Node>, chains: seq<seq<nat>>, visited: set<nat>, entry: nat, b: nat, i: nat)
    requires Okay(f, g, chains, visited, entry) && Arrived(f, chains, entry, b) && b < |g| && b !in visited
    requires Cut(g[b].insts, i) && forall p :: 0 <= p < i ==> !Cut(g[b].insts, p)
    ensures var h, d := SplitAt(g, b, i), InsertAll(chains, b, |g|);
      Okay(f, h, d, visited + {b}, entry) && Longer(chains, d)
      && Work(h, visited + {b}, |h|) < Work(g, visited, |g|)
  {
    hide Refines, Cutting, Work, Insert, Settled, Arrived, Longer, Closed;
    OkayShape(f, g, chains, visited, entry);
    assert |g| !in visited;
    WorkSplit(g, visited, b, i);
    SplitRefines(f, g, chains, b, i);
    InsertLonger(chains, b, |g|);
    SplitCuttings(f, g, chains, visited, b, i);
    SplitVisited(f, g, chains, visited, entry, b, i);
    SplitCloses(g, b, i);
  }

  lemma SplitCloses(g: seq<Node>, b: nat, i: nat)
    requires Closed(g) && b < |g| && i <= |g[b].insts|
    ensures Closed(SplitAt(g, b, i))
  {
  }

  lemma SplitCuttings(f: seq<Node>, g: seq<Node>, chains: seq<seq<nat>>, visited: set<nat>, b: nat, i: nat)
    requires Refines(f, g, chains) && forall h :: 0 <= h < |f| ==> Cutting(f, g, chains[h], visited, h)
    requires b < |g| && b !in visited && Cut(g[b].insts, i)
    ensures forall h :: 0 <= h < |f| ==>
      Cutting(f, SplitAt(g, b, i), InsertAll(chains, b, |g|)[h], visited + {b}, h)
  {
    forall h | 0 <= h < |f|
      ensures Cutting(f, SplitAt(g, b, i), InsertAll(chains, b, |g|)[h], visited + {b}, h)
    {
      assert IsChainOf(f, g, chains[h], h);
      hide Refines, IsChainOf, Cutting;
      CuttingStep(f, g, chains[h], visited, h, b, i);
    }
  }

  lemma SplitVisited(
      f: seq<Node>, g: seq<Node>, chains: seq<seq<nat>>, visited: set<nat>, entry: nat, b: nat, i: nat)
    requires |f| <= |g| && b < |g| && Arrived(f, chains, entry, b)
    requires forall v :: v in visited ==> v < |g| && Settled(g[v], |f|) && Arrived(f, chains, entry, v)
    requires Cut(g[b].insts, i) && forall p :: 0 <= p < i ==> !Cut(g[b].insts, p)
    ensures forall v :: v in visited + {b} ==>
      v <= |g| && Settled(SplitAt(g, b, i)[v], |f|) && Arrived(f, InsertAll(chains, b, |g|), entry, v)
  {
    SettledSplit(g, b, i, |f|);
    InsertLonger(chains, b, |g|);
    forall v | v in visited + {b}
      ensures v <= |g| && Settled(SplitAt(g, b, i)[v], |f|) && Arrived(f, InsertAll(chains, b, |g|), entry, v)
    {
      hide Settled, Arrived, Longer, Insert, Cut;
      LongerArrived(f, chains, InsertAll(chains, b, |g|), entry, v);
    }
  }

  // ---- When the walk is over ---------------------------------------------------

  /** Each block of the chain of a block that can run has been visited. */
  lemma ChainVisited(f: seq<Node>, g: seq<Node>, chains: seq<seq<nat>>, visited: set<nat>, entry: nat, h: nat, x: nat)
    requires Refines(f, g, chains) && Runs(f, entry, h) && h < |f| && x in chains[h]
    requires entry in visited && forall v :: v in visited && v < |g| ==> Done(g[v], visited)
    ensures x in visited && x < |g|
  {
    var w :| IsWalk(f, w) && w != [] && w[0] == entry && w[|w| - 1] == h;
    WalksKept(f, g, chains, w);
    hide IsWalk, Refines, Done, Runs;
    var v, u := Expand(chains, w), w[..|w| - 1];
    assert w == u + [h];
    ExpandBack(chains, u, h);
    assert x in v;
    AlongVisited(g, visited, v, x);
  }

  lemma AlongVisited(g: seq<Node>, visited: set<nat>, v: seq<nat>, x: nat)
    requires IsWalk(g, v) && x in v && v[0] in visited
    requires forall b :: b in visited && b < |g| ==> Done(g[b], visited)
    ensures x in visited && x < |g|
  {
    var i: nat :| i < |v| && v[i] == x;
    WalkPrefix(g, v, i + 1);
    StaysVisited(g, visited, v[..i + 1]);
  }

  lemma WalkPrefix(g: seq<Node>, v: seq<nat>, i: nat)
    requires IsWalk(g, v) && i <= |v|
    ensures IsWalk(g, v[..i])
  {
    forall k | k in v[..i] ensures k < |g| { assert k in v; }
    forall j | 0 <= j < i - 1 ensures Edge(g, v[..i][j], v[..i][j + 1]) { assert Edge(g, v[j], v[j + 1]); }
  }

  lemma {:induction false} AllCutOnce(g: seq<Node>, c: seq<nat>, insts: seq<Inst>, succs: seq<nat>, n0: nat)
    requires Chain(c, g, insts, succs) && forall x :: x in succs ==> x < n0
    requires forall x :: x in c ==> x < |g| && Settled(g[x], n0)
    ensures AllCut(c, g, insts)
  {
    var n, first := |g[c[0]].insts|, g[c[0]];
    assert c[0] in c && Settled(first, n0);
    if |c| > 1 {
      forall x | x in c[1..] ensures x < |g| && Settled(g[x], n0) { assert x in c; }
      forall p | 0 <= p < n ensures !Cut(insts, p) { CutEarlier(insts, n, p); }
      AllCutOnce(g, c[1..], insts[n..], succs, n0);
    }
  }

  /** A block that cannot run has not been visited. */
  lemma OwnChain(f: seq<Node>, g: seq<Node>, chains: seq<seq<nat>>, visited: set<nat>, entry: nat, h: nat)
    requires |chains| == |f| && h < |f| && !Runs(f, entry, h)
    requires forall b :: 0 <= b < |f| ==> Cutting(f, g, chains[b], visited, b)
    ensures !Arrived(f, chains, entry, h)
  {
    forall b | 0 <= b < |f| && Runs(f, entry, b) ensures h !in chains[b] {
      assert Cutting(f, g, chains[b], visited, b);
    }
  }

  class Splitter {
    ghost const original: seq<Node>
    const entry: nat
    ghost var chains: seq<seq<nat>>
    var blocks: seq<Node>
    var visited: set<nat>              // SplitBasicBlocksVisited

    ghost predicate Valid()
      reads this
    {
      Okay(original, blocks, chains, visited, entry)
    }

    ghost function Left(): nat
      reads this
    {
      Work(blocks, visited, |blocks|)
    }

    constructor (f: seq<Node>, entry: nat)
      requires Closed(f)
      ensures Valid() && original == f == blocks && visited == {} && this.entry == entry
    {
      original, this.entry, blocks, visited := f, entry, f, {};
      chains := seq<seq<nat>>(|f|, b => [b]);
      new;
      Unsplit(f);
    }

    /** Splits block `b` at its first marker that is out of place, then goes on to its successors. */
    method Visit(b: nat)
      requires Valid() && b < |blocks| && b !in visited && Arrived(original, chains, entry, b)
      modifies this
      decreases Left()
      ensures Valid() && old(visited) + {b} <= visited && |old(blocks)| <= |blocks| && Left() < old(Left())
      ensures Longer(old(chains), chains)
      ensures forall v :: v in old(visited) && v < |old(blocks)| ==> blocks[v] == old(blocks)[v]
      ensures forall v :: v in visited && v !in old(visited) && v < |blocks| ==> Done(blocks[v], visited)
    {
      hide Okay, Refines, Closed, Settled, Arrived, Longer, Work, FirstCut;
      ghost var first := chains;
      Scan(b);
      OkayShape(original, blocks, chains, visited, entry);
      LongerArrived(original, first, chains, entry, b);
      var succs := blocks[b].succs;
      SuccessorsArrive(original, blocks, chains, entry, b);
      ghost var was, seen, begun := blocks, visited, chains;
      LongerSame(chains);
      for j := 0 to |succs|
        invariant Valid() && seen <= visited && |was| <= |blocks| && Left() < old(Left())
        invariant Longer(begun, chains)
        invariant forall v :: v in seen && v < |was| ==> blocks[v] == was[v]
        invariant forall i :: 0 <= i < j ==> succs[i] in visited
        invariant forall v :: v in visited && v !in seen && v < |blocks| ==> Done(blocks[v], visited)
      {
        ghost var before, mid := visited, chains;
        OkayShape(original, blocks, chains, visited, entry);
        assert succs[j] in blocks[b].succs;
        if succs[j] !in visited {
          LongerArrived(original, begun, chains, entry, succs[j]);
          InGraph(blocks, b, succs[j]);
          Visit(succs[j]);
          DoneGrows(before, visited);
          LongerVia(begun, mid, chains);
        }
      }
      LongerVia(first, begun, chains);
      assert Done(blocks[b], visited);
    }

    /** Looks for the first marker that is out of place, and splits the block there; a block that has none is
        left as it is. */
    method Scan(b: nat)
      requires Valid() && b < |blocks| && b !in visited && Arrived(original, chains, entry, b)
      modifies this
      ensures Valid() && visited == old(visited) + {b} && |old(blocks)| <= |blocks| && Left() < old(Left())
      ensures Longer(old(chains), chains)
      ensures var i := FirstCut(old(blocks)[b].insts, 0);
        && blocks == (if i == 0 then old(blocks) else SplitAt(old(blocks), b, i))
        && chains == (if i == 0 then old(chains) else InsertAll(old(chains), b, |old(blocks)|))
    {
      hide Okay, Arrived, Longer, Work, SplitAt, InsertAll;
      var insts := blocks[b].insts;
      ghost var first := FirstCut(insts, 0);
      var i := 0;
      while i < |insts|
        invariant 0 <= i <= |insts|
        invariant forall k :: 0 <= k < i ==> !Shuts(insts[k]) && (k > 0 ==> !Opens(insts[k]))
      {
        if Opens(insts[i]) && i != 0 {
          assert Cut(insts, i) && first == i;
          Split(b, i);
          return;
        }
        if Shuts(insts[i]) {
          assert Cut(insts, i + 1) && first == i + 1;
          Split(b, i + 1);
          return;
        }
        i := i + 1;
      }
      assert forall p :: !Cut(insts, p);
      VisitOkay(original, blocks, chains, visited, entry, b);
      visited := visited + {b};
    }

    method Split(b: nat, i: nat)
      requires Valid() && b < |blocks| && b !in visited && Arrived(original, chains, entry, b)
      requires Cut(blocks[b].insts, i) && forall p :: 0 <= p < i ==> !Cut(blocks[b].insts, p)
      modifies this
      ensures Valid() && visited == old(visited) + {b}
      ensures blocks == SplitAt(old(blocks), b, i) && |old(blocks)| < |blocks| && Left() < old(Left())
      ensures chains == InsertAll(old(chains), b, |old(blocks)|) && Longer(old(chains), chains)
    {
      hide Okay, Arrived, Longer, Work, InsertAll;
      SplitOkay(original, blocks, chains, visited, entry, b, i);
      chains := InsertAll(chains, b, |blocks|);
      blocks := SplitAt(blocks, b, i);
      visited := visited + {b};
    }

    /** Splits every block that can be reached from the entry. */
    method SplitInstrumentedBlocks()
      requires Valid() && entry < |blocks| && visited == {} && blocks == original
      modifies this
      ensures Refines(original, blocks, chains) && Closed(blocks)
      ensures forall w :: FromTo(blocks, w, entry) ==> Clean(blocks[w[|w| - 1]].insts)
      // Blocks are cut at the markers out of place and nowhere else; blocks that cannot run are not cut.
      ensures forall h :: 0 <= h < |original| ==> CutRight(chains[h], blocks, original[h].insts)
      ensures forall h :: 0 <= h < |original| && Runs(original, entry, h) ==>
        AllCut(chains[h], blocks, original[h].insts)
      ensures forall h :: 0 <= h < |original| && !Runs(original, entry, h) ==>
        h < |blocks| && chains[h] == [h] && blocks[h] == original[h]
    {
      EntryArrives(original, blocks, chains, entry);
      Visit(entry);
      forall w | FromTo(blocks, w, entry) ensures Clean(blocks[w[|w| - 1]].insts) {
        StaysVisited(blocks, visited, w);
        SettledIsClean(blocks[w[|w| - 1]], |original|);
      }
      forall h | 0 <= h < |original|
        ensures CutRight(chains[h], blocks, original[h].insts)
        ensures Runs(original, entry, h) ==> AllCut(chains[h], blocks, original[h].insts)
        ensures !Runs(original, entry, h) ==> h < |blocks| && chains[h] == [h] && blocks[h] == original[h]
      {
        assert Cutting(original, blocks, chains[h], visited, h) && IsChainOf(original, blocks, chains[h], h);
        if Runs(original, entry, h) {
          forall x | x in chains[h] ensures x < |blocks| && Settled(blocks[x], |original|) {
            ChainVisited(original, blocks, chains, visited, entry, h, x);
          }
          AllCutOnce(blocks, chains[h], original[h].insts, original[h].succs, |original|);
        } else {
          OwnChain(original, blocks, chains, visited, entry, h);
        }
      }
    }
  }

  /** A walk from the entry; it ends at a block of the function. */
  ghost predicate FromTo(g: seq<Node>, w: seq<nat>, entry: nat) {
    IsWalk(g, w) && w != [] && w[0] == entry && w[|w| - 1] < |g|
  }

  ghost predicate Done(n: Node, visited: set<nat>) {
    forall c :: c in n.succs ==> c in visited
  }

  lemma DoneGrows(a: set<nat>, b: set<nat>)
    requires a <= b
    ensures forall n :: Done(n, a) ==> Done(n, b)
  {
  }

  lemma {:induction false} StaysVisited(g: seq<Node>, visited: set<nat>, w: seq<nat>)
    requires IsWalk(g, w) && w != [] && w[0] in visited
    requires forall v :: v in visited && v < |g| ==> Done(g[v], visited)
    ensures w[|w| - 1] in visited && w[|w| - 1] < |g|
  {
    assert w[|w| - 1] in w;
    if |w| > 1 {
      var u := w[..|w| - 1];
      forall k | k in u ensures k < |g| { assert k in w; }
      forall i | 0 <= i < |u| - 1 ensures Edge(g, u[i], u[i + 1]) { assert Edge(g, w[i], w[i + 1]); }
      StaysVisited(g, visited, u);
      assert Edge(g, w[|w| - 2], w[|w| - 1]);
    }
  }

  // ---- What it is for --------------------------------------------------------

  ghost function Marks(insts: seq<Inst>): seq<Marker> {
    if insts == [] then []
    else
      var last := insts[|insts| - 1];
      if last.Mark? then Marks(insts[..|insts| - 1]) + [last.m] else Marks(insts[..|insts| - 1])
  }

  /** How deep the thread is inside region `g` after these instructions. */
  ghost function Depth(insts: seq<Inst>, g: Group, d: nat): nat {
    if insts == [] then d
    else
      var last, e := insts[|insts| - 1], Depth(insts[..|insts| - 1], g, d);
      if last == Mark(Begin(g)) then e + 1 else if last == Mark(End(g)) then Minus(e, 1) else e
  }

  /** In a clean block region `g` is equally open at every instruction that is not a marker: as open
      as the search for regions takes it to be for the whole block. */
  lemma {:induction false} CleanBlockIsUniform(insts: seq<Inst>, i: nat, g: Group, d: nat)
    requires Clean(insts) && i < |insts| && insts[i].Other?
    ensures Depth(insts[..i], g, d) == d + Begins(Marks(insts), g)
  {
    var n := |insts| - 1;
    var front, last := insts[..n], insts[n];
    if i < n {
      assert insts[..i] == front[..i];
      assert Clean(front);
      CleanBlockIsUniform(front, i, g, d);
      if last.Mark? {
        assert (Marks(front) + [last.m])[..|Marks(front)|] == Marks(front);
      }
    } else {
      NoEndsBefore(front, g, d);
    }
  }

  lemma {:induction false} NoEndsBefore(insts: seq<Inst>, g: Group, d: nat)
    requires forall i :: 0 <= i < |insts| ==> !Shuts(insts[i])
    ensures Depth(insts, g, d) == d + Begins(Marks(insts), g)
  {
    if insts != [] {
      var front, last := insts[..|insts| - 1], insts[|insts| - 1];
      NoEndsBefore(front, g, d);
      if last.Mark? {
        assert (Marks(front) + [last.m])[..|Marks(front)|] == Marks(front);
      }
    }
  }
}
