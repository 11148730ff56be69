/** The tree of loops of a region and its colouring into scale-factor sets.

    A tree is stored in preorder: node 0 is the root that stands for no loop, a node's subtree is
    the range from the node up to its `end`, and its children are found by stepping from `end` to
    `end`.  `scale` is the constant trip count, 0 when it is unknown; `header` heads the loop;
    `unique` lists the loop's blocks that lie in none of its subloops. */
module LoopTree {
  import opened Collections
  import opened Cfg
  import opened Grouping

  datatype LoopNode = LoopNode(
    parent: nat,
    end: nat,
    header: Block,
    scale: nat,
    unique: seq<Block>,
    computable: bool,  // the backedge count is a loop invariant that can be expanded at run time
    recomputes: bool   // and it still is after the edge into the loop has been split
  )

  type Tree = seq<LoopNode>

  ghost predicate WellFormed(t: Tree) {
    && t != [] && t[0].end == |t| && t[0].scale == 0 && t[0].unique == []
    && (forall c :: 0 <= c < |t| ==> t[c].parent < |t| && c < t[c].end <= |t| && (0 < c ==> t[c].parent < c))
    && (forall i, c :: 0 <= i < c < |t| && t[c].parent == i ==> c < t[i].end)
    && (forall i, c :: 0 <= i < c < |t| && c < t[i].end ==> i <= t[c].parent && t[c].end <= t[i].end)
  }

  /** No block belongs to two loops' own blocks. */
  ghost predicate Disjoint(t: Tree) {
    && (forall k :: 0 <= k < |t| ==> NoDup(t[k].unique))
    && (forall i, k, b :: 0 <= i < |t| && 0 <= k < |t| && b in t[i].unique && b in t[k].unique ==> i == k)
  }

  lemma NodeBounds(t: Tree, i: nat)
    requires WellFormed(t) && i < |t|
    ensures i < t[i].end <= |t| && t[i].parent < |t| && (0 < i ==> t[i].parent < i)
    ensures i + 1 < t[i].end ==> t[i + 1].parent == i
  {
  }

  /** Stepping from a child to the next. */
  lemma NextSibling(t: Tree, i: nat, c: nat)
    requires WellFormed(t) && i < c < |t| && t[c].parent == i
    ensures c < t[c].end <= t[i].end <= |t|
    ensures t[c].end < t[i].end ==> t[t[c].end].parent == i
  {
    var d := t[c].end;
    if d < t[i].end {
      var q := t[d].parent;
      var p, e := t[c].parent, t[q].end;
      assert i <= q < d < e;
    }
  }

  // ---- The intended sets ---------------------------------------------------

  /** The loop shares its parent's set: both trip counts are constant, and entering the parent's
      header always leads to the loop's header. */
  predicate Chained(t: Tree, tr: Trees, k: nat)
    requires k < |t| && t[k].parent < |t|
  {
    0 < k && t[k].scale != 0 && t[t[k].parent].scale != 0 && tr.pdom(t[k].header, t[t[k].parent].header)
  }

  /** The outermost loop of the set. */
  function ChainTop(t: Tree, tr: Trees, k: nat): (r: nat)
    requires WellFormed(t) && k < |t|
    ensures r <= k && !Chained(t, tr, r)
    ensures t[k].scale != 0 ==> t[r].scale != 0
  {
    if Chained(t, tr, k) then ChainTop(t, tr, t[k].parent) else k
  }

  /** How often the loop's header runs each time the outermost loop of its set is entered. */
  function ChainScale(t: Tree, tr: Trees, k: nat): nat
    requires WellFormed(t) && k < |t|
  {
    if Chained(t, tr, k) then t[k].scale * ChainScale(t, tr, t[k].parent) else t[k].scale
  }

  // ---- Colourings ----------------------------------------------------------

  ghost predicate TopOfColor(t: Tree, c: seq<nat>, k: nat)
    requires WellFormed(t) && |c| == |t| && k < |t|
  {
    0 < k && c[k] != 0 && c[t[k].parent] != c[k]
  }

  ghost predicate Used(c: seq<nat>, j: nat) {
    exists k :: 0 <= k < |c| && c[k] == j
  }

  /** Every colour class is a connected subtree: exactly one of its nodes has a parent outside it.
      Colours run from 1 below `next`, all of them in use; colour 0 marks an unknown trip count. */
  ghost predicate Colored(t: Tree, tr: Trees, c: seq<nat>, next: nat)
    requires WellFormed(t)
  {
    && |c| == |t| && 1 <= next
    && Palette(t, c, next)
    && OneTop(t, c)
    && AllUsed(c, next)
    && KeepsChains(t, tr, c)
  }

  ghost predicate Palette(t: Tree, c: seq<nat>, next: nat)
    requires |c| == |t|
  {
    forall k :: 0 <= k < |t| ==> c[k] < next && (c[k] == 0 <==> t[k].scale == 0)
  }

  ghost predicate OneTop(t: Tree, c: seq<nat>)
    requires WellFormed(t) && |c| == |t|
  {
    forall a, b ::
      0 <= a < |t| && 0 <= b < |t| && TopOfColor(t, c, a) && TopOfColor(t, c, b) && c[a] == c[b] ==> a == b
  }

  ghost predicate AllUsed(c: seq<nat>, next: nat) {
    forall j :: 1 <= j < next ==> Used(c, j)
  }

  ghost predicate KeepsChains(t: Tree, tr: Trees, c: seq<nat>)
    requires WellFormed(t) && |c| == |t|
  {
    forall k :: 0 <= k < |t| && Chained(t, tr, k) ==> c[k] == c[t[k].parent]
  }

  /** In a colour that has been processed, only chained loops share a set. */
  ghost predicate Settled(t: Tree, tr: Trees, c: seq<nat>, j: nat)
    requires WellFormed(t) && |c| == |t|
  {
    forall k :: 0 < k < |t| && c[k] != 0 && c[k] < j && c[t[k].parent] == c[k] ==> Chained(t, tr, k)
  }

  lemma {:induction false} ChainSharesColor(t: Tree, tr: Trees, c: seq<nat>, next: nat, k: nat)
    requires WellFormed(t) && Colored(t, tr, c, next) && k < |t|
    ensures c[k] == c[ChainTop(t, tr, k)]
  {
    if Chained(t, tr, k) {
      ChainSharesColor(t, tr, c, next, t[k].parent);
    }
  }

  /** Once every colour is settled, two loops share a colour exactly when they share a chain. */
  lemma SettledColorsAreChains(t: Tree, tr: Trees, c: seq<nat>, next: nat, i: nat, k: nat)
    requires WellFormed(t) && Colored(t, tr, c, next) && Settled(t, tr, c, next)
    requires i < |t| && k < |t| && t[i].scale != 0 && t[k].scale != 0
    ensures c[i] == c[k] <==> ChainTop(t, tr, i) == ChainTop(t, tr, k)
  {
    ChainSharesColor(t, tr, c, next, i);
    ChainSharesColor(t, tr, c, next, k);
    var a, b := ChainTop(t, tr, i), ChainTop(t, tr, k);
    assert TopOfColor(t, c, a) && TopOfColor(t, c, b);
  }

  // ---- How many sets -------------------------------------------------------

  ghost function Known(t: Tree): set<nat> {
    set k: nat | k < |t| && t[k].scale != 0
  }

  ghost function Tops(t: Tree, c: seq<nat>, j: nat): set<nat>
    requires WellFormed(t) && |c| == |t|
  {
    set k: nat | k < |t| && TopOfColor(t, c, k) && c[k] < j
  }

  /** Climbing from a coloured node to the top of its colour. */
  ghost function TopOf(t: Tree, c: seq<nat>, k: nat): (r: nat)
    requires WellFormed(t) && |c| == |t| && k < |t| && c[k] != 0 && c[0] == 0
    ensures r <= k < t[r].end && TopOfColor(t, c, r) && c[r] == c[k]
  {
    if c[t[k].parent] == c[k] then TopOf(t, c, t[k].parent) else k
  }

  lemma {:induction false} TopsCount(t: Tree, c: seq<nat>, next: nat, j: nat)
    requires WellFormed(t) && |c| == |t| && c[0] == 0 && OneTop(t, c) && AllUsed(c, next)
    requires 1 <= j <= next
    ensures |Tops(t, c, j)| == j - 1
  {
    hide WellFormed, OneTop, Tops, TopOfColor;
    if j == 1 {
      NoTops(t, c);
    } else {
      TopsCount(t, c, next, j - 1);
      assert Used(c, j - 1);
      var k :| 0 <= k < |c| && c[k] == j - 1;
      TopsStep(t, c, j - 1, TopOf(t, c, k));
    }
  }

  lemma NoTops(t: Tree, c: seq<nat>)
    requires WellFormed(t) && |c| == |t|
    ensures Tops(t, c, 1) == {}
  {
  }

  lemma TopsStep(t: Tree, c: seq<nat>, j: nat, r: nat)
    requires WellFormed(t) && |c| == |t| && OneTop(t, c)
    requires r < |t| && TopOfColor(t, c, r) && c[r] == j
    ensures |Tops(t, c, j + 1)| == |Tops(t, c, j)| + 1
  {
    var a, b := Tops(t, c, j + 1), Tops(t, c, j);
    forall x ensures x in a <==> x in b || x == r {
      if x in a && x !in b {
        assert x < |t| && TopOfColor(t, c, x) && c[x] == j;
      }
    }
    assert a == b + {r} && r !in b;
  }

  /** There are never more sets than loops with a known trip count. */
  lemma SetsBounded(t: Tree, tr: Trees, c: seq<nat>, next: nat)
    requires WellFormed(t) && Colored(t, tr, c, next)
    ensures next - 1 <= |Known(t)|
  {
    TopsCount(t, c, next, next);
    SubsetSize(Tops(t, c, next), Known(t));
  }

  ghost function ChainTops(t: Tree, tr: Trees): set<nat>
    requires WellFormed(t)
  {
    set k: nat | k < |t| && t[k].scale != 0 && !Chained(t, tr, k)
  }

  /** When all is settled there is one set per chain. */
  lemma SetsAreChains(t: Tree, tr: Trees, c: seq<nat>, next: nat)
    requires WellFormed(t) && Colored(t, tr, c, next) && Settled(t, tr, c, next)
    ensures next - 1 == |ChainTops(t, tr)|
  {
    TopsCount(t, c, next, next);
    forall k: nat | k < |t| ensures k in Tops(t, c, next) <==> k in ChainTops(t, tr) {
    }
    assert Tops(t, c, next) == ChainTops(t, tr);
  }

  // ---- First colouring -----------------------------------------------------

  /** The colour given to a loop before any set is split. */
  function FirstColor(t: Tree, k: nat): nat
    requires WellFormed(t) && k < |t|
    decreases k, 1
  {
    if k == 0 || t[k].scale == 0 then 0
    else if FirstColor(t, t[k].parent) != 0 then FirstColor(t, t[k].parent)
    else 1 + FirstTops(t, k)
  }

  /** The number of sets opened before node `n`. */
  function FirstTops(t: Tree, n: nat): nat
    requires WellFormed(t) && n <= |t|
    decreases n, 0
  {
    if n == 0 then 0
    else FirstTops(t, n - 1) + (if n != 1 && t[n - 1].scale != 0 && FirstColor(t, t[n - 1].parent) == 0 then 1 else 0)
  }

  ghost predicate Opens(t: Tree, k: nat)
    requires WellFormed(t) && k < |t|
  {
    0 < k && t[k].scale != 0 && FirstColor(t, t[k].parent) == 0
  }

  /** How the traversal in preorder computes both. */
  lemma FirstStep(t: Tree, i: nat)
    requires WellFormed(t) && 0 < i < |t|
    ensures t[i].parent < i
    ensures FirstColor(t, i) == if t[i].scale == 0 then 0
      else if FirstColor(t, t[i].parent) != 0 then FirstColor(t, t[i].parent) else 1 + FirstTops(t, i)
    ensures FirstTops(t, i + 1) == FirstTops(t, i) + (if Opens(t, i) then 1 else 0)
  {
  }

  lemma FirstRoot(t: Tree)
    requires WellFormed(t)
    ensures FirstColor(t, 0) == 0 && FirstTops(t, 1) == FirstTops(t, 0)
  {
  }

  lemma {:induction false} FirstTopsMonotone(t: Tree, m: nat, n: nat)
    requires WellFormed(t) && m <= n <= |t|
    ensures FirstTops(t, m) <= FirstTops(t, n)
    ensures m < n && Opens(t, m) ==> FirstTops(t, m) < FirstTops(t, n)
  {
    if m < n {
      FirstTopsMonotone(t, m, n - 1);
    }
  }

  lemma {:induction false} FirstColorBound(t: Tree, k: nat)
    requires WellFormed(t) && k < |t|
    ensures FirstColor(t, k) <= FirstTops(t, |t|)
    ensures FirstColor(t, k) == 0 <==> t[k].scale == 0
  {
    if k != 0 && t[k].scale != 0 {
      FirstColorBound(t, t[k].parent);
      FirstTopsMonotone(t, k, |t|);
    }
  }

  lemma {:induction false} FirstUsed(t: Tree, n: nat, j: nat) returns (k: nat)
    requires WellFormed(t) && n <= |t| && 1 <= j <= FirstTops(t, n)
    ensures k < n && FirstColor(t, k) == j
  {
    if j <= FirstTops(t, n - 1) {
      k := FirstUsed(t, n - 1, j);
    } else {
      k := n - 1;
    }
  }

  lemma FirstColored(t: Tree, tr: Trees, c: seq<nat>)
    requires WellFormed(t) && |c| == |t| && forall k :: 0 <= k < |t| ==> c[k] == FirstColor(t, k)
    ensures Colored(t, tr, c, 1 + FirstTops(t, |t|))
  {
    forall k | 0 <= k < |t| ensures c[k] < 1 + FirstTops(t, |t|) && (c[k] == 0 <==> t[k].scale == 0) {
      FirstColorBound(t, k);
    }
    forall a, b | 0 <= a < b < |t| && TopOfColor(t, c, a) && TopOfColor(t, c, b) ensures c[a] != c[b] {
      FirstTopsMonotone(t, a, b);
    }
    forall j | 1 <= j < 1 + FirstTops(t, |t|) ensures Used(c, j) {
      var k := FirstUsed(t, |t|, j);
      assert c[k] == j;
    }
  }

  // ---- Splitting a set -----------------------------------------------------

  /** The colouring after the part of class `was` in the subtree of `i` has been given colour `young`. */
  ghost predicate Recolored(t: Tree, c: seq<nat>, d: seq<nat>, i: nat, was: nat, young: nat)
    requires WellFormed(t) && |c| == |t| && i < |t|
  {
    |d| == |c| && forall k :: 0 <= k < |t| ==> d[k] == if i <= k < t[i].end && c[k] == was then young else c[k]
  }

  /** Past any node of a colour, the colour is closed under taking parents. */
  lemma ClassClosed(t: Tree, tr: Trees, c: seq<nat>, next: nat, i: nat, k: nat)
    requires WellFormed(t) && Colored(t, tr, c, next) && i < k < |t|
    requires c[k] == c[i] && c[i] != 0
    ensures c[t[k].parent] == c[k]
  {
    var r := TopOf(t, c, i);
    var top := TopOfColor(t, c, k);
  }

  /** Splitting a set at a loop that is not chained to its parent leaves a proper colouring with
      one more set. */
  lemma SplitColored(t: Tree, tr: Trees, c: seq<nat>, d: seq<nat>, next: nat, i: nat)
    requires WellFormed(t) && Colored(t, tr, c, next)
    requires 0 < i < |t| && c[i] != 0 && c[t[i].parent] == c[i] && !Chained(t, tr, i)
    requires Recolored(t, c, d, i, c[i], next)
    ensures Colored(t, tr, d, next + 1)
  {
    SplitUnique(t, tr, c, d, next, i);
    forall j | 1 <= j < next + 1 ensures Used(d, j) {
      SplitUsed(t, tr, c, d, next, i, j);
    }
    forall k | 0 <= k < |t| && Chained(t, tr, k) ensures d[k] == d[t[k].parent] {
      SplitEdge(t, c, i, k);
    }
  }

  lemma SplitUnique(t: Tree, tr: Trees, c: seq<nat>, d: seq<nat>, next: nat, i: nat)
    requires WellFormed(t) && Colored(t, tr, c, next) && 0 < i < |t| && c[i] != 0
    requires Recolored(t, c, d, i, c[i], next)
    ensures forall a, b ::
      0 <= a < |t| && 0 <= b < |t| && TopOfColor(t, d, a) && TopOfColor(t, d, b) && d[a] == d[b] ==> a == b
  {
    forall a, b | 0 <= a < |t| && 0 <= b < |t| && TopOfColor(t, d, a) && TopOfColor(t, d, b) && d[a] == d[b]
      ensures a == b
    {
      if a != i { SplitTop(t, tr, c, d, next, i, a); }
      if b != i { SplitTop(t, tr, c, d, next, i, b); }
    }
  }

  lemma SplitUsed(t: Tree, tr: Trees, c: seq<nat>, d: seq<nat>, next: nat, i: nat, j: nat)
    requires WellFormed(t) && Colored(t, tr, c, next)
    requires 0 < i < |t| && c[i] != 0 && c[t[i].parent] == c[i]
    requires Recolored(t, c, d, i, c[i], next) && 1 <= j <= next
    ensures Used(d, j)
  {
    if j == next {
      assert d[i] == j;
    } else if j == c[i] {
      assert d[t[i].parent] == j;
    } else {
      assert Used(c, j);
      var k :| 0 <= k < |c| && c[k] == j;
      assert d[k] == j;
    }
  }

  /** The only tree edge into the subtree of `i` is the one into `i`. */
  lemma SplitEdge(t: Tree, c: seq<nat>, i: nat, k: nat)
    requires WellFormed(t) && 0 < i < |t| && 0 < k < |t| && k != i
    ensures i <= k < t[i].end <==> i <= t[k].parent < t[i].end
  {
    var p := t[k].parent;
    if i < p < t[i].end {
      assert t[p].end <= t[i].end;
    }
  }

  lemma SplitTop(t: Tree, tr: Trees, c: seq<nat>, d: seq<nat>, next: nat, i: nat, k: nat)
    requires WellFormed(t) && Colored(t, tr, c, next) && 0 < i < |t| && c[i] != 0
    requires Recolored(t, c, d, i, c[i], next) && 0 < k < |t| && k != i
    requires TopOfColor(t, d, k)
    ensures TopOfColor(t, c, k) && d[k] == c[k]
  {
    SplitEdge(t, c, i, k);
    if i < k < t[i].end && c[k] == c[i] {
      ClassClosed(t, tr, c, next, i, k);
    }
  }
}
