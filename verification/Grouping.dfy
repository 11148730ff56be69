/** Grouping of blocks that share one counter (`createPostDomSets`). */
module Grouping {
  import opened Collections
  import opened Cfg

  /** The analyses the pass consults: `dom(a, b)` and `pdom(a, b)` answer "does `a` (post-)dominate
      `b`", and `enabled` is the `-postdomset` option. */
  datatype Trees = Trees(dom: (Block, Block) -> bool, pdom: (Block, Block) -> bool, enabled: bool) {
    /** `x` may share the counter of the anchor `b`. */
    predicate Joins(b: Block, x: Block) {
      enabled && pdom(x, b) && dom(b, x)
    }

    ghost predicate Faithful(g: Graph) {
      && (forall a, b :: dom(a, b) <==> Dom(g, a, b))
      && (forall a, b :: pdom(a, b) <==> PDom(g, a, b))
    }
  }

  /** A list of blocks that the pass consumes in place. */
  class Pool {
    var blocks: seq<Block>

    constructor (blocks: seq<Block>)
      ensures this.blocks == blocks
    {
      this.blocks := blocks;
    }
  }

  function Flat(ss: seq<seq<Block>>): seq<Block> {
    if ss == [] then [] else ss[0] + Flat(ss[1..])
  }

  lemma {:induction false} FlatConcat(a: seq<seq<Block>>, b: seq<seq<Block>>)
    ensures Flat(a + b) == Flat(a) + Flat(b)
  {
    if a == [] {
      assert a + b == b;
    } else {
      assert (a + b)[1..] == a[1..] + b;
      FlatConcat(a[1..], b);
    }
  }

  // ---- Specification -------------------------------------------------------

  function Pick(l: seq<Block>, b: Block, t: Trees): (r: seq<Block>)
    ensures |r| <= |l|
  {
    if l == [] then []
    else if t.Joins(b, l[0]) then [l[0]] + Pick(l[1..], b, t)
    else Pick(l[1..], b, t)
  }

  function Drop(l: seq<Block>, b: Block, t: Trees): (r: seq<Block>)
    ensures |r| <= |l|
  {
    if l == [] then []
    else if t.Joins(b, l[0]) then Drop(l[1..], b, t)
    else [l[0]] + Drop(l[1..], b, t)
  }

  /** The groups of a list: its first block with all that join it, then the groups of the rest. */
  function Groups(l: seq<Block>, t: Trees): seq<seq<Block>>
    decreases |l|
  {
    if l == [] then []
    else [[l[0]] + Pick(l[1..], l[0], t)] + Groups(Drop(l[1..], l[0], t), t)
  }

  lemma {:induction false} PickDropConcat(l: seq<Block>, m: seq<Block>, b: Block, t: Trees)
    ensures Pick(l + m, b, t) == Pick(l, b, t) + Pick(m, b, t)
    ensures Drop(l + m, b, t) == Drop(l, b, t) + Drop(m, b, t)
  {
    if l == [] {
      assert l + m == m;
    } else {
      assert (l + m)[1..] == l[1..] + m;
      PickDropConcat(l[1..], m, b, t);
    }
  }

  lemma {:induction false} DropNone(l: seq<Block>, b: Block, t: Trees)
    requires forall x :: x in l ==> !t.Joins(b, x)
    ensures Drop(l, b, t) == l
  {
    if l != [] {
      assert l == [l[0]] + l[1..];
      DropNone(l[1..], b, t);
    }
  }

  lemma {:induction false} PickNone(l: seq<Block>, b: Block, t: Trees)
    requires forall x :: x in l ==> !t.Joins(b, x)
    ensures Pick(l, b, t) == []
  {
    if l != [] {
      PickNone(l[1..], b, t);
    }
  }

  /** Which elements of a list are joined to the anchor: the contents of `processedIndexes`. */
  ghost predicate Indexes(idx: seq<nat>, l: seq<Block>, n: nat, b: Block, t: Trees) {
    && n <= |l|
    && (forall m :: 0 <= m < |idx| ==> idx[m] < n && t.Joins(b, l[idx[m]]))
    && (forall m, k :: 0 <= m < k < |idx| ==> idx[m] < idx[k])
    && (forall i :: 0 <= i < n && t.Joins(b, l[i]) ==> i in idx)
  }

  lemma NothingBetween(idx: seq<nat>, l: seq<Block>, b: Block, t: Trees, m: int, i: nat)
    requires Indexes(idx, l, |l|, b, t) && -1 <= m < |idx|
    requires (if 0 <= m then idx[m] else -1) < i < (if m + 1 < |idx| then idx[m + 1] else |l|)
    ensures !t.Joins(b, l[i])
  {
  }

  /** Erasing one more processed index, from the back. */
  lemma EraseStep(idx: seq<nat>, l: seq<Block>, b: Block, t: Trees, m: nat, c: nat)
    requires Indexes(idx, l, |l|, b, t) && m < |idx|
    requires c == if m + 1 < |idx| then idx[m + 1] else |l|
    ensures idx[m] < c <= |l|
    ensures Drop(l[idx[m]..], b, t) == l[idx[m] + 1..c] + Drop(l[c..], b, t)
  {
    var i := idx[m];
    var mid := l[i + 1..c];
    forall x | x in mid ensures !t.Joins(b, x) {
      var k :| 0 <= k < |mid| && mid[k] == x;
      NothingBetween(idx, l, b, t, m, i + 1 + k);
    }
    hide Indexes;
    DropPart(l, b, t, i, c);
  }

  /** Of a stretch that begins with a joined block and has no other, all but the first are kept. */
  lemma DropPart(l: seq<Block>, b: Block, t: Trees, i: nat, c: nat)
    requires i < c <= |l| && t.Joins(b, l[i]) && forall x :: x in l[i + 1..c] ==> !t.Joins(b, x)
    ensures Drop(l[i..], b, t) == l[i + 1..c] + Drop(l[c..], b, t)
  {
    var mid := l[i + 1..c];
    DropNone(mid, b, t);
    assert l[i + 1..] == mid + l[c..];
    PickDropConcat(mid, l[c..], b, t);
    assert l[i..][1..] == l[i + 1..];
  }

  /** The scan that fills `tmp_blocks` and `processedIndexes`. */
  method CollectJoined(pool: Pool, b: Block, t: Trees) returns (joined: seq<Block>, idx: seq<nat>)
    ensures joined == Pick(pool.blocks, b, t)
    ensures Indexes(idx, pool.blocks, |pool.blocks|, b, t)
  {
    var l := pool.blocks;
    joined, idx := [], [];
    assert Indexes(idx, l, 0, b, t);
    for i := 0 to |l|
      invariant joined == Pick(l[..i], b, t)
      invariant Indexes(idx, l, i, b, t)
    {
      PickStep(l, i, b, t);
      if t.Joins(b, l[i]) {
        joined := joined + [l[i]];
        CollectStep(idx, l, i, b, t);
        idx := idx + [i];
      }
    }
    assert l[..|l|] == l;
  }

  lemma PickStep(l: seq<Block>, i: nat, b: Block, t: Trees)
    requires i < |l|
    ensures Pick(l[..i + 1], b, t) == Pick(l[..i], b, t) + if t.Joins(b, l[i]) then [l[i]] else []
  {
    assert l[..i + 1] == l[..i] + [l[i]];
    PickDropConcat(l[..i], [l[i]], b, t);
  }

  lemma CollectStep(idx: seq<nat>, l: seq<Block>, i: nat, b: Block, t: Trees)
    requires i < |l| && Indexes(idx, l, i, b, t) && t.Joins(b, l[i])
    ensures Indexes(idx + [i], l, i + 1, b, t)
  {
    var r := idx + [i];
    forall k | 0 <= k < i + 1 && t.Joins(b, l[k]) ensures k in r {
      if k == i { assert r[|idx|] == i; } else { assert k in idx; }
    }
  }

  /** Erases the positions `idx` of the pool, from the back. */
  method EraseJoined(pool: Pool, idx: seq<nat>, ghost b: Block, ghost t: Trees)
    requires Indexes(idx, pool.blocks, |pool.blocks|, b, t)
    modifies pool
    ensures pool.blocks == Drop(old(pool.blocks), b, t)
  {
    ghost var l := pool.blocks;
    ghost var c := |l|;
    var m := |idx|;
    assert l[..c] + Drop(l[c..], b, t) == l;
    while m > 0
      invariant 0 <= m <= |idx| && c == if m < |idx| then idx[m] else |l|
      invariant 0 <= c <= |l| && pool.blocks == l[..c] + Drop(l[c..], b, t)
    {
      m := m - 1;
      EraseStep(idx, l, b, t, m, c);
      pool.blocks := pool.blocks[..idx[m]] + pool.blocks[idx[m] + 1..];
      EraseOne(l, Drop(l[c..], b, t), idx[m], c);
      c := idx[m];
    }
    FinishErase(idx, l, b, t, c);
  }

  lemma EraseOne(l: seq<Block>, tail: seq<Block>, i: nat, c: nat)
    requires i < c <= |l|
    ensures var p := l[..c] + tail; p[..i] + p[i + 1..] == l[..i] + (l[i + 1..c] + tail)
  {
  }

  lemma FinishErase(idx: seq<nat>, l: seq<Block>, b: Block, t: Trees, c: nat)
    requires Indexes(idx, l, |l|, b, t) && c == if 0 < |idx| then idx[0] else |l|
    ensures c <= |l| && l[..c] + Drop(l[c..], b, t) == Drop(l, b, t)
  {
    forall x | x in l[..c] ensures !t.Joins(b, x) {
      var k :| 0 <= k < c && l[..c][k] == x;
      NothingBetween(idx, l, b, t, -1, k);
    }
    DropNone(l[..c], b, t);
    assert l == l[..c] + l[c..];
    PickDropConcat(l[..c], l[c..], b, t);
  }

  /** Empties the pool into groups, each led by the block whose execution will be counted. */
  method CreatePostDomSets(pool: Pool, t: Trees) returns (pd: seq<seq<Block>>)
    modifies pool
    ensures pd == Groups(old(pool.blocks), t)
    ensures pool.blocks == []
  {
    pd := [];
    while pool.blocks != []
      invariant pd + Groups(pool.blocks, t) == Groups(old(pool.blocks), t)
      decreases |pool.blocks|
    {
      ghost var l := pool.blocks;
      var b := pool.blocks[0];
      pool.blocks := pool.blocks[1..];
      var joined, idx := CollectJoined(pool, b, t);
      EraseJoined(pool, idx, b, t);
      assert pd + Groups(l, t) == (pd + [[b] + joined]) + Groups(pool.blocks, t);
      pd := pd + [[b] + joined];
    }
  }

  // ---- What the groups are -------------------------------------------------

  lemma {:induction false} PickDropSplit(l: seq<Block>, b: Block, t: Trees)
    ensures multiset(Pick(l, b, t)) + multiset(Drop(l, b, t)) == multiset(l)
  {
    if l != [] {
      assert l == [l[0]] + l[1..];
      PickDropSplit(l[1..], b, t);
    }
  }

  lemma {:induction false} PickDropMembers(l: seq<Block>, b: Block, t: Trees)
    ensures forall x :: x in Pick(l, b, t) <==> x in l && t.Joins(b, x)
    ensures forall x :: x in Drop(l, b, t) <==> x in l && !t.Joins(b, x)
  {
    if l != [] {
      assert l == [l[0]] + l[1..];
      PickDropMembers(l[1..], b, t);
    }
  }

  /** No block is lost or counted twice. */
  lemma {:induction false} GroupsPartition(l: seq<Block>, t: Trees)
    ensures multiset(Flat(Groups(l, t))) == multiset(l)
    decreases |l|
  {
    if l != [] {
      var rest := Drop(l[1..], l[0], t);
      GroupsPartition(rest, t);
      PickDropSplit(l[1..], l[0], t);
      var gs := Groups(l, t);
      assert gs[1..] == Groups(rest, t);
      assert l == [l[0]] + l[1..];
    }
  }

  /** Every group has an anchor, its first block, which every other member joins. */
  ghost predicate Anchored(grp: seq<Block>, t: Trees) {
    grp != [] && forall x :: x in grp[1..] ==> t.Joins(grp[0], x)
  }

  lemma {:induction false} GroupsAnchored(l: seq<Block>, t: Trees)
    ensures forall k :: 0 <= k < |Groups(l, t)| ==> Anchored(Groups(l, t)[k], t)
    decreases |l|
  {
    if l != [] {
      GroupsAnchored(Drop(l[1..], l[0], t), t);
      PickDropMembers(l[1..], l[0], t);
    }
  }

  /** Groups are as large as they can be and led in list order: no block could have joined an earlier group, and
      each group's first block is listed before those of later groups. */
  lemma {:induction false} GroupsGreedy(l: seq<Block>, t: Trees, i: nat, j: nat, x: Block)
    requires i < j < |Groups(l, t)| && x in Groups(l, t)[j]
    ensures Groups(l, t)[i] != [] && !t.Joins(Groups(l, t)[i][0], x) && Before(l, Groups(l, t)[i][0], x)
    decreases |l|
  {
    var rest := Drop(l[1..], l[0], t);
    GroupMembers(rest, t, j - 1, x);
    PickDropMembers(l[1..], l[0], t);
    if i != 0 {
      GroupsGreedy(rest, t, i - 1, j - 1, x);
      DropBefore(l[1..], l[0], t, Groups(rest, t)[i - 1][0], x);
    }
  }

  /** With the option off every block has a group of its own. */
  lemma {:induction false} DisabledGroupsApart(l: seq<Block>, t: Trees, k: nat)
    requires !t.enabled && k < |l|
    ensures |Groups(l, t)| == |l| && Groups(l, t)[k] == [l[k]]
  {
    DropNone(l[1..], l[0], t);
    PickNone(l[1..], l[0], t);
    if |l| > 1 {
      DisabledGroupsApart(l[1..], t, if k == 0 then 0 else k - 1);
    }
  }

  ghost predicate SameGroup(gs: seq<seq<Block>>, x: Block, y: Block) {
    exists k :: 0 <= k < |gs| && x in gs[k] && y in gs[k]
  }

  /** `x` is listed before `y`. */
  ghost predicate Before(l: seq<Block>, x: Block, y: Block) {
    l != [] && ((l[0] == x && y in l[1..]) || Before(l[1..], x, y))
  }

  /** The first listed member of each control-equivalence class dominates the rest of its class. */
  ghost predicate LeadersFirst(g: Graph, l: seq<Block>) {
    forall x, y :: Before(l, x, y) && CtrlEq(g, x, y) && Leader(g, l, x) ==> Follows(g, x, y)
  }

  ghost predicate Leader(g: Graph, l: seq<Block>, x: Block) {
    forall z :: Before(l, z, x) ==> !CtrlEq(g, z, x)
  }

  ghost predicate Complete(g: Graph, l: seq<Block>) {
    forall b :: b in l ==> Reachable(g, b) && Exiting(g, b)
  }

  ghost predicate GroupsAreClasses(g: Graph, l: seq<Block>, t: Trees) {
    forall x, y :: x in l && y in l ==> (SameGroup(Groups(l, t), x, y) <==> CtrlEq(g, x, y))
  }

  lemma {:induction false} BeforeMembers(l: seq<Block>, x: Block, y: Block)
    requires Before(l, x, y)
    ensures x in l && y in l
    ensures NoDup(l) ==> x != y
  {
    if !(l[0] == x && y in l[1..]) {
      BeforeMembers(l[1..], x, y);
    }
  }

  lemma {:induction false} BeforeTotal(l: seq<Block>, x: Block, y: Block)
    requires x in l && y in l && x != y
    ensures Before(l, x, y) || Before(l, y, x)
  {
    assert l == [l[0]] + l[1..];
    if l[0] != x && l[0] != y {
      BeforeTotal(l[1..], x, y);
    }
  }

  lemma {:induction false} DropBefore(l: seq<Block>, b: Block, t: Trees, x: Block, y: Block)
    ensures Before(Drop(l, b, t), x, y) ==> Before(l, x, y)
    ensures Before(l, x, y) && !t.Joins(b, x) && !t.Joins(b, y) ==> Before(Drop(l, b, t), x, y)
  {
    if l != [] {
      DropBefore(l[1..], b, t, x, y);
      PickDropMembers(l[1..], b, t);
      if !t.Joins(b, l[0]) {
        assert Drop(l, b, t)[1..] == Drop(l[1..], b, t);
      }
    }
  }

  lemma {:induction false} DropNoDup(l: seq<Block>, b: Block, t: Trees)
    requires NoDup(l)
    ensures NoDup(Drop(l, b, t))
  {
    if l != [] {
      DropNoDup(l[1..], b, t);
      PickDropMembers(l[1..], b, t);
    }
  }

  lemma {:induction false} GroupOrder(l: seq<Block>, t: Trees, k: nat, x: Block)
    requires k < |Groups(l, t)| && Groups(l, t)[k] != [] && x in Groups(l, t)[k][1..]
    ensures Before(l, Groups(l, t)[k][0], x)
    decreases |l|
  {
    var rest := Drop(l[1..], l[0], t);
    PickDropMembers(l[1..], l[0], t);
    if k != 0 {
      GroupOrder(rest, t, k - 1, x);
      DropBefore(l[1..], l[0], t, Groups(rest, t)[k - 1][0], x);
    }
  }

  lemma {:induction false} GroupMembers(l: seq<Block>, t: Trees, k: nat, x: Block)
    requires k < |Groups(l, t)| && x in Groups(l, t)[k]
    ensures x in l
    decreases |l|
  {
    PickDropMembers(l[1..], l[0], t);
    assert l == [l[0]] + l[1..];
    if k != 0 {
      GroupMembers(Drop(l[1..], l[0], t), t, k - 1, x);
    }
  }

  lemma NothingBeforeFirst(l: seq<Block>, z: Block)
    requires l != [] && NoDup(l)
    ensures !Before(l, z, l[0])
  {
    if Before(l[1..], z, l[0]) {
      BeforeMembers(l[1..], z, l[0]);
    }
  }

  /** Nothing is listed before the first block, so it joins its whole class. */
  lemma FirstTakesClass(g: Graph, l: seq<Block>, t: Trees, x: Block)
    requires l != [] && NoDup(l) && LeadersFirst(g, l) && t.enabled && t.Faithful(g)
    requires x in l[1..]
    ensures t.Joins(l[0], x) <==> CtrlEq(g, l[0], x)
  {
    forall z ensures !Before(l, z, l[0]) {
      NothingBeforeFirst(l, z);
    }
    assert Before(l, l[0], x) && Leader(g, l, l[0]);
    if CtrlEq(g, l[0], x) {
      assert Follows(g, l[0], x);
    }
  }

  lemma RestLeadersFirst(g: Graph, l: seq<Block>, t: Trees)
    requires l != [] && NoDup(l) && Complete(g, l) && LeadersFirst(g, l) && t.enabled && t.Faithful(g)
    ensures LeadersFirst(g, Drop(l[1..], l[0], t))
  {
    var rest := Drop(l[1..], l[0], t);
    PickDropMembers(l[1..], l[0], t);
    forall x, y | Before(rest, x, y) && CtrlEq(g, x, y) && Leader(g, rest, x) ensures Follows(g, x, y) {
      DropBefore(l[1..], l[0], t, x, y);
      BeforeMembers(rest, x, y);
      forall z | Before(l, z, x) ensures !CtrlEq(g, z, x) {
        FirstTakesClass(g, l, t, x);
        if z != l[0] {
          BeforeMembers(l, z, x);
          FirstTakesClass(g, l, t, z);
          DropBefore(l[1..], l[0], t, z, x);
          CtrlEqIsEquivalence(g, l[0], z, x);
        }
      }
      assert Before(l, x, y) && Leader(g, l, x);
    }
  }

  lemma FirstGroupIsClass(g: Graph, l: seq<Block>, t: Trees, z: Block)
    requires l != [] && NoDup(l) && Complete(g, l) && LeadersFirst(g, l) && t.enabled && t.Faithful(g)
    requires z in l
    ensures z in Groups(l, t)[0] <==> CtrlEq(g, l[0], z)
    ensures z in Drop(l[1..], l[0], t) <==> !CtrlEq(g, l[0], z)
  {
    assert l == [l[0]] + l[1..];
    PickDropMembers(l[1..], l[0], t);
    CtrlEqIsEquivalence(g, l[0], l[0], l[0]);
    if z in l[1..] {
      FirstTakesClass(g, l, t, z);
    }
  }

  lemma OtherGroups(l: seq<Block>, t: Trees, x: Block, y: Block)
    requires l != []
    ensures SameGroup(Groups(l, t)[1..], x, y) ==> x in Drop(l[1..], l[0], t) && y in Drop(l[1..], l[0], t)
  {
    var rest := Drop(l[1..], l[0], t);
    var gs := Groups(l, t)[1..];
    assert gs == Groups(rest, t);
    if SameGroup(gs, x, y) {
      var k :| 0 <= k < |gs| && x in gs[k] && y in gs[k];
      GroupMembers(rest, t, k, x);
      GroupMembers(rest, t, k, y);
    }
  }

  lemma {:induction false} LeadersFirstGivesClasses(g: Graph, l: seq<Block>, t: Trees, x: Block, y: Block)
    requires NoDup(l) && Complete(g, l) && LeadersFirst(g, l) && t.enabled && t.Faithful(g)
    requires x in l && y in l
    ensures SameGroup(Groups(l, t), x, y) <==> CtrlEq(g, x, y)
    decreases |l|
  {
    hide CtrlEq;
    var b, rest, gs := l[0], Drop(l[1..], l[0], t), Groups(l, t);
    assert gs[1..] == Groups(rest, t);
    FirstGroupIsClass(g, l, t, x);
    FirstGroupIsClass(g, l, t, y);
    ClassStep(g, l, b, x, y);
    if CtrlEq(g, b, x) && CtrlEq(g, b, y) {
      assert SameGroup(gs, x, y);
    } else {
      SameGroupTail(gs, x, y);
      OtherGroups(l, t, x, y);
      if x in rest && y in rest {
        RestLeadersFirst(g, l, t);
        DropNoDup(l[1..], b, t);
        PickDropMembers(l[1..], b, t);
        LeadersFirstGivesClasses(g, rest, t, x, y);
      }
    }
  }

  lemma ClassStep(g: Graph, l: seq<Block>, b: Block, x: Block, y: Block)
    requires Complete(g, l) && b in l && x in l && y in l
    ensures CtrlEq(g, b, x) && CtrlEq(g, b, y) ==> CtrlEq(g, x, y)
    ensures CtrlEq(g, b, x) != CtrlEq(g, b, y) ==> !CtrlEq(g, x, y)
  {
    hide CtrlEq;
    CtrlEqIsEquivalence(g, b, x, y);
    CtrlEqIsEquivalence(g, b, y, x);
    CtrlEqIsEquivalence(g, x, b, y);
    CtrlEqIsEquivalence(g, x, y, b);
  }

  lemma SameGroupTail(gs: seq<seq<Block>>, x: Block, y: Block)
    requires gs != [] && !(x in gs[0] && y in gs[0])
    ensures SameGroup(gs, x, y) <==> SameGroup(gs[1..], x, y)
  {
    if SameGroup(gs[1..], x, y) {
      var k :| 0 <= k < |gs[1..]| && x in gs[1..][k] && y in gs[1..][k];
      assert x in gs[k + 1] && y in gs[k + 1];
    }
    if SameGroup(gs, x, y) {
      var k :| 0 <= k < |gs| && x in gs[k] && y in gs[k];
      assert gs[1..][k - 1] == gs[k];
    }
  }

  lemma ClassesNeedLeadersFirst(g: Graph, l: seq<Block>, t: Trees)
    requires NoDup(l) && t.enabled && t.Faithful(g) && GroupsAreClasses(g, l, t)
    ensures LeadersFirst(g, l)
  {
    forall x, y | Before(l, x, y) && CtrlEq(g, x, y) && Leader(g, l, x) ensures Follows(g, x, y) {
      BeforeMembers(l, x, y);
      var gs := Groups(l, t);
      var k :| 0 <= k < |gs| && x in gs[k] && y in gs[k];
      GroupsAnchored(l, t);
      assert Anchored(gs[k], t) && gs[k] == [gs[k][0]] + gs[k][1..];
      if gs[k][0] != x {
        GroupOrder(l, t, k, x);
      }
    }
  }

  /** The partition is the canonical one, with control equivalence as its relation, exactly when
      the first listed member of each class dominates the others. */
  lemma {:induction false} CanonicalIffLeadersFirst(g: Graph, l: seq<Block>, t: Trees)
    requires NoDup(l) && Complete(g, l) && t.enabled && t.Faithful(g)
    ensures GroupsAreClasses(g, l, t) <==> LeadersFirst(g, l)
  {
    if GroupsAreClasses(g, l, t) {
      ClassesNeedLeadersFirst(g, l, t);
    }
    if LeadersFirst(g, l) {
      forall x, y | x in l && y in l ensures SameGroup(Groups(l, t), x, y) <==> CtrlEq(g, x, y) {
        LeadersFirstGivesClasses(g, l, t, x, y);
      }
    }
  }

  /** A list in which no block is preceded by one that it strictly dominates. */
  ghost predicate DominatorsFirst(g: Graph, l: seq<Block>) {
    forall x, y :: Before(l, x, y) ==> !Dom(g, y, x)
  }

  lemma DominatorsFirstSuffices(g: Graph, l: seq<Block>, t: Trees)
    requires NoDup(l) && Complete(g, l) && t.enabled && t.Faithful(g) && DominatorsFirst(g, l)
    ensures GroupsAreClasses(g, l, t)
  {
    CanonicalIffLeadersFirst(g, l, t);
  }

  // ---- Where the claims in the source stop ---------------------------------

  lemma GroupsOfTwo(a: Block, b: Block, t: Trees)
    ensures Groups([a, b], t) == if t.Joins(a, b) then [[a, b]] else [[a], [b]]
  {
    var pair, one := [a, b], [b];
    assert pair[1..] == one && one[1..] == [];
    assert [a] + [] == [a] && [b] + [] == [b] && [a] + [b] == [a, b];
    assert Groups(one, t) == [[b] + []] + [];
    if t.Joins(a, b) {
      assert Pick(one, a, t) == one && Drop(one, a, t) == [];
      assert Groups(pair, t) == [[a] + one] + [];
    } else {
      assert Pick(one, a, t) == [] && Drop(one, a, t) == one;
      assert Groups(pair, t) == [[a] + []] + Groups(one, t);
    }
  }

  /** Entry 0, a loop 1 -> 2 -> {1, 3} with 3 -> {1, 4}, exit 4: block 2 may `continue` past 3. */
  const BYPASS := Graph({(0, 1), (1, 2), (2, 1), (2, 3), (3, 1), (3, 4)}, {0}, {4})

  lemma BypassFollows()
    ensures Follows(BYPASS, 1, 3)
  {
    forall p | FromEntry(BYPASS, p) && p[|p| - 1] == 3 ensures 1 in p {
      assert StepAt(BYPASS, p, 1);
    }
    forall p | ToExit(BYPASS, p) && p[0] == 1 ensures 3 in p {
      assert StepAt(BYPASS, p, |p| - 1);
    }
  }

  lemma BypassRun()
    ensures Run(BYPASS, [0, 1, 2, 1, 2, 3, 4])
  {
  }

  lemma BypassCycles()
    ensures ClosedWalk(BYPASS, [1, 2, 1]) && ClosedWalk(BYPASS, [1, 2, 3, 1])
  {
  }

  /** Two blocks of one loop may pass the test, and still run unequally often: the two checks
      (dominance both ways, same loop) do not make one counter exact. */
  lemma SameLoopIsNotEnough(t: Trees)
    requires t.enabled && t.Faithful(BYPASS)
    ensures Groups([1, 3], t) == [[1, 3]]
    ensures exists w :: Run(BYPASS, w) && Times(w, 1) != Times(w, 3)
    ensures exists c :: ClosedWalk(BYPASS, c) && 1 in c && 3 in c
    ensures !Tied(BYPASS, 1, 3)
  {
    BypassFollows();
    BypassRun();
    BypassCycles();
    var w := [0, 1, 2, 1, 2, 3, 4];
    assert multiset(w)[1] == 2 && multiset(w)[3] == 1;
    GroupsOfTwo(1, 3, t);
    assert 3 !in [1, 2, 1] && 1 in [1, 2, 1];
  }

  /** A straight line 0 -> 1 -> 2. */
  const LINE := Graph({(0, 1), (1, 2)}, {0}, {2})

  /** The partition depends on the order of the list: two control-equivalent blocks are grouped
      when the dominator comes first and left apart when it comes second. */
  lemma OrderMatters(t: Trees)
    requires t.enabled && t.Faithful(LINE)
    ensures CtrlEq(LINE, 0, 1)
    ensures Groups([0, 1], t) == [[0, 1]] && Groups([1, 0], t) == [[1], [0]]
  {
    forall p | FromEntry(LINE, p) && p[|p| - 1] == 1 ensures 0 in p {
      assert p[0] == 0;
    }
    forall p | ToExit(LINE, p) && p[0] == 0 ensures 1 in p {
      assert StepAt(LINE, p, 1);
    }
    var z := [0];
    assert FromEntry(LINE, z) && z[|z| - 1] == 0 && 1 !in z;
    assert !Dom(LINE, 1, 0);
    GroupsOfTwo(0, 1, t);
    GroupsOfTwo(1, 0, t);
  }
}
