/** Counters handed out for a region, and what it means for a step of the pass to move blocks from
    the region's pool to counters. */
module Plan {
  import opened Collections
  import opened Cfg
  import opened Grouping
  import opened LoopTree

  /** Blocks of one loop that run once per iteration, with the scale factor recorded for them. */
  datatype Part = Part(loop: nat, blocks: seq<Block>, scale: nat)

  datatype Counter =
    | Anchor(blocks: seq<Block>)              // counted where the first block runs
    | Hoist(top: nat, parts: seq<Part>)       // counted on entry to loop `top`
    | Dynamic(loop: nat, blocks: seq<Block>)  // advanced by the trip count on entry to the loop

  function PartBlocks(ps: seq<Part>): seq<Block> {
    if ps == [] then [] else ps[0].blocks + PartBlocks(ps[1..])
  }

  function BlocksOf(c: Counter): seq<Block> {
    match c
    case Anchor(bs) => bs
    case Hoist(_, ps) => PartBlocks(ps)
    case Dynamic(_, bs) => bs
  }

  function AllBlocks(cs: seq<Counter>): seq<Block> {
    if cs == [] then [] else BlocksOf(cs[0]) + AllBlocks(cs[1..])
  }

  function PartLoops(ps: seq<Part>): multiset<nat> {
    if ps == [] then multiset{} else multiset{ps[0].loop} + PartLoops(ps[1..])
  }

  /** The loops whose blocks share hoisted counters. */
  function HoistLoops(cs: seq<Counter>): multiset<nat> {
    if cs == [] then multiset{}
    else (if cs[0].Hoist? then PartLoops(cs[0].parts) else multiset{}) + HoistLoops(cs[1..])
  }

  function Anchors(gs: seq<seq<Block>>): seq<Counter> {
    if gs == [] then [] else [Anchor(gs[0])] + Anchors(gs[1..])
  }

  lemma {:induction false} PartBlocksConcat(a: seq<Part>, b: seq<Part>)
    ensures PartBlocks(a + b) == PartBlocks(a) + PartBlocks(b)
  {
    if a == [] {
      assert a + b == b;
    } else {
      assert (a + b)[1..] == a[1..] + b;
      PartBlocksConcat(a[1..], b);
    }
  }

  lemma {:induction false} PartLoopsConcat(a: seq<Part>, b: seq<Part>)
    ensures PartLoops(a + b) == PartLoops(a) + PartLoops(b)
  {
    if a == [] {
      assert a + b == b;
    } else {
      assert (a + b)[1..] == a[1..] + b;
      PartLoopsConcat(a[1..], b);
    }
  }

  lemma {:induction false} AllBlocksConcat(a: seq<Counter>, b: seq<Counter>)
    ensures AllBlocks(a + b) == AllBlocks(a) + AllBlocks(b)
  {
    if a == [] {
      assert a + b == b;
    } else {
      assert (a + b)[1..] == a[1..] + b;
      AllBlocksConcat(a[1..], b);
    }
  }

  lemma {:induction false} HoistLoopsConcat(a: seq<Counter>, b: seq<Counter>)
    ensures HoistLoops(a + b) == HoistLoops(a) + HoistLoops(b)
  {
    if a == [] {
      assert a + b == b;
    } else {
      assert (a + b)[1..] == a[1..] + b;
      HoistLoopsConcat(a[1..], b);
    }
  }

  lemma {:induction false} AnchorsBlocks(gs: seq<seq<Block>>)
    ensures AllBlocks(Anchors(gs)) == Flat(gs)
    ensures HoistLoops(Anchors(gs)) == multiset{}
    ensures forall c :: c in Anchors(gs) ==> c.Anchor? && c.blocks in gs
  {
    if gs != [] {
      AnchorsBlocks(gs[1..]);
    }
  }

  lemma {:induction false} AnchorsConcat(a: seq<seq<Block>>, b: seq<seq<Block>>)
    ensures Anchors(a + b) == Anchors(a) + Anchors(b)
  {
    if a == [] {
      assert a + b == b;
    } else {
      AnchorsConcat(a[1..], b);
      assert (a + b)[1..] == a[1..] + b;
    }
  }

  // ---- Well-placed counters ------------------------------------------------

  /** Two blocks lie at the same nesting level: in the same loop's own blocks, or in none. */
  ghost predicate SameHome(t: Tree, a: Block, b: Block) {
    forall k :: 0 <= k < |t| ==> (a in t[k].unique <==> b in t[k].unique)
  }

  ghost predicate PartOk(t: Tree, tr: Trees, p: Part, top: nat)
    requires WellFormed(t)
  {
    && p.loop < |t| && t[p.loop].scale != 0
    && ChainTop(t, tr, p.loop) == top
    && p.scale == ChainScale(t, tr, p.loop)
    && forall b :: b in p.blocks ==> b in t[p.loop].unique && tr.pdom(b, t[p.loop].header)
  }

  ghost predicate PartsOk(t: Tree, tr: Trees, ps: seq<Part>, top: nat)
    requires WellFormed(t)
  {
    forall p :: p in ps ==> PartOk(t, tr, p, top)
  }

  ghost predicate CounterOk(t: Tree, tr: Trees, c: Counter)
    requires WellFormed(t)
  {
    match c
    case Anchor(bs) =>
      bs != [] && forall x :: x in bs[1..] ==> tr.Joins(bs[0], x) && SameHome(t, bs[0], x)
    case Hoist(top, ps) =>
      0 < top < |t| && t[top].scale != 0 && PartsOk(t, tr, ps, top) && ps != [] && ps[0].loop == top
    case Dynamic(k, bs) =>
      && 0 < k < |t| && t[k].scale == 0 && t[k].computable && t[k].recomputes
      && forall b :: b in bs ==> b in t[k].unique && tr.pdom(b, t[k].header)
  }

  ghost predicate CountersOk(t: Tree, tr: Trees, cs: seq<Counter>)
    requires WellFormed(t)
  {
    forall c :: c in cs ==> CounterOk(t, tr, c)
  }

  // ---- What each loop is to be given ---------------------------------------

  /** The blocks of `u` that are in `l` and post-dominate the header, in order; none when the trip count is of
      no use. */
  ghost function Ahead(u: seq<Block>, l: seq<Block>, header: Block, hoistable: bool, tr: Trees): seq<Block> {
    if u == [] then []
    else
      var v, x := u[..|u| - 1], u[|u| - 1];
      Ahead(v, l, header, hoistable, tr) + if x in l && x !in v && hoistable && tr.pdom(x, header) then [x] else []
  }

  /** The other blocks of `u` that are in `l`. */
  ghost function Aside(u: seq<Block>, l: seq<Block>, header: Block, hoistable: bool, tr: Trees): seq<Block> {
    if u == [] then []
    else
      var v, x := u[..|u| - 1], u[|u| - 1];
      Aside(v, l, header, hoistable, tr) + if x in l && x !in v && !(hoistable && tr.pdom(x, header)) then [x] else []
  }

  /** The loop's trip count can be used: it is constant, or computed at run time. */
  predicate Hoistable(n: LoopNode) {
    n.scale != 0 || n.computable
  }

  /** Loop `k`'s own blocks of the list that run once in each iteration. */
  ghost function Front(t: Tree, tr: Trees, l: seq<Block>, k: nat): seq<Block>
    requires k < |t|
  {
    Ahead(t[k].unique, l, t[k].header, Hoistable(t[k]), tr)
  }

  /** The rest of its own blocks. */
  ghost function Rest(t: Tree, tr: Trees, l: seq<Block>, k: nat): seq<Block>
    requires k < |t|
  {
    Aside(t[k].unique, l, t[k].header, Hoistable(t[k]), tr)
  }

  /** The counters that loop `k` has to itself: one advanced by the trip count, where that is computed at run
      time, and one for each group of the blocks that are not hoisted; none when a hoist fails. */
  ghost function OwnCounters(t: Tree, tr: Trees, l: seq<Block>, k: nat): seq<Counter>
    requires k < |t|
  {
    var front, groups := Front(t, tr, l, k), Anchors(Groups(Rest(t, tr, l, k), tr));
    if t[k].scale != 0 || front == [] then groups
    else if t[k].recomputes then [Dynamic(k, front)] + groups
    else []
  }

  /** Its part of the counters hoisted for a set. */
  ghost function OwnPart(t: Tree, tr: Trees, l: seq<Block>, k: nat): Part
    requires WellFormed(t) && k < |t|
  {
    Part(k, Front(t, tr, l, k), ChainScale(t, tr, k))
  }

  ghost predicate PartIn(cs: seq<Counter>, p: Part) {
    exists c :: c in cs && c.Hoist? && p in c.parts
  }

  ghost predicate Given(t: Tree, tr: Trees, l: seq<Block>, taken: set<nat>, c: Counter) {
    exists k :: k in taken && k < |t| && c in OwnCounters(t, tr, l, k)
  }

  ghost predicate GivenPart(t: Tree, tr: Trees, l: seq<Block>, taken: set<nat>, p: Part)
    requires WellFormed(t)
  {
    p.loop in taken && p.loop < |t| && t[p.loop].scale != 0 && p == OwnPart(t, tr, l, p.loop)
  }

  /** The blocks of the list that belong to none of these loops. */
  ghost function Unowned(t: Tree, l: seq<Block>, taken: set<nat>): seq<Block> {
    if l == [] then []
    else
      var x := l[|l| - 1];
      Unowned(t, l[..|l| - 1], taken) + if Owned(t, taken, x) then [] else [x]
  }

  ghost predicate Owned(t: Tree, taken: set<nat>, b: Block) {
    exists k :: k in taken && k < |t| && b in t[k].unique
  }

  lemma {:induction false} AheadMembers(
      u: seq<Block>, l: seq<Block>, header: Block, hoistable: bool, tr: Trees, x: Block)
    ensures x in Ahead(u, l, header, hoistable, tr) <==> x in u && x in l && hoistable && tr.pdom(x, header)
    ensures x in Aside(u, l, header, hoistable, tr) <==> x in u && x in l && !(hoistable && tr.pdom(x, header))
  {
    if u != [] {
      var v := u[..|u| - 1];
      assert u == v + [u[|u| - 1]];
      AheadMembers(v, l, header, hoistable, tr, x);
    }
  }

  /** Only the loop's own blocks in the list matter to what it is given. */
  lemma {:induction false} AheadSame(
      u: seq<Block>, l: seq<Block>, m: seq<Block>, header: Block, hoistable: bool, tr: Trees)
    requires forall x :: x in u ==> (x in l <==> x in m)
    ensures Ahead(u, l, header, hoistable, tr) == Ahead(u, m, header, hoistable, tr)
    ensures Aside(u, l, header, hoistable, tr) == Aside(u, m, header, hoistable, tr)
  {
    if u != [] {
      var v := u[..|u| - 1];
      assert u == v + [u[|u| - 1]];
      AheadSame(v, l, m, header, hoistable, tr);
    }
  }

  lemma {:induction false} UnownedTwice(t: Tree, l: seq<Block>, s: set<nat>, r: set<nat>)
    ensures Unowned(t, Unowned(t, l, s), r) == Unowned(t, l, s + r)
  {
    if l != [] {
      var front, x := l[..|l| - 1], l[|l| - 1];
      UnownedTwice(t, front, s, r);
      OwnedUnion(t, s, r, x);
      var m := Unowned(t, front, s);
      assert m + [] == m && (m + [x])[..|m|] == m;
    }
  }

  lemma {:induction false} UnownedNone(t: Tree, l: seq<Block>)
    ensures Unowned(t, l, {}) == l
  {
    if l != [] {
      UnownedNone(t, l[..|l| - 1]);
      assert l == l[..|l| - 1] + [l[|l| - 1]];
    }
  }

  // ---- Moving blocks -------------------------------------------------------

  /** The state of the pass that concerns blocks; `lost` collects blocks dropped by a failed hoist. */
  datatype Snap = Snap(counters: seq<Counter>, parts: seq<Part>, pool: seq<Block>, lost: seq<Block>) {
    ghost function Blocks(): multiset<Block> {
      multiset(AllBlocks(counters)) + multiset(PartBlocks(parts)) + multiset(pool) + multiset(lost)
    }

    ghost function Loops(): multiset<nat> {
      PartLoops(parts) + HoistLoops(counters)
    }
  }

  /** Re-analysis fails after a loop's entry edge was split for blocks found in `l`. */
  ghost predicate Fails(t: Tree, tr: Trees, k: nat, l: seq<Block>)
    requires k < |t|
  {
    && t[k].scale == 0 && t[k].computable && !t[k].recomputes
    && exists b :: b in l && b in t[k].unique && tr.pdom(b, t[k].header)
  }

  /** A part of a hoisted counter, or of the one being put together. */
  ghost predicate Holds(s: Snap, p: Part) {
    p in s.parts || PartIn(s.counters, p)
  }

  /** From `a` to `b` exactly the loops in `taken` have been given their own counters and their parts. */
  ghost predicate Gives(t: Tree, tr: Trees, a: Snap, b: Snap, taken: set<nat>)
    requires WellFormed(t)
  {
    && (forall c :: c in b.counters && !c.Hoist? <==>
          (c in a.counters && !c.Hoist?) || Given(t, tr, a.pool, taken, c))
    && (forall p :: Holds(b, p) <==> Holds(a, p) || GivenPart(t, tr, a.pool, taken, p))
  }

  ghost predicate LostIn(t: Tree, tr: Trees, taken: set<nat>, l: seq<Block>, b: Block) {
    b in l && exists k :: k in taken && k < |t| && Fails(t, tr, k, l) && b in t[k].unique
  }

  ghost function KnownIn(t: Tree, taken: set<nat>): set<nat> {
    set k | k in taken && k < |t| && t[k].scale != 0
  }

  ghost predicate Remains(t: Tree, l: seq<Block>, m: seq<Block>, taken: set<nat>) {
    forall x :: x in m <==> x in l && !Owned(t, taken, x)
  }

  ghost predicate Loses(t: Tree, tr: Trees, a: Snap, b: Snap, taken: set<nat>) {
    forall x :: x in b.lost <==> x in a.lost || LostIn(t, tr, taken, a.pool, x)
  }

  /** From `a` to `b` the own blocks of exactly the loops in `taken` have left the pool, none lost
      except through failed hoists, each loop with known trip count was hoisted once, and each loop was
      given what it is to be given. */
  ghost predicate Moved(t: Tree, tr: Trees, a: Snap, b: Snap, taken: set<nat>)
    requires WellFormed(t)
  {
    && b.Blocks() == a.Blocks()
    && NoDup(b.pool)
    && Remains(t, a.pool, b.pool, taken)
    && b.pool == Unowned(t, a.pool, taken)
    && Gives(t, tr, a, b, taken)
    && Loses(t, tr, a, b, taken)
    && b.Loops() == a.Loops() + multiset(KnownIn(t, taken))
    && CountersOk(t, tr, b.counters)
  }

  lemma OwnedUnion(t: Tree, s: set<nat>, r: set<nat>, x: Block)
    ensures Owned(t, s + r, x) <==> Owned(t, s, x) || Owned(t, r, x)
  {
    if Owned(t, s, x) {
      var k :| k in s && k < |t| && x in t[k].unique;
      assert k in s + r;
    }
    if Owned(t, r, x) {
      var k :| k in r && k < |t| && x in t[k].unique;
      assert k in s + r;
    }
  }

  /** Taking the blocks of other loops does not change what a loop finds in the pool. */
  lemma PoolOfOther(t: Tree, s: set<nat>, k: nat, a: seq<Block>, b: seq<Block>, x: Block)
    requires Disjoint(t) && k < |t| && k !in s && x in t[k].unique
    requires x in b <==> x in a && !Owned(t, s, x)
    ensures x in b <==> x in a
  {
  }

  lemma FailsSame(t: Tree, tr: Trees, k: nat, l: seq<Block>, m: seq<Block>)
    requires k < |t| && forall x :: x in t[k].unique ==> (x in l <==> x in m)
    ensures Fails(t, tr, k, l) <==> Fails(t, tr, k, m)
  {
    if Fails(t, tr, k, l) {
      var b :| b in l && b in t[k].unique && tr.pdom(b, t[k].header);
      assert b in m;
    }
    if Fails(t, tr, k, m) {
      var b :| b in m && b in t[k].unique && tr.pdom(b, t[k].header);
      assert b in l;
    }
  }

  lemma LostUnion(t: Tree, tr: Trees, s: set<nat>, r: set<nat>, a: seq<Block>, b: seq<Block>, x: Block)
    requires Disjoint(t) && s !! r
    requires Remains(t, a, b, s)
    ensures LostIn(t, tr, s + r, a, x) <==> LostIn(t, tr, s, a, x) || LostIn(t, tr, r, b, x)
  {
    forall k: nat | k in r && k < |t| ensures Fails(t, tr, k, a) <==> Fails(t, tr, k, b) {
      forall y | y in t[k].unique ensures y in a <==> y in b {
        PoolOfOther(t, s, k, a, b, y);
      }
      FailsSame(t, tr, k, a, b);
    }
    if LostIn(t, tr, s + r, a, x) {
      var k :| k in s + r && k < |t| && Fails(t, tr, k, a) && x in t[k].unique;
      if k in r {
        PoolOfOther(t, s, k, a, b, x);
        assert k in r;
      } else {
        assert k in s;
      }
    }
    if LostIn(t, tr, s, a, x) {
      var k :| k in s && k < |t| && Fails(t, tr, k, a) && x in t[k].unique;
      assert k in s + r;
    }
    if LostIn(t, tr, r, b, x) {
      var k :| k in r && k < |t| && Fails(t, tr, k, b) && x in t[k].unique;
      assert k in s + r;
    }
  }

  lemma MovedNothing(t: Tree, tr: Trees, a: Snap)
    requires WellFormed(t) && NoDup(a.pool) && CountersOk(t, tr, a.counters)
    ensures Moved(t, tr, a, a, {})
  {
    assert KnownIn(t, {}) == {};
    UnownedNone(t, a.pool);
  }

  lemma MovedBoth(t: Tree, tr: Trees, a: Snap, b: Snap, c: Snap, s: set<nat>, r: set<nat>)
    requires WellFormed(t) && Disjoint(t) && s !! r
    requires Moved(t, tr, a, b, s) && Moved(t, tr, b, c, r)
    ensures Moved(t, tr, a, c, s + r)
  {
    hide Gives, CountersOk, WellFormed, Disjoint, Remains, Loses, Unowned;
    RemainsBoth(t, a.pool, b.pool, c.pool, s, r);
    LosesBoth(t, tr, a, b, c, s, r);
    KnownUnion(t, s, r);
    UnownedTwice(t, a.pool, s, r);
    GivesBoth(t, tr, a, b, c, s, r);
  }

  lemma OwnSame(t: Tree, tr: Trees, a: seq<Block>, b: seq<Block>, s: set<nat>, k: nat)
    requires WellFormed(t) && Disjoint(t) && k < |t| && k !in s && Remains(t, a, b, s)
    ensures OwnCounters(t, tr, a, k) == OwnCounters(t, tr, b, k) && OwnPart(t, tr, a, k) == OwnPart(t, tr, b, k)
  {
    forall x | x in t[k].unique ensures x in a <==> x in b {
      PoolOfOther(t, s, k, a, b, x);
    }
    AheadSame(t[k].unique, a, b, t[k].header, Hoistable(t[k]), tr);
  }

  lemma GivenUnion(t: Tree, tr: Trees, a: seq<Block>, b: seq<Block>, s: set<nat>, r: set<nat>, c: Counter)
    requires WellFormed(t) && Disjoint(t) && s !! r && Remains(t, a, b, s)
    ensures Given(t, tr, a, s + r, c) <==> Given(t, tr, a, s, c) || Given(t, tr, b, r, c)
  {
    hide OwnCounters, WellFormed, Disjoint, Remains;
    forall k: nat | k in r && k < |t| ensures OwnCounters(t, tr, a, k) == OwnCounters(t, tr, b, k) {
      OwnSame(t, tr, a, b, s, k);
    }
    if Given(t, tr, a, s + r, c) {
      var k :| k in s + r && k < |t| && c in OwnCounters(t, tr, a, k);
      assert k in s || k in r;
    }
    if Given(t, tr, a, s, c) {
      var k :| k in s && k < |t| && c in OwnCounters(t, tr, a, k);
      assert k in s + r;
    }
    if Given(t, tr, b, r, c) {
      var k :| k in r && k < |t| && c in OwnCounters(t, tr, b, k);
      assert k in s + r;
    }
  }

  lemma GivenPartUnion(t: Tree, tr: Trees, a: seq<Block>, b: seq<Block>, s: set<nat>, r: set<nat>, p: Part)
    requires WellFormed(t) && Disjoint(t) && s !! r && Remains(t, a, b, s)
    ensures GivenPart(t, tr, a, s + r, p) <==> GivenPart(t, tr, a, s, p) || GivenPart(t, tr, b, r, p)
  {
    if p.loop in r && p.loop < |t| {
      OwnSame(t, tr, a, b, s, p.loop);
    }
    hide OwnPart, WellFormed, Disjoint, Remains;
  }

  lemma GivesBoth(t: Tree, tr: Trees, a: Snap, b: Snap, c: Snap, s: set<nat>, r: set<nat>)
    requires WellFormed(t) && Disjoint(t) && s !! r && Remains(t, a.pool, b.pool, s)
    requires Gives(t, tr, a, b, s) && Gives(t, tr, b, c, r)
    ensures Gives(t, tr, a, c, s + r)
  {
    forall d ensures Given(t, tr, a.pool, s + r, d) <==> Given(t, tr, a.pool, s, d) || Given(t, tr, b.pool, r, d) {
      GivenUnion(t, tr, a.pool, b.pool, s, r, d);
    }
    forall p
      ensures GivenPart(t, tr, a.pool, s + r, p) <==> GivenPart(t, tr, a.pool, s, p) || GivenPart(t, tr, b.pool, r, p)
    {
      GivenPartUnion(t, tr, a.pool, b.pool, s, r, p);
    }
    hide Given, GivenPart, Holds, WellFormed, Disjoint, Remains;
  }

  lemma RemainsBoth(t: Tree, a: seq<Block>, b: seq<Block>, c: seq<Block>, s: set<nat>, r: set<nat>)
    requires Remains(t, a, b, s) && Remains(t, b, c, r)
    ensures Remains(t, a, c, s + r)
  {
    forall x ensures x in c <==> x in a && !Owned(t, s + r, x) {
      OwnedUnion(t, s, r, x);
    }
  }

  lemma LosesBoth(t: Tree, tr: Trees, a: Snap, b: Snap, c: Snap, s: set<nat>, r: set<nat>)
    requires Disjoint(t) && s !! r && Remains(t, a.pool, b.pool, s)
    requires Loses(t, tr, a, b, s) && Loses(t, tr, b, c, r)
    ensures Loses(t, tr, a, c, s + r)
  {
    forall x ensures x in c.lost <==> x in a.lost || LostIn(t, tr, s + r, a.pool, x) {
      LostUnion(t, tr, s, r, a.pool, b.pool, x);
    }
  }

  lemma KnownUnion(t: Tree, s: set<nat>, r: set<nat>)
    requires s !! r
    ensures multiset(KnownIn(t, s + r)) == multiset(KnownIn(t, s)) + multiset(KnownIn(t, r))
  {
    assert KnownIn(t, s + r) == KnownIn(t, s) + KnownIn(t, r);
  }
}
