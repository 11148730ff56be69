/** Counter placement for one region (`InstrumentPragmaRegion` with the methods of the loop pass). */
module LoopPass {
  import opened Collections
  import opened Cfg
  import opened Grouping
  import opened LoopTree
  import opened Plan
  import Gating
  import Placement

  /** `std::find` */
  method Locate(l: seq<Block>, b: Block) returns (i: nat)
    ensures i <= |l| && b !in l[..i]
    ensures i < |l| ==> l[i] == b
  {
    i := 0;
    while i < |l| && l[i] != b
      invariant 0 <= i <= |l| && b !in l[..i]
    {
      i := i + 1;
    }
  }

  lemma EraseAt(l: seq<Block>, i: nat)
    requires NoDup(l) && i < |l|
    ensures var m := l[..i] + l[i + 1..];
      NoDup(m) && multiset(l) == multiset(m) + multiset{l[i]} && forall x :: x in m <==> x in l && x != l[i]
  {
    assert l == l[..i] + [l[i]] + l[i + 1..];
  }

  /** Looks a block up in the pool and erases it if it is there. */
  method Claim(pool: Pool, b: Block) returns (found: bool)
    requires NoDup(pool.blocks)
    modifies pool
    ensures found == (b in old(pool.blocks))
    ensures multiset(old(pool.blocks)) == multiset(pool.blocks) + (if found then multiset{b} else multiset{})
    ensures NoDup(pool.blocks) && forall x :: x in pool.blocks <==> x in old(pool.blocks) && x != b
    ensures pool.blocks == Less(old(pool.blocks), [b])
  {
    ghost var l := pool.blocks;
    var i := Locate(pool.blocks, b);
    found := i < |pool.blocks|;
    if found {
      EraseAt(l, i);
      LessOne(l, i);
      pool.blocks := pool.blocks[..i] + pool.blocks[i + 1..];
    } else {
      assert l[..i] == l;
      LessNone(l, [b]);
    }
  }

  /** The list without the blocks of `u`. */
  ghost function Less(l: seq<Block>, u: seq<Block>): seq<Block> {
    if l == [] then []
    else
      var x := l[|l| - 1];
      Less(l[..|l| - 1], u) + if x in u then [] else [x]
  }

  lemma {:induction false} LessNone(l: seq<Block>, u: seq<Block>)
    requires forall x :: x in l ==> x !in u
    ensures Less(l, u) == l
  {
    if l != [] {
      var front := l[..|l| - 1];
      assert l == front + [l[|l| - 1]];
      LessNone(front, u);
    }
  }

  lemma {:induction false} LessOne(l: seq<Block>, i: nat)
    requires NoDup(l) && i < |l|
    ensures Less(l, [l[i]]) == l[..i] + l[i + 1..]
  {
    var n := |l| - 1;
    var front := l[..n];
    if i == n {
      LessNone(front, [l[i]]);
    } else {
      LessOne(front, i);
      assert l[i + 1..] == front[i + 1..] + [l[n]];
    }
  }

  lemma {:induction false} LessTwice(l: seq<Block>, u: seq<Block>, v: seq<Block>)
    ensures Less(Less(l, u), v) == Less(l, u + v)
  {
    if l != [] {
      var front, x := l[..|l| - 1], l[|l| - 1];
      LessTwice(front, u, v);
      var m := Less(front, u);
      assert m + [] == m && (m + [x])[..|m|] == m;
    }
  }

  lemma {:induction false} LessIsUnowned(t: Tree, l: seq<Block>, i: nat)
    requires i < |t|
    ensures Unowned(t, l, {i}) == Less(l, t[i].unique)
  {
    if l != [] {
      var x := l[|l| - 1];
      LessIsUnowned(t, l[..|l| - 1], i);
      if x in t[i].unique { assert i in {i}; }
    }
  }

  /** The blocks of `u` found in the pool `l` have moved to `pd` or `npd`, leaving the pool `m`. */
  ghost predicate Sorted(l: seq<Block>, m: seq<Block>, u: seq<Block>, pd: seq<Block>, npd: seq<Block>) {
    && multiset(l) == multiset(m) + multiset(pd) + multiset(npd)
    && NoDup(m)
    && (forall x :: x in m <==> x in l && x !in u)
    && (forall x :: x in pd || x in npd ==> x in u && x in l)
  }

  /** Sorts the loop's blocks found in the pool by whether they post-dominate the header; when the
      trip count is of no use (`!hoistable`) none does. */
  method SortBlocks(pool: Pool, u: seq<Block>, header: Block, hoistable: bool, tr: Trees)
    returns (pd: seq<Block>, npd: seq<Block>)
    requires NoDup(pool.blocks)
    modifies pool
    ensures Sorted(old(pool.blocks), pool.blocks, u, pd, npd)
    ensures forall x :: x in pd ==> hoistable && tr.pdom(x, header)
    ensures forall x :: x in npd ==> !(hoistable && tr.pdom(x, header))
    ensures pd == Ahead(u, old(pool.blocks), header, hoistable, tr)
    ensures npd == Aside(u, old(pool.blocks), header, hoistable, tr)
    ensures pool.blocks == Less(old(pool.blocks), u)
  {
    hide Sorted, Ahead, Aside, Less;
    pd, npd := [], [];
    NothingSorted(pool.blocks, header, hoistable, tr);
    for i := 0 to |u|
      invariant NoDup(pool.blocks)
      invariant SortedTo(old(pool.blocks), pool.blocks, u[..i], header, hoistable, tr, pd, npd)
    {
      ghost var m := pool.blocks;
      assert u[..i + 1] == u[..i] + [u[i]];
      var found := Claim(pool, u[i]);
      SortStep(old(pool.blocks), m, pool.blocks, u[..i], u[i], header, hoistable, tr, pd, npd);
      if found {
        if hoistable && tr.pdom(u[i], header) {
          pd := pd + [u[i]];
        } else {
          npd := npd + [u[i]];
        }
      }
    }
    assert u[..|u|] == u;
    forall x { AheadMembers(u, old(pool.blocks), header, hoistable, tr, x); }
  }

  ghost predicate SortedTo(l: seq<Block>, m: seq<Block>, u: seq<Block>, header: Block, hoistable: bool, tr: Trees,
                           pd: seq<Block>, npd: seq<Block>) {
    && Sorted(l, m, u, pd, npd) && m == Less(l, u)
    && pd == Ahead(u, l, header, hoistable, tr) && npd == Aside(u, l, header, hoistable, tr)
  }

  lemma NothingSorted(l: seq<Block>, header: Block, hoistable: bool, tr: Trees)
    requires NoDup(l)
    ensures SortedTo(l, l, [], header, hoistable, tr, [], [])
  {
    LessNone(l, []);
  }

  lemma SortStep(l: seq<Block>, m: seq<Block>, n: seq<Block>, v: seq<Block>, x: Block, header: Block,
                 hoistable: bool, tr: Trees, pd: seq<Block>, npd: seq<Block>)
    requires SortedTo(l, m, v, header, hoistable, tr, pd, npd) && NoDup(n) && n == Less(m, [x])
    requires multiset(m) == multiset(n) + if x in m then multiset{x} else multiset{}
    requires forall y :: y in n <==> y in m && y != x
    ensures var ahead := hoistable && tr.pdom(x, header);
      SortedTo(l, n, v + [x], header, hoistable, tr, if x in m && ahead then pd + [x] else pd,
               if x in m && !ahead then npd + [x] else npd)
  {
    hide Sorted, Less, Ahead, Aside;
    LessTwice(l, v, [x]);
    AheadStep(v, x, l, header, hoistable, tr);
    assert pd + [] == pd && npd + [] == npd;
    SortedStep(l, m, n, v, x, hoistable && tr.pdom(x, header), pd, npd);
  }

  lemma AheadStep(v: seq<Block>, x: Block, l: seq<Block>, header: Block, hoistable: bool, tr: Trees)
    ensures var found, ahead := x in l && x !in v, hoistable && tr.pdom(x, header);
      && Ahead(v + [x], l, header, hoistable, tr)
         == Ahead(v, l, header, hoistable, tr) + (if found && ahead then [x] else [])
      && Aside(v + [x], l, header, hoistable, tr)
         == Aside(v, l, header, hoistable, tr) + (if found && !ahead then [x] else [])
  {
    assert (v + [x])[..|v|] == v;
  }

  lemma SortedStep(l: seq<Block>, m: seq<Block>, n: seq<Block>, v: seq<Block>, x: Block, ahead: bool,
                   pd: seq<Block>, npd: seq<Block>)
    requires Sorted(l, m, v, pd, npd) && NoDup(n)
    requires multiset(m) == multiset(n) + if x in m then multiset{x} else multiset{}
    requires forall y :: y in n <==> y in m && y != x
    ensures Sorted(l, n, v + [x], if x in m && ahead then pd + [x] else pd, if x in m && !ahead then npd + [x] else npd)
    ensures x in m <==> x in l && x !in v
  {
    assert x in m <==> x in l && x !in v;
  }

  // ---- One loop ------------------------------------------------------------

  lemma AnchorsOk(t: Tree, tr: Trees, l: seq<Block>)
    requires WellFormed(t)
    requires forall x, y :: x in l && y in l ==> SameHome(t, x, y)
    ensures CountersOk(t, tr, Anchors(Groups(l, tr)))
  {
    hide CounterOk, SameHome;
    var gs := Groups(l, tr);
    AnchorsBlocks(gs);
    GroupsAnchored(l, tr);
    forall c | c in Anchors(gs) ensures CounterOk(t, tr, c) {
      var k :| 0 <= k < |gs| && gs[k] == c.blocks;
      AnchorOk(t, tr, l, k);
    }
  }

  lemma AnchorOk(t: Tree, tr: Trees, l: seq<Block>, k: nat)
    requires WellFormed(t) && k < |Groups(l, tr)| && Anchored(Groups(l, tr)[k], tr)
    requires forall x, y :: x in l && y in l ==> SameHome(t, x, y)
    ensures CounterOk(t, tr, Anchor(Groups(l, tr)[k]))
  {
    hide SameHome;
    var grp := Groups(l, tr)[k];
    assert grp == [grp[0]] + grp[1..];
    GroupMembers(l, tr, k, grp[0]);
    forall x | x in grp[1..] ensures SameHome(t, grp[0], x) {
      GroupMembers(l, tr, k, x);
    }
  }

  lemma OneLoopHome(t: Tree, i: nat, l: seq<Block>)
    requires WellFormed(t) && Disjoint(t) && i < |t| && forall x :: x in l ==> x in t[i].unique
    ensures forall x, y :: x in l && y in l ==> SameHome(t, x, y)
  {
  }

  lemma OneLoopRemains(t: Tree, tr: Trees, i: nat, l: seq<Block>, m: seq<Block>)
    requires i < |t| && forall x :: x in m <==> x in l && x !in t[i].unique
    ensures Remains(t, l, m, {i})
  {
    forall x ensures Owned(t, {i}, x) <==> x in t[i].unique {
      if x in t[i].unique { assert i in {i}; }
    }
  }

  lemma OneLoopLoses(t: Tree, tr: Trees, i: nat, a: Snap, b: Snap)
    requires i < |t| && b.lost == a.lost && !Fails(t, tr, i, a.pool)
    ensures Loses(t, tr, a, b, {i})
  {
  }

  lemma CountersOkConcat(t: Tree, tr: Trees, a: seq<Counter>, b: seq<Counter>)
    requires WellFormed(t) && CountersOk(t, tr, a) && CountersOk(t, tr, b)
    ensures CountersOk(t, tr, a + b)
  {
  }

  /** What adding the anchor groups of a list does to the counters. */
  lemma AddAnchors(t: Tree, tr: Trees, cs: seq<Counter>, l: seq<Block>)
    requires WellFormed(t) && CountersOk(t, tr, cs)
    requires forall x, y :: x in l && y in l ==> SameHome(t, x, y)
    ensures var ds := cs + Anchors(Groups(l, tr));
      && CountersOk(t, tr, ds)
      && multiset(AllBlocks(ds)) == multiset(AllBlocks(cs)) + multiset(l)
      && HoistLoops(ds) == HoistLoops(cs)
  {
    var gs := Groups(l, tr);
    AnchorsOk(t, tr, l);
    CountersOkConcat(t, tr, cs, Anchors(gs));
    AnchorsBlocks(gs);
    GroupsPartition(l, tr);
    AllBlocksConcat(cs, Anchors(gs));
    HoistLoopsConcat(cs, Anchors(gs));
  }

  /** The blocks of loop `i` found in the pool have been sorted as planned. */
  ghost predicate AsPlanned(t: Tree, tr: Trees, i: nat, l: seq<Block>, m: seq<Block>, pd: seq<Block>, npd: seq<Block>)
    requires i < |t|
  {
    pd == Front(t, tr, l, i) && npd == Rest(t, tr, l, i) && m == Less(l, t[i].unique)
  }

  lemma GivenOne(t: Tree, tr: Trees, l: seq<Block>, i: nat)
    requires i < |t|
    ensures forall c :: Given(t, tr, l, {i}, c) <==> c in OwnCounters(t, tr, l, i)
  {
    assert i in {i};
  }

  lemma NoHoistsAmong(gs: seq<seq<Block>>)
    ensures forall c :: c in Anchors(gs) ==> !c.Hoist?
  {
    AnchorsBlocks(gs);
  }

  lemma HoldsMore(a: Snap, b: Snap, cs: seq<Counter>, ps: seq<Part>)
    requires b.counters == a.counters + cs && b.parts == a.parts + ps && forall c :: c in cs ==> !c.Hoist?
    ensures forall p :: Holds(b, p) <==> Holds(a, p) || p in ps
  {
    forall p ensures PartIn(b.counters, p) <==> PartIn(a.counters, p) {
      if PartIn(a.counters, p) {
        var c :| c in a.counters && c.Hoist? && p in c.parts;
        assert c in b.counters;
      }
    }
  }

  lemma GivesStatic(t: Tree, tr: Trees, a: Snap, b: Snap, i: nat)
    requires WellFormed(t) && i < |t| && t[i].scale != 0 && b.parts == a.parts + [OwnPart(t, tr, a.pool, i)]
    requires b.counters == a.counters + Anchors(Groups(Rest(t, tr, a.pool, i), tr))
    ensures Gives(t, tr, a, b, {i})
  {
    var cs := Anchors(Groups(Rest(t, tr, a.pool, i), tr));
    assert OwnCounters(t, tr, a.pool, i) == cs;
    GivenOne(t, tr, a.pool, i);
    NoHoistsAmong(Groups(Rest(t, tr, a.pool, i), tr));
    HoldsMore(a, b, cs, [OwnPart(t, tr, a.pool, i)]);
    hide Holds, Given, OwnCounters, Rest, Front, Anchors, Groups;
  }

  lemma GivesOther(t: Tree, tr: Trees, a: Snap, b: Snap, i: nat, cs: seq<Counter>)
    requires WellFormed(t) && i < |t| && t[i].scale == 0 && b.parts == a.parts && b.counters == a.counters + cs
    requires cs == OwnCounters(t, tr, a.pool, i) && forall c :: c in cs ==> !c.Hoist?
    ensures Gives(t, tr, a, b, {i})
  {
    GivenOne(t, tr, a.pool, i);
    assert a.parts + [] == a.parts;
    HoldsMore(a, b, cs, []);
    hide Holds, Given, OwnCounters, Rest, Front, Anchors, Groups;
  }

  lemma GivesDynamic(t: Tree, tr: Trees, a: Snap, b: Snap, i: nat)
    requires WellFormed(t) && i < |t| && t[i].scale == 0 && b.parts == a.parts
    requires Front(t, tr, a.pool, i) == [] || t[i].recomputes
    requires var front := Front(t, tr, a.pool, i);
      b.counters == a.counters + (if front == [] then [] else [Dynamic(i, front)])
                    + Anchors(Groups(Rest(t, tr, a.pool, i), tr))
    ensures Gives(t, tr, a, b, {i})
  {
    var front, groups := Front(t, tr, a.pool, i), Anchors(Groups(Rest(t, tr, a.pool, i), tr));
    NoHoistsAmong(Groups(Rest(t, tr, a.pool, i), tr));
    var cs := OwnCounters(t, tr, a.pool, i);
    hide Front, Rest, Anchors, Groups;
    assert b.counters == a.counters + cs;
    GivesOther(t, tr, a, b, i, cs);
  }

  lemma GivesNothing(t: Tree, tr: Trees, a: Snap, b: Snap, i: nat)
    requires WellFormed(t) && i < |t| && t[i].scale == 0 && b.parts == a.parts && b.counters == a.counters
    requires Front(t, tr, a.pool, i) != [] && !t[i].recomputes
    ensures Gives(t, tr, a, b, {i})
  {
    assert a.counters + [] == a.counters;
    GivesOther(t, tr, a, b, i, []);
  }

  /** Placing one loop of a scale-factor set. */
  lemma MovedStatic(t: Tree, tr: Trees, a: Snap, b: Snap, i: nat, pd: seq<Block>, npd: seq<Block>, sf: nat)
    requires WellFormed(t) && Disjoint(t) && CountersOk(t, tr, a.counters)
    requires i < |t| && t[i].scale != 0
    requires Sorted(a.pool, b.pool, t[i].unique, pd, npd)
    requires b.parts == a.parts + [Part(i, pd, sf)] && b.lost == a.lost
    requires b.counters == a.counters + Anchors(Groups(npd, tr))
    requires AsPlanned(t, tr, i, a.pool, b.pool, pd, npd) && sf == ChainScale(t, tr, i)
    ensures Moved(t, tr, a, b, {i})
  {
    hide Ahead, Aside, Less, Groups, CounterOk, CountersOk, ChainScale, Unowned, Gives, Remains, Loses, Fails,
      Front, Rest, Anchors;
    OneLoopHome(t, i, npd);
    AddAnchors(t, tr, a.counters, npd);
    GivesStatic(t, tr, a, b, i);
    LessIsUnowned(t, a.pool, i);
    OneLoopRemains(t, tr, i, a.pool, b.pool);
    ConstantNeverFails(t, tr, i, a.pool);
    OneLoopLoses(t, tr, i, a, b);
    assert KnownIn(t, {i}) == {i};
    PartAdded(a, b, Part(i, pd, sf), npd);
  }

  lemma ConstantNeverFails(t: Tree, tr: Trees, i: nat, l: seq<Block>)
    requires i < |t| && t[i].scale != 0
    ensures !Fails(t, tr, i, l)
  {
  }

  /** The blocks of the part and of the anchors have left the pool. */
  lemma PartAdded(a: Snap, b: Snap, p: Part, npd: seq<Block>)
    requires b.parts == a.parts + [p] && b.lost == a.lost
    requires multiset(a.pool) == multiset(b.pool) + multiset(p.blocks) + multiset(npd)
    requires multiset(AllBlocks(b.counters)) == multiset(AllBlocks(a.counters)) + multiset(npd)
    requires HoistLoops(b.counters) == HoistLoops(a.counters)
    ensures b.Blocks() == a.Blocks() && b.Loops() == a.Loops() + multiset{p.loop}
  {
    hide AllBlocks, HoistLoops, PartBlocks, PartLoops;
    PartBlocksConcat(a.parts, [p]);
    PartLoopsConcat(a.parts, [p]);
    OnePart(p);
  }

  lemma OwnPartOk(t: Tree, tr: Trees, l: seq<Block>, k: nat)
    requires WellFormed(t) && k < |t| && t[k].scale != 0
    ensures PartOk(t, tr, OwnPart(t, tr, l, k), ChainTop(t, tr, k))
  {
    hide ChainTop, ChainScale;
    forall x | x in Front(t, tr, l, k) ensures x in t[k].unique && tr.pdom(x, t[k].header) {
      AheadMembers(t[k].unique, l, t[k].header, true, tr, x);
    }
  }

  lemma OnePart(p: Part)
    ensures PartBlocks([p]) == p.blocks && PartLoops([p]) == multiset{p.loop}
  {
    assert [p][1..] == [] && p.blocks + [] == p.blocks;
  }

  /** Placing one loop whose trip count is not constant. */
  lemma MovedDynamic(t: Tree, tr: Trees, a: Snap, b: Snap, i: nat, pd: seq<Block>, npd: seq<Block>)
    requires WellFormed(t) && Disjoint(t) && CountersOk(t, tr, a.counters)
    requires 0 < i < |t| && t[i].scale == 0
    requires Sorted(a.pool, b.pool, t[i].unique, pd, npd)
    requires forall x :: x in pd ==> t[i].computable && tr.pdom(x, t[i].header)
    requires pd == [] || t[i].recomputes
    requires b.parts == a.parts && b.lost == a.lost
    requires !Fails(t, tr, i, a.pool)
    requires b.counters == a.counters + (if pd == [] then [] else [Dynamic(i, pd)]) + Anchors(Groups(npd, tr))
    requires AsPlanned(t, tr, i, a.pool, b.pool, pd, npd)
    ensures Moved(t, tr, a, b, {i})
  {
    hide Ahead, Aside, Less, Groups, CounterOk, Unowned, Front, Rest, Gives, Fails, WellFormed, CountersOk, Remains,
      Loses, Anchors, AllBlocks, HoistLoops;
    GivesDynamic(t, tr, a, b, i);
    LessIsUnowned(t, a.pool, i);
    var one := if pd == [] then [] else [Dynamic(i, pd)];
    DynamicOk(t, tr, i, pd);
    AddDynamic(t, tr, a.counters, i, pd);
    OneLoopHome(t, i, npd);
    AddAnchors(t, tr, a.counters + one, npd);
    OneLoopRemains(t, tr, i, a.pool, b.pool);
    OneLoopLoses(t, tr, i, a, b);
    assert KnownIn(t, {i}) == {};
    CountersAdded(a, b, pd, npd);
  }

  lemma CountersAdded(a: Snap, b: Snap, pd: seq<Block>, npd: seq<Block>)
    requires b.parts == a.parts && b.lost == a.lost
    requires multiset(a.pool) == multiset(b.pool) + multiset(pd) + multiset(npd)
    requires multiset(AllBlocks(b.counters)) == multiset(AllBlocks(a.counters)) + multiset(pd) + multiset(npd)
    requires HoistLoops(b.counters) == HoistLoops(a.counters)
    ensures b.Blocks() == a.Blocks() && b.Loops() == a.Loops()
  {
  }

  lemma DynamicOk(t: Tree, tr: Trees, i: nat, pd: seq<Block>)
    requires WellFormed(t) && 0 < i < |t| && t[i].scale == 0 && (pd == [] || t[i].recomputes)
    requires forall x :: x in pd ==> t[i].computable && x in t[i].unique && tr.pdom(x, t[i].header)
    ensures pd != [] ==> CounterOk(t, tr, Dynamic(i, pd))
  {
    assert pd != [] ==> pd[0] in pd;
  }

  /** A counter advanced by the trip count keeps all counters well placed, and accounts for its blocks. */
  lemma AddDynamic(t: Tree, tr: Trees, cs: seq<Counter>, i: nat, pd: seq<Block>)
    requires WellFormed(t) && CountersOk(t, tr, cs)
    requires pd != [] ==> CounterOk(t, tr, Dynamic(i, pd))
    ensures var ds := cs + (if pd == [] then [] else [Dynamic(i, pd)]);
      && CountersOk(t, tr, ds)
      && multiset(AllBlocks(ds)) == multiset(AllBlocks(cs)) + multiset(pd)
      && HoistLoops(ds) == HoistLoops(cs)
  {
    var one := if pd == [] then [] else [Dynamic(i, pd)];
    AllBlocksConcat(cs, one);
    HoistLoopsConcat(cs, one);
    assert pd != [] ==> one[1..] == [] && AllBlocks(one) == pd + [] == pd;
  }

  lemma FailsAhead(t: Tree, tr: Trees, i: nat, l: seq<Block>)
    requires i < |t|
    ensures Fails(t, tr, i, l) <==>
      t[i].scale == 0 && t[i].computable && !t[i].recomputes && Front(t, tr, l, i) != []
  {
    var front := Front(t, tr, l, i);
    if Fails(t, tr, i, l) {
      var b :| b in l && b in t[i].unique && tr.pdom(b, t[i].header);
      AheadMembers(t[i].unique, l, t[i].header, Hoistable(t[i]), tr, b);
    }
    if front != [] {
      assert front[0] in front;
      AheadMembers(t[i].unique, l, t[i].header, Hoistable(t[i]), tr, front[0]);
    }
  }

  /** A loop whose hoist fails after the edge was split: the blocks sorted out of the pool are gone. */
  lemma MovedFailed(t: Tree, tr: Trees, a: Snap, b: Snap, i: nat, pd: seq<Block>, npd: seq<Block>)
    requires WellFormed(t) && Disjoint(t) && CountersOk(t, tr, a.counters)
    requires 0 < i < |t| && t[i].scale == 0
    requires Sorted(a.pool, b.pool, t[i].unique, pd, npd)
    requires Fails(t, tr, i, a.pool)
    requires b.parts == a.parts && b.lost == a.lost + pd + npd && b.counters == a.counters
    requires AsPlanned(t, tr, i, a.pool, b.pool, pd, npd)
    ensures Moved(t, tr, a, b, {i})
  {
    hide Ahead, Aside, Less, Groups, CounterOk, Unowned;
    FailsAhead(t, tr, i, a.pool);
    GivesNothing(t, tr, a, b, i);
    LessIsUnowned(t, a.pool, i);
    OneLoopRemains(t, tr, i, a.pool, b.pool);
    forall x ensures x in b.lost <==> x in a.lost || LostIn(t, tr, {i}, a.pool, x) {
      if LostIn(t, tr, {i}, a.pool, x) {
        assert x !in b.pool && x in multiset(a.pool);
        assert x in multiset(pd) || x in multiset(npd);
      }
      if x in pd || x in npd {
        assert i in {i};
      }
    }
    assert KnownIn(t, {i}) == {};
  }

  /** A second search for a loop's blocks finds nothing: they have left the pool already. */
  lemma NothingAgain(l: seq<Block>, m: seq<Block>, n: seq<Block>, u: seq<Block>,
                     pd: seq<Block>, npd: seq<Block>, none: seq<Block>, again: seq<Block>)
    requires Sorted(l, m, u, pd, npd) && Sorted(m, n, u, none, again)
    ensures none == [] && again == [] && Sorted(l, n, u, pd, npd)
  {
    EmptyOrNot(none);
    EmptyOrNot(again);
  }

  lemma EmptyOrNot(l: seq<Block>)
    ensures l == [] || exists x :: x in l
  {
    if l != [] {
      assert l[0] in l;
    }
  }

  /** Re-analysis fails for a loop exactly when there was something to hoist and it does not recompute. */
  lemma FailsWhenSorted(t: Tree, tr: Trees, i: nat, l: seq<Block>, m: seq<Block>, pd: seq<Block>, npd: seq<Block>)
    requires i < |t| && t[i].scale == 0 && Sorted(l, m, t[i].unique, pd, npd)
    requires forall x :: x in pd ==> t[i].computable && tr.pdom(x, t[i].header)
    requires forall x :: x in npd ==> !(t[i].computable && tr.pdom(x, t[i].header))
    ensures Fails(t, tr, i, l) <==> pd != [] && !t[i].recomputes
  {
    if Fails(t, tr, i, l) {
      var b :| b in l && b in t[i].unique && tr.pdom(b, t[i].header);
      assert b in multiset(l) && b !in m;
      assert b in multiset(pd) || b in multiset(npd);
    }
    if pd != [] {
      assert pd[0] in pd;
    }
  }

  // ---- Composing a traversal -----------------------------------------------

  /** The nodes of a range that carry colour `j`. */
  ghost function Class(c: seq<nat>, lo: nat, hi: nat, j: nat): set<nat> {
    set k: nat | lo <= k < hi && k < |c| && c[k] == j
  }

  /** From colouring `c` to `d`, only colour `j` between `i` and `hi` has been given up, for colours
      from `next` on, and what kept it there is chained to its parent. */
  ghost predicate Walked(t: Tree, tr: Trees, c: seq<nat>, d: seq<nat>, next: nat, i: nat, hi: nat, j: nat)
    requires WellFormed(t)
  {
    && |c| == |t| && |d| == |t|
    && (forall k :: 0 <= k < |t| && !(i <= k < hi && c[k] == j) ==> d[k] == c[k])
    && (forall k :: i <= k < hi && k < |t| && c[k] == j ==> d[k] == j || next <= d[k])
    && (forall k :: i < k < hi && k < |t| && d[k] == j && d[t[k].parent] == j ==> Chained(t, tr, k))
  }

  lemma WalkedChild(t: Tree, tr: Trees, c: seq<nat>, d: seq<nat>, e: seq<nat>, next: nat, mid: nat,
                    i: nat, k: nat, j: nat)
    requires WellFormed(t) && j < next <= mid && i < k < |t| && t[k].end <= t[i].end && t[k].parent == i
    requires Walked(t, tr, c, d, next, i, k, j) && Walked(t, tr, d, e, mid, k, t[k].end, j)
    requires e[k] == j && e[i] == j ==> Chained(t, tr, k)
    ensures Walked(t, tr, c, e, next, i, t[k].end, j)
    ensures Class(e, i + 1, t[k].end, j) == Class(d, i + 1, k, j) + Class(e, k, t[k].end, j)
    ensures Class(d, i + 1, k, j) !! Class(e, k, t[k].end, j)
  {
    forall q | i < q < t[k].end && e[q] == j && e[t[q].parent] == j ensures Chained(t, tr, q) {
      if q < k {
        assert d[q] == j && d[t[q].parent] == j;
      }
    }
  }

  // ---- The pass ------------------------------------------------------------

  class Instrumenter {
    const tree: Tree
    const tr: Trees
    const pool: Pool           // the region's blocks that have no counter yet
    const color: array<nat>    // scale-factor set of each loop, 0 for none
    var nextSet: nat           // LOOP_SF_SET
    var counters: seq<Counter>
    ghost var lost: seq<Block>

    ghost predicate Valid()
      reads this, color, pool
    {
      WellFormed(tree) && Disjoint(tree) && color.Length == |tree| && NoDup(pool.blocks)
    }

    ghost function State(parts: seq<Part>): Snap
      reads this, pool
    {
      Snap(counters, parts, pool.blocks, lost)
    }

    constructor (tree: Tree, tr: Trees, pool: Pool)
      requires WellFormed(tree) && Disjoint(tree) && NoDup(pool.blocks)
      ensures Valid() && fresh(color)
      ensures this.tree == tree && this.tr == tr && this.pool == pool && counters == [] && lost == []
      ensures nextSet == 1 && forall k :: 0 <= k < |tree| ==> color[k] == 0
    {
      this.tree, this.tr, this.pool := tree, tr, pool;
      color := new nat[|tree|](k => 0);
      nextSet, counters, lost := 1, [], [];
    }

    /** Gives each loop its parent's set, or opens a new one. */
    method ColorLoopTree(i: nat)
      requires WellFormed(tree) && color.Length == |tree| && i < |tree|
      requires forall k :: 0 <= k < i ==> color[k] == FirstColor(tree, k)
      requires i == 0 ==> color[0] == 0
      requires nextSet == 1 + FirstTops(tree, i)
      modifies this`nextSet, color
      ensures forall k :: 0 <= k < tree[i].end ==> color[k] == FirstColor(tree, k)
      ensures forall k :: tree[i].end <= k < |tree| ==> color[k] == old(color[k])
      ensures nextSet == 1 + FirstTops(tree, tree[i].end)
      decreases |tree| - i
    {
      hide WellFormed, FirstColor, FirstTops;
      NodeBounds(tree, i);
      FirstRoot(tree);
      if i != 0 {
        FirstStep(tree, i);
        if tree[i].scale == 0 {
          color[i] := 0;
        } else if color[tree[i].parent] != 0 {
          color[i] := color[tree[i].parent];
        } else {
          color[i] := nextSet;
          nextSet := nextSet + 1;
        }
      }
      var c := i + 1;
      while c < tree[i].end
        invariant i < c <= tree[i].end && (c < tree[i].end ==> tree[c].parent == i)
        invariant forall k :: 0 <= k < c ==> color[k] == FirstColor(tree, k)
        invariant forall k :: tree[i].end <= k < |tree| ==> color[k] == old(color[k])
        invariant nextSet == 1 + FirstTops(tree, c)
      {
        NextSibling(tree, i, c);
        ColorLoopTree(c);
        c := tree[c].end;
      }
    }

    /** The first node of the subtree in set `id`, or -1. */
    method FindLoopTreeSet(i: nat, id: nat) returns (r: int)
      requires WellFormed(tree) && color.Length == |tree| && i < |tree|
      ensures r == -1 ==> forall k :: i <= k < tree[i].end ==> color[k] != id
      ensures r != -1 ==> i <= r < tree[i].end && color[r] == id && forall k :: i <= k < r ==> color[k] != id
      decreases |tree| - i
    {
      if color[i] == id {
        return i;
      }
      var c := i + 1;
      while c < tree[i].end
        invariant i < c <= tree[i].end && (c < tree[i].end ==> tree[c].parent == i)
        invariant forall k :: i <= k < c ==> color[k] != id
      {
        r := FindLoopTreeSet(c, id);
        if r != -1 {
          return;
        }
        NextSibling(tree, i, c);
        c := tree[c].end;
      }
      r := -1;
    }

    /** Gives the part of class `was` that hangs at node `i` the colour `nextSet`. */
    method RecolorSFLoopSet(i: nat, was: nat)
      requires WellFormed(tree) && color.Length == |tree| && i < |tree| && was != nextSet
      requires forall k :: i < k < tree[i].end && color[k] == was ==> color[tree[k].parent] == was
      modifies color
      ensures Recolored(tree, old(color[..]), color[..], i, was, nextSet)
      decreases |tree| - i
    {
      if color[i] != was {
        NoneBelow(tree, color[..], i, was);
        return;
      }
      color[i] := nextSet;
      var c := i + 1;
      while c < tree[i].end
        invariant i < c <= tree[i].end && (c < tree[i].end ==> tree[c].parent == i)
        invariant forall k :: 0 <= k < |tree| ==>
          color[k] == if i <= k < c && old(color[k]) == was then nextSet else old(color[k])
      {
        RecolorSFLoopSet(c, was);
        NextSibling(tree, i, c);
        c := tree[c].end;
      }
    }

    /** Gives each control-equivalence group of the list a counter. */
    method InstrumentPostDomSet(npd: Pool)
      modifies npd, this`counters
      ensures npd.blocks == [] && counters == old(counters) + Anchors(Groups(old(npd.blocks), tr))
    {
      var pd := CreatePostDomSets(npd, tr);
      var n := 0;
      while n < |pd|
        invariant 0 <= n <= |pd| && npd.blocks == []
        invariant counters == old(counters) + Anchors(pd[..n])
      {
        assert pd[..n + 1] == pd[..n] + [pd[n]];
        AnchorsConcat(pd[..n], [pd[n]]);
        assert Anchors([pd[n]]) == [Anchor(pd[n])];
        counters := counters + [Anchor(pd[n])];
        n := n + 1;
      }
      assert pd[..n] == pd;
    }

    /** Sorts and places the own blocks of one loop of a set. */
    method PlaceLoop(i: nat, parts: seq<Part>, sf: nat, ghost top: nat) returns (ps: seq<Part>)
      requires Valid() && 0 < i < |tree| && tree[i].scale != 0
      requires CountersOk(tree, tr, counters) && PartsOk(tree, tr, parts, top)
      requires ChainTop(tree, tr, i) == top && sf == ChainScale(tree, tr, i)
      modifies this`counters, pool
      ensures Valid() && PartsOk(tree, tr, ps, top) && CountersOk(tree, tr, counters)
      ensures parts < ps && ps[|parts|].loop == i
      ensures Moved(tree, tr, old(State(parts)), State(ps), {i})
    {
      hide Moved, Disjoint, Sorted, Groups, Anchors, Ahead, Aside, Less, CountersOk, WellFormed, AllBlocks, HoistLoops,
        PartOk;
      var pd, npd := SortBlocks(pool, tree[i].unique, tree[i].header, true, tr);
      ps := parts + [Part(i, pd, sf)];
      var rest := new Pool(npd);
      InstrumentPostDomSet(rest);
      MovedStatic(tree, tr, old(State(parts)), State(ps), i, pd, npd, sf);
      MovedOk(tree, tr, old(State(parts)), State(ps), {i});
      OwnPartOk(tree, tr, old(pool.blocks), i);
    }

    /** Node `i` belongs to set `j`, or hangs below a node that does; `outer` is the product of the
        trip counts from the top of the set down to its parent. */
    ghost predicate Enters(i: nat, outer: nat, j: nat, top: nat)
      requires WellFormed(tree) && color.Length == |tree| && i < |tree|
      reads this, color
    {
      && 0 < i && 1 <= j < nextSet && Colored(tree, tr, color[..], nextSet)
      && (color[i] == j || color[tree[i].parent] == j)
      && if color[tree[i].parent] == j
         then ChainTop(tree, tr, tree[i].parent) == top && outer == ChainScale(tree, tr, tree[i].parent)
         else i == top
    }

    lemma EnterFacts(i: nat, outer: nat, j: nat, top: nat)
      requires WellFormed(tree) && color.Length == |tree| && i < |tree| && Enters(i, outer, j, top)
      ensures tree[i].parent < |tree| && (color[tree[i].parent] == j ==> tree[i].parent != 0)
      ensures color[i] == j ==> tree[i].scale != 0
      ensures color[i] == j && color[tree[i].parent] == j ==>
        && (Chained(tree, tr, i) <==> tr.pdom(tree[i].header, tree[tree[i].parent].header))
        && (Chained(tree, tr, i) ==> ChainTop(tree, tr, i) == top && ChainScale(tree, tr, i) == tree[i].scale * outer)
      ensures color[i] == j && color[tree[i].parent] != j ==>
        ChainTop(tree, tr, i) == top && ChainScale(tree, tr, i) == tree[i].scale
    {
    }

    /** Processes the loops of set `j` from node `i` down: each is placed with the product of the
        trip counts above it, and a loop that its parent's header does not always lead to is split
        off, with its part of the set, into a new set. */
    method InstrumentSFLoopSet(i: nat, parts: seq<Part>, outer: nat, j: nat, ghost top: nat)
      returns (ps: seq<Part>)
      requires Valid() && i < |tree| && Enters(i, outer, j, top)
      requires CountersOk(tree, tr, counters) && PartsOk(tree, tr, parts, top)
      modifies this`nextSet, this`counters, color, pool
      ensures Valid() && old(nextSet) <= nextSet && Colored(tree, tr, color[..], nextSet)
      ensures Walked(tree, tr, old(color[..]), color[..], old(nextSet), i, tree[i].end, j)
      ensures color[i] == j && color[tree[i].parent] == j ==> Chained(tree, tr, i)
      ensures PartsOk(tree, tr, ps, top) && CountersOk(tree, tr, counters)
      ensures parts <= ps
      ensures old(color[i]) == j && old(color[tree[i].parent]) != j ==> parts < ps && ps[|parts|].loop == i
      ensures Moved(tree, tr, old(State(parts)), State(ps), Class(color[..], i, tree[i].end, j))
      decreases |tree| - i, 1
    {
      hide Moved, PartsOk, CountersOk, Disjoint, Colored, Chained, ChainTop, ChainScale, WellFormed;
      ghost var c0 := color[..];
      EnterFacts(i, outer, j, top);
      if color[i] != j {
        ps := parts;
        NotInSet(tree, tr, c0, nextSet, i, j);
        MovedNothing(tree, tr, State(parts));
        return;
      }
      var sf := tree[i].scale;
      if tree[i].parent != 0 && color[tree[i].parent] == color[i] {
        if tr.pdom(tree[i].header, tree[tree[i].parent].header) {
          sf := sf * outer;
        } else {
          ps := parts;
          SplitSet(i);
          MovedNothing(tree, tr, State(parts));
          return;
        }
      }
      ps := PlaceLoop(i, parts, sf, top);
      ghost var s := State(ps);
      ps := InstrumentSubLoops(i, ps, sf, j, top);
      JoinFirst(tree, tr, old(State(parts)), s, State(ps), color[..], i, j);
    }

    /** Recolours the subtree hanging at `i` into a new set. */
    method SplitSet(i: nat)
      requires WellFormed(tree) && color.Length == |tree| && 0 < i < |tree|
      requires Colored(tree, tr, color[..], nextSet) && color[i] != 0
      requires color[tree[i].parent] == color[i] && !Chained(tree, tr, i)
      modifies this`nextSet, color
      ensures Colored(tree, tr, color[..], nextSet) && old(nextSet) < nextSet && color[i] == old(nextSet)
      ensures Walked(tree, tr, old(color[..]), color[..], old(nextSet), i, tree[i].end, old(color[i]))
      ensures Class(color[..], i, tree[i].end, old(color[i])) == {}
    {
      ghost var c0 := color[..];
      PartClosed(tree, tr, c0, nextSet, i, color[i]);
      RecolorSFLoopSet(i, color[i]);
      SplitColored(tree, tr, c0, color[..], nextSet, i);
      nextSet := nextSet + 1;
    }

    /** The loop over the subloops of a node that has been placed with factor `sf`. */
    method InstrumentSubLoops(i: nat, parts: seq<Part>, sf: nat, j: nat, ghost top: nat)
      returns (ps: seq<Part>)
      requires Valid() && 0 < i < |tree| && 1 <= j < nextSet && Colored(tree, tr, color[..], nextSet)
      requires color[i] == j && ChainTop(tree, tr, i) == top && sf == ChainScale(tree, tr, i)
      requires CountersOk(tree, tr, counters) && PartsOk(tree, tr, parts, top)
      modifies this`nextSet, this`counters, color, pool
      ensures Valid() && old(nextSet) <= nextSet && Colored(tree, tr, color[..], nextSet)
      ensures color[i] == j && Walked(tree, tr, old(color[..]), color[..], old(nextSet), i, tree[i].end, j)
      ensures PartsOk(tree, tr, ps, top) && CountersOk(tree, tr, counters) && parts <= ps
      ensures Moved(tree, tr, old(State(parts)), State(ps), Class(color[..], i + 1, tree[i].end, j))
      decreases |tree| - i, 0
    {
      hide Moved, Colored, PartsOk, CountersOk, Disjoint, ChainTop, ChainScale;
      ps := parts;
      var c := i + 1;
      MovedNothing(tree, tr, State(ps));
      assert Class(color[..], i + 1, c, j) == {};
      while c < tree[i].end
        invariant i < c <= tree[i].end && (c < tree[i].end ==> tree[c].parent == i)
        invariant Valid() && old(nextSet) <= nextSet && Colored(tree, tr, color[..], nextSet)
        invariant color[i] == j && Walked(tree, tr, old(color[..]), color[..], old(nextSet), i, c, j)
        invariant PartsOk(tree, tr, ps, top) && CountersOk(tree, tr, counters) && parts <= ps
        invariant Moved(tree, tr, old(State(parts)), State(ps), Class(color[..], i + 1, c, j))
      {
        ghost var d, mid, s := color[..], nextSet, State(ps);
        ps := InstrumentSFLoopSet(c, ps, sf, j, top);
        WalkedChild(tree, tr, old(color[..]), d, color[..], old(nextSet), mid, i, c, j);
        MovedBoth(tree, tr, old(State(parts)), s, State(ps), Class(d, i + 1, c, j),
                  Class(color[..], c, tree[c].end, j));
        NextSibling(tree, i, c);
        c := tree[c].end;
      }
    }

    /** Hoists a counter that is advanced by the loop's trip count, if there is anything to hoist and
        the count can still be computed once the loop's entry edge has been split.  The counter is well
        placed and accounts for exactly these blocks; without it nothing is accounted for. */
    method InsertDynamicLoopCounter(i: nat, pd: seq<Block>) returns (hoisted: bool)
      requires WellFormed(tree) && 0 < i < |tree| && tree[i].scale == 0 && CountersOk(tree, tr, counters)
      requires forall b :: b in pd ==> tree[i].computable && b in tree[i].unique && tr.pdom(b, tree[i].header)
      modifies this`counters
      ensures CountersOk(tree, tr, counters) && HoistLoops(counters) == HoistLoops(old(counters))
      ensures multiset(AllBlocks(counters)) ==
              multiset(AllBlocks(old(counters))) + (if hoisted then multiset(pd) else multiset{})
      ensures hoisted <==> pd != [] && tree[i].recomputes
      ensures counters == old(counters) + (if hoisted then [Dynamic(i, pd)] else [])
    {
      if pd == [] {
        return false;
      }
      if !tree[i].recomputes {
        return false;
      }
      assert CounterOk(tree, tr, Dynamic(i, pd)) by {
        assert pd[0] in pd;
      }
      AddDynamic(tree, tr, counters, i, pd);
      counters := counters + [Dynamic(i, pd)];
      hoisted := true;
    }

    /** Places the own blocks of one loop whose trip count is not constant. */
    method PlaceDynamicLoop(i: nat)
      requires Valid() && 0 < i < |tree| && tree[i].scale == 0 && CountersOk(tree, tr, counters)
      modifies this`counters, this`lost, pool
      ensures Valid() && CountersOk(tree, tr, counters)
      ensures Moved(tree, tr, old(State([])), State([]), {i})
    {
      hide WellFormed, Moved, Disjoint, CountersOk, AllBlocks, HoistLoops, Fails, Anchors, Groups, Ahead, Aside, Less;
      ghost var a := State([]);
      var pd, npd := SortBlocks(pool, tree[i].unique, tree[i].header, tree[i].computable, tr);
      FailsWhenSorted(tree, tr, i, a.pool, pool.blocks, pd, npd);
      var hoisted := InsertDynamicLoopCounter(i, pd);
      if !hoisted && pd != [] {
        RetryBlocks(i, a, pd, npd);
      } else {
        var rest := new Pool(npd);
        InstrumentPostDomSet(rest);
        MovedDynamic(tree, tr, a, State([]), i, pd, npd);
      }
      MovedOk(tree, tr, a, State([]), {i});
    }

    /** After a failed hoist the loop's blocks are looked up again, in a pool that they have left. */
    method RetryBlocks(i: nat, ghost a: Snap, ghost pd: seq<Block>, ghost npd: seq<Block>)
      requires Valid() && 0 < i < |tree| && tree[i].scale == 0 && CountersOk(tree, tr, counters)
      requires Sorted(a.pool, pool.blocks, tree[i].unique, pd, npd) && pd != [] && Fails(tree, tr, i, a.pool)
      requires counters == a.counters && lost == a.lost && a.parts == []
      requires AsPlanned(tree, tr, i, a.pool, pool.blocks, pd, npd)
      modifies this`counters, this`lost, pool
      ensures Valid() && Moved(tree, tr, a, State([]), {i})
    {
      hide WellFormed, Moved, Disjoint, CountersOk, AllBlocks, HoistLoops, Fails, Ahead, Aside, Less;
      lost := lost + pd + npd;
      ghost var m := pool.blocks;
      var none, again := SortBlocks(pool, tree[i].unique, tree[i].header, false, tr);
      NothingAgain(a.pool, m, pool.blocks, tree[i].unique, pd, npd, none, again);
      LessNone(m, tree[i].unique);
      var rest := new Pool(again);
      InstrumentPostDomSet(rest);
      assert counters == a.counters;
      MovedFailed(tree, tr, a, State([]), i, pd, npd);
    }

    /** Processes every loop of the subtree that belongs to no set. */
    method InstrumentDynamicLoops(i: nat)
      requires Valid() && 0 < i < |tree| && CountersOk(tree, tr, counters)
      requires forall k :: 0 <= k < |tree| ==> (color[k] == 0 <==> tree[k].scale == 0)
      modifies this`counters, this`lost, pool
      ensures Valid() && CountersOk(tree, tr, counters)
      ensures Moved(tree, tr, old(State([])), State([]), Class(color[..], i, tree[i].end, 0))
      decreases |tree| - i, 1
    {
      hide Moved, CountersOk, Disjoint;
      ghost var a := State([]);
      if color[i] == 0 {
        PlaceDynamicLoop(i);
      } else {
        MovedNothing(tree, tr, a);
      }
      ghost var b := State([]);
      InstrumentDynamicSubLoops(i);
      ghost var here := if color[i] == 0 then {i} else {};
      MovedBoth(tree, tr, a, b, State([]), here, Class(color[..], i + 1, tree[i].end, 0));
      assert Class(color[..], i, tree[i].end, 0) == here + Class(color[..], i + 1, tree[i].end, 0);
    }

    /** The loop over the subloops of a node; at the root, `instrumentDynamicLoops`. */
    method InstrumentDynamicSubLoops(i: nat)
      requires Valid() && i < |tree| && CountersOk(tree, tr, counters)
      requires forall k :: 0 <= k < |tree| ==> (color[k] == 0 <==> tree[k].scale == 0)
      modifies this`counters, this`lost, pool
      ensures Valid() && CountersOk(tree, tr, counters)
      ensures Moved(tree, tr, old(State([])), State([]), Class(color[..], i + 1, tree[i].end, 0))
      decreases |tree| - i, 0
    {
      hide Moved, CountersOk, Disjoint;
      var c := i + 1;
      MovedNothing(tree, tr, State([]));
      assert Class(color[..], i + 1, c, 0) == {};
      while c < tree[i].end
        invariant i < c <= tree[i].end && (c < tree[i].end ==> tree[c].parent == i)
        invariant Valid() && CountersOk(tree, tr, counters)
        invariant Moved(tree, tr, old(State([])), State([]), Class(color[..], i + 1, c, 0))
      {
        ghost var s := State([]);
        NextSibling(tree, i, c);
        InstrumentDynamicLoops(c);
        ClassSplit(color[..], i + 1, c, tree[c].end, 0);
        MovedBoth(tree, tr, old(State([])), s, State([]), Class(color[..], i + 1, c, 0),
                  Class(color[..], c, tree[c].end, 0));
        c := tree[c].end;
      }
    }

    /** One turn of the loop over scale-factor sets: finds the top of set `j`, places the set, and
        hoists one counter for it. */
    method InstrumentSet(j: nat)
      requires Valid() && 1 <= j < nextSet && Colored(tree, tr, color[..], nextSet)
      requires Settled(tree, tr, color[..], j) && CountersOk(tree, tr, counters)
      modifies this`nextSet, this`counters, color, pool
      ensures Valid() && old(nextSet) <= nextSet && Colored(tree, tr, color[..], nextSet)
      ensures Settled(tree, tr, color[..], j + 1) && CountersOk(tree, tr, counters)
      ensures SetBelow(old(color[..]), j) == SetBelow(color[..], j)
      ensures Moved(tree, tr, old(State([])), State([]), SetAt(color[..], j))
    {
      hide Moved, CountersOk, Disjoint, SetBelow, SetAt, Class, Settled, Walked;
      ghost var c := color[..];
      var top := FindLoopTreeSet(0, j);
      SetTop(tree, tr, c, nextSet, j, top);
      ghost var a := State([]);
      var parts := InstrumentSFLoopSet(top, [], 1, j, top);
      SetDone(tree, tr, c, color[..], old(nextSet), j, top);
      ghost var b := State(parts);
      counters := counters + [Hoist(top, parts)];
      MovedHoist(tree, tr, a, b, State([]), top, SetAt(color[..], j));
    }

    /** The loop over scale-factor sets, whose bound grows when a set is split. */
    method InstrumentSets()
      requires Valid() && Colored(tree, tr, color[..], nextSet) && CountersOk(tree, tr, counters)
      modifies this`nextSet, this`counters, color, pool
      ensures Valid() && Colored(tree, tr, color[..], nextSet) && Settled(tree, tr, color[..], nextSet)
      ensures CountersOk(tree, tr, counters)
      ensures Moved(tree, tr, old(State([])), State([]), SetBelow(color[..], nextSet))
    {
      hide Moved, CountersOk, Disjoint;
      MovedNothing(tree, tr, State([]));
      assert SetBelow(color[..], 1) == {};
      var j := 1;
      while j < nextSet
        invariant Valid() && 1 <= j <= nextSet && Colored(tree, tr, color[..], nextSet)
        invariant Settled(tree, tr, color[..], j) && CountersOk(tree, tr, counters)
        invariant Moved(tree, tr, old(State([])), State([]), SetBelow(color[..], j))
        decreases |Known(tree)| + 1 - j
      {
        SetsBounded(tree, tr, color[..], nextSet);
        ghost var b := State([]);
        InstrumentSet(j);
        BelowStep(color[..], j);
        MovedBoth(tree, tr, old(State([])), b, State([]), SetBelow(color[..], j), SetAt(color[..], j));
        j := j + 1;
      }
    }

    /** Gives every block of the region's list a counter, and empties the list. */
    method InstrumentPragmaRegion()
      requires Valid() && counters == [] && lost == []
      requires forall k :: 0 <= k < |tree| ==> color[k] == 0
      modifies this, color, pool
      ensures pool.blocks == [] && CountersOk(tree, tr, counters)
      // Exact cover: counters and failed hoists share out the list.
      ensures multiset(AllBlocks(counters)) + multiset(lost) == multiset(old(pool.blocks))
      ensures forall x :: x in lost <==> x in old(pool.blocks) && InFailedHoist(tree, tr, old(pool.blocks), x)
      ensures lost == [] <==> forall k :: 0 <= k < |tree| ==> !Fails(tree, tr, k, old(pool.blocks))
      // Blocks that run once in each iteration of a loop whose trip count is constant are hoisted, each set with one
      // counter that holds exactly the loops of the set; and no others are.
      ensures SetsRight(tree, tr, old(pool.blocks), counters)
      ensures forall k: nat, x :: Hoisted(counters, k, x) <==>
        k < |tree| && x in old(pool.blocks) && x in tree[k].unique && tree[k].scale != 0 && tr.pdom(x, tree[k].header)
      // Those of a loop whose trip count is computed at run time are counted by it, unless the hoist fails.
      ensures forall k: nat, x :: Advanced(counters, k, x) <==>
        && k < |tree| && x in old(pool.blocks) && x in tree[k].unique && tree[k].scale == 0
        && tree[k].computable && tree[k].recomputes && tr.pdom(x, tree[k].header)
      // All others share an anchor exactly when they are grouped: those of each loop apart, and those of none.
      ensures forall x, y :: Share(counters, x, y) <==> Together(tree, tr, old(pool.blocks), x, y)
      // What the counters are offered is exactly what runs, and what they count of it is right if and
      // only if the region is open wherever a counter with blocks is met.
      ensures lost == [] ==> Placement.Exact(tree, tr, counters, old(pool.blocks))
      ensures lost == [] ==> Gating.Exact(tree, tr, counters, old(pool.blocks))
      // Each loop with a known trip count is hoisted exactly once, with its final set.
      ensures HoistLoops(counters) == multiset(Known(tree))
      ensures Colored(tree, tr, color[..], nextSet) && Settled(tree, tr, color[..], nextSet)
    {
      hide Moved, CountersOk, Disjoint, InFailedHoist, SetsRight, Hoisted, Advanced, Share, Together, Planned,
        HoistLoops, AllBlocks, Known, Fails;
      ghost var a := State([]);
      nextSet := 1;
      NodeBounds(tree, 0);
      ColorLoopTree(0);
      FirstColored(tree, tr, color[..]);
      NoCounters(tree, tr);
      InstrumentSets();
      ghost var b := State([]);
      InstrumentDynamicSubLoops(0);
      AllTaken(tree, tr, color[..], nextSet);
      MovedBoth(tree, tr, a, b, State([]), SetBelow(color[..], nextSet), Class(color[..], 1, |tree|, 0));
      ghost var s := State([]);
      InstrumentPostDomSet(pool);
      Leftover(tree, tr, a, s, State([]));
      CoverIffHoistsSucceed(tree, tr, a.pool, lost);
      PlannedFacts(tree, tr, a.pool, counters);
      if lost == [] {
        Placement.PlacedIsExact(tree, tr, counters, a.pool);
        Gating.PlacedIsExact(tree, tr, counters, a.pool);
      }
    }
  }

  lemma NoCounters(t: Tree, tr: Trees)
    requires WellFormed(t)
    ensures CountersOk(t, tr, [])
  {
  }

  /** The nodes whose colour is set `j`. */
  ghost function SetAt(c: seq<nat>, j: nat): set<nat> {
    set k: nat | k < |c| && c[k] == j
  }

  /** The nodes whose colour is a set before `j`. */
  ghost function SetBelow(c: seq<nat>, j: nat): set<nat> {
    set k: nat | k < |c| && 0 < c[k] < j
  }

  /** The block belongs to a loop whose hoist fails. */
  ghost predicate InFailedHoist(t: Tree, tr: Trees, l: seq<Block>, x: Block) {
    exists k :: 0 <= k < |t| && Fails(t, tr, k, l) && x in t[k].unique
  }

  lemma BelowStep(c: seq<nat>, j: nat)
    requires 1 <= j
    ensures SetBelow(c, j + 1) == SetBelow(c, j) + SetAt(c, j) && SetBelow(c, j) !! SetAt(c, j)
  {
  }

  /** The first node found in a set is its top, and the whole set lies in its subtree. */
  lemma SetTop(t: Tree, tr: Trees, c: seq<nat>, next: nat, j: nat, top: int)
    requires WellFormed(t) && Colored(t, tr, c, next) && 1 <= j < next
    requires top == -1 ==> forall k :: 0 <= k < t[0].end ==> c[k] != j
    requires top != -1 ==> 0 <= top < t[0].end && c[top] == j && forall k :: 0 <= k < top ==> c[k] != j
    ensures 0 < top < |t| && TopOfColor(t, c, top) && c[top] == j && c[t[top].parent] != j
    ensures forall k :: 0 <= k < |t| && c[k] == j ==> top <= k < t[top].end
  {
    assert Used(c, j);
    var q :| 0 <= q < |c| && c[q] == j;
    assert t[top].parent < top;
    forall k | 0 <= k < |t| && c[k] == j ensures top <= k < t[top].end {
      var r := TopOf(t, c, k);
      assert TopOfColor(t, c, top);
    }
  }

  /** After a set has been walked from its top it is settled, and earlier sets are as they were. */
  lemma SetDone(t: Tree, tr: Trees, c: seq<nat>, d: seq<nat>, next: nat, j: nat, top: nat)
    requires WellFormed(t) && 1 <= j < next && 0 < top < |t|
    requires Walked(t, tr, c, d, next, top, t[top].end, j) && Settled(t, tr, c, j)
    requires c[t[top].parent] != j
    requires forall k :: 0 <= k < |t| && c[k] == j ==> top <= k < t[top].end
    ensures Settled(t, tr, d, j + 1)
    ensures SetBelow(c, j) == SetBelow(d, j)
    ensures SetAt(d, j) == Class(d, top, t[top].end, j)
  {
    forall k | 0 < k < |t| && d[k] != 0 && d[k] < j + 1 && d[t[k].parent] == d[k] ensures Chained(t, tr, k) {
      NodeBounds(t, k);
      var p := t[k].parent;
      if d[k] == j {
        assert c[k] == j && c[p] == j;
      } else {
        assert c[k] == d[k] && c[p] == d[p];
      }
    }
  }

  lemma HoistPushed(b: Snap, s: Snap, top: nat)
    requires s == Snap(b.counters + [Hoist(top, b.parts)], [], b.pool, b.lost)
    ensures s.Blocks() == b.Blocks() && s.Loops() == b.Loops()
  {
    var one := [Hoist(top, b.parts)];
    AllBlocksConcat(b.counters, one);
    HoistLoopsConcat(b.counters, one);
    OneHoist(top, b.parts);
    NoParts(s);
    assert b.Blocks() ==
      multiset(AllBlocks(b.counters)) + multiset(PartBlocks(b.parts)) + multiset(b.pool) + multiset(b.lost);
    assert b.Loops() == PartLoops(b.parts) + HoistLoops(b.counters);
    hide *;
  }

  lemma OneHoist(top: nat, ps: seq<Part>)
    ensures AllBlocks([Hoist(top, ps)]) == PartBlocks(ps) && HoistLoops([Hoist(top, ps)]) == PartLoops(ps)
  {
    var one, bs := [Hoist(top, ps)], PartBlocks(ps);
    assert one[1..] == [] && AllBlocks(one) == bs + [] == bs;
  }

  lemma GivesPushed(t: Tree, tr: Trees, a: Snap, b: Snap, s: Snap, top: nat, taken: set<nat>)
    requires WellFormed(t) && Gives(t, tr, a, b, taken)
    requires s == Snap(b.counters + [Hoist(top, b.parts)], [], b.pool, b.lost)
    ensures Gives(t, tr, a, s, taken)
  {
    hide Given, GivenPart;
    forall c ensures c in s.counters && !c.Hoist? <==> c in b.counters && !c.Hoist? {
    }
    forall p ensures Holds(s, p) <==> Holds(b, p) {
      if PartIn(b.counters, p) {
        var c :| c in b.counters && c.Hoist? && p in c.parts;
        assert c in s.counters;
      }
      if p in b.parts { assert Hoist(top, b.parts) in s.counters; }
    }
  }

  lemma MovedHoist(t: Tree, tr: Trees, a: Snap, b: Snap, s: Snap, top: nat, taken: set<nat>)
    requires WellFormed(t) && Moved(t, tr, a, b, taken) && CounterOk(t, tr, Hoist(top, b.parts))
    requires s == Snap(b.counters + [Hoist(top, b.parts)], [], b.pool, b.lost)
    ensures Moved(t, tr, a, s, taken) && CountersOk(t, tr, s.counters)
  {
    hide CounterOk, Remains, NoDup, Gives, Unowned;
    HoistPushed(b, s, top);
    GivesPushed(t, tr, a, b, s, top, taken);
    CountersOkConcat(t, tr, b.counters, [Hoist(top, b.parts)]);
  }

  ghost predicate LoopAt(t: Tree, k: nat) {
    0 < k < |t|
  }

  ghost function AllLoops(t: Tree): set<nat> {
    set k: nat | k < |t| && LoopAt(t, k)
  }

  /** The loops in sets and the loops in none are all loops. */
  lemma AllTaken(t: Tree, tr: Trees, c: seq<nat>, next: nat)
    requires WellFormed(t) && Colored(t, tr, c, next)
    ensures SetBelow(c, next) + Class(c, 1, |t|, 0) == AllLoops(t)
    ensures SetBelow(c, next) !! Class(c, 1, |t|, 0)
    ensures forall k :: 0 <= k < |t| ==> (c[k] == 0 <==> t[k].scale == 0)
  {
    forall k ensures k in SetBelow(c, next) + Class(c, 1, |t|, 0) <==> k in AllLoops(t) {
      if k in AllLoops(t) {
        assert LoopAt(t, k);
      }
    }
  }

  /** The blocks left in no loop, and grouping them. */
  lemma Leftover(t: Tree, tr: Trees, a: Snap, b: Snap, s: Snap)
    requires WellFormed(t) && a.counters == [] && a.parts == [] && a.lost == []
    requires Moved(t, tr, a, b, AllLoops(t)) && b.parts == []
    requires s == Snap(b.counters + Anchors(Groups(b.pool, tr)), [], [], b.lost)
    ensures CountersOk(t, tr, s.counters)
    ensures multiset(AllBlocks(s.counters)) + multiset(s.lost) == multiset(a.pool)
    ensures forall x :: x in s.lost <==> x in a.pool && InFailedHoist(t, tr, a.pool, x)
    ensures HoistLoops(s.counters) == multiset(Known(t))
    ensures Planned(t, tr, a.pool, s.counters)
  {
    hide CountersOk, Remains, Loses, NoDup, SameHome, Groups, InFailedHoist, AllBlocks, HoistLoops;
    hide Gives, Unowned, Planned;
    LeftoverPlanned(t, tr, a, b, s);
    LeftHomes(t, a.pool, b.pool);
    AddAnchors(t, tr, b.counters, b.pool);
    KnownAll(t);
    LostInAll(t, tr, a, b);
    LeftoverCover(a, b, s, KnownIn(t, AllLoops(t)));
  }

  /** The blocks of the list that lie in no loop. */
  ghost function Left(t: Tree, l: seq<Block>): seq<Block> {
    Unowned(t, l, AllLoops(t))
  }

  /** The counters are those that the loops are to be given, and those of the groups of the blocks in no loop. */
  ghost predicate Planned(t: Tree, tr: Trees, l: seq<Block>, cs: seq<Counter>)
    requires WellFormed(t)
  {
    && (forall c :: c in cs && !c.Hoist? <==>
          Given(t, tr, l, AllLoops(t), c) || c in Anchors(Groups(Left(t, l), tr)))
    && (forall p :: PartIn(cs, p) <==> GivenPart(t, tr, l, AllLoops(t), p))
  }

  lemma LeftoverPlanned(t: Tree, tr: Trees, a: Snap, b: Snap, s: Snap)
    requires WellFormed(t) && a.counters == [] && a.parts == [] && b.parts == []
    requires Gives(t, tr, a, b, AllLoops(t)) && b.pool == Left(t, a.pool)
    requires s == Snap(b.counters + Anchors(Groups(b.pool, tr)), [], [], b.lost)
    ensures Planned(t, tr, a.pool, s.counters)
  {
    var cs := Anchors(Groups(b.pool, tr));
    NoHoistsAmong(Groups(b.pool, tr));
    HoldsMore(b, s, cs, []);
    forall p ensures PartIn(s.counters, p) <==> GivenPart(t, tr, a.pool, AllLoops(t), p) {
      assert Holds(s, p) <==> Holds(b, p);
      assert !Holds(a, p);
    }
    hide Given, GivenPart, Anchors, Groups;
  }

  // ---- Where each block ends -------------------------------------------------

  /** The block is in loop `k`'s part of a hoisted counter. */
  ghost predicate Hoisted(cs: seq<Counter>, k: nat, x: Block) {
    exists p :: PartIn(cs, p) && p.loop == k && x in p.blocks
  }

  /** The block is counted by the trip count of loop `k`. */
  ghost predicate Advanced(cs: seq<Counter>, k: nat, x: Block) {
    exists bs :: Dynamic(k, bs) in cs && x in bs
  }

  /** The two blocks are counted where one of them runs. */
  ghost predicate Share(cs: seq<Counter>, x: Block, y: Block) {
    exists bs :: Anchor(bs) in cs && x in bs && y in bs
  }

  /** The two blocks are of one group, among the blocks of a loop that are not hoisted or among those in no loop. */
  ghost predicate Together(t: Tree, tr: Trees, l: seq<Block>, x: Block, y: Block) {
    || (exists k :: 0 <= k < |t| && !Fails(t, tr, k, l) && SameGroup(Groups(Rest(t, tr, l, k), tr), x, y))
    || SameGroup(Groups(Left(t, l), tr), x, y)
  }

  /** Each set has one hoisted counter, with the parts of exactly its loops. */
  ghost predicate SetsRight(t: Tree, tr: Trees, l: seq<Block>, cs: seq<Counter>)
    requires WellFormed(t)
  {
    && (forall c :: c in cs && c.Hoist? ==> forall p :: p in c.parts <==>
          GivenPart(t, tr, l, AllLoops(t), p) && ChainTop(t, tr, p.loop) == c.top)
    && (forall k :: 0 <= k < |t| && t[k].scale != 0 ==> HasTop(cs, ChainTop(t, tr, k)))
    && (forall i, j :: 0 <= i < j < |cs| && cs[i].Hoist? && cs[j].Hoist? ==> cs[i].top != cs[j].top)
  }

  ghost predicate HasTop(cs: seq<Counter>, top: nat) {
    exists c :: c in cs && c.Hoist? && c.top == top
  }

  lemma PlannedFacts(t: Tree, tr: Trees, l: seq<Block>, cs: seq<Counter>)
    requires WellFormed(t) && Planned(t, tr, l, cs) && CountersOk(t, tr, cs) && HoistLoops(cs) == multiset(Known(t))
    ensures SetsRight(t, tr, l, cs)
    ensures forall k: nat, x :: Hoisted(cs, k, x) <==>
      k < |t| && x in l && x in t[k].unique && t[k].scale != 0 && tr.pdom(x, t[k].header)
    ensures forall k: nat, x :: Advanced(cs, k, x) <==>
      && k < |t| && x in l && x in t[k].unique && t[k].scale == 0
      && t[k].computable && t[k].recomputes && tr.pdom(x, t[k].header)
    ensures forall x, y :: Share(cs, x, y) <==> Together(t, tr, l, x, y)
  {
    hide *;
    OneHoistForSet(t, tr, l, cs);
    forall k: nat, x ensures Hoisted(cs, k, x) <==>
      k < |t| && x in l && x in t[k].unique && t[k].scale != 0 && tr.pdom(x, t[k].header)
    {
      HoistedIff(t, tr, l, cs, k, x);
    }
    forall k: nat, x ensures Advanced(cs, k, x) <==>
      && k < |t| && x in l && x in t[k].unique && t[k].scale == 0
      && t[k].computable && t[k].recomputes && tr.pdom(x, t[k].header)
    {
      AdvancedIff(t, tr, l, cs, k, x);
    }
    forall x, y ensures Share(cs, x, y) <==> Together(t, tr, l, x, y) {
      ShareIff(t, tr, l, cs, x, y);
    }
  }

  lemma HoistedIff(t: Tree, tr: Trees, l: seq<Block>, cs: seq<Counter>, k: nat, x: Block)
    requires WellFormed(t) && Planned(t, tr, l, cs)
    ensures Hoisted(cs, k, x) <==>
      k < |t| && x in l && x in t[k].unique && t[k].scale != 0 && tr.pdom(x, t[k].header)
  {
    if k < |t| && t[k].scale != 0 {
      assert LoopAt(t, k) && k in AllLoops(t);
      AheadMembers(t[k].unique, l, t[k].header, Hoistable(t[k]), tr, x);
      assert PartIn(cs, OwnPart(t, tr, l, k));
    }
    hide Ahead, ChainScale;
  }

  lemma AdvancedIff(t: Tree, tr: Trees, l: seq<Block>, cs: seq<Counter>, k: nat, x: Block)
    requires WellFormed(t) && Planned(t, tr, l, cs)
    ensures Advanced(cs, k, x) <==>
      && k < |t| && x in l && x in t[k].unique && t[k].scale == 0
      && t[k].computable && t[k].recomputes && tr.pdom(x, t[k].header)
  {
    forall bs ensures Dynamic(k, bs) in cs <==>
      k in AllLoops(t) && k < |t| && t[k].scale == 0 && t[k].recomputes && bs != [] && bs == Front(t, tr, l, k)
    {
      DynamicGiven(t, tr, l, cs, k, bs);
    }
    if k < |t| {
      AheadMembers(t[k].unique, l, t[k].header, Hoistable(t[k]), tr, x);
      assert x in t[k].unique ==> LoopAt(t, k);
    }
    hide Ahead, Planned;
  }

  lemma DynamicGiven(t: Tree, tr: Trees, l: seq<Block>, cs: seq<Counter>, k: nat, bs: seq<Block>)
    requires WellFormed(t) && Planned(t, tr, l, cs)
    ensures Dynamic(k, bs) in cs <==>
      k in AllLoops(t) && k < |t| && t[k].scale == 0 && t[k].recomputes && bs != [] && bs == Front(t, tr, l, k)
  {
    var c := Dynamic(k, bs);
    AnchorsBlocks(Groups(Left(t, l), tr));
    assert c in cs <==> Given(t, tr, l, AllLoops(t), c);
    forall i: nat | i < |t|
      ensures c in OwnCounters(t, tr, l, i) <==>
        i == k && t[k].scale == 0 && t[k].recomputes && bs != [] && bs == Front(t, tr, l, k)
    {
      AnchorsBlocks(Groups(Rest(t, tr, l, i), tr));
    }
    hide Planned, OwnCounters, Front, AllLoops;
  }

  lemma {:induction false} AnchorsMembers(gs: seq<seq<Block>>, bs: seq<Block>)
    ensures Anchor(bs) in Anchors(gs) <==> bs in gs
  {
    if gs != [] {
      AnchorsMembers(gs[1..], bs);
      assert gs == [gs[0]] + gs[1..];
    }
  }

  lemma ShareGroups(gs: seq<seq<Block>>, x: Block, y: Block)
    ensures Share(Anchors(gs), x, y) <==> SameGroup(gs, x, y)
  {
    if Share(Anchors(gs), x, y) {
      var bs :| Anchor(bs) in Anchors(gs) && x in bs && y in bs;
      AnchorsMembers(gs, bs);
    }
    if SameGroup(gs, x, y) {
      var k :| 0 <= k < |gs| && x in gs[k] && y in gs[k];
      AnchorsMembers(gs, gs[k]);
    }
  }

  lemma NoFrontUnhoistable(t: Tree, tr: Trees, l: seq<Block>, k: nat)
    requires k < |t| && !Hoistable(t[k])
    ensures Front(t, tr, l, k) == []
  {
    forall x ensures x !in Front(t, tr, l, k) {
      AheadMembers(t[k].unique, l, t[k].header, false, tr, x);
    }
    EmptyOrNot(Front(t, tr, l, k));
  }

  lemma ShareOwn(t: Tree, tr: Trees, l: seq<Block>, k: nat, x: Block, y: Block)
    requires k < |t|
    ensures Share(OwnCounters(t, tr, l, k), x, y) <==>
      !Fails(t, tr, k, l) && SameGroup(Groups(Rest(t, tr, l, k), tr), x, y)
  {
    if !Hoistable(t[k]) { NoFrontUnhoistable(t, tr, l, k); }
    hide Front, Rest, Fails, Anchors, Groups;
    FailsAhead(t, tr, k, l);
    ShareGroups(Groups(Rest(t, tr, l, k), tr), x, y);
  }

  lemma ShareIff(t: Tree, tr: Trees, l: seq<Block>, cs: seq<Counter>, x: Block, y: Block)
    requires WellFormed(t) && Planned(t, tr, l, cs)
    ensures Share(cs, x, y) <==> Together(t, tr, l, x, y)
  {
    var left := Anchors(Groups(Left(t, l), tr));
    ShareGroups(Groups(Left(t, l), tr), x, y);
    forall k: nat | k < |t|
      ensures Share(OwnCounters(t, tr, l, k), x, y) <==>
        !Fails(t, tr, k, l) && SameGroup(Groups(Rest(t, tr, l, k), tr), x, y)
    {
      ShareOwn(t, tr, l, k, x, y);
    }
    hide Anchors, Groups, OwnCounters, Fails, Left, Rest;
    if Share(cs, x, y) {
      var bs :| Anchor(bs) in cs && x in bs && y in bs;
      if Given(t, tr, l, AllLoops(t), Anchor(bs)) {
        var k :| k in AllLoops(t) && k < |t| && Anchor(bs) in OwnCounters(t, tr, l, k);
        assert Share(OwnCounters(t, tr, l, k), x, y);
      }
    }
    if Together(t, tr, l, x, y) {
      ShareOfHome(t, tr, l, cs, x, y);
    }
  }

  lemma ShareOfHome(t: Tree, tr: Trees, l: seq<Block>, cs: seq<Counter>, x: Block, y: Block)
    requires WellFormed(t) && Planned(t, tr, l, cs) && Together(t, tr, l, x, y)
    ensures Share(cs, x, y)
  {
    hide Anchors, Groups, OwnCounters, Fails, Left, Rest;
    if k: nat :| k < |t| && !Fails(t, tr, k, l) && SameGroup(Groups(Rest(t, tr, l, k), tr), x, y) {
      ShareOwn(t, tr, l, k, x, y);
      var bs :| Anchor(bs) in OwnCounters(t, tr, l, k) && x in bs && y in bs;
      if k == 0 {
        RootOwnsNone(t, tr, l);
      } else {
        assert LoopAt(t, k) && k in AllLoops(t);
        assert Given(t, tr, l, AllLoops(t), Anchor(bs));
      }
    } else {
      ShareGroups(Groups(Left(t, l), tr), x, y);
      var bs :| Anchor(bs) in Anchors(Groups(Left(t, l), tr)) && x in bs && y in bs;
    }
  }

  lemma RootOwnsNone(t: Tree, tr: Trees, l: seq<Block>)
    requires WellFormed(t)
    ensures OwnCounters(t, tr, l, 0) == []
  {
  }

  lemma {:induction false} AsideNoDup(u: seq<Block>, l: seq<Block>, header: Block, hoistable: bool, tr: Trees)
    ensures NoDup(Aside(u, l, header, hoistable, tr))
  {
    if u != [] {
      var v := u[..|u| - 1];
      AsideNoDup(v, l, header, hoistable, tr);
      AheadMembers(v, l, header, hoistable, tr, u[|v|]);
    }
  }

  lemma {:induction false} UnownedMembers(t: Tree, l: seq<Block>, taken: set<nat>)
    ensures forall x :: x in Unowned(t, l, taken) <==> x in l && !Owned(t, taken, x)
    ensures NoDup(l) ==> NoDup(Unowned(t, l, taken))
  {
    if l != [] {
      var front, x := l[..|l| - 1], l[|l| - 1];
      assert l == front + [x];
      UnownedMembers(t, front, taken);
    }
  }

  lemma GroupMember(l: seq<Block>, tr: Trees, x: Block, y: Block)
    requires SameGroup(Groups(l, tr), x, y)
    ensures x in l
  {
    var k :| 0 <= k < |Groups(l, tr)| && x in Groups(l, tr)[k] && y in Groups(l, tr)[k];
    GroupMembers(l, tr, k, x);
  }

  /** A block that is not hoisted shares its anchor with blocks of its own loop only. */
  lemma TogetherAtHome(t: Tree, tr: Trees, l: seq<Block>, k: nat, x: Block, y: Block)
    requires WellFormed(t) && Disjoint(t) && k < |t| && !Fails(t, tr, k, l) && x in Rest(t, tr, l, k)
    ensures Together(t, tr, l, x, y) <==> SameGroup(Groups(Rest(t, tr, l, k), tr), x, y)
  {
    InRest(t, tr, l, k, x);
    UnownedMembers(t, l, AllLoops(t));
    assert Owned(t, AllLoops(t), x) by { assert LoopAt(t, k) && k in AllLoops(t); }
    if SameGroup(Groups(Left(t, l), tr), x, y) {
      GroupMember(Left(t, l), tr, x, y);
    }
    forall i | 0 <= i < |t| && SameGroup(Groups(Rest(t, tr, l, i), tr), x, y) ensures i == k {
      GroupMember(Rest(t, tr, l, i), tr, x, y);
      InRest(t, tr, l, i, x);
    }
    hide Rest, Left, Groups, SameGroup, Disjoint;
  }

  lemma InRest(t: Tree, tr: Trees, l: seq<Block>, k: nat, x: Block)
    requires WellFormed(t) && k < |t| && x in Rest(t, tr, l, k)
    ensures x in t[k].unique && x in l && 0 < k
  {
    AheadMembers(t[k].unique, l, t[k].header, Hoistable(t[k]), tr, x);
  }

  lemma TogetherInNone(t: Tree, tr: Trees, l: seq<Block>, x: Block, y: Block)
    requires WellFormed(t) && x in Left(t, l)
    ensures Together(t, tr, l, x, y) <==> SameGroup(Groups(Left(t, l), tr), x, y)
  {
    hide Groups, SameGroup, Left, Rest, Fails;
    forall i | 0 <= i < |t| && SameGroup(Groups(Rest(t, tr, l, i), tr), x, y) ensures Owned(t, AllLoops(t), x) {
      GroupMember(Rest(t, tr, l, i), tr, x, y);
      InRest(t, tr, l, i, x);
      assert LoopAt(t, i) && i in AllLoops(t);
    }
    LeftUnowned(t, l, x);
  }

  lemma LeftUnowned(t: Tree, l: seq<Block>, x: Block)
    requires x in Left(t, l)
    ensures !Owned(t, AllLoops(t), x)
  {
    UnownedMembers(t, l, AllLoops(t));
  }

  /** Among the blocks of a loop that are not hoisted, those that are control-equivalent share an anchor and no others
      do, exactly when the first listed of each class dominates the rest of it. */
  lemma AnchorsAreClasses(g: Graph, t: Tree, tr: Trees, l: seq<Block>, k: nat)
    requires WellFormed(t) && Disjoint(t) && k < |t| && !Fails(t, tr, k, l)
    requires Complete(g, Rest(t, tr, l, k)) && tr.enabled && tr.Faithful(g)
    ensures
      (forall x, y :: x in Rest(t, tr, l, k) && y in Rest(t, tr, l, k) ==>
        (Together(t, tr, l, x, y) <==> CtrlEq(g, x, y)))
      <==> LeadersFirst(g, Rest(t, tr, l, k))
  {
    var rest := Rest(t, tr, l, k);
    forall x, y | x in rest && y in rest
      ensures Together(t, tr, l, x, y) <==> SameGroup(Groups(rest, tr), x, y)
    {
      TogetherAtHome(t, tr, l, k, x, y);
    }
    AsideNoDup(t[k].unique, l, t[k].header, Hoistable(t[k]), tr);
    CanonicalIffLeadersFirst(g, rest, tr);
    hide Together, SameGroup, CtrlEq, LeadersFirst, Rest;
  }

  /** The same holds among the blocks that lie in no loop. */
  lemma LeftAnchorsAreClasses(g: Graph, t: Tree, tr: Trees, l: seq<Block>)
    requires WellFormed(t) && NoDup(l) && Complete(g, Left(t, l)) && tr.enabled && tr.Faithful(g)
    ensures
      (forall x, y :: x in Left(t, l) && y in Left(t, l) ==> (Together(t, tr, l, x, y) <==> CtrlEq(g, x, y)))
      <==> LeadersFirst(g, Left(t, l))
  {
    var left := Left(t, l);
    forall x, y | x in left && y in left ensures Together(t, tr, l, x, y) <==> SameGroup(Groups(left, tr), x, y) {
      TogetherInNone(t, tr, l, x, y);
    }
    UnownedMembers(t, l, AllLoops(t));
    CanonicalIffLeadersFirst(g, left, tr);
    hide Together, SameGroup, CtrlEq, LeadersFirst, Left;
  }

  lemma OneHoistForSet(t: Tree, tr: Trees, l: seq<Block>, cs: seq<Counter>)
    requires WellFormed(t) && Planned(t, tr, l, cs) && CountersOk(t, tr, cs) && HoistLoops(cs) == multiset(Known(t))
    ensures SetsRight(t, tr, l, cs)
  {
    hide OwnPart, ChainScale, ChainTop, WellFormed, HoistLoops, Known;
    forall i, j | 0 <= i < j < |cs| && cs[i].Hoist? && cs[j].Hoist? ensures cs[i].top != cs[j].top {
      TopsDiffer(t, tr, cs, i, j);
    }
    forall c, p | c in cs && c.Hoist? && p in c.parts
      ensures GivenPart(t, tr, l, AllLoops(t), p) && ChainTop(t, tr, p.loop) == c.top
    {
      assert PartIn(cs, p) && CounterOk(t, tr, c);
    }
    forall p | GivenPart(t, tr, l, AllLoops(t), p) ensures HeldAtTop(cs, p, ChainTop(t, tr, p.loop)) {
      HeldByTop(t, tr, l, cs, p);
    }
    forall c, p | c in cs && c.Hoist? && GivenPart(t, tr, l, AllLoops(t), p) && ChainTop(t, tr, p.loop) == c.top
      ensures p in c.parts
    {
      assert HeldAtTop(cs, p, c.top);
    }
    forall k | 0 <= k < |t| && t[k].scale != 0 ensures HasTop(cs, ChainTop(t, tr, k)) {
      PartGiven(t, tr, l, k);
      assert HeldAtTop(cs, OwnPart(t, tr, l, k), ChainTop(t, tr, k));
    }
  }

  ghost predicate HeldAtTop(cs: seq<Counter>, p: Part, top: nat) {
    exists c :: c in cs && c.Hoist? && c.top == top && p in c.parts
  }

  lemma HeldByTop(t: Tree, tr: Trees, l: seq<Block>, cs: seq<Counter>, p: Part)
    requires WellFormed(t) && Planned(t, tr, l, cs) && CountersOk(t, tr, cs) && GivenPart(t, tr, l, AllLoops(t), p)
    ensures HeldAtTop(cs, p, ChainTop(t, tr, p.loop))
  {
    hide OwnPart, ChainScale, ChainTop;
    assert PartIn(cs, p);
    var c :| c in cs && c.Hoist? && p in c.parts;
    assert CounterOk(t, tr, c) && PartOk(t, tr, p, c.top);
  }

  lemma PartGiven(t: Tree, tr: Trees, l: seq<Block>, k: nat)
    requires WellFormed(t) && k < |t| && t[k].scale != 0
    ensures OwnPart(t, tr, l, k).loop == k && GivenPart(t, tr, l, AllLoops(t), OwnPart(t, tr, l, k))
  {
    assert LoopAt(t, k) && k in AllLoops(t);
  }

  /** The first loop in a set is its top, so two counters with the same top would hoist it twice. */
  lemma TopsDiffer(t: Tree, tr: Trees, cs: seq<Counter>, i: nat, j: nat)
    requires WellFormed(t) && CountersOk(t, tr, cs) && HoistLoops(cs) == multiset(Known(t))
    requires i < j < |cs| && cs[i].Hoist? && cs[j].Hoist?
    ensures cs[i].top != cs[j].top
  {
    hide HoistLoops, CounterOk;
    FirstIsTop(t, tr, cs, i);
    FirstIsTop(t, tr, cs, j);
    HoistAt(cs[..j], i, cs[i].top);
    HoistAt(cs[j..], 0, cs[j].top);
    assert cs == cs[..j] + cs[j..];
    HoistLoopsConcat(cs[..j], cs[j..]);
    assert HoistLoops(cs)[cs[i].top] <= 1;
  }

  lemma FirstIsTop(t: Tree, tr: Trees, cs: seq<Counter>, i: nat)
    requires WellFormed(t) && CountersOk(t, tr, cs) && i < |cs| && cs[i].Hoist?
    ensures cs[i].parts != [] && cs[i].parts[0].loop == cs[i].top
  {
    assert CounterOk(t, tr, cs[i]);
  }

  lemma HoistAt(cs: seq<Counter>, i: nat, top: nat)
    requires i < |cs| && cs[i].Hoist? && cs[i].top == top && cs[i].parts != [] && cs[i].parts[0].loop == top
    ensures HoistLoops(cs)[top] >= 1
  {
    assert cs == cs[..i] + cs[i..];
    HoistLoopsConcat(cs[..i], cs[i..]);
    assert cs[i..][0] == cs[i];
  }

  lemma LeftoverCover(a: Snap, b: Snap, s: Snap, known: set<nat>)
    requires a.counters == [] && a.parts == [] && a.lost == [] && b.parts == [] && s.lost == b.lost
    requires b.Blocks() == a.Blocks() && b.Loops() == a.Loops() + multiset(known)
    requires multiset(AllBlocks(s.counters)) == multiset(AllBlocks(b.counters)) + multiset(b.pool)
    requires HoistLoops(s.counters) == HoistLoops(b.counters)
    ensures multiset(AllBlocks(s.counters)) + multiset(s.lost) == multiset(a.pool)
    ensures HoistLoops(s.counters) == multiset(known)
  {
    NoParts(a);
    NoParts(b);
    assert AllBlocks(a.counters) == [] && HoistLoops(a.counters) == multiset{};
    hide *;
  }

  lemma NoParts(a: Snap)
    requires a.parts == []
    ensures a.Blocks() == multiset(AllBlocks(a.counters)) + multiset(a.pool) + multiset(a.lost)
    ensures a.Loops() == HoistLoops(a.counters)
  {
    assert PartBlocks(a.parts) == [] && PartLoops(a.parts) == multiset{};
    hide AllBlocks, HoistLoops;
  }


  /** No block is dropped exactly when every attempted hoist can recompute its trip count. */
  lemma CoverIffHoistsSucceed(t: Tree, tr: Trees, l: seq<Block>, lost: seq<Block>)
    requires forall x :: x in lost <==> x in l && InFailedHoist(t, tr, l, x)
    ensures lost == [] <==> forall k :: 0 <= k < |t| ==> !Fails(t, tr, k, l)
  {
    forall k | 0 <= k < |t| && Fails(t, tr, k, l) ensures lost != [] {
      var b :| b in l && b in t[k].unique && tr.pdom(b, t[k].header);
      assert b in lost;
    }
    EmptyOrNot(lost);
  }

  lemma KnownAll(t: Tree)
    requires WellFormed(t)
    ensures KnownIn(t, AllLoops(t)) == Known(t)
  {
    forall k ensures k in KnownIn(t, AllLoops(t)) <==> k in Known(t) {
      if k in Known(t) {
        assert LoopAt(t, k);
      }
    }
  }

  lemma LeftHomes(t: Tree, l: seq<Block>, m: seq<Block>)
    requires WellFormed(t) && Remains(t, l, m, AllLoops(t))
    ensures forall x, y :: x in m && y in m ==> SameHome(t, x, y)
  {
    forall x, y | x in m && y in m ensures SameHome(t, x, y) {
      LeftHome(t, l, m, x);
      LeftHome(t, l, m, y);
    }
  }

  lemma LeftHome(t: Tree, l: seq<Block>, m: seq<Block>, x: Block)
    requires WellFormed(t) && Remains(t, l, m, AllLoops(t)) && x in m
    ensures forall k :: 0 <= k < |t| ==> x !in t[k].unique
  {
    forall k | 0 < k < |t| ensures x !in t[k].unique {
      assert LoopAt(t, k) && k in AllLoops(t);
    }
  }

  lemma LostInAll(t: Tree, tr: Trees, a: Snap, b: Snap)
    requires WellFormed(t) && a.lost == [] && Loses(t, tr, a, b, AllLoops(t))
    ensures forall x :: x in b.lost <==> x in a.pool && InFailedHoist(t, tr, a.pool, x)
  {
    forall x ensures x in b.lost <==> x in a.pool && InFailedHoist(t, tr, a.pool, x) {
      if x in a.pool && InFailedHoist(t, tr, a.pool, x) {
        var k :| 0 <= k < |t| && Fails(t, tr, k, a.pool) && x in t[k].unique;
        assert LoopAt(t, k) && k in AllLoops(t);
      }
    }
  }

  lemma ClassSplit(c: seq<nat>, lo: nat, mid: nat, hi: nat, j: nat)
    requires lo <= mid <= hi
    ensures Class(c, lo, hi, j) == Class(c, lo, mid, j) + Class(c, mid, hi, j)
    ensures Class(c, lo, mid, j) !! Class(c, mid, hi, j)
  {
  }

  lemma MovedOk(t: Tree, tr: Trees, a: Snap, b: Snap, taken: set<nat>)
    requires WellFormed(t) && Moved(t, tr, a, b, taken)
    ensures NoDup(b.pool) && CountersOk(t, tr, b.counters)
  {
  }

  lemma JoinFirst(t: Tree, tr: Trees, a: Snap, b: Snap, s: Snap, c: seq<nat>, i: nat, j: nat)
    requires WellFormed(t) && Disjoint(t) && |c| == |t| && i < |t| && c[i] == j
    requires Moved(t, tr, a, b, {i}) && Moved(t, tr, b, s, Class(c, i + 1, t[i].end, j))
    ensures Moved(t, tr, a, s, Class(c, i, t[i].end, j))
  {
    hide Moved;
    MovedBoth(t, tr, a, b, s, {i}, Class(c, i + 1, t[i].end, j));
    NodeBounds(t, i);
    assert Class(c, i, t[i].end, j) == {i} + Class(c, i + 1, t[i].end, j);
  }

  /** A node outside the set has no node of the set below it when its parent is in the set. */
  lemma NotInSet(t: Tree, tr: Trees, c: seq<nat>, next: nat, i: nat, j: nat)
    requires WellFormed(t) && Colored(t, tr, c, next) && 0 < i < |t| && j != 0
    requires c[i] != j && c[t[i].parent] == j
    ensures Class(c, i, t[i].end, j) == {}
    ensures Walked(t, tr, c, c, next, i, t[i].end, j)
  {
    forall k | i < k < t[i].end && c[k] == j ensures c[t[k].parent] == j {
      ClassClosed(t, tr, c, next, t[i].parent, k);
    }
    NoneBelow(t, c, i, j);
  }

  lemma PartClosed(t: Tree, tr: Trees, c: seq<nat>, next: nat, i: nat, j: nat)
    requires WellFormed(t) && Colored(t, tr, c, next) && i < |t| && j != 0 && c[i] == j
    ensures forall k :: i < k < t[i].end && c[k] == j ==> c[t[k].parent] == j
  {
    forall k | i < k < t[i].end && c[k] == j ensures c[t[k].parent] == j {
      ClassClosed(t, tr, c, next, i, k);
    }
  }

  lemma NoneBelow(t: Tree, c: seq<nat>, i: nat, was: nat)
    requires WellFormed(t) && |c| == |t| && i < |t| && c[i] != was
    requires forall k :: i < k < t[i].end && c[k] == was ==> c[t[k].parent] == was
    ensures forall k :: i <= k < t[i].end ==> c[k] != was
  {
    forall k | i <= k < t[i].end ensures c[k] != was {
      NoneAt(t, c, i, was, k);
    }
  }

  lemma {:induction false} NoneAt(t: Tree, c: seq<nat>, i: nat, was: nat, k: nat)
    requires WellFormed(t) && |c| == |t| && i < |t| && c[i] != was && i <= k < t[i].end
    requires forall k :: i < k < t[i].end && c[k] == was ==> c[t[k].parent] == was
    ensures c[k] != was
  {
    if i < k {
      NoneAt(t, c, i, was, t[k].parent);
    }
  }
}
