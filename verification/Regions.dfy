/** Finding the blocks of each region (`recordPragmaRegions`): a depth-first walk that carries, by
    value, the stack of regions open on the way. */
module Regions {
  import opened Collections

  type Block = nat
  type Group = nat

  datatype Marker = Begin(group: Group) | End(group: Group)

  /** A function's blocks with their successors and the markers among their instructions. */
  datatype Func = Func(blocks: set<Block>, entry: Block, succ: map<Block, seq<Block>>, marks: map<Block, seq<Marker>>)

  ghost predicate WellFormed(f: Func) {
    && f.entry in f.blocks && f.succ.Keys == f.blocks && f.marks.Keys == f.blocks
    && forall b, c :: b in f.blocks && c in f.succ[b] ==> c in f.blocks
  }

  /** A group id with a list of blocks: the blocks found for the group, or, on the stack, the blocks
      whose begin markers are still open. */
  datatype Entry = Entry(id: Group, blocks: seq<Block>)

  /** An end event inserted at a marker. */
  datatype Closing = Closing(block: Block, at: nat, region: nat)

  // ---- Lists keyed by group ------------------------------------------------

  function IndexOf(es: seq<Entry>, g: Group): (i: nat)
    ensures i <= |es| && (i < |es| ==> es[i].id == g) && forall j :: 0 <= j < i ==> es[j].id != g
  {
    if es == [] then 0 else if es[0].id == g then 0 else 1 + IndexOf(es[1..], g)
  }

  ghost predicate Has(es: seq<Entry>, g: Group) {
    IndexOf(es, g) < |es|
  }

  ghost function Blocks(es: seq<Entry>, g: Group): seq<Block> {
    if Has(es, g) then es[IndexOf(es, g)].blocks else []
  }

  ghost predicate DistinctIds(es: seq<Entry>) {
    forall i, j :: 0 <= i < j < |es| ==> es[i].id != es[j].id
  }

  lemma IndexUnique(es: seq<Entry>, g: Group, i: nat)
    requires i < |es| && es[i].id == g && forall j :: 0 <= j < i ==> es[j].id != g
    ensures IndexOf(es, g) == i
  {
    var k := IndexOf(es, g);
  }

  /** `std::find_if` by group id. */
  method Find(es: seq<Entry>, g: Group) returns (i: nat)
    ensures i == IndexOf(es, g)
  {
    i := 0;
    while i < |es| && es[i].id != g
      invariant 0 <= i <= |es| && forall j :: 0 <= j < i ==> es[j].id != g
    {
      i := i + 1;
    }
    if i < |es| {
      IndexUnique(es, g, i);
    }
  }

  /** `es` with the list of its `i`-th entry replaced. */
  function With(es: seq<Entry>, i: nat, l: seq<Block>): seq<Entry>
    requires i < |es|
  {
    es[i := Entry(es[i].id, l)]
  }

  ghost predicate SameIds(a: seq<Entry>, b: seq<Entry>) {
    |a| == |b| && forall i :: 0 <= i < |a| ==> a[i].id == b[i].id
  }

  lemma SameIndex(a: seq<Entry>, b: seq<Entry>, g: Group)
    requires |a| <= |b| && (forall i :: 0 <= i < |a| ==> a[i].id == b[i].id) && Has(a, g)
    ensures IndexOf(b, g) == IndexOf(a, g)
  {
    IndexUnique(b, g, IndexOf(a, g));
  }

  lemma WithBlocks(es: seq<Entry>, g: Group, l: seq<Block>, h: Group)
    requires Has(es, g)
    ensures var ds := With(es, IndexOf(es, g), l);
      SameIds(es, ds) && Blocks(ds, h) == (if h == g then l else Blocks(es, h))
    ensures DistinctIds(es) ==> DistinctIds(With(es, IndexOf(es, g), l))
  {
    var ds := With(es, IndexOf(es, g), l);
    if Has(es, h) { SameIndex(es, ds, h); }
    if Has(ds, h) { SameIndex(ds, es, h); }
  }

  lemma AppendBlocks(es: seq<Entry>, g: Group, l: seq<Block>, h: Group)
    requires !Has(es, g)
    ensures Blocks(es + [Entry(g, l)], h) == (if h == g then l else Blocks(es, h))
    ensures Has(es + [Entry(g, l)], h) <==> Has(es, h) || h == g
    ensures DistinctIds(es) ==> DistinctIds(es + [Entry(g, l)])
  {
    var ds := es + [Entry(g, l)];
    assert ds[|es|].id == g;
    if Has(es, h) { SameIndex(es, ds, h); }
    if h == g { IndexUnique(ds, g, |es|); }
  }

  lemma HasAt(es: seq<Entry>, i: nat)
    requires i < |es|
    ensures Has(es, es[i].id) && (DistinctIds(es) ==> IndexOf(es, es[i].id) == i)
  {
  }

  // ---- Labels --------------------------------------------------------------

  ghost function Begins(ms: seq<Marker>, g: Group): nat {
    if ms == [] then 0 else Begins(ms[..|ms| - 1], g) + (if ms[|ms| - 1] == Begin(g) then 1 else 0)
  }

  ghost function Ends(ms: seq<Marker>, g: Group): nat {
    if ms == [] then 0 else Ends(ms[..|ms| - 1], g) + (if ms[|ms| - 1] == End(g) then 1 else 0)
  }

  ghost function Minus(a: nat, b: nat): nat {
    if a < b then 0 else a - b
  }

  /** How often region `g` is open while block `b` runs, if it is open `open(b, g)` times on entry. */
  ghost function Inside(f: Func, open: (Block, Group) -> nat, b: Block, g: Group): nat
    requires b in f.marks
  {
    open(b, g) + Begins(f.marks[b], g)
  }

  /** The depths agree along every edge: regions are properly placed in the control flow. */
  ghost predicate Labels(f: Func, open: (Block, Group) -> nat)
    requires WellFormed(f)
  {
    && (forall g :: open(f.entry, g) == 0)
    && (forall b, c, g :: b in f.blocks && c in f.succ[b] ==>
          open(c, g) == Minus(Inside(f, open, b, g), Ends(f.marks[b], g)))
  }

  /** The stack holds, for each group, as many open markers as its depth on entry to `b`. */
  ghost predicate Carries(open: (Block, Group) -> nat, stack: seq<Entry>, b: Block) {
    DistinctIds(stack) && forall g :: |Blocks(stack, g)| == open(b, g)
  }

  /** Every group of `a` is in `b`. */
  ghost predicate Listed(a: seq<Entry>, b: seq<Entry>) {
    forall g :: Has(a, g) ==> Has(b, g)
  }

  lemma ListedVia(a: seq<Entry>, b: seq<Entry>, c: seq<Entry>)
    ensures Listed(a, a) && (Listed(a, b) && Listed(b, c) ==> Listed(a, c))
  {
  }

  /** Each group's list holds exactly the visited blocks in which it is open, each once. */
  ghost predicate ListsRight(f: Func, open: (Block, Group) -> nat, groups: seq<Entry>, visited: set<Block>)
    requires f.marks.Keys == f.blocks
  {
    && DistinctIds(groups)
    && (forall g :: NoDup(Blocks(groups, g)))
    && (forall g, b :: b in Blocks(groups, g) <==> b in visited && b in f.blocks && 0 < Inside(f, open, b, g))
  }

  /** The marker at position `i` of block `b` closes an entry of its group. */
  ghost predicate Closes(f: Func, open: (Block, Group) -> nat, b: Block, i: nat)
    requires b in f.marks && i < |f.marks[b]|
  {
    f.marks[b][i].End? && Ends(f.marks[b][..i], f.marks[b][i].group) < Inside(f, open, b, f.marks[b][i].group)
  }

  /** End events stand exactly at the closing markers of visited blocks, with the id that the marker's
      group has as a region: `base` plus its position in the list of groups. */
  ghost predicate EndsRight(f: Func, open: (Block, Group) -> nat, groups: seq<Entry>, visited: set<Block>, base: nat,
                            ends: set<Closing>)
    requires f.marks.Keys == f.blocks
  {
    forall c :: c in ends <==>
      && c.block in visited && c.block in f.blocks && c.at < |f.marks[c.block]| && Closes(f, open, c.block, c.at)
      && c.region == base + IndexOf(groups, f.marks[c.block][c.at].group)
  }

  /** Every group open somewhere in the visited part has been given its place in the list. */
  ghost predicate Placed(f: Func, open: (Block, Group) -> nat, groups: seq<Entry>, visited: set<Block>)
    requires f.marks.Keys == f.blocks
  {
    forall b, g :: b in visited && b in f.blocks && 0 < Inside(f, open, b, g) ==> Has(groups, g)
  }

  /** The groups listed are those that some visited block begins: end markers list none. */
  ghost predicate Begun(f: Func, groups: seq<Entry>, visited: set<Block>)
    requires f.marks.Keys == f.blocks
  {
    forall g :: Has(groups, g) <==> Starts(f, visited, g)
  }

  ghost predicate Starts(f: Func, visited: set<Block>, g: Group)
    requires f.marks.Keys == f.blocks
  {
    exists b :: b in visited && b in f.blocks && Begins(f.marks[b], g) > 0
  }

  /** Every visited block has been reached through visited blocks only. */
  ghost predicate Traced(f: Func, visited: set<Block>) {
    forall x :: x in visited ==>
      f.entry in visited && exists p :: Path(f, f.entry, x, p) && forall z :: z in p ==> z in visited
  }

  /** `b` can be arrived at through visited blocks. */
  ghost predicate Near(f: Func, visited: set<Block>, b: Block) {
    b == f.entry || (exists c :: c in visited && c in f.succ && b in f.succ[c])
  }

  /** The function can arrive at `x` without having run `y`. */
  ghost predicate Without(f: Func, x: Block, y: Block) {
    y != f.entry && exists p :: Path(f, f.entry, x, p) && y !in p
  }

  /** No block of the list is followed by one that has to run before it. */
  ghost predicate InOrder(f: Func, l: seq<Block>) {
    forall i, j :: 0 <= i < j < |l| ==> Without(f, l[i], l[j])
  }

  ghost predicate ListsInOrder(f: Func, groups: seq<Entry>) {
    forall g :: InOrder(f, Blocks(groups, g))
  }

  // ---- The walk ------------------------------------------------------------

  class Finder {
    const f: Func
    const base: nat                              // PRList.size()
    ghost const open: (Block, Group) -> nat
    var visited: set<Block>                      // BasicBlocksVisited
    var groups: seq<Entry>                       // BasicBlockGroupList
    var ends: set<Closing>                       // end events inserted

    ghost predicate Valid()
      reads this
    {
      && WellFormed(f) && Labels(f, open) && visited <= f.blocks
      && ListsRight(f, open, groups, visited)
      && EndsRight(f, open, groups, visited, base, ends)
      && Placed(f, open, groups, visited) && Begun(f, groups, visited)
      && Traced(f, visited) && ListsInOrder(f, groups)
    }

    constructor (f: Func, base: nat, ghost open: (Block, Group) -> nat)
      requires WellFormed(f) && Labels(f, open)
      ensures Valid() && this.f == f && this.base == base && this.open == open
      ensures visited == {} && groups == [] && ends == {}
    {
      this.f, this.base, this.open := f, base, open;
      visited, groups, ends := {}, [], {};
    }

    /** First loop: begin markers open their group, listing it when it is met for the first time. */
    method OpenMarkers(b: Block, stack: seq<Entry>) returns (st: seq<Entry>)
      requires WellFormed(f) && b in f.blocks && DistinctIds(groups) && DistinctIds(stack)
      requires forall g :: Has(stack, g) ==> Has(groups, g)
      modifies this`groups
      ensures DistinctIds(groups) && DistinctIds(st) && forall g :: Has(st, g) ==> Has(groups, g)
      ensures forall g :: |Blocks(st, g)| == |Blocks(stack, g)| + Begins(f.marks[b], g)
      ensures forall g :: Blocks(groups, g) == old(Blocks(groups, g))
      ensures forall g :: Has(groups, g) <==> old(Has(groups, g)) || Begins(f.marks[b], g) > 0
      ensures |old(groups)| <= |groups| && forall i :: 0 <= i < |old(groups)| ==> groups[i] == old(groups)[i]
    {
      st := stack;
      var n := 0;
      var ms := f.marks[b];
      hide Has, Blocks, DistinctIds;
      assert Opened(groups, groups, stack, stack, ms[..0]);
      while n < |ms|
        invariant 0 <= n <= |ms| && DistinctIds(groups) && DistinctIds(st)
        invariant Opened(old(groups), groups, stack, st, ms[..n])
      {
        ghost var gs, s := groups, st;
        if ms[n].Begin? {
          st := OpenOne(b, st, ms[n].group);
        }
        OpenedStep(old(groups), gs, groups, stack, s, st, ms, n);
        n := n + 1;
      }
      assert ms[..n] == ms;
    }

    method OpenOne(b: Block, stack: seq<Entry>, k: Group) returns (st: seq<Entry>)
      requires DistinctIds(groups) && DistinctIds(stack)
      requires forall g :: Has(stack, g) ==> Has(groups, g)
      modifies this`groups
      ensures DistinctIds(groups) && DistinctIds(st) && Opened(old(groups), groups, stack, st, [Begin(k)])
    {
      BeginsOne(Begin(k));
      var i := Find(groups, k);
      if i == |groups| {
        AppendAll(groups, k, []);
        AppendAll(stack, k, [b]);
        groups := groups + [Entry(k, [])];
        st := stack + [Entry(k, [b])];
      } else {
        var j := Find(stack, k);
        if j == |stack| {
          AppendAll(stack, k, [b]);
          st := stack + [Entry(k, [b])];
        } else {
          WithAll(stack, k, stack[j].blocks + [b]);
          st := With(stack, j, stack[j].blocks + [b]);
        }
      }
    }

    /** Second loop: the block joins the list of every group that is open. */
    method AddToOpen(b: Block, st: seq<Entry>)
      requires DistinctIds(groups) && DistinctIds(st) && forall g :: Has(st, g) ==> Has(groups, g)
      modifies this`groups
      ensures DistinctIds(groups) && SameIds(old(groups), groups)
      ensures forall g :: Has(groups, g) <==> old(Has(groups, g))
      ensures forall g :: Blocks(groups, g) == old(Blocks(groups, g)) + (if Blocks(st, g) != [] then [b] else [])
    {
      hide Has, DistinctIds;
      NothingAdded(groups, st, b);
      var n := 0;
      while n < |st|
        invariant 0 <= n <= |st| && DistinctIds(groups) && SameIds(old(groups), groups)
        invariant forall g :: Has(groups, g) <==> old(Has(groups, g))
        invariant AddedSoFar(old(groups), groups, st, n, b)
      {
        HasAt(st, n);
        AddStep(old(groups), groups, st, n, b);
        if st[n].blocks != [] {
          var i := Find(groups, st[n].id);
          groups := With(groups, i, groups[i].blocks + [b]);
        }
        n := n + 1;
      }
      AddedAll(old(groups), groups, st, b);
    }

    /** Third loop: end markers of open groups close their latest entry, and get an end event. */
    method CloseMarkers(b: Block, stack: seq<Entry>) returns (st: seq<Entry>)
      requires WellFormed(f) && b in f.blocks && DistinctIds(stack)
      requires forall g :: |Blocks(stack, g)| == Inside(f, open, b, g)
      modifies this`ends
      ensures DistinctIds(st) && SameGroups(stack, st)
      ensures forall g :: |Blocks(st, g)| == Minus(Inside(f, open, b, g), Ends(f.marks[b], g))
      ensures forall c :: c in ends <==> c in old(ends) || ClosedIn(f, open, groups, base, b, |f.marks[b]|, c)
    {
      var ms := f.marks[b];
      assert ms[..|ms|] == ms;
      SameGroupsVia(stack, stack, stack);
      ClosedStart(f, open, groups, base, b, stack, ends);
      hide WellFormed, DistinctIds, ClosedSoFar, DepthsSoFar, ClosedIn, Inside, Ends, SameGroups, Minus;
      st := stack;
      var n := 0;
      while n < |ms|
        invariant 0 <= n <= |ms| && DistinctIds(st) && SameGroups(stack, st)
        invariant DepthsSoFar(f, open, b, st, n) && ClosedSoFar(f, open, groups, base, b, old(ends), ends, n)
      {
        st := CloseAt(b, n, st, stack, old(ends));
        n := n + 1;
      }
      ClosedEnd(f, open, groups, base, b, st, old(ends), ends);
    }

    /** The marker at position `n`. */
    method CloseAt(b: Block, n: nat, stack: seq<Entry>, ghost start: seq<Entry>, ghost was: set<Closing>)
      returns (st: seq<Entry>)
      requires b in f.marks && n < |f.marks[b]| && DistinctIds(stack) && SameGroups(start, stack)
      requires DepthsSoFar(f, open, b, stack, n) && ClosedSoFar(f, open, groups, base, b, was, ends, n)
      modifies this`ends
      ensures DistinctIds(st) && SameGroups(start, st)
      ensures DepthsSoFar(f, open, b, st, n + 1) && ClosedSoFar(f, open, groups, base, b, was, ends, n + 1)
    {
      hide DistinctIds, ClosedSoFar, DepthsSoFar, SameGroups;
      st := stack;
      if f.marks[b][n].End? {
        st := CloseOne(b, n, stack);
        SameGroupsVia(start, stack, st);
      }
      DepthsStep(f, open, b, stack, st, n);
      ClosedStep(f, open, groups, base, b, stack, was, old(ends), ends, n);
    }

    /** One end marker: inserts the end event and pops, if the group is open; otherwise does nothing. */
    method CloseOne(b: Block, n: nat, stack: seq<Entry>) returns (st: seq<Entry>)
      requires b in f.marks && n < |f.marks[b]| && f.marks[b][n].End? && DistinctIds(stack)
      modifies this`ends
      ensures DistinctIds(st) && SameGroups(stack, st)
      ensures forall g :: |Blocks(st, g)| == Minus(|Blocks(stack, g)|, if g == f.marks[b][n].group then 1 else 0)
      ensures ends == if Blocks(stack, f.marks[b][n].group) != []
        then old(ends) + {Closing(b, n, base + IndexOf(groups, f.marks[b][n].group))} else old(ends)
    {
      hide DistinctIds;
      st := stack;
      var g := f.marks[b][n].group;
      var i := Find(st, g);
      if i < |st| && st[i].blocks != [] {
        var at := Find(groups, g);
        ends := ends + {Closing(b, n, base + at)};
        WithAll(st, g, st[i].blocks[..|st[i].blocks| - 1]);
        st := With(st, i, st[i].blocks[..|st[i].blocks| - 1]);
      }
    }

    /** The work on one block before its successors. */
    method Visit(b: Block, stack: seq<Entry>) returns (st: seq<Entry>)
      requires Valid() && b in f.blocks && b !in visited && Near(f, visited, b)
      requires Carries(open, stack, b) && Listed(stack, groups)
      modifies this`visited, this`groups, this`ends
      ensures Valid() && visited == old(visited) + {b}
      ensures Listed(old(groups), groups)
      ensures Listed(st, groups) && b in f.succ
      ensures forall c :: c in f.succ[b] ==> Carries(open, st, c) && c in f.blocks
    {
      hide Placed, Begun, DistinctIds, ClosedIn, Traced, ListsInOrder, Near;
      ghost var vs, gs, es := visited, groups, ends;
      visited := visited + {b};
      st := OpenMarkers(b, stack);
      OpenGroups(f, open, b, stack, st);
      ghost var mid := groups;
      AddToOpen(b, st);
      ghost var now := st;
      st := CloseMarkers(b, st);
      KeepIds(gs, mid, groups);
      OpenHas(f, open, b, now, groups);
      ListsStep(f, open, vs, gs, groups, b);
      EndsStep(f, open, base, vs, gs, es, groups, ends, b);
      PlacedStep(f, open, vs, gs, groups, b);
      BegunStep(f, vs, gs, groups, b);
      TracedStep(f, vs, b);
      InOrderStep(f, open, vs, gs, groups, b);
    }

    /** Visits `b` and, through successors not visited yet, whatever can be reached from it. */
    method Record(b: Block, stack: seq<Entry>)
      requires Valid() && b in f.blocks && b !in visited && Near(f, visited, b)
      requires Carries(open, stack, b) && Listed(stack, groups)
      modifies this`visited, this`groups, this`ends
      ensures Valid() && b in visited && old(visited) <= visited
      ensures Listed(old(groups), groups)
      ensures Spreads(f, b, old(visited), visited) && Explored(f, visited, b)
      decreases Unseen(f, visited), 0
    {
      hide *;
      ghost var vs, gs := visited, groups;
      var st := Visit(b, stack);
      SpreadsStart(f, b, vs);
      FollowAll(b, st, vs, gs);
    }

    /** The successors of `b`, once `b` itself has been visited. */
    method FollowAll(b: Block, st: seq<Entry>, ghost vs: set<Block>, ghost gs: seq<Entry>)
      requires Valid() && b in visited && b in f.succ && vs <= visited
      requires forall c :: c in f.succ[b] ==> Carries(open, st, c) && c in f.blocks
      requires Listed(st, groups) && Listed(gs, groups) && Spreads(f, b, vs, visited)
      modifies this`visited, this`groups, this`ends
      ensures Valid() && old(visited) <= visited
      ensures Listed(gs, groups) && Spreads(f, b, vs, visited) && Explored(f, visited, b)
      decreases Unseen(f, visited), 2
    {
      hide *;
      var succs := f.succ[b];
      var n := 0;
      while n < |succs|
        invariant 0 <= n <= |succs| && Valid() && old(visited) <= visited
        invariant Unseen(f, visited) <= old(Unseen(f, visited))
        invariant Listed(st, groups) && Listed(gs, groups) && Spreads(f, b, vs, visited)
        invariant forall i :: 0 <= i < n ==> succs[i] in visited
      {
        assert succs[n] in f.succ[b];
        Follow(b, succs[n], st, vs, gs);
        n := n + 1;
      }
      ExploredNow(f, visited, b);
    }

    /** One successor `c` of `b`. */
    method Follow(b: Block, c: Block, st: seq<Entry>, ghost vs: set<Block>, ghost gs: seq<Entry>)
      requires Valid() && b in visited && b in f.succ && c in f.succ[b] && c in f.blocks && vs <= visited
      requires Carries(open, st, c) && Listed(st, groups) && Listed(gs, groups) && Spreads(f, b, vs, visited)
      modifies this`visited, this`groups, this`ends
      ensures Valid() && old(visited) <= visited && c in visited && Unseen(f, visited) <= old(Unseen(f, visited))
      ensures Listed(st, groups) && Listed(gs, groups) && Spreads(f, b, vs, visited)
      decreases Unseen(f, visited), 1
    {
      hide ListsRight, EndsRight, Placed, Begun, Labels, WellFormed, Spreads, Explored, Listed, Carries, Unseen, Traced,
        ListsInOrder, Near;
      if c !in visited {
        ghost var ws, mid := visited, groups;
        NearNext(f, visited, b, c);
        Record(c, st);
        ListedVia(gs, mid, groups);
        ListedVia(st, mid, groups);
        SpreadsStep(f, b, c, vs, ws, visited);
      }
    }

    /** Finds the regions of the function. */
    method RecordPragmaRegions()
      requires Valid() && visited == {} && groups == [] && ends == {}
      modifies this`visited, this`groups, this`ends
      ensures forall x :: x in visited <==> Reaches(f, f.entry, x)
      ensures ListsRight(f, open, groups, visited) && EndsRight(f, open, groups, visited, base, ends)
      ensures ListsInOrder(f, groups) && Begun(f, groups, visited)
    {
      assert Near(f, visited, f.entry);
      Record(f.entry, []);
      SpreadsAll(f, f.entry, visited);
      forall x | Reaches(f, f.entry, x) ensures x in visited {
        var p :| Path(f, f.entry, x, p);
        ClosedUnderPaths(f, visited, f.entry, x, p);
      }
    }
  }

  // ---- Reachability --------------------------------------------------------

  ghost predicate Path(f: Func, a: Block, z: Block, p: seq<Block>)
    decreases |p|
  {
    if p == [] then a == z && a in f.succ
    else a in f.succ && p[0] in f.succ[a] && Path(f, p[0], z, p[1..])
  }

  ghost predicate Reaches(f: Func, a: Block, z: Block) {
    exists p :: Path(f, a, z, p)
  }

  ghost predicate Explored(f: Func, visited: set<Block>, x: Block) {
    x in f.succ && forall c :: c in f.succ[x] ==> c in visited
  }

  lemma ReachesSelf(f: Func, a: Block)
    requires a in f.succ
    ensures Reaches(f, a, a)
  {
    assert Path(f, a, a, []);
  }

  lemma ReachesVia(f: Func, a: Block, c: Block, z: Block)
    requires a in f.succ && c in f.succ[a] && Reaches(f, c, z)
    ensures Reaches(f, a, z)
  {
    var p :| Path(f, c, z, p);
    assert ([c] + p)[1..] == p;
    assert Path(f, a, z, [c] + p);
  }

  /** What a visit of `b` adds to the visited blocks: blocks reachable from it, all but `b` itself with
      their successors. */
  ghost predicate Spreads(f: Func, b: Block, vs: set<Block>, us: set<Block>) {
    forall x :: x in us && x !in vs ==> Reaches(f, b, x) && (x != b ==> Explored(f, us, x))
  }

  lemma SpreadsStart(f: Func, b: Block, vs: set<Block>)
    requires b in f.blocks && b !in vs && b in f.succ
    ensures Spreads(f, b, vs, vs + {b}) && Unseen(f, vs + {b}) < Unseen(f, vs)
  {
    ReachesSelf(f, b);
    SubsetSize(f.blocks - (vs + {b}) + {b}, f.blocks - vs);
  }

  lemma SpreadsStep(f: Func, b: Block, c: Block, vs: set<Block>, ws: set<Block>, us: set<Block>)
    requires b in f.succ && c in f.succ[b] && vs <= ws <= us && b in ws
    requires Spreads(f, b, vs, ws) && Spreads(f, c, ws, us) && Explored(f, us, c)
    ensures Spreads(f, b, vs, us) && Unseen(f, us) <= Unseen(f, ws)
  {
    forall x | x in us && x !in vs ensures Reaches(f, b, x) && (x != b ==> Explored(f, us, x)) {
      if x in ws {
        assert x != b ==> Explored(f, ws, x);
      } else {
        ReachesVia(f, b, c, x);
      }
    }
    SubsetSize(f.blocks - us, f.blocks - ws);
  }

  lemma SpreadsAll(f: Func, b: Block, us: set<Block>)
    requires Spreads(f, b, {}, us) && Explored(f, us, b)
    ensures forall x :: x in us ==> Reaches(f, b, x) && Explored(f, us, x)
  {
  }

  lemma ExploredNow(f: Func, us: set<Block>, b: Block)
    requires b in f.succ && forall i :: 0 <= i < |f.succ[b]| ==> f.succ[b][i] in us
    ensures Explored(f, us, b)
  {
  }

  ghost function Unseen(f: Func, visited: set<Block>): nat {
    |f.blocks - visited|
  }

  lemma {:induction false} ClosedUnderPaths(f: Func, visited: set<Block>, a: Block, z: Block, p: seq<Block>)
    requires a in visited && (forall x :: x in visited ==> Explored(f, visited, x)) && Path(f, a, z, p)
    ensures z in visited
    decreases |p|
  {
    if p != [] {
      assert Explored(f, visited, a);
      ClosedUnderPaths(f, visited, p[0], z, p[1..]);
    }
  }

  // ---- One visit -----------------------------------------------------------

  ghost predicate SameGroups(a: seq<Entry>, b: seq<Entry>) {
    forall g :: Has(b, g) <==> Has(a, g)
  }

  lemma SameGroupsVia(a: seq<Entry>, b: seq<Entry>, c: seq<Entry>)
    ensures SameGroups(a, a) && (SameGroups(a, b) && SameGroups(b, c) ==> SameGroups(a, c))
  {
  }

  lemma BeginsNext(ms: seq<Marker>, n: nat)
    requires n < |ms|
    ensures forall g :: Begins(ms[..n + 1], g) == Begins(ms[..n], g) + (if ms[n] == Begin(g) then 1 else 0)
  {
    assert ms[..n + 1][..n] == ms[..n];
  }

  /** What has become of the list of groups and of the stack after these markers. */
  ghost predicate Opened(was: seq<Entry>, groups: seq<Entry>, stack: seq<Entry>, st: seq<Entry>, ms: seq<Marker>) {
    && (forall g :: Has(st, g) ==> Has(groups, g))
    && (forall g :: |Blocks(st, g)| == |Blocks(stack, g)| + Begins(ms, g))
    && (forall g :: Blocks(groups, g) == Blocks(was, g))
    && (forall g :: Has(groups, g) <==> Has(was, g) || Begins(ms, g) > 0)
    && |was| <= |groups| && forall i :: 0 <= i < |was| ==> groups[i] == was[i]
  }

  lemma OpenedStep(was: seq<Entry>, gs: seq<Entry>, groups: seq<Entry>, stack: seq<Entry>, s: seq<Entry>,
                   st: seq<Entry>, ms: seq<Marker>, n: nat)
    requires n < |ms| && Opened(was, gs, stack, s, ms[..n])
    requires if ms[n].Begin? then Opened(gs, groups, s, st, [ms[n]]) else groups == gs && st == s
    ensures Opened(was, groups, stack, st, ms[..n + 1])
  {
    hide Has, Blocks, DistinctIds;
    BeginsNext(ms, n);
    BeginsOne(ms[n]);
  }

  lemma BeginsOne(m: Marker)
    ensures forall g :: Begins([m], g) == if m == Begin(g) then 1 else 0
  {
    assert [m][..0] == [];
  }

  lemma EndsNext(ms: seq<Marker>, n: nat)
    requires n < |ms|
    ensures forall g :: Ends(ms[..n + 1], g) == Ends(ms[..n], g) + (if ms[n] == End(g) then 1 else 0)
  {
    assert ms[..n + 1][..n] == ms[..n];
  }

  /** An end event for one of the first `n` markers of `b`. */
  ghost predicate ClosedIn(f: Func, open: (Block, Group) -> nat, groups: seq<Entry>, base: nat, b: Block, n: nat,
                           c: Closing)
    requires b in f.marks && n <= |f.marks[b]|
  {
    && c.block == b && c.at < n && Closes(f, open, b, c.at)
    && c.region == base + IndexOf(groups, f.marks[b][c.at].group)
  }

  /** The depths on the stack after the first `n` markers of `b` have been dealt with. */
  ghost predicate DepthsSoFar(f: Func, open: (Block, Group) -> nat, b: Block, st: seq<Entry>, n: nat)
    requires b in f.marks && n <= |f.marks[b]|
  {
    forall g :: |Blocks(st, g)| == Minus(Inside(f, open, b, g), Ends(f.marks[b][..n], g))
  }

  /** The end events after the first `n` markers of `b` have been dealt with. */
  ghost predicate ClosedSoFar(f: Func, open: (Block, Group) -> nat, groups: seq<Entry>, base: nat, b: Block,
                              was: set<Closing>, ends: set<Closing>, n: nat)
    requires b in f.marks && n <= |f.marks[b]|
  {
    forall c :: c in ends <==> c in was || ClosedIn(f, open, groups, base, b, n, c)
  }

  lemma ClosedStart(f: Func, open: (Block, Group) -> nat, groups: seq<Entry>, base: nat, b: Block, st: seq<Entry>,
                    ends: set<Closing>)
    requires b in f.marks && forall g :: |Blocks(st, g)| == Inside(f, open, b, g)
    ensures DepthsSoFar(f, open, b, st, 0) && ClosedSoFar(f, open, groups, base, b, ends, ends, 0)
  {
  }

  lemma DepthsStep(f: Func, open: (Block, Group) -> nat, b: Block, was: seq<Entry>, st: seq<Entry>, n: nat)
    requires b in f.marks && n < |f.marks[b]| && DepthsSoFar(f, open, b, was, n)
    requires forall g :: |Blocks(st, g)| == Minus(|Blocks(was, g)|, if f.marks[b][n] == End(g) then 1 else 0)
    ensures DepthsSoFar(f, open, b, st, n + 1)
  {
    hide Blocks, Inside;
    EndsNext(f.marks[b], n);
  }

  lemma ClosedStep(f: Func, open: (Block, Group) -> nat, groups: seq<Entry>, base: nat, b: Block, st: seq<Entry>,
                   was: set<Closing>, e: set<Closing>, ends: set<Closing>, n: nat)
    requires b in f.marks && n < |f.marks[b]| && DepthsSoFar(f, open, b, st, n)
    requires ClosedSoFar(f, open, groups, base, b, was, e, n)
    requires var m := f.marks[b][n];
      ends == if m.End? && Blocks(st, m.group) != [] then e + {Closing(b, n, base + IndexOf(groups, m.group))} else e
    ensures ClosedSoFar(f, open, groups, base, b, was, ends, n + 1)
  {
    var g := f.marks[b][n].group;
    assert |Blocks(st, g)| == Minus(Inside(f, open, b, g), Ends(f.marks[b][..n], g));
    assert Closes(f, open, b, n) <==> f.marks[b][n].End? && Blocks(st, g) != [];
    hide Closes, Blocks, DepthsSoFar;
  }

  lemma ClosedEnd(f: Func, open: (Block, Group) -> nat, groups: seq<Entry>, base: nat, b: Block, st: seq<Entry>,
                  was: set<Closing>, ends: set<Closing>)
    requires b in f.marks && DepthsSoFar(f, open, b, st, |f.marks[b]|)
    requires ClosedSoFar(f, open, groups, base, b, was, ends, |f.marks[b]|)
    ensures forall g :: |Blocks(st, g)| == Minus(Inside(f, open, b, g), Ends(f.marks[b], g))
    ensures forall c :: c in ends <==> c in was || ClosedIn(f, open, groups, base, b, |f.marks[b]|, c)
  {
    assert f.marks[b][..|f.marks[b]|] == f.marks[b];
  }

  /** The lists after the first `n` stack entries have been dealt with. */
  ghost predicate AddedSoFar(was: seq<Entry>, groups: seq<Entry>, st: seq<Entry>, n: nat, b: Block) {
    forall g :: Blocks(groups, g) == Blocks(was, g) + (if IndexOf(st, g) < n && Blocks(st, g) != [] then [b] else [])
  }

  lemma NothingAdded(groups: seq<Entry>, st: seq<Entry>, b: Block)
    ensures AddedSoFar(groups, groups, st, 0, b)
  {
  }

  lemma AddStep(was: seq<Entry>, groups: seq<Entry>, st: seq<Entry>, n: nat, b: Block)
    requires n < |st| && DistinctIds(st) && DistinctIds(groups) && SameIds(was, groups) && Has(groups, st[n].id)
    requires AddedSoFar(was, groups, st, n, b)
    ensures IndexOf(groups, st[n].id) < |groups|
    ensures var i := IndexOf(groups, st[n].id);
      var ds := if st[n].blocks != [] then With(groups, i, groups[i].blocks + [b]) else groups;
      && DistinctIds(ds) && SameIds(was, ds) && AddedSoFar(was, ds, st, n + 1, b)
      && forall g :: Has(ds, g) <==> Has(groups, g)
  {
    var k := st[n].id;
    HasAt(st, n);
    var l := groups[IndexOf(groups, k)].blocks + [b];
    WithAll(groups, k, l);
    var ds := if st[n].blocks != [] then With(groups, IndexOf(groups, k), l) else groups;
    forall g
      ensures Blocks(ds, g) == Blocks(was, g) + (if IndexOf(st, g) < n + 1 && Blocks(st, g) != [] then [b] else [])
    {
      AddAt(Blocks(was, g), Blocks(groups, g), IndexOf(st, g) < n && Blocks(st, g) != [],
            g == k && st[n].blocks != [], b);
    }
  }

  lemma AddAt(w: seq<Block>, x: seq<Block>, p: bool, q: bool, b: Block)
    requires x == w + (if p then [b] else []) && !(p && q)
    ensures (if q then x + [b] else x) == w + (if p || q then [b] else [])
  {
    assert w + [] == w;
  }

  lemma AddedAll(was: seq<Entry>, groups: seq<Entry>, st: seq<Entry>, b: Block)
    requires AddedSoFar(was, groups, st, |st|, b)
    ensures forall g :: Blocks(groups, g) == Blocks(was, g) + (if Blocks(st, g) != [] then [b] else [])
  {
  }

  lemma OpenGroups(f: Func, open: (Block, Group) -> nat, b: Block, stack: seq<Entry>, st: seq<Entry>)
    requires b in f.marks && forall g :: |Blocks(stack, g)| == open(b, g)
    requires forall g :: |Blocks(st, g)| == |Blocks(stack, g)| + Begins(f.marks[b], g)
    ensures forall g :: |Blocks(st, g)| == Inside(f, open, b, g)
  {
  }

  lemma OpenHas(f: Func, open: (Block, Group) -> nat, b: Block, st: seq<Entry>, groups: seq<Entry>)
    requires b in f.marks && forall g :: |Blocks(st, g)| == Inside(f, open, b, g)
    requires forall g :: Has(st, g) ==> Has(groups, g)
    ensures forall g :: 0 < Inside(f, open, b, g) ==> Has(groups, g)
  {
  }

  lemma KeepIds(gs: seq<Entry>, mid: seq<Entry>, groups: seq<Entry>)
    requires |gs| <= |mid| && (forall i :: 0 <= i < |gs| ==> mid[i] == gs[i]) && SameIds(mid, groups)
    ensures forall g :: Has(gs, g) ==> Has(groups, g) && IndexOf(groups, g) == IndexOf(gs, g)
  {
    forall g | Has(gs, g) ensures Has(groups, g) && IndexOf(groups, g) == IndexOf(gs, g) {
      SameIndex(gs, groups, g);
    }
  }

  /** After the three loops for `b`, the lists, end events and group positions are right for one more
      visited block. */
  lemma ListsStep(f: Func, open: (Block, Group) -> nat, vs: set<Block>, gs: seq<Entry>, groups: seq<Entry>, b: Block)
    requires f.marks.Keys == f.blocks && b in f.blocks && b !in vs && ListsRight(f, open, gs, vs) && DistinctIds(groups)
    requires forall g :: Blocks(groups, g) == Blocks(gs, g) + (if 0 < Inside(f, open, b, g) then [b] else [])
    ensures ListsRight(f, open, groups, vs + {b})
  {
    forall g ensures NoDup(Blocks(groups, g)) {
      assert NoDup(Blocks(gs, g)) && b !in Blocks(gs, g);
    }
  }

  lemma EndsStep(f: Func, open: (Block, Group) -> nat, base: nat, vs: set<Block>, gs: seq<Entry>, es: set<Closing>,
                 groups: seq<Entry>, ends: set<Closing>, b: Block)
    requires f.marks.Keys == f.blocks && b in f.blocks && b !in vs
    requires EndsRight(f, open, gs, vs, base, es) && Placed(f, open, gs, vs)
    requires forall g :: Has(gs, g) ==> IndexOf(groups, g) == IndexOf(gs, g)
    requires forall c :: c in ends <==> c in es || ClosedIn(f, open, groups, base, b, |f.marks[b]|, c)
    ensures EndsRight(f, open, groups, vs + {b}, base, ends)
  {
    forall c: Closing |
      c.block in vs && c.block in f.blocks && c.at < |f.marks[c.block]| && Closes(f, open, c.block, c.at)
      ensures IndexOf(groups, f.marks[c.block][c.at].group) == IndexOf(gs, f.marks[c.block][c.at].group)
    {
      assert Has(gs, f.marks[c.block][c.at].group);
    }
  }

  lemma {:induction false} PathSnoc(f: Func, a: Block, z: Block, p: seq<Block>, c: Block)
    requires Path(f, a, z, p) && c in f.succ && z in f.succ && c in f.succ[z]
    ensures Path(f, a, c, p + [c])
    decreases |p|
  {
    if p == [] {
      assert [c][1..] == [] && [] + [c] == [c];
    } else {
      PathSnoc(f, p[0], z, p[1..], c);
      assert (p + [c])[1..] == p[1..] + [c];
    }
  }

  lemma NearNext(f: Func, visited: set<Block>, b: Block, c: Block)
    requires b in visited && b in f.succ && c in f.succ[b]
    ensures Near(f, visited, c)
  {
  }

  lemma TracedStep(f: Func, vs: set<Block>, b: Block)
    requires WellFormed(f) && Traced(f, vs) && Near(f, vs, b) && b in f.blocks
    ensures Traced(f, vs + {b})
  {
    var us := vs + {b};
    if b == f.entry {
      assert Path(f, f.entry, b, []);
    } else {
      var c :| c in vs && c in f.succ && b in f.succ[c];
      var p :| Path(f, f.entry, c, p) && forall z :: z in p ==> z in vs;
      PathSnoc(f, f.entry, c, p, b);
    }
    forall x | x in us
      ensures f.entry in us && exists p :: Path(f, f.entry, x, p) && forall z :: z in p ==> z in us
    {
      if x in vs {
        var p :| Path(f, f.entry, x, p) && forall z :: z in p ==> z in vs;
      }
    }
  }

  /** A block joins lists of blocks that have all been arrived at without it. */
  lemma InOrderStep(f: Func, open: (Block, Group) -> nat, vs: set<Block>, gs: seq<Entry>, groups: seq<Entry>, b: Block)
    requires f.marks.Keys == f.blocks && b in f.blocks && b !in vs
    requires Traced(f, vs) && ListsRight(f, open, gs, vs) && ListsInOrder(f, gs)
    requires forall g :: Blocks(groups, g) == Blocks(gs, g) + (if 0 < Inside(f, open, b, g) then [b] else [])
    ensures ListsInOrder(f, groups)
  {
    WithoutUnseen(f, vs, b);
    forall g ensures InOrder(f, Blocks(groups, g)) {
      assert InOrder(f, Blocks(gs, g)) && forall x :: x in Blocks(gs, g) ==> x in vs;
      hide Blocks, ListsRight, ListsInOrder, InOrder, Without, Inside, Traced;
      InOrderAppend(f, Blocks(gs, g), vs, b);
      assert Blocks(gs, g) + [] == Blocks(gs, g);
    }
  }

  lemma WithoutUnseen(f: Func, vs: set<Block>, b: Block)
    requires Traced(f, vs) && b !in vs
    ensures forall x :: x in vs ==> Without(f, x, b)
  {
    forall x | x in vs ensures Without(f, x, b) {
      var p :| Path(f, f.entry, x, p) && forall z :: z in p ==> z in vs;
    }
  }

  lemma InOrderAppend(f: Func, l: seq<Block>, vs: set<Block>, b: Block)
    requires InOrder(f, l) && (forall x :: x in l ==> x in vs) && forall x :: x in vs ==> Without(f, x, b)
    ensures InOrder(f, l + [b])
  {
    hide Without;
    var m := l + [b];
    forall i, j | 0 <= i < j < |m| ensures Without(f, m[i], m[j]) {
      assert m[i] == l[i] && l[i] in l;
    }
  }

  lemma PlacedStep(f: Func, open: (Block, Group) -> nat, vs: set<Block>, gs: seq<Entry>, groups: seq<Entry>, b: Block)
    requires f.marks.Keys == f.blocks && Placed(f, open, gs, vs)
    requires forall g :: Has(gs, g) ==> Has(groups, g)
    requires b in f.blocks && forall g :: 0 < Inside(f, open, b, g) ==> Has(groups, g)
    ensures Placed(f, open, groups, vs + {b})
  {
  }

  lemma BegunStep(f: Func, vs: set<Block>, gs: seq<Entry>, groups: seq<Entry>, b: Block)
    requires f.marks.Keys == f.blocks && Begun(f, gs, vs) && b in f.blocks
    requires forall g :: Has(groups, g) <==> Has(gs, g) || Begins(f.marks[b], g) > 0
    ensures Begun(f, groups, vs + {b})
  {
    forall g ensures Has(groups, g) <==> Starts(f, vs + {b}, g) {
      assert Has(gs, g) <==> Starts(f, vs, g);
      if Begins(f.marks[b], g) > 0 { assert b in vs + {b}; }
    }
  }

  lemma AppendAll(es: seq<Entry>, k: Group, l: seq<Block>)
    requires !Has(es, k)
    ensures var ds := es + [Entry(k, l)];
      && (DistinctIds(es) ==> DistinctIds(ds))
      && (forall g :: Has(ds, g) <==> Has(es, g) || g == k)
      && (forall g :: Blocks(ds, g) == (if g == k then l else Blocks(es, g)))
  {
    forall g ensures Has(es + [Entry(k, l)], g) <==> Has(es, g) || g == k { AppendBlocks(es, k, l, g); }
    forall g ensures Blocks(es + [Entry(k, l)], g) == (if g == k then l else Blocks(es, g)) {
      AppendBlocks(es, k, l, g);
    }
    AppendBlocks(es, k, l, k);
  }

  lemma WithAll(es: seq<Entry>, k: Group, l: seq<Block>)
    requires Has(es, k)
    ensures var ds := With(es, IndexOf(es, k), l);
      && (DistinctIds(es) ==> DistinctIds(ds)) && SameIds(es, ds)
      && (forall g :: Has(ds, g) <==> Has(es, g))
      && (forall g :: Blocks(ds, g) == (if g == k then l else Blocks(es, g)))
  {
    var ds := With(es, IndexOf(es, k), l);
    forall g ensures Has(ds, g) <==> Has(es, g) { WithHas(es, k, l, g); }
    forall g ensures Blocks(ds, g) == (if g == k then l else Blocks(es, g)) { WithBlocks(es, k, l, g); }
    WithBlocks(es, k, l, k);
  }

  lemma WithHas(es: seq<Entry>, g: Group, l: seq<Block>, h: Group)
    requires Has(es, g)
    ensures Has(With(es, IndexOf(es, g), l), h) <==> Has(es, h)
  {
    var ds := With(es, IndexOf(es, g), l);
    if Has(es, h) { SameIndex(es, ds, h); }
    if Has(ds, h) { SameIndex(ds, es, h); }
  }
}
