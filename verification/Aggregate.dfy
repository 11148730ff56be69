/** Offline aggregation of counters and recorded mixes into region profiles, and its agreement with
    accounting online, increment by increment. */
module Aggregate {
  import opened Runtime

  /** The fields of a profile that counters scale, and among them the two that also take the bytes
      moved by intrinsics at run time. */
  const FIELDS: nat := 22
  const INTRINSIC_LOAD: nat := 18
  const INTRINSIC_STORE: nat := 19

  type Mix = m: seq<nat> | |m| == FIELDS witness seq<nat>(FIELDS, i => 0)

  datatype Profile = Profile(slot: nat, region: nat, group: nat, indirect: bool, mix: Mix, split: nat)
  datatype Record = Record(name: string, profile: Profile)

  /** The arrays of one thread when it ends. */
  datatype Tally = Tally(width: nat, counters: seq<nat>, loads: seq<nat>, stores: seq<nat>)

  function Zero(): Profile {
    Profile(0, 0, 0, false, seq<nat>(FIELDS, i => 0), 0)
  }

  /** `operator+`: sums, under the left operand's group and region. */
  function Plus(x: Profile, y: Profile): Profile {
    var sum := seq<nat>(FIELDS, i requires 0 <= i < FIELDS => x.mix[i] + y.mix[i]);
    Profile(0, x.region, x.group, false, sum, x.split + y.split)
  }

  function Scaled(a: nat, n: nat): nat {
    a * n
  }

  /** `ApplyCounter`: scales the mix by a counter. */
  function ApplyCounter(p: Profile, n: nat): Profile {
    var scaled := seq<nat>(FIELDS, i requires 0 <= i < FIELDS => Scaled(p.mix[i], n));
    p.(mix := scaled)
  }

  function WithRuntime(p: Profile, load: nat, store: nat): Profile {
    p.(mix := p.mix[INTRINSIC_LOAD := p.mix[INTRINSIC_LOAD] + load][INTRINSIC_STORE := p.mix[INTRINSIC_STORE] + store])
  }

  function Index(t: Tally, slot: nat, region: nat): nat {
    slot + t.width * region
  }

  ghost predicate Holds(t: Tally, regions: nat) {
    |t.counters| == |t.loads| == |t.stores| == t.width * regions
  }

  ghost predicate RecordsFit(log: seq<Record>, width: nat, regions: nat) {
    forall d :: d in log ==> d.profile.slot < width && (!d.profile.indirect ==> d.profile.region < regions)
  }

  lemma IndexFits(t: Tally, slot: nat, region: nat, regions: nat)
    requires slot < t.width && region < regions
    ensures Index(t, slot, region) < t.width * regions
  {
    assert t.width * regions == t.width * region + t.width + t.width * (regions - region - 1);
  }

  // ---- What the aggregation computes ----------------------------------------

  /** What one record contributes to field `f` of region `q`. */
  ghost function Term(t: Tally, p: Profile, q: nat, f: nat): nat
    requires f < FIELDS
  {
    var i := Index(t, p.slot, q);
    if i < |t.counters| && i < |t.loads| && i < |t.stores| then
      p.mix[f] * t.counters[i]
      + (if f == INTRINSIC_LOAD then t.loads[i] else 0)
      + (if f == INTRINSIC_STORE then t.stores[i] else 0)
    else 0
  }

  ghost predicate Selected(p: Profile, active: nat) {
    !p.indirect && (active == 0 || p.group == active)
  }

  /** The direct records of a region. */
  ghost function Direct(t: Tally, log: seq<Record>, active: nat, q: nat, f: nat): nat
    requires f < FIELDS
  {
    if log == [] then 0
    else
      var p := log[|log| - 1].profile;
      Direct(t, log[..|log| - 1], active, q, f)
      + (if Selected(p, active) && p.region == q then Term(t, p, q, f) else 0)
  }

  /** The records of cloned functions, which have a counter in every region's row. */
  ghost function Indirect(t: Tally, log: seq<Record>, q: nat, f: nat): nat
    requires f < FIELDS
  {
    if log == [] then 0
    else
      var p := log[|log| - 1].profile;
      Indirect(t, log[..|log| - 1], q, f) + (if p.indirect then Term(t, p, q, f) else 0)
  }

  /** The record whose function name and group a region's profile is left with. */
  ghost function LastDirect(log: seq<Record>, active: nat, q: nat): (k: int)
    ensures -1 <= k < |log|
    ensures 0 <= k ==> Selected(log[k].profile, active) && log[k].profile.region == q
    ensures forall j :: k < j < |log| ==> !(Selected(log[j].profile, active) && log[j].profile.region == q)
  {
    if log == [] then -1
    else if Selected(log[|log| - 1].profile, active) && log[|log| - 1].profile.region == q then |log| - 1
    else
      var k := LastDirect(log[..|log| - 1], active, q);
      assert forall j :: k < j < |log| - 1 ==> log[j] == log[..|log| - 1][j];
      k
  }

  /** The name and group of a region, and the number of its split counters, from the direct records. */
  ghost predicate Labelled(log: seq<Record>, active: nat, q: nat, d: Record) {
    var k := LastDirect(log, active, q);
    && d.name == (if 0 <= k then log[k].name else "")
    && d.profile.group == (if 0 <= k then log[k].profile.group else 0)
    && !d.profile.indirect && d.profile.slot == 0
  }

  ghost function DirectSplits(log: seq<Record>, active: nat, q: nat): nat {
    if log == [] then 0
    else
      var p := log[|log| - 1].profile;
      DirectSplits(log[..|log| - 1], active, q) + (if Selected(p, active) && p.region == q then p.split else 0)
  }

  ghost function IndirectSplits(log: seq<Record>): nat {
    if log == [] then 0
    else
      var p := log[|log| - 1].profile;
      IndirectSplits(log[..|log| - 1]) + (if p.indirect then p.split else 0)
  }

  ghost predicate HasDirect(log: seq<Record>, active: nat, q: nat) {
    exists k :: 0 <= k < |log| && Selected(log[k].profile, active) && log[k].profile.region == q
  }

  /** The region id held by list entry `i`: it stays 0 until a direct record sets it. */
  ghost function Held(log: seq<Record>, active: nat, i: nat): nat {
    if HasDirect(log, active, i) then i else 0
  }

  /** How many of the first `n` list entries hold region id `q`. */
  ghost function Holders(log: seq<Record>, active: nat, n: nat, q: nat): nat {
    if n == 0 then 0 else Holders(log, active, n - 1, q) + (if Held(log, active, n - 1) == q then 1 else 0)
  }

  function IndirectOf(log: seq<Record>): seq<Record> {
    if log == [] then []
    else
      var d := log[|log| - 1];
      IndirectOf(log[..|log| - 1]) + (if d.profile.indirect then [d] else [])
  }

  lemma {:induction false} IndirectOfSum(t: Tally, log: seq<Record>, q: nat, f: nat)
    requires f < FIELDS
    ensures Indirect(t, IndirectOf(log), q, f) == Indirect(t, log, q, f)
  {
    if log != [] {
      var d, rest := log[|log| - 1], IndirectOf(log[..|log| - 1]);
      IndirectOfSum(t, log[..|log| - 1], q, f);
      if d.profile.indirect {
        assert (rest + [d])[..|rest|] == rest;
      } else {
        assert rest + [] == rest;
      }
    }
  }

  lemma {:induction false} IndirectOfMembers(log: seq<Record>)
    ensures forall d :: d in IndirectOf(log) ==> d in log && d.profile.indirect
  {
    if log != [] {
      IndirectOfMembers(log[..|log| - 1]);
      assert log == log[..|log| - 1] + [log[|log| - 1]];
    }
  }

  // ---- What is known of a region's profile --------------------------------------

  /** The profile of region `q` after its direct records have been read. */
  ghost predicate IsDirect(t: Tally, log: seq<Record>, active: nat, q: nat, r: Record) {
    && (forall f :: 0 <= f < FIELDS ==> r.profile.mix[f] == Direct(t, log, active, q, f))
    && r.profile.region == Held(log, active, q) && Labelled(log, active, q, r)
    && r.profile.split == DirectSplits(log, active, q)
  }

  /** The profile `now` is `was` with one direct record added. */
  ghost predicate AddsRecord(t: Tally, d: Record, was: Record, now: Record) {
    && (forall f :: 0 <= f < FIELDS ==>
          now.profile.mix[f] == was.profile.mix[f] + Term(t, d.profile, d.profile.region, f))
    && now.name == d.name && now.profile.region == d.profile.region && now.profile.group == d.profile.group
    && now.profile.split == was.profile.split + d.profile.split && now.profile.slot == 0 && !now.profile.indirect
  }

  /** The profile `now` is `was` with the cloned functions' records added `n` times. */
  ghost predicate AddsClones(t: Tally, indirect: seq<Record>, q: nat, n: nat, was: Record, now: Record) {
    && (forall f :: 0 <= f < FIELDS ==>
          now.profile.mix[f] == was.profile.mix[f] + n * Indirect(t, indirect, q, f))
    && now.profile.split == was.profile.split + n * IndirectSplits(indirect)
    && now.name == was.name && now.profile.group == was.profile.group && now.profile.region == was.profile.region
    && (!was.profile.indirect && was.profile.slot == 0 ==> !now.profile.indirect && now.profile.slot == 0)
  }

  lemma NothingRead(t: Tally, active: nat, q: nat)
    ensures IsDirect(t, [], active, q, Record("", Zero()))
  {
  }

  /** One record read: it goes to its region if it is direct and of the selected group. */
  lemma ReadStep(t: Tally, log: seq<Record>, active: nat, n: nat, q: nat, was: Record, now: Record)
    requires n < |log| && IsDirect(t, log[..n], active, q, was)
    requires if Selected(log[n].profile, active) && log[n].profile.region == q
             then AddsRecord(t, log[n], was, now) else now == was
    ensures IsDirect(t, log[..n + 1], active, q, now)
  {
    var m := log[..n + 1];
    assert m[..|m| - 1] == log[..n] && m[|m| - 1] == log[n];
    HeldStep(log, active, n, q);
    hide Term, HasDirect, Selected;
  }

  lemma NoClones(t: Tally, indirect: seq<Record>, q: nat, r: Record)
    ensures AddsClones(t, indirect, q, 0, r, r)
  {
    forall f | 0 <= f < FIELDS ensures 0 * Indirect(t, indirect, q, f) == 0 {
    }
  }

  lemma ClonesAgain(t: Tally, indirect: seq<Record>, q: nat, n: nat, m: nat, a: Record, b: Record, c: Record)
    requires AddsClones(t, indirect, q, n, a, b) && AddsClones(t, indirect, q, m, b, c)
    ensures AddsClones(t, indirect, q, n + m, a, c)
  {
    forall f | 0 <= f < FIELDS
      ensures c.profile.mix[f] == a.profile.mix[f] + (n + m) * Indirect(t, indirect, q, f)
    {
      TwoShares(n, m, Indirect(t, indirect, q, f));
    }
    TwoShares(n, m, IndirectSplits(indirect));
  }

  lemma TwoShares(n: nat, m: nat, x: nat)
    ensures (n + m) * x == n * x + m * x
  {
  }

  class Aggregator {
    const t: Tally
    const regions: array<Record>   // RegionProfileList

    ghost predicate Valid()
      reads this, regions
    {
      Holds(t, regions.Length)
    }

    constructor (t: Tally, n: nat)
      requires Holds(t, n)
      ensures Valid() && this.t == t && regions.Length == n && fresh(regions)
      ensures forall q :: 0 <= q < n ==> regions[q] == Record("", Zero())
    {
      this.t := t;
      regions := new Record[n](i => Record("", Zero()));
    }

    /** Scales each direct record by its counter and adds it to its region; sets aside the records of
        cloned functions. */
    method ReadPdSets(log: seq<Record>, active: nat) returns (indirect: seq<Record>)
      requires Valid() && RecordsFit(log, t.width, regions.Length)
      requires forall q :: 0 <= q < regions.Length ==> regions[q] == Record("", Zero())
      modifies regions
      ensures indirect == IndirectOf(log)
      ensures forall q :: 0 <= q < regions.Length ==> IsDirect(t, log, active, q, regions[q])
    {
      forall q | 0 <= q < regions.Length ensures IsDirect(t, [], active, q, regions[q]) {
        NothingRead(t, active, q);
      }
      assert log[..0] == [];
      hide IsDirect, AddsRecord;
      indirect := [];
      var n := 0;
      while n < |log|
        invariant 0 <= n <= |log| && indirect == IndirectOf(log[..n])
        invariant forall q :: 0 <= q < regions.Length ==> IsDirect(t, log[..n], active, q, regions[q])
      {
        ghost var was := regions[..];
        var d := log[n];
        assert log[..n + 1][..n] == log[..n];
        if d.profile.indirect {
          indirect := indirect + [d];
        } else if active == 0 || d.profile.group == active {
          AddDirect(d);
        }
        forall q | 0 <= q < regions.Length ensures IsDirect(t, log[..n + 1], active, q, regions[q]) {
          ReadStep(t, log, active, n, q, was[q], regions[q]);
        }
        n := n + 1;
      }
      assert log[..n] == log;
    }

    /** Adds one direct record to its region's profile. */
    method AddDirect(d: Record)
      requires Valid() && d.profile.slot < t.width && d.profile.region < regions.Length
      modifies regions
      ensures forall q :: 0 <= q < regions.Length && q != d.profile.region ==> regions[q] == old(regions[q])
      ensures AddsRecord(t, d, old(regions[d.profile.region]), regions[d.profile.region])
    {
      var q := d.profile.region;
      IndexFits(t, d.profile.slot, q, regions.Length);
      var i := Index(t, d.profile.slot, q);
      var p := WithRuntime(ApplyCounter(d.profile, t.counters[i]), t.loads[i], t.stores[i]);
      var r := regions[q].profile.(group := d.profile.group, region := q);
      regions[q] := Record(d.name, Plus(r, p));
    }

    /** For every entry of the list, adds the records of cloned functions, scaled by the counters of
        the row of the region id the entry holds, to the profile at that id. */
    method ApplyIndirectCounts(indirect: seq<Record>, ghost log: seq<Record>, ghost active: nat)
      requires Valid() && RecordsFit(indirect, t.width, regions.Length)
      requires forall d :: d in indirect ==> d.profile.indirect
      requires forall q :: 0 <= q < regions.Length ==> regions[q].profile.region == Held(log, active, q)
      modifies regions
      ensures forall q :: 0 <= q < regions.Length ==>
        AddsClones(t, indirect, q, Holders(log, active, regions.Length, q), old(regions[q]), regions[q])
    {
      forall q | 0 <= q < regions.Length ensures AddsClones(t, indirect, q, 0, regions[q], regions[q]) {
        NoClones(t, indirect, q, regions[q]);
      }
      var i := 0;
      while i < regions.Length
        invariant 0 <= i <= regions.Length
        invariant forall q :: 0 <= q < regions.Length ==> regions[q].profile.region == Held(log, active, q)
        invariant forall q :: 0 <= q < regions.Length ==>
          AddsClones(t, indirect, q, Holders(log, active, i, q), old(regions[q]), regions[q])
      {
        ghost var was := regions[..];
        var held := regions[i].profile.region;
        HeldFits(log, active, i);
        AddIndirect(held, indirect);
        forall q | 0 <= q < regions.Length
          ensures AddsClones(t, indirect, q, Holders(log, active, i + 1, q), old(regions[q]), regions[q])
          ensures regions[q].profile.region == was[q].profile.region
        {
          hide Indirect, IndirectSplits;
          if q == held {
            ClonesAgain(t, indirect, q, Holders(log, active, i, q), 1, old(regions[q]), was[q], regions[q]);
          }
        }
        i := i + 1;
      }
    }

    /** The inner loop: adds every set-aside record to the profile at `q`, by the counters of row `q`. */
    method AddIndirect(q: nat, indirect: seq<Record>)
      requires Valid() && q < regions.Length && RecordsFit(indirect, t.width, regions.Length)
      requires forall d :: d in indirect ==> d.profile.indirect
      modifies regions
      ensures forall r :: 0 <= r < regions.Length && r != q ==> regions[r] == old(regions[r])
      ensures AddsClones(t, indirect, q, 1, old(regions[q]), regions[q])
    {
      var n := 0;
      while n < |indirect|
        invariant 0 <= n <= |indirect|
        invariant forall r :: 0 <= r < regions.Length && r != q ==> regions[r] == old(regions[r])
        invariant AddsClones(t, indirect[..n], q, 1, old(regions[q]), regions[q])
      {
        var d := indirect[n].profile;
        assert indirect[n] in indirect;
        IndexFits(t, d.slot, q, regions.Length);
        var i := Index(t, d.slot, q);
        var p := WithRuntime(ApplyCounter(d, t.counters[i]), t.loads[i], t.stores[i]);
        assert indirect[..n + 1][..n] == indirect[..n];
        regions[q] := regions[q].(profile := Plus(regions[q].profile, p));
        n := n + 1;
      }
      assert indirect[..n] == indirect;
    }

    /** `zray_finalize`, up to its output: the profile of every region. */
    method Finalize(log: seq<Record>, active: nat)
      requires Valid() && RecordsFit(log, t.width, regions.Length)
      requires forall q :: 0 <= q < regions.Length ==> regions[q] == Record("", Zero())
      modifies regions
      ensures forall q, f :: 0 <= q < regions.Length && 0 <= f < FIELDS ==>
        regions[q].profile.mix[f] == Aggregated(t, log, active, regions.Length, q, f)
      ensures forall q :: 0 <= q < regions.Length ==>
        regions[q].profile.region == Held(log, active, q) && Labelled(log, active, q, regions[q])
      ensures forall q :: 0 <= q < regions.Length ==>
        regions[q].profile.split ==
        DirectSplits(log, active, q) + Holders(log, active, regions.Length, q) * IndirectSplits(IndirectOf(log))
    {
      var indirect := ReadPdSets(log, active);
      IndirectOfMembers(log);
      ApplyIndirectCounts(indirect, log, active);
      forall q, f | 0 <= q < regions.Length && 0 <= f < FIELDS
        ensures regions[q].profile.mix[f] == Aggregated(t, log, active, regions.Length, q, f)
      {
        IndirectOfSum(t, log, q, f);
      }
    }
  }

  lemma HeldFits(log: seq<Record>, active: nat, i: nat)
    ensures Held(log, active, i) <= i
  {
  }

  /** What aggregation yields for field `f` of region `q` of `n`. */
  ghost function Aggregated(t: Tally, log: seq<Record>, active: nat, n: nat, q: nat, f: nat): nat
    requires f < FIELDS
  {
    Direct(t, log, active, q, f) + Holders(log, active, n, q) * Indirect(t, log, q, f)
  }

  lemma HeldStep(log: seq<Record>, active: nat, n: nat, q: nat)
    requires n < |log|
    ensures Held(log[..n + 1], active, q) ==
      (if Selected(log[n].profile, active) && log[n].profile.region == q then q else Held(log[..n], active, q))
  {
    var l, m := log[..n], log[..n + 1];
    assert m[n] == log[n];
    if HasDirect(l, active, q) {
      var k :| 0 <= k < |l| && Selected(l[k].profile, active) && l[k].profile.region == q;
      assert m[k] == l[k];
    }
    if HasDirect(m, active, q) {
      var k :| 0 <= k < |m| && Selected(m[k].profile, active) && m[k].profile.region == q;
      if k < n { assert l[k] == m[k]; }
    }
  }

  // ---- Profiling one group ---------------------------------------------------

  /** The log without the direct records of groups other than `g`. */
  ghost function OfGroup(log: seq<Record>, g: nat): seq<Record> {
    if log == [] then []
    else
      var d := log[|log| - 1];
      OfGroup(log[..|log| - 1], g) + (if d.profile.indirect || d.profile.group == g then [d] else [])
  }

  lemma {:induction false} OfGroupSums(t: Tally, log: seq<Record>, g: nat, q: nat, f: nat)
    requires g != 0 && f < FIELDS
    ensures Direct(t, log, g, q, f) == Direct(t, OfGroup(log, g), 0, q, f)
    ensures Indirect(t, log, q, f) == Indirect(t, OfGroup(log, g), q, f)
    ensures HasDirect(log, g, q) <==> HasDirect(OfGroup(log, g), 0, q)
  {
    if log != [] {
      var d, front := log[|log| - 1], log[..|log| - 1];
      var rest := OfGroup(front, g);
      OfGroupSums(t, front, g, q, f);
      assert log == front + [d];
      HasDirectLast(front, d, g, q);
      if d.profile.indirect || d.profile.group == g {
        assert (rest + [d])[..|rest|] == rest;
        HasDirectLast(rest, d, 0, q);
      } else {
        assert rest + [] == rest;
      }
    }
  }

  lemma HasDirectLast(log: seq<Record>, d: Record, active: nat, q: nat)
    ensures HasDirect(log + [d], active, q) <==>
      HasDirect(log, active, q) || (Selected(d.profile, active) && d.profile.region == q)
  {
    var more := log + [d];
    assert more[..|log|] == log && more[|log|] == d;
    HeldStep(more, active, |log|, q);
    if HasDirect(log, active, q) {
      var k :| 0 <= k < |log| && Selected(log[k].profile, active) && log[k].profile.region == q;
      assert more[k] == log[k];
    }
    if k :| 0 <= k < |more| && Selected(more[k].profile, active) && more[k].profile.region == q {
      assert k < |log| ==> log[k] == more[k];
    }
  }

  lemma {:induction false} OfGroupHolders(t: Tally, log: seq<Record>, g: nat, n: nat, q: nat)
    requires g != 0
    ensures Holders(log, g, n, q) == Holders(OfGroup(log, g), 0, n, q)
  {
    if n != 0 {
      OfGroupHolders(t, log, g, n - 1, q);
      OfGroupSums(t, log, g, n - 1, 0);
    }
  }

  /** With a group selected, aggregation is that of the log without the direct records of other groups. */
  lemma GroupIsSelected(t: Tally, log: seq<Record>, g: nat, n: nat, q: nat, f: nat)
    requires g != 0 && f < FIELDS
    ensures Aggregated(t, log, g, n, q, f) == Aggregated(t, OfGroup(log, g), 0, n, q, f)
  {
    OfGroupSums(t, log, g, q, f);
    OfGroupHolders(t, log, g, n, q);
  }

  /** A region all of whose direct records are of other groups has nothing of its own; one whose direct
      records are all of the group has all of it. */
  lemma {:induction false} GroupOrNothing(t: Tally, log: seq<Record>, g: nat, q: nat, f: nat)
    requires g != 0 && f < FIELDS
    ensures (forall d :: d in log && !d.profile.indirect && d.profile.region == q ==> d.profile.group != g) ==>
        Direct(t, log, g, q, f) == 0 && !HasDirect(log, g, q)
    ensures (forall d :: d in log && !d.profile.indirect && d.profile.region == q ==> d.profile.group == g) ==>
        Direct(t, log, g, q, f) == Direct(t, log, 0, q, f)
  {
    if log != [] {
      var d, front := log[|log| - 1], log[..|log| - 1];
      assert log == front + [d];
      GroupOrNothing(t, front, g, q, f);
      HasDirectLast(front, d, g, q);
    }
  }

  // ---- Bytes moved by intrinsics ----------------------------------------------

  /** What the slots of a region's records, direct or cloned, hold in one array. */
  ghost function InSlots(a: seq<nat>, width: nat, log: seq<Record>, q: nat): nat {
    if log == [] then 0
    else
      var p := log[|log| - 1].profile;
      InSlots(a, width, log[..|log| - 1], q)
      + (if (p.indirect || p.region == q) && p.slot + q * width < |a| then a[p.slot + q * width] else 0)
  }

  /** A log of records without mixes: what is left are the bytes moved. */
  lemma {:induction false} BytesByField(t: Tally, log: seq<Record>, n: nat, q: nat, f: nat)
    requires f < FIELDS && Holds(t, n) && q < n
    requires forall d :: d in log ==> d.profile.mix[f] == 0
    ensures Offline(t, log, q, f) == (if f == INTRINSIC_LOAD then InSlots(t.loads, t.width, log, q) else 0)
      + (if f == INTRINSIC_STORE then InSlots(t.stores, t.width, log, q) else 0)
  {
    if log != [] {
      var d, front := log[|log| - 1], log[..|log| - 1];
      assert log == front + [d];
      BytesByField(t, front, n, q, f);
      assert t.width * q == q * t.width;
    }
  }

  // ---- When aggregation is right --------------------------------------------

  /** What it should yield: every record of the region, direct or cloned, scaled by its counter in
      the region's row. */
  ghost function Offline(t: Tally, log: seq<Record>, q: nat, f: nat): nat
    requires f < FIELDS
  {
    Direct(t, log, 0, q, f) + Indirect(t, log, q, f)
  }

  /** Every region after the first has a counter of its own. */
  ghost predicate AllDirect(log: seq<Record>, n: nat) {
    forall q :: 1 <= q < n ==> HasDirect(log, 0, q)
  }

  lemma {:induction false} HoldersOne(log: seq<Record>, n: nat, m: nat, q: nat)
    requires AllDirect(log, n) && m <= n
    ensures Holders(log, 0, m, q) == if q < m then 1 else 0
  {
    if m != 0 {
      HoldersOne(log, n, m - 1, q);
    }
  }

  lemma {:induction false} HoldersNone(log: seq<Record>, m: nat, q: nat)
    requires 1 <= q && !HasDirect(log, 0, q)
    ensures Holders(log, 0, m, q) == 0
  {
    if m != 0 {
      HoldersNone(log, m - 1, q);
    }
  }

  ghost predicate NoIndirect(log: seq<Record>) {
    forall d :: d in log ==> !d.profile.indirect
  }

  lemma {:induction false} NoIndirectSum(t: Tally, log: seq<Record>, q: nat, f: nat)
    requires NoIndirect(log) && f < FIELDS
    ensures Indirect(t, log, q, f) == 0
  {
    if log != [] {
      assert log[|log| - 1] in log;
      NoIndirectSum(t, log[..|log| - 1], q, f);
    }
  }

  /** A tally in which every slot has seen one byte loaded. */
  ghost function OneLoad(width: nat, n: nat): Tally {
    var z := seq<nat>(width * n, i => 0);
    Tally(width, z, seq<nat>(width * n, i => 1), z)
  }

  lemma {:induction false} SomeIndirectSum(width: nat, n: nat, log: seq<Record>, q: nat)
    requires !NoIndirect(log) && RecordsFit(log, width, n) && q < n
    ensures Indirect(OneLoad(width, n), log, q, INTRINSIC_LOAD) > 0
  {
    var d, l := log[|log| - 1], log[..|log| - 1];
    assert log == l + [d];
    if d.profile.indirect {
      IndexFits(OneLoad(width, n), d.profile.slot, q, n);
    } else {
      SomeIndirectSum(width, n, l, q);
    }
  }

  ghost predicate AggregatesRight(t: Tally, log: seq<Record>, n: nat) {
    forall q, f :: 0 <= q < n && 0 <= f < FIELDS ==> Aggregated(t, log, 0, n, q, f) == Offline(t, log, q, f)
  }

  lemma DirectSuffices(t: Tally, log: seq<Record>, n: nat)
    requires AllDirect(log, n) || NoIndirect(log)
    ensures AggregatesRight(t, log, n)
  {
    forall q, f | 0 <= q < n && 0 <= f < FIELDS ensures Aggregated(t, log, 0, n, q, f) == Offline(t, log, q, f) {
      if AllDirect(log, n) {
        HoldersOne(log, n, n, q);
      } else {
        NoIndirectSum(t, log, q, f);
      }
    }
  }

  lemma DirectNeeded(width: nat, n: nat, log: seq<Record>)
    requires RecordsFit(log, width, n) && !AllDirect(log, n) && !NoIndirect(log)
    ensures !AggregatesRight(OneLoad(width, n), log, n)
  {
    var t := OneLoad(width, n);
    var q :| 1 <= q < n && !HasDirect(log, 0, q);
    HoldersNone(log, n, q);
    SomeIndirectSum(width, n, log, q);
    assert 0 * Indirect(t, log, q, INTRINSIC_LOAD) == 0;
    assert Aggregated(t, log, 0, n, q, INTRINSIC_LOAD) != Offline(t, log, q, INTRINSIC_LOAD);
  }

  /** Region profiles come out right for all contents of the counters exactly when every region but
      the first has a direct record, or no function was cloned: without one, the region's share of a
      cloned function is added to region 0 once more in place of its own row. */
  lemma RightIffDirect(width: nat, n: nat, log: seq<Record>)
    requires RecordsFit(log, width, n)
    ensures (forall t: Tally :: t.width == width && Holds(t, n) ==> AggregatesRight(t, log, n))
            <==> AllDirect(log, n) || NoIndirect(log)
  {
    if AllDirect(log, n) || NoIndirect(log) {
      forall t: Tally ensures AggregatesRight(t, log, n) {
        DirectSuffices(t, log, n);
      }
    } else {
      DirectNeeded(width, n, log);
      assert Holds(OneLoad(width, n), n);
    }
  }

  // ---- Online accounting ----------------------------------------------------

  /** The mix of the records that own slot `n` of row `q`. */
  ghost function MixAt(log: seq<Record>, q: nat, n: nat, f: nat): nat
    requires f < FIELDS
  {
    if log == [] then 0
    else
      var p := log[|log| - 1].profile;
      MixAt(log[..|log| - 1], q, n, f) + (if (p.indirect || p.region == q) && p.slot == n then p.mix[f] else 0)
  }

  ghost function Owners(log: seq<Record>, q: nat, n: nat): nat {
    if log == [] then 0
    else
      var p := log[|log| - 1].profile;
      Owners(log[..|log| - 1], q, n) + (if (p.indirect || p.region == q) && p.slot == n then 1 else 0)
  }

  /** What an enabled event adds to field `f` of a region when `mix` is what one execution of its site
      amounts to, and `sites` how many records it stands for. */
  ghost function Credit(e: Event, mix: nat, sites: nat, f: nat): nat {
    match e
    case Count(_, k) => k * mix
    case Load(_, k) => if f == INTRINSIC_LOAD then k * sites else 0
    case Store(_, k) => if f == INTRINSIC_STORE then k * sites else 0
    case LoadStore(_, k) =>
      (if f == INTRINSIC_LOAD then k * sites else 0) + (if f == INTRINSIC_STORE then k * sites else 0)
    case _ => 0
  }

  ghost predicate Counts(c: Config, s: State, e: Event, q: nat) {
    !e.Start? && !e.End? && !s.disable && s.base == Row(c, q)
  }

  function TallyOf(c: Config, s: State): Tally {
    Tally(c.width, s.counters, s.loads, s.stores)
  }

  lemma ProductGrows(m: nat, x: nat, k: nat)
    ensures m * (x + k) == m * x + k * m
  {
  }

  /** How one event changes the contribution of one record. */
  lemma TermStep(c: Config, s: State, e: Event, p: Profile, q: nat, f: nat)
    requires Inv(c, s) && CanStep(c, s, e) && p.slot < c.width && q < c.regions && f < FIELDS
    ensures Term(TallyOf(c, Step(c, s, e)), p, q, f) == Term(TallyOf(c, s), p, q, f)
      + (if Counts(c, s, e, q) && p.slot == e.slot then Credit(e, p.mix[f], 1, f) else 0)
  {
    IndexFits(TallyOf(c, s), p.slot, q, c.regions);
    if !e.Start? && !e.End? {
      var r :| 0 <= r < c.regions && s.base == Row(c, r);
      RowsApart(c.width, p.slot, q, e.slot, r);
      RowsApart(c.width, 0, q, 0, r);
      ProductGrows(p.mix[f], s.counters[Index(TallyOf(c, s), p.slot, q)], e.amount);
    }
  }

  /** How one event changes what aggregation yields: by the mix of the owners of its slot in the
      active row. */
  lemma {:induction false} OfflineStep(c: Config, s: State, e: Event, log: seq<Record>, q: nat, f: nat)
    requires Inv(c, s) && CanStep(c, s, e) && RecordsFit(log, c.width, c.regions) && q < c.regions && f < FIELDS
    ensures Offline(TallyOf(c, Step(c, s, e)), log, q, f) == Offline(TallyOf(c, s), log, q, f)
      + (if Counts(c, s, e, q) then Credit(e, MixAt(log, q, e.slot, f), Owners(log, q, e.slot), f) else 0)
  {
    hide Inv, Step, Term, CanStep, Offline;
    OfflineBack(TallyOf(c, s), log, q, f);
    OfflineBack(TallyOf(c, Step(c, s, e)), log, q, f);
    if log != [] {
      var l, p := log[..|log| - 1], log[|log| - 1].profile;
      assert log == l + [log[|log| - 1]] && log[|log| - 1] in log;
      OfflineStep(c, s, e, l, q, f);
      TermStep(c, s, e, p, q, f);
      if Counts(c, s, e, q) {
        CreditAdds(e, MixAt(l, q, e.slot, f), p.mix[f], Owners(l, q, e.slot), f);
      }
    } else if Counts(c, s, e, q) {
      assert Credit(e, 0, 0, f) == 0;
    }
  }

  lemma OfflineBack(t: Tally, log: seq<Record>, q: nat, f: nat)
    requires f < FIELDS
    ensures log == [] ==> Offline(t, log, q, f) == 0
    ensures log != [] ==>
      var p := log[|log| - 1].profile;
      Offline(t, log, q, f) ==
        Offline(t, log[..|log| - 1], q, f) + (if p.indirect || p.region == q then Term(t, p, q, f) else 0)
  {
    hide Term;
  }

  lemma CreditAdds(e: Event, a: nat, b: nat, n: nat, f: nat)
    ensures Credit(e, a + b, n + 1, f) == Credit(e, a, n, f) + Credit(e, b, 1, f)
  {
    if !e.Start? && !e.End? {
      assert e.amount * (a + b) == e.amount * a + e.amount * b;
      assert e.amount * (n + 1) == e.amount * n + e.amount;
    }
  }

  /** Accounting online: each enabled increment adds to the active region the mix of the records that
      own the slot there. */
  ghost function Online(c: Config, s: State, es: seq<Event>, log: seq<Record>, q: nat, f: nat): nat
    requires Inv(c, s) && AllFit(c, es) && f < FIELDS
    decreases |es|
  {
    if es == [] then 0
    else
      StepKeepsInv(c, s, es[0]);
      (if Counts(c, s, es[0], q)
       then Credit(es[0], MixAt(log, q, es[0].slot, f), Owners(log, q, es[0].slot), f) else 0)
      + Online(c, Step(c, s, es[0]), es[1..], log, q, f)
  }

  lemma {:induction false} OfflineFollowsOnline(c: Config, s: State, es: seq<Event>, log: seq<Record>, q: nat, f: nat)
    requires Inv(c, s) && AllFit(c, es) && RecordsFit(log, c.width, c.regions) && q < c.regions && f < FIELDS
    ensures Offline(TallyOf(c, Run(c, s, es)), log, q, f) ==
            Offline(TallyOf(c, s), log, q, f) + Online(c, s, es, log, q, f)
    decreases |es|
  {
    if es != [] {
      StepKeepsInv(c, s, es[0]);
      OfflineStep(c, s, es[0], log, q, f);
      hide Inv, Step, Offline, Credit;
      OfflineFollowsOnline(c, Step(c, s, es[0]), es[1..], log, q, f);
    }
  }

  lemma {:induction false} NothingYet(c: Config, log: seq<Record>, q: nat, f: nat)
    requires Sensible(c) && f < FIELDS
    ensures Offline(TallyOf(c, Init(c)), log, q, f) == 0
  {
    if log != [] {
      NothingYet(c, log[..|log| - 1], q, f);
      NoTerm(c, log[|log| - 1].profile, q, f);
    }
  }

  lemma NoTerm(c: Config, p: Profile, q: nat, f: nat)
    requires Sensible(c) && f < FIELDS
    ensures Term(TallyOf(c, Init(c)), p, q, f) == 0
  {
    assert p.mix[f] * 0 == 0;
  }

  // ---- Site by site ----------------------------------------------------------

  /** No two records share a slot in any region's row. */
  ghost predicate DistinctSlots(log: seq<Record>) {
    forall i, j :: 0 <= i < j < |log| && log[i].profile.slot == log[j].profile.slot ==>
      !log[i].profile.indirect && !log[j].profile.indirect && log[i].profile.region != log[j].profile.region
  }

  /** Site `k` owns its slot in region `q`'s row. */
  ghost predicate OwnsAt(log: seq<Record>, k: nat, q: nat, n: nat)
    requires k < |log|
  {
    log[k].profile.slot == n && (log[k].profile.indirect || log[k].profile.region == q)
  }

  lemma {:induction false} OneOwner(log: seq<Record>, k: nat, q: nat, n: nat, f: nat)
    requires DistinctSlots(log) && k < |log| && OwnsAt(log, k, q, n) && f < FIELDS
    ensures MixAt(log, q, n, f) == log[k].profile.mix[f] && Owners(log, q, n) == 1
  {
    var l := log[..|log| - 1];
    if k == |log| - 1 {
      NoOwner(l, q, n, f);
    } else {
      OneOwner(l, k, q, n, f);
    }
  }

  lemma {:induction false} NoOwner(log: seq<Record>, q: nat, n: nat, f: nat)
    requires f < FIELDS && forall k :: 0 <= k < |log| ==> !OwnsAt(log, k, q, n)
    ensures MixAt(log, q, n, f) == 0 && Owners(log, q, n) == 0
  {
    if log != [] {
      var l := log[..|log| - 1];
      forall k | 0 <= k < |l| ensures !OwnsAt(l, k, q, n) {
        assert !OwnsAt(log, k, q, n);
      }
      assert !OwnsAt(log, |log| - 1, q, n);
      NoOwner(l, q, n, f);
    }
  }

  /** `site[i]` is the record of the increment at step `i`; a region's own sites run while its row is
      the active one. */
  ghost predicate AtHome(c: Config, s: State, es: seq<Event>, site: seq<nat>, log: seq<Record>)
    requires Inv(c, s) && AllFit(c, es) && |site| == |es|
    decreases |es|
  {
    es == [] ||
      (StepKeepsInv(c, s, es[0]);
       && (forall q :: 0 <= q < c.regions && Counts(c, s, es[0], q) ==>
             site[0] < |log| && OwnsAt(log, site[0], q, es[0].slot))
       && AtHome(c, Step(c, s, es[0]), es[1..], site[1..], log))
  }

  /** Accounting online by site: each enabled increment adds its own site's mix to the active region. */
  ghost function BySite(c: Config, s: State, es: seq<Event>, site: seq<nat>, log: seq<Record>, q: nat, f: nat): nat
    requires Inv(c, s) && AllFit(c, es) && |site| == |es| && f < FIELDS
    decreases |es|
  {
    if es == [] then 0
    else
      StepKeepsInv(c, s, es[0]);
      (if Counts(c, s, es[0], q) && site[0] < |log| then Credit(es[0], log[site[0]].profile.mix[f], 1, f) else 0)
      + BySite(c, Step(c, s, es[0]), es[1..], site[1..], log, q, f)
  }

  lemma {:induction false} OnlineBySite(c: Config, s: State, es: seq<Event>, site: seq<nat>, log: seq<Record>,
                                        q: nat, f: nat)
    requires Inv(c, s) && AllFit(c, es) && |site| == |es| && q < c.regions && f < FIELDS
    requires DistinctSlots(log) && AtHome(c, s, es, site, log)
    ensures Online(c, s, es, log, q, f) == BySite(c, s, es, site, log, q, f)
    decreases |es|
  {
    if es != [] {
      StepKeepsInv(c, s, es[0]);
      hide Inv, Step, Credit, DistinctSlots;
      OnlineBySite(c, Step(c, s, es[0]), es[1..], site[1..], log, q, f);
      if Counts(c, s, es[0], q) {
        OneOwner(log, site[0], q, es[0].slot, f);
      }
    }
  }

  /** Offline aggregation equals online accounting: for every trace of a thread, what is recovered
      from the final counters and the recorded mixes is what one gets by adding, at every enabled
      increment, the site's mix to the active region. */
  lemma OfflineEqualsOnline(c: Config, es: seq<Event>, site: seq<nat>, log: seq<Record>, q: nat, f: nat)
    requires Sensible(c) && AllFit(c, es) && |site| == |es| && RecordsFit(log, c.width, c.regions)
    requires DistinctSlots(log) && AtHome(c, Init(c), es, site, log)
    requires AllDirect(log, c.regions) || NoIndirect(log)
    requires q < c.regions && f < FIELDS
    ensures Aggregated(TallyOf(c, Run(c, Init(c), es)), log, 0, c.regions, q, f) ==
            BySite(c, Init(c), es, site, log, q, f)
  {
    hide Inv, Step, Offline, Aggregated, DistinctSlots;
    DirectSuffices(TallyOf(c, Run(c, Init(c), es)), log, c.regions);
    OfflineFollowsOnline(c, Init(c), es, log, q, f);
    NothingYet(c, log, q, f);
    OnlineBySite(c, Init(c), es, site, log, q, f);
  }

  /** Why a region's own sites need its row: in a region that is sampled out under an enabled caller,
      an increment goes to the same slot of the caller's row. */
  lemma SampledOutCountsForCaller(c: Config, s: State, r: nat, q: nat, now: int, n: nat, k: nat)
    requires Inv(c, s) && r < c.regions && q < c.regions && n < c.width
    requires s.depth[r] == 0 && !Sampled(c, s.timing[r].count) && !s.disable && s.base == Row(c, q)
    ensures AllFit(c, [Start(r, now), Count(n, k)]) && Row(c, q) + n < |s.counters|
    ensures Run(c, s, [Start(r, now), Count(n, k)]).counters == Bump(s.counters, Row(c, q) + n, k)
  {
    var es := [Start(r, now), Count(n, k)];
    StepKeepsInv(c, s, es[0]);
    var t := Step(c, s, es[0]);
    StepKeepsInv(c, t, es[1]);
    assert es[1..] == [es[1]] && es[1..][1..] == [];
    assert Run(c, t, es[1..]) == Step(c, t, es[1]);
  }
}
