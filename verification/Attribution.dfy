/** When offline aggregation credits the right region: exactly which traces it is right for, the nested
    regions it is wrong for, and a condition on call trees under which it is right. */
module Attribution {
  import opened Runtime
  import opened RuntimeTraces
  import opened Aggregate

  // ---- Sums of mixes -----------------------------------------------------------

  /** The records with other mixes. */
  ghost function Remix(log: seq<Record>, mixes: nat -> Mix): seq<Record> {
    seq<Record>(|log|, k requires 0 <= k < |log| => log[k].(profile := log[k].profile.(mix := mixes(k))))
  }

  /** Field `f` of the mixes, each times the weight of its record. */
  ghost function Weigh(log: seq<Record>, w: nat -> nat, f: nat): nat
    requires f < FIELDS
  {
    if log == [] then 0
    else Weigh(log[..|log| - 1], w, f) + log[|log| - 1].profile.mix[f] * w(|log| - 1)
  }

  lemma {:induction false} WeighAdds(log: seq<Record>, a: nat -> nat, b: nat -> nat, w: nat -> nat, f: nat)
    requires f < FIELDS && forall k :: 0 <= k < |log| ==> w(k) == a(k) + b(k)
    ensures Weigh(log, w, f) == Weigh(log, a, f) + Weigh(log, b, f)
  {
    if log != [] {
      WeighAdds(log[..|log| - 1], a, b, w, f);
      Distribute(log[|log| - 1].profile.mix[f], a(|log| - 1), b(|log| - 1));
    }
  }

  lemma Distribute(m: nat, a: nat, b: nat)
    ensures m * (a + b) == m * a + m * b
  {
  }

  lemma {:induction false} WeighNothing(log: seq<Record>, w: nat -> nat, f: nat)
    requires f < FIELDS && forall k :: 0 <= k < |log| ==> log[k].profile.mix[f] * w(k) == 0
    ensures Weigh(log, w, f) == 0
  {
    if log != [] {
      WeighNothing(log[..|log| - 1], w, f);
    }
  }

  lemma {:induction false} WeighOwners(log: seq<Record>, q: nat, n: nat, x: nat, w: nat -> nat, f: nat)
    requires f < FIELDS && forall k :: 0 <= k < |log| ==> w(k) == if OwnsAt(log, k, q, n) then x else 0
    ensures Weigh(log, w, f) == x * MixAt(log, q, n, f)
  {
    if log != [] {
      var l, k := log[..|log| - 1], |log| - 1;
      forall j | 0 <= j < |l| ensures w(j) == if OwnsAt(l, j, q, n) then x else 0 {
        assert OwnsAt(l, j, q, n) <==> OwnsAt(log, j, q, n);
      }
      WeighOwners(l, q, n, x, w, f);
      assert w(k) == if OwnsAt(log, k, q, n) then x else 0;
      Distribute(x, MixAt(l, q, n, f), if OwnsAt(log, k, q, n) then log[k].profile.mix[f] else 0);
    }
  }

  lemma {:induction false} WeighSite(log: seq<Record>, j: nat, x: nat, w: nat -> nat, f: nat)
    requires f < FIELDS && forall k :: 0 <= k < |log| ==> w(k) == if k == j then x else 0
    ensures Weigh(log, w, f) == if j < |log| then x * log[j].profile.mix[f] else 0
  {
    if log != [] {
      var l := log[..|log| - 1];
      if j == |log| - 1 {
        forall k | 0 <= k < |l| ensures l[k].profile.mix[f] * w(k) == 0 {
          assert w(k) == 0;
        }
        WeighNothing(l, w, f);
      } else {
        WeighSite(l, j, x, w, f);
      }
    }
  }

  // ---- What each record is credited with ----------------------------------------

  function Increment(e: Event): nat {
    if e.Count? then e.amount else 0
  }

  /** What the counter of record `k` in row `q` comes to: the increments to the slot that it owns. */
  ghost function Owned(c: Config, s: State, es: seq<Event>, log: seq<Record>, k: nat, q: nat): nat
    requires Inv(c, s) && AllFit(c, es)
    decreases |es|
  {
    if es == [] then 0
    else
      StepKeepsInv(c, s, es[0]);
      (if Counts(c, s, es[0], q) && k < |log| && OwnsAt(log, k, q, es[0].slot) then Increment(es[0]) else 0)
      + Owned(c, Step(c, s, es[0]), es[1..], log, k, q)
  }

  /** What it should come to: the increments made by its own site while region `q` is active. */
  ghost function Sited(c: Config, s: State, es: seq<Event>, site: seq<nat>, k: nat, q: nat): nat
    requires Inv(c, s) && AllFit(c, es) && |site| == |es|
    decreases |es|
  {
    if es == [] then 0
    else
      StepKeepsInv(c, s, es[0]);
      (if Counts(c, s, es[0], q) && site[0] == k then Increment(es[0]) else 0)
      + Sited(c, Step(c, s, es[0]), es[1..], site[1..], k, q)
  }

  /** The bytes moved by intrinsics that aggregation finds for region `q`, once for each owner. */
  ghost function OwnedBytes(c: Config, s: State, es: seq<Event>, log: seq<Record>, q: nat, f: nat): nat
    requires Inv(c, s) && AllFit(c, es) && f < FIELDS
    decreases |es|
  {
    if es == [] then 0
    else
      StepKeepsInv(c, s, es[0]);
      (if Counts(c, s, es[0], q) then Credit(es[0], 0, Owners(log, q, es[0].slot), f) else 0)
      + OwnedBytes(c, Step(c, s, es[0]), es[1..], log, q, f)
  }

  ghost function SitedBytes(c: Config, s: State, es: seq<Event>, site: seq<nat>, n: nat, q: nat, f: nat): nat
    requires Inv(c, s) && AllFit(c, es) && |site| == |es| && f < FIELDS
    decreases |es|
  {
    if es == [] then 0
    else
      StepKeepsInv(c, s, es[0]);
      (if Counts(c, s, es[0], q) && site[0] < n then Credit(es[0], 0, 1, f) else 0)
      + SitedBytes(c, Step(c, s, es[0]), es[1..], site[1..], n, q, f)
  }

  lemma CreditSplits(e: Event, mix: nat, sites: nat, f: nat)
    ensures Credit(e, mix, sites, f) == Increment(e) * mix + Credit(e, 0, sites, f)
  {
    if e.Count? {
      assert e.amount * 0 == 0;
    }
  }

  /** The credits that one event gives the records, by owner. */
  lemma EventOwners(c: Config, s: State, e: Event, log: seq<Record>, w: nat -> nat, q: nat, f: nat)
    requires f < FIELDS
    requires forall k :: 0 <= k < |log| ==>
      w(k) == if Counts(c, s, e, q) && OwnsAt(log, k, q, e.slot) then Increment(e) else 0
    ensures (if Counts(c, s, e, q) then Credit(e, MixAt(log, q, e.slot, f), Owners(log, q, e.slot), f) else 0)
            == Weigh(log, w, f) + if Counts(c, s, e, q) then Credit(e, 0, Owners(log, q, e.slot), f) else 0
  {
    if Counts(c, s, e, q) {
      CreditSplits(e, MixAt(log, q, e.slot, f), Owners(log, q, e.slot), f);
      hide Credit, Increment, Counts;
      WeighOwners(log, q, e.slot, Increment(e), w, f);
    } else {
      hide Counts;
      WeighZero(log, w, f);
    }
  }

  lemma WeighZero(log: seq<Record>, w: nat -> nat, f: nat)
    requires f < FIELDS && forall k :: 0 <= k < |log| ==> w(k) == 0
    ensures Weigh(log, w, f) == 0
  {
    forall k | 0 <= k < |log| ensures log[k].profile.mix[f] * w(k) == 0 {
      assert w(k) == 0;
    }
    WeighNothing(log, w, f);
  }

  /** What an event adds to record `k` when its site is that of record `j`. */
  ghost function SiteShare(c: Config, s: State, e: Event, j: nat, k: nat, q: nat): nat {
    if Counts(c, s, e, q) && j == k then Increment(e) else 0
  }

  lemma EventSite(c: Config, s: State, e: Event, j: nat, log: seq<Record>, w: nat -> nat, q: nat, f: nat)
    requires f < FIELDS
    requires forall k :: 0 <= k < |log| ==> w(k) == SiteShare(c, s, e, j, k, q)
    ensures (if Counts(c, s, e, q) && j < |log| then Credit(e, log[j].profile.mix[f], 1, f) else 0)
            == Weigh(log, w, f) + if Counts(c, s, e, q) && j < |log| then Credit(e, 0, 1, f) else 0
  {
    if Counts(c, s, e, q) {
      if j < |log| {
        CreditSplits(e, log[j].profile.mix[f], 1, f);
      }
      hide Credit, Increment, Counts;
      WeighSite(log, j, Increment(e), w, f);
    } else {
      hide Counts;
      WeighZero(log, w, f);
    }
  }

  /** Accounting by slot is the sum, over the records, of mix times what the record's counter comes to. */
  lemma {:induction false} OnlineWeighs(c: Config, s: State, es: seq<Event>, log: seq<Record>, w: nat -> nat,
                                        q: nat, f: nat)
    requires Inv(c, s) && AllFit(c, es) && f < FIELDS
    requires forall k :: 0 <= k < |log| ==> w(k) == Owned(c, s, es, log, k, q)
    ensures Online(c, s, es, log, q, f) == Weigh(log, w, f) + OwnedBytes(c, s, es, log, q, f)
    decreases |es|
  {
    if es == [] {
      WeighZero(log, w, f);
    } else {
      StepKeepsInv(c, s, es[0]);
      var t, e := Step(c, s, es[0]), es[0];
      hide Inv, Step, Counts, Credit, Increment, Weigh;
      var now: nat -> nat := (k: nat) =>
        if Counts(c, s, e, q) && k < |log| && OwnsAt(log, k, q, e.slot) then Increment(e) else 0;
      var later: nat -> nat := (k: nat) => Owned(c, t, es[1..], log, k, q);
      OnlineWeighs(c, t, es[1..], log, later, q, f);
      EventOwners(c, s, e, log, now, q, f);
      WeighAdds(log, now, later, w, f);
    }
  }

  /** One step of accounting by site. */
  lemma SiteStep(c: Config, s: State, es: seq<Event>, site: seq<nat>, log: seq<Record>, now: nat -> nat, q: nat, f: nat)
    requires Inv(c, s) && AllFit(c, es) && |site| == |es| != 0 && f < FIELDS
    requires forall k :: 0 <= k < |log| ==> now(k) == SiteShare(c, s, es[0], site[0], k, q)
    ensures CanStep(c, s, es[0]) && Inv(c, Step(c, s, es[0]))
    ensures var t := Step(c, s, es[0]);
      BySite(c, s, es, site, log, q, f) - BySite(c, t, es[1..], site[1..], log, q, f)
        == Weigh(log, now, f) + SitedBytes(c, s, es, site, |log|, q, f)
             - SitedBytes(c, t, es[1..], site[1..], |log|, q, f)
  {
    StepKeepsInv(c, s, es[0]);
    hide Inv, Step, Counts, Credit, Increment, Weigh;
    EventSite(c, s, es[0], site[0], log, now, q, f);
  }

  lemma {:induction false} BySiteWeighs(c: Config, s: State, es: seq<Event>, site: seq<nat>, log: seq<Record>,
                                        w: nat -> nat, q: nat, f: nat)
    requires Inv(c, s) && AllFit(c, es) && |site| == |es| && f < FIELDS
    requires forall k :: 0 <= k < |log| ==> w(k) == Sited(c, s, es, site, k, q)
    ensures BySite(c, s, es, site, log, q, f) == Weigh(log, w, f) + SitedBytes(c, s, es, site, |log|, q, f)
    decreases |es|
  {
    if es == [] {
      WeighZero(log, w, f);
    } else {
      StepKeepsInv(c, s, es[0]);
      var t, e, rest, j, sites := Step(c, s, es[0]), es[0], es[1..], site[0], site[1..];
      var now := (k: nat) => SiteShare(c, s, e, j, k, q);
      var later: nat -> nat := (k: nat) => Sited(c, t, rest, sites, k, q);
      SitedStep(c, s, es, site, now, later, q);
      hide Inv, Step, Counts, Credit, SiteShare, Weigh, BySite, SitedBytes, Sited;
      BySiteWeighs(c, t, rest, sites, log, later, q, f);
      SiteStep(c, s, es, site, log, now, q, f);
      WeighAdds(log, now, later, w, f);
    }
  }

  lemma SitedStep(c: Config, s: State, es: seq<Event>, site: seq<nat>, now: nat -> nat, later: nat -> nat, q: nat)
    requires Inv(c, s) && AllFit(c, es) && |site| == |es| != 0 && CanStep(c, s, es[0]) && Inv(c, Step(c, s, es[0]))
    requires forall k :: now(k) == SiteShare(c, s, es[0], site[0], k, q)
    requires forall k :: later(k) == Sited(c, Step(c, s, es[0]), es[1..], site[1..], k, q)
    ensures forall k :: Sited(c, s, es, site, k, q) == now(k) + later(k)
  {
    hide Inv, Step, Counts, Increment;
  }

  // ---- Exactly when aggregation credits the right records ------------------------

  /** Whatever the mixes, aggregating offline gives each region what accounting by site gives it. */
  ghost predicate Attributed(c: Config, es: seq<Event>, site: seq<nat>, log: seq<Record>)
    requires Sensible(c) && AllFit(c, es) && |site| == |es|
  {
    forall mixes: nat -> Mix, q, f :: 0 <= q < c.regions && 0 <= f < FIELDS ==>
      Aggregated(TallyOf(c, Run(c, Init(c), es)), Remix(log, mixes), 0, c.regions, q, f)
        == BySite(c, Init(c), es, site, Remix(log, mixes), q, f)
  }

  /** In every row each record's counter comes to the increments made by its own site, and each byte
      moved by an intrinsic at a recorded site is found once. */
  ghost predicate Matched(c: Config, es: seq<Event>, site: seq<nat>, log: seq<Record>)
    requires Sensible(c) && AllFit(c, es) && |site| == |es|
  {
    && (forall k, q :: 0 <= k < |log| && 0 <= q < c.regions ==>
          Owned(c, Init(c), es, log, k, q) == Sited(c, Init(c), es, site, k, q))
    && (forall q, f :: 0 <= q < c.regions && 0 <= f < FIELDS ==>
          OwnedBytes(c, Init(c), es, log, q, f) == SitedBytes(c, Init(c), es, site, |log|, q, f))
  }

  lemma {:induction false} OwnersRemix(log: seq<Record>, mixes: nat -> Mix, q: nat, n: nat)
    ensures Owners(Remix(log, mixes), q, n) == Owners(log, q, n)
  {
    if log != [] {
      OwnersRemix(log[..|log| - 1], mixes, q, n);
      assert Remix(log, mixes)[..|log| - 1] == Remix(log[..|log| - 1], mixes);
    }
  }

  lemma {:induction false} OwnedRemix(c: Config, s: State, es: seq<Event>, log: seq<Record>, mixes: nat -> Mix,
                                      k: nat, q: nat)
    requires Inv(c, s) && AllFit(c, es)
    ensures Owned(c, s, es, Remix(log, mixes), k, q) == Owned(c, s, es, log, k, q)
    decreases |es|
  {
    if es != [] {
      StepKeepsInv(c, s, es[0]);
      hide Inv, Step, Counts;
      OwnedRemix(c, Step(c, s, es[0]), es[1..], log, mixes, k, q);
    }
  }

  lemma {:induction false} BytesRemix(c: Config, s: State, es: seq<Event>, log: seq<Record>, mixes: nat -> Mix,
                                      q: nat, f: nat)
    requires Inv(c, s) && AllFit(c, es) && f < FIELDS
    ensures OwnedBytes(c, s, es, Remix(log, mixes), q, f) == OwnedBytes(c, s, es, log, q, f)
    decreases |es|
  {
    if es != [] {
      StepKeepsInv(c, s, es[0]);
      hide Inv, Step, Remix, Credit;
      BytesRemix(c, Step(c, s, es[0]), es[1..], log, mixes, q, f);
      if Counts(c, s, es[0], q) {
        OwnersRemix(log, mixes, q, es[0].slot);
      }
    }
  }

  lemma RemixFits(log: seq<Record>, mixes: nat -> Mix, width: nat, regions: nat)
    ensures RecordsFit(log, width, regions) ==> RecordsFit(Remix(log, mixes), width, regions)
    ensures AllDirect(log, regions) ==> AllDirect(Remix(log, mixes), regions)
    ensures NoIndirect(log) ==> NoIndirect(Remix(log, mixes))
  {
    var m := Remix(log, mixes);
    forall d | d in m ensures exists e :: e in log && e.profile.(mix := d.profile.mix) == d.profile {
      var k :| 0 <= k < |m| && m[k] == d;
      assert log[k] in log;
    }
    if AllDirect(log, regions) {
      forall q | 1 <= q < regions ensures HasDirect(m, 0, q) {
        assert HasDirect(log, 0, q);
        var k :| 0 <= k < |log| && Selected(log[k].profile, 0) && log[k].profile.region == q;
        assert Selected(m[k].profile, 0);
      }
    }
  }

  /** Both sides of the comparison, for any mixes. */
  lemma BothSides(c: Config, es: seq<Event>, site: seq<nat>, log: seq<Record>, mixes: nat -> Mix, q: nat, f: nat,
                  owned: nat -> nat, sited: nat -> nat)
    requires Sensible(c) && AllFit(c, es) && |site| == |es| && RecordsFit(log, c.width, c.regions)
    requires AllDirect(log, c.regions) || NoIndirect(log)
    requires q < c.regions && f < FIELDS
    requires forall k :: 0 <= k < |log| ==> owned(k) == Owned(c, Init(c), es, log, k, q)
    requires forall k :: 0 <= k < |log| ==> sited(k) == Sited(c, Init(c), es, site, k, q)
    ensures Aggregated(TallyOf(c, Run(c, Init(c), es)), Remix(log, mixes), 0, c.regions, q, f)
            == Weigh(Remix(log, mixes), owned, f) + OwnedBytes(c, Init(c), es, log, q, f)
    ensures BySite(c, Init(c), es, site, Remix(log, mixes), q, f)
            == Weigh(Remix(log, mixes), sited, f) + SitedBytes(c, Init(c), es, site, |log|, q, f)
  {
    var m := Remix(log, mixes);
    RemixFits(log, mixes, c.width, c.regions);
    hide Inv, Step, Offline, Aggregated, RecordsFit, AllDirect, NoIndirect;
    DirectSuffices(TallyOf(c, Run(c, Init(c), es)), m, c.regions);
    OfflineFollowsOnline(c, Init(c), es, m, q, f);
    NothingYet(c, m, q, f);
    forall k | 0 <= k < |m| ensures owned(k) == Owned(c, Init(c), es, m, k, q) {
      OwnedRemix(c, Init(c), es, log, mixes, k, q);
    }
    OnlineWeighs(c, Init(c), es, m, owned, q, f);
    BytesRemix(c, Init(c), es, log, mixes, q, f);
    BySiteWeighs(c, Init(c), es, site, m, sited, q, f);
  }

  /** Mixes of which only that of record `k` is not zero, and it is one in field 0. */
  ghost function Only(k: nat): nat -> Mix {
    (j: nat) => seq<nat>(FIELDS, i => if j == k && i == 0 then 1 else 0)
  }

  lemma OnlyOne(log: seq<Record>, k: nat, w: nat -> nat)
    requires k < |log|
    ensures Weigh(Remix(log, Only(k)), w, 0) == w(k)
  {
    var m := Remix(log, Only(k));
    WeighTail(m, k, w);
  }

  lemma {:induction false} WeighTail(m: seq<Record>, k: nat, w: nat -> nat)
    requires forall j :: 0 <= j < |m| ==> m[j].profile.mix[0] == if j == k then 1 else 0
    ensures Weigh(m, w, 0) == if k < |m| then w(k) else 0
  {
    if m != [] {
      WeighTail(m[..|m| - 1], k, w);
    }
  }

  lemma MatchedIsAttributed(c: Config, es: seq<Event>, site: seq<nat>, log: seq<Record>)
    requires Sensible(c) && AllFit(c, es) && |site| == |es| && RecordsFit(log, c.width, c.regions)
    requires (AllDirect(log, c.regions) || NoIndirect(log)) && Matched(c, es, site, log)
    ensures Attributed(c, es, site, log)
  {
    forall mixes: nat -> Mix, q, f | 0 <= q < c.regions && 0 <= f < FIELDS
      ensures Aggregated(TallyOf(c, Run(c, Init(c), es)), Remix(log, mixes), 0, c.regions, q, f)
        == BySite(c, Init(c), es, site, Remix(log, mixes), q, f)
    {
      var sited := (k: nat) => Sited(c, Init(c), es, site, k, q);
      hide Inv, Aggregated, RecordsFit, AllDirect, NoIndirect;
      BothSides(c, es, site, log, mixes, q, f, sited, sited);
    }
  }

  lemma AttributedIsMatched(c: Config, es: seq<Event>, site: seq<nat>, log: seq<Record>)
    requires Sensible(c) && AllFit(c, es) && |site| == |es| && RecordsFit(log, c.width, c.regions)
    requires (AllDirect(log, c.regions) || NoIndirect(log)) && Attributed(c, es, site, log)
    ensures Matched(c, es, site, log)
  {
    hide Inv, Aggregated, RecordsFit, AllDirect, NoIndirect;
    forall k, q | 0 <= k < |log| && 0 <= q < c.regions
      ensures Owned(c, Init(c), es, log, k, q) == Sited(c, Init(c), es, site, k, q)
    {
      var owned := (j: nat) => Owned(c, Init(c), es, log, j, q);
      var sited := (j: nat) => Sited(c, Init(c), es, site, j, q);
      BothSides(c, es, site, log, Only(k), q, 0, owned, sited);
      OnlyOne(log, k, owned);
      OnlyOne(log, k, sited);
      NoBytes(c, Init(c), es, log, q);
      NoSiteBytes(c, Init(c), es, site, |log|, q);
      assert Aggregated(TallyOf(c, Run(c, Init(c), es)), Remix(log, Only(k)), 0, c.regions, q, 0)
        == BySite(c, Init(c), es, site, Remix(log, Only(k)), q, 0);
    }
    forall q, f | 0 <= q < c.regions && 0 <= f < FIELDS
      ensures OwnedBytes(c, Init(c), es, log, q, f) == SitedBytes(c, Init(c), es, site, |log|, q, f)
    {
      var owned := (j: nat) => Owned(c, Init(c), es, log, j, q);
      var sited := (j: nat) => Sited(c, Init(c), es, site, j, q);
      var none := Only(|log|);
      BothSides(c, es, site, log, none, q, f, owned, sited);
      NoMix(log, owned, f);
      NoMix(log, sited, f);
      assert Aggregated(TallyOf(c, Run(c, Init(c), es)), Remix(log, none), 0, c.regions, q, f)
        == BySite(c, Init(c), es, site, Remix(log, none), q, f);
    }
  }

  lemma NoMix(log: seq<Record>, w: nat -> nat, f: nat)
    requires f < FIELDS
    ensures Weigh(Remix(log, Only(|log|)), w, f) == 0
  {
    var m := Remix(log, Only(|log|));
    forall k | 0 <= k < |m| ensures m[k].profile.mix[f] * w(k) == 0 {
      assert m[k].profile.mix[f] == 0;
    }
    WeighNothing(m, w, f);
  }

  lemma {:induction false} NoBytes(c: Config, s: State, es: seq<Event>, log: seq<Record>, q: nat)
    requires Inv(c, s) && AllFit(c, es)
    ensures OwnedBytes(c, s, es, log, q, 0) == 0
    decreases |es|
  {
    if es != [] {
      StepKeepsInv(c, s, es[0]);
      hide Inv, Step, Counts;
      NoBytes(c, Step(c, s, es[0]), es[1..], log, q);
      assert forall e, n :: Credit(e, 0, n, 0) == 0;
    }
  }

  lemma {:induction false} NoSiteBytes(c: Config, s: State, es: seq<Event>, site: seq<nat>, n: nat, q: nat)
    requires Inv(c, s) && AllFit(c, es) && |site| == |es|
    ensures SitedBytes(c, s, es, site, n, q, 0) == 0
    decreases |es|
  {
    if es != [] {
      StepKeepsInv(c, s, es[0]);
      hide Inv, Step, Counts;
      NoSiteBytes(c, Step(c, s, es[0]), es[1..], site[1..], n, q);
      assert Credit(es[0], 0, 1, 0) == 0;
    }
  }

  /** For any trace, aggregation agrees with accounting by site for all mixes if and only if in every row
      each record's counter comes to what its own site added while that region was active. */
  lemma AttributedIffMatched(c: Config, es: seq<Event>, site: seq<nat>, log: seq<Record>)
    requires Sensible(c) && AllFit(c, es) && |site| == |es| && RecordsFit(log, c.width, c.regions)
    requires AllDirect(log, c.regions) || NoIndirect(log)
    ensures Attributed(c, es, site, log) <==> Matched(c, es, site, log)
  {
    if Matched(c, es, site, log) {
      MatchedIsAttributed(c, es, site, log);
    }
    if Attributed(c, es, site, log) {
      AttributedIsMatched(c, es, site, log);
    }
  }

  // ---- Right at every moment ------------------------------------------------------

  /** What one event adds to the counter of record `k` in row `q`. */
  ghost function OwnShare(c: Config, s: State, e: Event, log: seq<Record>, k: nat, q: nat): nat {
    if Counts(c, s, e, q) && k < |log| && OwnsAt(log, k, q, e.slot) then Increment(e) else 0
  }

  ghost function OwnBytes(c: Config, s: State, e: Event, log: seq<Record>, q: nat, f: nat): nat
    requires f < FIELDS
  {
    if Counts(c, s, e, q) then Credit(e, 0, Owners(log, q, e.slot), f) else 0
  }

  ghost function SiteBytes(c: Config, s: State, e: Event, j: nat, n: nat, q: nat, f: nat): nat
    requires f < FIELDS
  {
    if Counts(c, s, e, q) && j < n then Credit(e, 0, 1, f) else 0
  }

  /** An enabled increment goes to a slot that in the active row belongs to the record of its site, and to
      no other; and a slot that bytes go to has one owner, if the site is recorded at all. */
  ghost predicate StepRight(c: Config, s: State, e: Event, j: nat, log: seq<Record>) {
    && (forall k, q :: 0 <= k < |log| && 0 <= q < c.regions && Counts(c, s, e, q) && Increment(e) > 0 ==>
          (OwnsAt(log, k, q, e.slot) <==> k == j))
    && (forall q, f :: 0 <= q < c.regions && 0 <= f < FIELDS ==>
          OwnBytes(c, s, e, log, q, f) == SiteBytes(c, s, e, j, |log|, q, f))
  }

  ghost predicate StepsRight(c: Config, es: seq<Event>, site: seq<nat>, log: seq<Record>)
    requires Sensible(c) && AllFit(c, es) && |site| == |es|
  {
    forall n :: 0 <= n < |es| ==> StepRight(c, Run(c, Init(c), es[..n]), es[n], site[n], log)
  }

  ghost predicate AlwaysAttributed(c: Config, es: seq<Event>, site: seq<nat>, log: seq<Record>)
    requires Sensible(c) && AllFit(c, es) && |site| == |es|
  {
    forall n :: 0 <= n <= |es| ==> Attributed(c, es[..n], site[..n], log)
  }

  lemma {:induction false} SharesLast(c: Config, s: State, es: seq<Event>, e: Event, site: seq<nat>, j: nat,
                                      log: seq<Record>, k: nat, q: nat, f: nat)
    requires Inv(c, s) && AllFit(c, es) && Fits(c, e) && |site| == |es| && f < FIELDS
    ensures AllFit(c, es + [e])
    ensures var t := Run(c, s, es);
      && Owned(c, s, es + [e], log, k, q) == Owned(c, s, es, log, k, q) + OwnShare(c, t, e, log, k, q)
      && Sited(c, s, es + [e], site + [j], k, q) == Sited(c, s, es, site, k, q) + SiteShare(c, t, e, j, k, q)
      && OwnedBytes(c, s, es + [e], log, q, f) == OwnedBytes(c, s, es, log, q, f) + OwnBytes(c, t, e, log, q, f)
      && SitedBytes(c, s, es + [e], site + [j], |log|, q, f)
           == SitedBytes(c, s, es, site, |log|, q, f) + SiteBytes(c, t, e, j, |log|, q, f)
    decreases |es|
  {
    if es == [] {
      StepKeepsInv(c, s, e);
      assert es + [e] == [e] && site + [j] == [j] && [e][1..] == [] && [j][1..] == [];
    } else {
      StepKeepsInv(c, s, es[0]);
      assert (es + [e])[1..] == es[1..] + [e] && (site + [j])[1..] == site[1..] + [j];
      hide Inv, Step, Counts, Credit, Increment, OwnShare, SiteShare, OwnBytes, SiteBytes, Owners;
      SharesLast(c, Step(c, s, es[0]), es[1..], e, site[1..], j, log, k, q, f);
    }
  }

  /** One more event, with everything before it matched. */
  lemma MatchedStep(c: Config, es: seq<Event>, e: Event, site: seq<nat>, j: nat, log: seq<Record>)
    requires Sensible(c) && AllFit(c, es) && Fits(c, e) && |site| == |es| && Matched(c, es, site, log)
    ensures AllFit(c, es + [e])
    ensures Matched(c, es + [e], site + [j], log) <==> StepRight(c, Run(c, Init(c), es), e, j, log)
  {
    var s, t := Init(c), Run(c, Init(c), es);
    var more, sites := es + [e], site + [j];
    SharesLast(c, s, es, e, site, j, log, 0, 0, 0);
    hide Inv, Owned, Sited, OwnedBytes, SitedBytes, OwnBytes, SiteBytes;
    if Matched(c, more, sites, log) {
      forall k, q | 0 <= k < |log| && 0 <= q < c.regions
        ensures OwnShare(c, t, e, log, k, q) == SiteShare(c, t, e, j, k, q)
      {
        SharesLast(c, s, es, e, site, j, log, k, q, 0);
      }
      forall q, f | 0 <= q < c.regions && 0 <= f < FIELDS
        ensures OwnBytes(c, t, e, log, q, f) == SiteBytes(c, t, e, j, |log|, q, f)
      {
        SharesLast(c, s, es, e, site, j, log, 0, q, f);
        assert OwnedBytes(c, s, more, log, q, f) == SitedBytes(c, s, more, sites, |log|, q, f);
      }
      hide Matched;
      forall k, q | 0 <= k < |log| && 0 <= q < c.regions && Counts(c, t, e, q) && Increment(e) > 0
        ensures OwnsAt(log, k, q, e.slot) <==> k == j
      {
        ShareAgrees(c, t, e, j, log, k, q);
      }
    }
    if StepRight(c, t, e, j, log) {
      forall k, q | 0 <= k < |log| && 0 <= q < c.regions
        ensures Owned(c, s, more, log, k, q) == Sited(c, s, more, sites, k, q)
      {
        SharesLast(c, s, es, e, site, j, log, k, q, 0);
        ShareAgrees(c, t, e, j, log, k, q);
      }
      forall q, f | 0 <= q < c.regions && 0 <= f < FIELDS
        ensures OwnedBytes(c, s, more, log, q, f) == SitedBytes(c, s, more, sites, |log|, q, f)
      {
        SharesLast(c, s, es, e, site, j, log, 0, q, f);
      }
    }
  }

  lemma ShareAgrees(c: Config, t: State, e: Event, j: nat, log: seq<Record>, k: nat, q: nat)
    requires k < |log|
    ensures OwnShare(c, t, e, log, k, q) == SiteShare(c, t, e, j, k, q)
            <==> (Counts(c, t, e, q) && Increment(e) > 0 ==> (OwnsAt(log, k, q, e.slot) <==> k == j))
  {
  }

  lemma {:induction false} StepsMatch(c: Config, es: seq<Event>, site: seq<nat>, log: seq<Record>, n: nat)
    requires Sensible(c) && AllFit(c, es) && |site| == |es| && StepsRight(c, es, site, log) && n <= |es|
    ensures Matched(c, es[..n], site[..n], log)
  {
    if n != 0 {
      StepsMatch(c, es, site, log, n - 1);
      assert es[..n] == es[..n - 1] + [es[n - 1]] && site[..n] == site[..n - 1] + [site[n - 1]];
      hide Matched, StepRight;
      MatchedStep(c, es[..n - 1], es[n - 1], site[..n - 1], site[n - 1], log);
    }
  }

  /** Aggregation would be right at every moment of the run, for all mixes, if and only if every enabled
      increment goes to the one record of the active row that its site belongs to. */
  lemma AlwaysAttributedIffStepsRight(c: Config, es: seq<Event>, site: seq<nat>, log: seq<Record>)
    requires Sensible(c) && AllFit(c, es) && |site| == |es| && RecordsFit(log, c.width, c.regions)
    requires AllDirect(log, c.regions) || NoIndirect(log)
    ensures AlwaysAttributed(c, es, site, log) <==> StepsRight(c, es, site, log)
  {
    hide Inv, Matched, Attributed, StepRight, RecordsFit, AllDirect, NoIndirect;
    if StepsRight(c, es, site, log) {
      forall n | 0 <= n <= |es| ensures Attributed(c, es[..n], site[..n], log) {
        StepsMatch(c, es, site, log, n);
        AttributedIffMatched(c, es[..n], site[..n], log);
      }
    }
    if AlwaysAttributed(c, es, site, log) {
      forall n | 0 <= n < |es| ensures StepRight(c, Run(c, Init(c), es[..n]), es[n], site[n], log) {
        assert Attributed(c, es[..n], site[..n], log) && Attributed(c, es[..n + 1], site[..n + 1], log);
        AttributedIffMatched(c, es[..n], site[..n], log);
        AttributedIffMatched(c, es[..n + 1], site[..n + 1], log);
        assert es[..n + 1] == es[..n] + [es[n]] && site[..n + 1] == site[..n] + [site[n]];
        MatchedStep(c, es[..n], es[n], site[..n], site[n], log);
      }
    }
  }

  // ---- Nested regions --------------------------------------------------------------

  /** Region `q` runs inside region `r`, and there the increment of slot `n` is made. */
  ghost function Within(r: nat, q: nat, n: nat): seq<Event> {
    [Start(r, 0), Start(q, 1), Count(n, 1), End(q, 2), End(r, 3)]
  }

  /** A first, outermost entry into a region is sampled in and makes its row the active one. */
  lemma FirstEntry(c: Config, s: State, r: nat, now: int)
    requires Inv(c, s) && c.period > 0 && r < c.regions && s.depth[r] == 0 && s.timing[r].count == 0
    ensures CanStep(c, s, Start(r, now)) && Inv(c, Step(c, s, Start(r, now)))
    ensures var t := Step(c, s, Start(r, now));
      !t.disable && t.base == Row(c, r) && |t.depth| == |s.depth| == |t.timing| == |s.timing|
      && (forall q :: 0 <= q < |s.depth| && q != r ==> t.depth[q] == s.depth[q] && t.timing[q] == s.timing[q])
  {
    StepKeepsInv(c, s, Start(r, now));
    assert 0 % c.period == 0;
  }

  lemma {:induction false} AfterEnds(c: Config, s: State, es: seq<Event>, log: seq<Record>, site: seq<nat>,
                                     k: nat, q: nat)
    requires Inv(c, s) && AllFit(c, es) && |site| == |es| && forall e :: e in es ==> e.End?
    ensures Owned(c, s, es, log, k, q) == 0 && Sited(c, s, es, site, k, q) == 0
    decreases |es|
  {
    if es != [] {
      StepKeepsInv(c, s, es[0]);
      hide Inv, Step;
      AfterEnds(c, Step(c, s, es[0]), es[1..], log, site[1..], k, q);
    }
  }

  lemma OneStep(c: Config, s: State, es: seq<Event>, log: seq<Record>, site: seq<nat>, k: nat, q: nat)
    requires Inv(c, s) && AllFit(c, es) && |site| == |es| != 0
    ensures CanStep(c, s, es[0]) && Inv(c, Step(c, s, es[0]))
    ensures var t := Step(c, s, es[0]);
      && Owned(c, s, es, log, k, q) == Owned(c, t, es[1..], log, k, q)
           + (if Counts(c, s, es[0], q) && k < |log| && OwnsAt(log, k, q, es[0].slot) then Increment(es[0]) else 0)
      && Sited(c, s, es, site, k, q) == Sited(c, t, es[1..], site[1..], k, q)
           + (if Counts(c, s, es[0], q) && site[0] == k then Increment(es[0]) else 0)
  {
    StepKeepsInv(c, s, es[0]);
  }

  /** Inside the inner region its row is the active one. */
  lemma NestedState(c: Config, r: nat, q: nat) returns (s1: State, s2: State)
    requires Sensible(c) && c.period > 0 && r < c.regions && q < c.regions && r != q
    ensures CanStep(c, Init(c), Start(r, 0)) && s1 == Step(c, Init(c), Start(r, 0)) && Inv(c, s1)
    ensures CanStep(c, s1, Start(q, 1)) && s2 == Step(c, s1, Start(q, 1)) && Inv(c, s2)
    ensures !s2.disable && s2.base == Row(c, q)
  {
    FirstEntry(c, Init(c), r, 0);
    s1 := Step(c, Init(c), Start(r, 0));
    FirstEntry(c, s1, q, 1);
    s2 := Step(c, s1, Start(q, 1));
  }

  /** From there, the increment and the two exits. */
  lemma CountThenLeave(c: Config, s: State, es: seq<Event>, log: seq<Record>, r: nat, q: nat, n: nat, i: nat, j: nat)
    requires Inv(c, s) && r < c.regions && q < c.regions && n < c.width && i != j
    requires !s.disable && s.base == Row(c, q) && es == [Count(n, 1), End(q, 2), End(r, 3)]
    requires j < |log| && !log[j].profile.indirect && log[j].profile.region == q && log[j].profile.slot == n
    ensures AllFit(c, es) && Owned(c, s, es, log, j, q) == 1 && Sited(c, s, es, [i, i, i], j, q) == 0
  {
    assert es[1..] == [End(q, 2), End(r, 3)] && [i, i, i][1..] == [i, i];
    assert Counts(c, s, es[0], q) && OwnsAt(log, j, q, n);
    StepKeepsInv(c, s, es[0]);
    hide Inv, Step, Owned, Sited;
    OneStep(c, s, es, log, [i, i, i], j, q);
    AfterEnds(c, Step(c, s, es[0]), es[1..], log, [i, i], j, q);
  }

  /** The counter of the inner region's record comes to an increment that its site did not make. */
  lemma NestedCount(c: Config, log: seq<Record>, r: nat, q: nat, n: nat, i: nat, j: nat)
    requires Sensible(c) && c.period > 0 && r < c.regions && q < c.regions && r != q && n < c.width && i != j
    requires j < |log| && !log[j].profile.indirect && log[j].profile.region == q && log[j].profile.slot == n
    ensures AllFit(c, Within(r, q, n))
    ensures Owned(c, Init(c), Within(r, q, n), log, j, q) == 1
    ensures Sited(c, Init(c), Within(r, q, n), [i, i, i, i, i], j, q) == 0
  {
    var s1, s2 := NestedState(c, r, q);
    hide Inv, Step, Init, Owned, Sited;
    var es, site := Within(r, q, n), [i, i, i, i, i];
    var two, three := es[1..], es[2..];
    assert two[1..] == three == [Count(n, 1), End(q, 2), End(r, 3)];
    assert site[1..] == [i, i, i, i] && [i, i, i, i][1..] == [i, i, i];
    CountThenLeave(c, s2, three, log, r, q, n, i, j);
    OneStep(c, s1, two, log, [i, i, i, i], j, q);
    OneStep(c, Init(c), es, log, site, j, q);
  }

  /** Nested regions break attribution.  Where a block of region `r` lies inside region `q` too, the
      increment of its counter for `r` goes to the row of `q`, and is credited to whatever record of
      `q` has the same slot; so for any two regions that both have a counter `n`, one run of one
      inside the other is enough. */
  lemma NestedRegionsMiscount(c: Config, log: seq<Record>, r: nat, q: nat, n: nat, i: nat, j: nat)
    requires Sensible(c) && c.period > 0 && r < c.regions && q < c.regions && r != q && n < c.width
    requires RecordsFit(log, c.width, c.regions) && (AllDirect(log, c.regions) || NoIndirect(log))
    requires i < |log| && !log[i].profile.indirect && log[i].profile.region == r && log[i].profile.slot == n
    requires j < |log| && !log[j].profile.indirect && log[j].profile.region == q && log[j].profile.slot == n
    ensures AllFit(c, Within(r, q, n)) && !Attributed(c, Within(r, q, n), [i, i, i, i, i], log)
  {
    NestedCount(c, log, r, q, n, i, j);
    AttributedIffMatched(c, Within(r, q, n), [i, i, i, i, i], log);
  }

  // ---- Programs for which aggregation is right --------------------------------------

  /** A condition on a tree of calls, without running it: while region `cur` is the innermost one (-1
      for none), increments are made only by its own counters and those of clones; and a region is
      entered from outside all regions, or again from itself, or, if every invocation is sampled, also
      from another region while it is not open. */
  ghost predicate Home(c: Config, log: seq<Record>, k: Calls, site: seq<nat>, cur: int, open: set<nat>)
    requires |site| == |Events(k)|
    decreases k
  {
    match k
    case Done => true
    case Act(e, rest) =>
      && !e.Start? && !e.End?
      && (0 <= cur ==> site[0] < |log| && OwnsAt(log, site[0], cur, e.slot))
      && Home(c, log, rest, site[1..], cur, open)
    case Call(r, _, body, _, rest) =>
      && (cur < 0 || r == cur || (c.period <= 1 && r !in open))
      && Home(c, log, body, site[1..1 + |Events(body)|], r, open + {r})
      && Home(c, log, rest, site[2 + |Events(body)|..], cur, open)
  }

  /** The thread is in region `cur`, and counts there if at all. */
  ghost predicate Situated(c: Config, s: State, cur: int, open: set<nat>) {
    && Inv(c, s) && OpenSet(s) == open && (c.period == 0 ==> s.disable)
    && (if cur < 0 then s.disable && open == {} else cur in open && (s.disable || s.base == Row(c, cur)))
  }

  lemma {:induction false} AtHomeConcat(c: Config, s: State, a: seq<Event>, b: seq<Event>, x: seq<nat>, y: seq<nat>,
                                        log: seq<Record>)
    requires Inv(c, s) && AllFit(c, a) && AllFit(c, b) && |x| == |a| && |y| == |b|
    requires AtHome(c, s, a, x, log) && AtHome(c, Run(c, s, a), b, y, log)
    ensures AllFit(c, a + b) && AtHome(c, s, a + b, x + y, log)
    decreases |a|
  {
    if a == [] {
      assert a + b == b && x + y == y;
    } else {
      StepKeepsInv(c, s, a[0]);
      assert (a + b)[1..] == a[1..] + b && (x + y)[1..] == x[1..] + y;
      hide Inv, Step, OwnsAt;
      AtHomeConcat(c, Step(c, s, a[0]), a[1..], b, x[1..], y, log);
    }
  }

  /** An event that counts nothing is at home wherever its site is. */
  lemma QuietAtHome(c: Config, s: State, e: Event, j: nat, log: seq<Record>)
    requires Inv(c, s) && Fits(c, e) && (e.Start? || e.End?)
    ensures AllFit(c, [e]) && AtHome(c, s, [e], [j], log) && CanStep(c, s, e) && Run(c, s, [e]) == Step(c, s, e)
  {
    RunOne(c, s, e);
    assert [e][1..] == [] && [j][1..] == [];
  }

  /** Entering a region that the condition allows. */
  lemma Enters(c: Config, s: State, r: nat, now: int, cur: int, open: set<nat>)
    requires Situated(c, s, cur, open) && r < c.regions && cur < c.regions
    requires cur < 0 || r == cur || (c.period <= 1 && r !in open)
    ensures CanStep(c, s, Start(r, now)) && Situated(c, Step(c, s, Start(r, now)), r, open + {r})
  {
    StepKeepsInv(c, s, Start(r, now));
    var t := Step(c, s, Start(r, now));
    OpenSetUpdate(s, t, r);
    if r !in open {
      assert s.depth[r] == 0;
    } else {
      assert s.depth[r] > 0 && cur >= 0;
    }
  }

  lemma Returns(c: Config, s: State, u: State, cur: int, open: set<nat>)
    requires Situated(c, s, cur, open) && Inv(c, u) && s.top <= |s.stack| == |u.stack| && Restored(s, u)
    ensures Situated(c, u, cur, open)
  {
    assert OpenSet(u) == OpenSet(s);
  }

  lemma {:induction false} HomeIsAtHome(c: Config, s: State, k: Calls, site: seq<nat>, log: seq<Record>,
                                        cur: int, open: set<nat>)
    requires CallsFit(c, k) && |site| == |Events(k)| && Home(c, log, k, site, cur, open)
    requires Situated(c, s, cur, open) && cur < c.regions
    ensures AllFit(c, Events(k)) && AtHome(c, s, Events(k), site, log)
    decreases k
  {
    EventsFit(c, k);
    match k
    case Done =>
    case Act(e, rest) =>
      ActAtHome(c, s, k, site, log, cur, open);
      StepKeepsInv(c, s, e);
      ActStep(c, s, e);
      Returns(c, s, Step(c, s, e), cur, open);
      EventsFit(c, rest);
      HomeIsAtHome(c, Step(c, s, e), rest, site[1..], log, cur, open);
      hide Inv, Step, Situated, Home;
      RunOne(c, s, e);
      assert Events(k) == [e] + Events(rest) && site == [site[0]] + site[1..];
      AtHomeConcat(c, s, [e], Events(rest), [site[0]], site[1..], log);
    case Call(r, t0, body, t1, rest) =>
      hide Inv, Step, Situated;
      CallAtHome(c, s, k, site, log, cur, open);
  }

  lemma ActAtHome(c: Config, s: State, k: Calls, site: seq<nat>, log: seq<Record>, cur: int, open: set<nat>)
    requires CallsFit(c, k) && k.Act? && |site| == |Events(k)| && Home(c, log, k, site, cur, open)
    requires Situated(c, s, cur, open) && cur < c.regions
    ensures AllFit(c, [k.e]) && AtHome(c, s, [k.e], [site[0]], log)
  {
    StepKeepsInv(c, s, k.e);
    assert [k.e][1..] == [] && [site[0]][1..] == [];
    forall q | 0 <= q < c.regions && Counts(c, s, k.e, q)
      ensures site[0] < |log| && OwnsAt(log, site[0], q, k.e.slot)
    {
      RowsApart(c.width, k.e.slot, q, k.e.slot, cur);
    }
  }

  lemma {:induction false} CallAtHome(c: Config, s: State, k: Calls, site: seq<nat>, log: seq<Record>,
                                      cur: int, open: set<nat>)
    requires CallsFit(c, k) && k.Call? && |site| == |Events(k)| && Home(c, log, k, site, cur, open)
    requires Situated(c, s, cur, open) && cur < c.regions && Inv(c, s)
    ensures AllFit(c, Events(k)) && AtHome(c, s, Events(k), site, log)
    decreases k, 0
  {
    HomeParts(c, log, k, site, cur, open);
    EventsFit(c, k.body);
    EventsFit(c, k.rest);
    hide *;
    CallSituated(c, s, k, cur, open);
    CallFits(c, k);
    HomeIsAtHome(c, Step(c, s, Start(k.region, k.entered)), k.body, site[1..1 + |Events(k.body)|], log, k.region,
                 open + {k.region});
    HomeIsAtHome(c, AfterCall(c, s, k), k.rest, site[2 + |Events(k.body)|..], log, cur, open);
    JoinCall(c, s, k, site, log);
  }

  lemma CallFits(c: Config, k: Calls)
    requires CallsFit(c, k) && k.Call?
    ensures k.region < c.regions && CallsFit(c, k.body) && CallsFit(c, k.rest)
  {
  }

  /** Where the thread is in the body of a call, and after it. */
  lemma CallSituated(c: Config, s: State, k: Calls, cur: int, open: set<nat>)
    requires CallsFit(c, k) && k.Call? && Situated(c, s, cur, open) && cur < c.regions && Inv(c, s)
    requires cur < 0 || k.region == cur || (c.period <= 1 && k.region !in open)
    ensures CanStep(c, s, Start(k.region, k.entered))
    ensures Inv(c, Step(c, s, Start(k.region, k.entered))) && Inv(c, AfterCall(c, s, k))
    ensures Situated(c, Step(c, s, Start(k.region, k.entered)), k.region, open + {k.region})
    ensures Situated(c, AfterCall(c, s, k), cur, open)
  {
    hide Situated, AfterCall;
    Enters(c, s, k.region, k.entered, cur, open);
    StepKeepsInv(c, s, Start(k.region, k.entered));
    CallReturns(c, s, k, cur, open);
  }

  /** The condition on a call, part by part. */
  lemma HomeParts(c: Config, log: seq<Record>, k: Calls, site: seq<nat>, cur: int, open: set<nat>)
    requires k.Call? && |site| == |Events(k)| && Home(c, log, k, site, cur, open)
    ensures |site| == |Events(k.body)| + |Events(k.rest)| + 2
    ensures cur < 0 || k.region == cur || (c.period <= 1 && k.region !in open)
    ensures Home(c, log, k.body, site[1..1 + |Events(k.body)|], k.region, open + {k.region})
    ensures Home(c, log, k.rest, site[2 + |Events(k.body)|..], cur, open)
  {
  }

  lemma CallReturns(c: Config, s: State, k: Calls, cur: int, open: set<nat>)
    requires CallsFit(c, k) && k.Call? && Situated(c, s, cur, open) && Inv(c, s)
    ensures Inv(c, AfterCall(c, s, k)) && Situated(c, AfterCall(c, s, k), cur, open)
  {
    InvProper(c, s);
    hide Step, Meaning;
    if s.depth[k.region] > 0 { OpenCall(c, s, k); } else { FreshCall(c, s, k); }
    hide Inv, Restored, Situated;
    Returns(c, s, AfterCall(c, s, k), cur, open);
  }

  /** The parts of a call are at home; so is the whole. */
  lemma JoinCall(c: Config, s: State, k: Calls, site: seq<nat>, log: seq<Record>)
    requires CallsFit(c, k) && k.Call? && |site| == |Events(k)| && Inv(c, s)
    requires AllFit(c, Events(k.body)) && AllFit(c, Events(k.rest))
    requires CanStep(c, s, Start(k.region, k.entered)) && Inv(c, Step(c, s, Start(k.region, k.entered)))
    requires AtHome(c, Step(c, s, Start(k.region, k.entered)), Events(k.body), site[1..1 + |Events(k.body)|], log)
    requires AtHome(c, AfterCall(c, s, k), Events(k.rest), site[2 + |Events(k.body)|..], log)
    ensures AllFit(c, Events(k)) && AtHome(c, s, Events(k), site, log)
  {
    var first, last := Start(k.region, k.entered), End(k.region, k.left);
    var body, rest := Events(k.body), Events(k.rest);
    assert Events(k) == [first] + (body + ([last] + rest));
    var t := Run(c, Step(c, s, first), body);
    StepKeepsInv(c, t, last);
    hide Events, Inv, Step, AtHome;
    JoinParts(c, s, first, body, last, rest, site, log);
  }

  lemma JoinParts(c: Config, s: State, first: Event, body: seq<Event>, last: Event, rest: seq<Event>,
                  site: seq<nat>, log: seq<Record>)
    requires Inv(c, s) && Fits(c, first) && Fits(c, last) && first.Start? && last.End?
    requires AllFit(c, body) && AllFit(c, rest) && |site| == |body| + |rest| + 2
    requires CanStep(c, s, first) && Inv(c, Step(c, s, first))
    requires AtHome(c, Step(c, s, first), body, site[1..1 + |body|], log)
    requires CanStep(c, Run(c, Step(c, s, first), body), last)
    requires Inv(c, Step(c, Run(c, Step(c, s, first), body), last))
    requires AtHome(c, Step(c, Run(c, Step(c, s, first), body), last), rest, site[2 + |body|..], log)
    ensures AllFit(c, [first] + (body + ([last] + rest)))
    ensures AtHome(c, s, [first] + (body + ([last] + rest)), site, log)
  {
    hide Inv, Step, AtHome, CanStep;
    var n := |body|;
    QuietThen(c, Run(c, Step(c, s, first), body), last, site[1 + n], rest, site[2 + n..], log);
    assert [site[1 + n]] + site[2 + n..] == site[1 + n..];
    AtHomeConcat(c, Step(c, s, first), body, [last] + rest, site[1..1 + n], site[1 + n..], log);
    assert site[1..1 + n] + site[1 + n..] == site[1..];
    QuietThen(c, s, first, site[0], body + ([last] + rest), site[1..], log);
    assert [site[0]] + site[1..] == site;
  }

  lemma QuietThen(c: Config, s: State, e: Event, j: nat, es: seq<Event>, site: seq<nat>, log: seq<Record>)
    requires Inv(c, s) && Fits(c, e) && (e.Start? || e.End?) && AllFit(c, es) && |site| == |es|
    requires CanStep(c, s, e) && Inv(c, Step(c, s, e)) && AtHome(c, Step(c, s, e), es, site, log)
    ensures AllFit(c, [e] + es) && AtHome(c, s, [e] + es, [j] + site, log)
  {
    QuietAtHome(c, s, e, j, log);
    hide Inv, Step, AtHome;
    AtHomeConcat(c, s, [e], es, [j], site, log);
  }

  /** For every tree of calls that meets the condition, what is aggregated from the final arrays is what
      accounting by site gives each region. */
  lemma CallTreesAggregateRight(c: Config, k: Calls, site: seq<nat>, log: seq<Record>, q: nat, f: nat)
    requires Sensible(c) && CallsFit(c, k) && |site| == |Events(k)| && Home(c, log, k, site, -1, {})
    requires RecordsFit(log, c.width, c.regions) && DistinctSlots(log)
    requires AllDirect(log, c.regions) || NoIndirect(log)
    requires q < c.regions && f < FIELDS
    ensures AllFit(c, Events(k))
    ensures Aggregated(TallyOf(c, Run(c, Init(c), Events(k))), log, 0, c.regions, q, f)
            == BySite(c, Init(c), Events(k), site, log, q, f)
  {
    NothingOpen(c);
    assert Situated(c, Init(c), -1, {});
    hide Inv, Step, Situated, Aggregated, RecordsFit, DistinctSlots, AllDirect, NoIndirect, AtHome, Init;
    HomeIsAtHome(c, Init(c), k, site, log, -1, {});
    OfflineEqualsOnline(c, Events(k), site, log, q, f);
  }
}
