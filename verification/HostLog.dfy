/** The log a monitor thread writes while the program runs, its reader, and what the per-epoch deltas
    the reader takes add up to. */
module HostLog {
  import opened Aggregate

  /** Words are 64 bits wide and subtraction wraps around. */
  const M: nat := 0x1_0000_0000_0000_0000
  const HALF: nat := 0x8000_0000_0000_0000

  type Word = w: nat | w < M

  function Minus(a: Word, b: Word): Word {
    (a - b) % M
  }

  /** One record: a thread's arrays at a poll, and the time since the poll before. */
  datatype Entry = Entry(tid: Word, counters: seq<Word>, elapsed: Word, loads: seq<Word>, stores: seq<Word>)

  function Cells(width: Word, rois: Word): nat {
    (width * rois) % M
  }

  predicate Sized(e: Entry, cells: nat) {
    |e.counters| == |e.loads| == |e.stores| == cells
  }

  ghost predicate AllSized(es: seq<Entry>, cells: nat) {
    forall e :: e in es ==> Sized(e, cells)
  }

  function Size(cells: nat): nat {
    2 + 3 * cells
  }

  ghost function Words(e: Entry): seq<Word> {
    [e.tid] + e.counters + [e.elapsed] + e.loads + e.stores
  }

  ghost function Flat(es: seq<Entry>): seq<Word> {
    if es == [] then [] else Flat(es[..|es| - 1]) + Words(es[|es| - 1])
  }

  // ---- Writing: the polled process ------------------------------------------

  /** What a poll copied out of one registered thread, and when. */
  datatype Seen = Seen(tid: Word, at: Word, counters: seq<Word>, loads: seq<Word>, stores: seq<Word>)

  datatype Op = Register(tid: Word, width: Word, rois: Word, now: Word) | Unregister(tid: Word) | Poll(seen: seq<Seen>)

  /** `since` maps each registered thread to its latest poll, or to its registration before that. */
  datatype State = State(width: Word, rois: Word, since: map<Word, Word>, entries: seq<Entry>)

  function Init(): State {
    State(0, 0, map[], [])
  }

  ghost function Take(s: State, x: Seen): State
    requires x.tid in s.since
  {
    var e := Entry(x.tid, x.counters, Minus(x.at, s.since[x.tid]), x.loads, x.stores);
    s.(since := s.since[x.tid := x.at], entries := s.entries + [e])
  }

  ghost predicate Known(s: State, seen: seq<Seen>) {
    forall x :: x in seen ==> x.tid in s.since
  }

  ghost function TakeAll(s: State, seen: seq<Seen>): (r: State)
    requires Known(s, seen)
    ensures r.since.Keys == s.since.Keys && r.width == s.width && r.rois == s.rois
  {
    if seen == [] then s
    else
      assert seen == seen[..|seen| - 1] + [seen[|seen| - 1]];
      Take(TakeAll(s, seen[..|seen| - 1]), seen[|seen| - 1])
  }

  /** A poll copies every registered thread once. */
  ghost predicate CanStep(s: State, op: Op) {
    op.Poll? ==>
      (Known(s, op.seen)
       && (forall tid :: tid in s.since ==> exists i :: 0 <= i < |op.seen| && op.seen[i].tid == tid)
       && (forall i, j :: 0 <= i < j < |op.seen| ==> op.seen[i].tid != op.seen[j].tid))
  }

  ghost function Step(s: State, op: Op): State
    requires CanStep(s, op)
  {
    match op
    case Register(tid, width, rois, now) =>
      var t := if s.rois == 0 then s.(width := width, rois := rois) else s;
      if tid in s.since then t else t.(since := t.since[tid := now])
    case Unregister(tid) => s.(since := s.since - {tid})
    case Poll(seen) => TakeAll(s, seen)
  }

  /** All threads have counters of the same shape, which the log states once. */
  ghost predicate Shaped(op: Op, width: Word, rois: Word) {
    match op
    case Register(_, w, r, _) => w == width && r == rois
    case Unregister(_) => true
    case Poll(seen) => forall x :: x in seen ==> |x.counters| == |x.loads| == |x.stores| == Cells(width, rois)
  }

  class Host {
    var width: Word                  // COUNTER_WIDTH
    var rois: Word                   // ROI_COUNT
    var since: map<Word, Word>       // registered_threads
    var started: bool                // HostInit
    var log: seq<Word>               // zray_host_log.bin
    ghost var header: seq<Word>
    ghost var entries: seq<Entry>

    ghost predicate Valid()
      reads this
    {
      log == header + Flat(entries) && (header == [] <==> !started) && (started <==> entries != [])
    }

    ghost function Abs(): State
      reads this
    {
      State(width, rois, since, entries)
    }

    constructor ()
      ensures Valid() && Abs() == Init() && header == []
    {
      width, rois, since, started, log := 0, 0, map[], false, [];
      header, entries := [], [];
    }

    method Register(tid: Word, w: Word, r: Word, now: Word)
      requires Valid()
      modifies this
      ensures Valid() && Abs() == Step(old(Abs()), Op.Register(tid, w, r, now))
      ensures header == old(header) && log == old(log)
    {
      if rois == 0 {
        rois, width := r, w;
      }
      if tid !in since {
        since := since[tid := now];
      }
    }

    method Unregister(tid: Word)
      requires Valid()
      modifies this
      ensures Valid() && Abs() == Step(old(Abs()), Op.Unregister(tid))
      ensures header == old(header) && log == old(log)
    {
      if tid in since {
        since := since - {tid};
      } else {
        assert since - {tid} == since;
      }
    }

    /** Appends one record for each thread. */
    method Poll(seen: seq<Seen>)
      requires Valid() && CanStep(Abs(), Op.Poll(seen))
      modifies this
      ensures Valid() && Abs() == Step(old(Abs()), Op.Poll(seen))
      ensures header == (if old(header) == [] && seen != [] then [width, rois] else old(header))
      // One record for each thread, of what was seen and the time since its last.
      ensures Appended(old(since), old(entries), seen, entries)
    {
      PollIs(Abs(), seen);
      hide *;
      AppendEach(seen);
    }

    /** The loop over the registered threads. */
    method AppendEach(seen: seq<Seen>)
      requires Valid() && Known(Abs(), seen)
      modifies this
      ensures Valid() && Abs() == TakeAll(old(Abs()), seen)
      ensures header == (if old(header) == [] && seen != [] then [width, rois] else old(header))
    {
      ghost var s := Abs();
      hide Minus, Flat, Take;
      var n := 0;
      while n < |seen|
        invariant 0 <= n <= |seen| && Valid() && Known(s, seen[..n])
        invariant Abs() == TakeAll(s, seen[..n])
        invariant header == (if old(header) == [] && n > 0 then [s.width, s.rois] else old(header))
      {
        TakeNext(s, seen, n);
        Append(seen[n]);
        n := n + 1;
      }
      assert seen[..n] == seen;
    }

    /** Whatever happens to threads of one shape, in any order, from the start of the process: the log
        is that of the run, and reads back as the records written. */
    method Play(ops: seq<Op>, ghost w: Word, ghost r: Word)
      requires Valid() && Abs() == Init() && header == []
      requires Legal(Init(), ops) && AllShaped(ops, w, r)
      modifies this
      ensures Valid() && Abs() == Run(Init(), ops)
      ensures log == LogOf(Run(Init(), ops)) && Entries(log) == Run(Init(), ops).entries
    {
      hide CanStep, Step, Shaped, Entries;
      var n := 0;
      assert ops[0..] == ops;
      NothingShaped(w, r);
      while n < |ops|
        invariant 0 <= n <= |ops| && Valid() && Legal(Abs(), ops[n..])
        invariant Run(Abs(), ops[n..]) == Run(Init(), ops)
        invariant OneShape(Abs(), w, r) && (header == [] || header == [w, r])
      {
        ghost var s := Abs();
        assert ops[n..][0] == ops[n] && ops[n..][1..] == ops[n + 1..] && ops[n] in ops;
        StepInShape(s, ops[n], w, r);
        Do(ops[n], w, r);
        n := n + 1;
      }
      LogReadsBack(ops, w, r);
    }

    method Do(op: Op, ghost w: Word, ghost r: Word)
      requires Valid() && CanStep(Abs(), op) && Shaped(op, w, r) && OneShape(Abs(), w, r)
      requires header == [] || header == [w, r]
      modifies this
      ensures Valid() && Abs() == Step(old(Abs()), op) && (header == [] || header == [w, r])
    {
      match op
      case Register(tid, x, y, now) => Register(tid, x, y, now);
      case Unregister(tid) => Unregister(tid);
      case Poll(seen) =>
        if seen != [] {
          assert seen[0] in seen;
        }
        Poll(seen);
    }

    /** Writes the record of one thread, and before the first ever the shape of the arrays. */
    method Append(x: Seen)
      requires Valid() && x.tid in since
      modifies this
      ensures Valid() && Abs() == Take(old(Abs()), x)
      ensures header == (if old(header) == [] then [width, rois] else old(header))
    {
      if !started {
        log := log + [width, rois];
        started := true;
        header := [width, rois];
      }
      ghost var e := Entry(x.tid, x.counters, Minus(x.at, since[x.tid]), x.loads, x.stores);
      ghost var was := log;
      log := log + [x.tid];
      log := log + x.counters;
      var elapsed := Minus(x.at, since[x.tid]);
      log := log + [elapsed];
      since := since[x.tid := x.at];
      log := log + x.loads;
      log := log + x.stores;
      FlatBack(entries, e);
      WordsJoin(was, e);
      assert (header + Flat(entries)) + Words(e) == header + (Flat(entries) + Words(e));
      hide Minus;
      entries := entries + [e];
    }
  }

  lemma TakeNext(s: State, seen: seq<Seen>, n: nat)
    requires Known(s, seen) && n < |seen|
    ensures Known(s, seen[..n]) && Known(s, seen[..n + 1]) && seen[n].tid in s.since
    ensures TakeAll(s, seen[..n + 1]) == Take(TakeAll(s, seen[..n]), seen[n])
  {
    assert seen[..n + 1][..n] == seen[..n] && seen[n] in seen;
  }

  /** `fs` are the records `es`, and then one for each thread polled: what was seen of it, and the time since
      its last poll or its registration. */
  ghost predicate Appended(since: map<Word, Word>, es: seq<Entry>, seen: seq<Seen>, fs: seq<Entry>) {
    && |fs| == |es| + |seen| && fs[..|es|] == es
    && forall j :: 0 <= j < |seen| ==> seen[j].tid in since && AppendedAt(since, seen[j], fs[|es| + j])
  }

  ghost predicate AppendedAt(since: map<Word, Word>, x: Seen, e: Entry)
    requires x.tid in since
  {
    && e.tid == x.tid && e.counters == x.counters && e.loads == x.loads && e.stores == x.stores
    && e.elapsed == Minus(x.at, since[x.tid])
  }

  lemma PollIs(s: State, seen: seq<Seen>)
    requires CanStep(s, Op.Poll(seen))
    ensures Known(s, seen) && Step(s, Op.Poll(seen)) == TakeAll(s, seen)
    ensures Appended(s.since, s.entries, seen, TakeAll(s, seen).entries)
  {
    PollAppends(s, seen);
  }

  lemma {:induction false} PollAppends(s: State, seen: seq<Seen>)
    requires Known(s, seen) && forall i, j :: 0 <= i < j < |seen| ==> seen[i].tid != seen[j].tid
    ensures Appended(s.since, s.entries, seen, TakeAll(s, seen).entries)
    ensures forall tid :: tid in s.since && (forall j :: 0 <= j < |seen| ==> seen[j].tid != tid) ==>
      TakeAll(s, seen).since[tid] == s.since[tid]
  {
    if seen != [] {
      var front, x := seen[..|seen| - 1], seen[|seen| - 1];
      assert seen == front + [x] && x in seen;
      forall y | y in front ensures y in seen {
      }
      PollAppends(s, front);
      hide Minus;
      var r := TakeAll(s, front);
      assert r.since[x.tid] == s.since[x.tid];
    }
  }

  lemma FlatBack(es: seq<Entry>, e: Entry)
    ensures Flat(es + [e]) == Flat(es) + Words(e)
  {
    assert (es + [e])[..|es|] == es;
  }

  lemma WordsJoin(was: seq<Word>, e: Entry)
    ensures ((((was + [e.tid]) + e.counters) + [e.elapsed]) + e.loads) + e.stores == was + Words(e)
  {
  }

  // ---- Every run of registrations and polls ---------------------------------

  ghost predicate Legal(s: State, ops: seq<Op>)
    decreases |ops|
  {
    ops == [] || (CanStep(s, ops[0]) && Legal(Step(s, ops[0]), ops[1..]))
  }

  ghost function Run(s: State, ops: seq<Op>): State
    requires Legal(s, ops)
    decreases |ops|
  {
    if ops == [] then s else Run(Step(s, ops[0]), ops[1..])
  }

  /** The first registration that names any region fixes the shape, whatever comes before and after it. */
  lemma {:induction false} FirstShapeStays(s: State, ops: seq<Op>, k: nat)
    requires Legal(s, ops) && k < |ops| && ops[k].Register? && (s.rois == 0 ==> ops[k].rois != 0)
    requires s.rois == 0 ==> forall i :: 0 <= i < k && ops[i].Register? ==> ops[i].rois == 0
    ensures var t := Run(s, ops);
      (t.width, t.rois) == if s.rois != 0 then (s.width, s.rois) else (ops[k].width, ops[k].rois)
    decreases |ops|
  {
    var t := Step(s, ops[0]);
    if t.rois != 0 {
      ShapeStays(t, ops[1..]);
    } else {
      FirstShapeStays(t, ops[1..], k - 1);
    }
  }

  lemma {:induction false} ShapeStays(s: State, ops: seq<Op>)
    requires Legal(s, ops) && s.rois != 0
    ensures Run(s, ops).width == s.width && Run(s, ops).rois == s.rois
    decreases |ops|
  {
    if ops != [] {
      ShapeStays(Step(s, ops[0]), ops[1..]);
    }
  }

  ghost predicate AllShaped(ops: seq<Op>, width: Word, rois: Word) {
    forall op :: op in ops ==> Shaped(op, width, rois)
  }

  /** Records have the shape the threads registered with. */
  ghost predicate InShape(s: State, width: Word, rois: Word) {
    AllSized(s.entries, Cells(width, rois))
    && (s.since != map[] || s.entries != [] ==> s.width == width && s.rois == rois)
  }

  lemma {:induction false} TakeAllInShape(s: State, seen: seq<Seen>, width: Word, rois: Word)
    requires Known(s, seen) && InShape(s, width, rois) && Shaped(Poll(seen), width, rois)
    ensures InShape(TakeAll(s, seen), width, rois)
  {
    hide Cells, Minus;
    if seen != [] {
      var front, x := seen[..|seen| - 1], seen[|seen| - 1];
      assert seen == front + [x];
      TakeAllInShape(s, front, width, rois);
    }
  }

  /** All records, and the shape noted, are of the one shape. */
  ghost predicate OneShape(s: State, width: Word, rois: Word) {
    InShape(s, width, rois) && (s.rois != 0 ==> s.width == width && s.rois == rois)
  }

  lemma NothingShaped(width: Word, rois: Word)
    ensures OneShape(Init(), width, rois)
  {
  }

  lemma StepInShape(s: State, op: Op, width: Word, rois: Word)
    requires CanStep(s, op) && OneShape(s, width, rois) && Shaped(op, width, rois)
    ensures OneShape(Step(s, op), width, rois)
  {
    if op.Poll? {
      TakeAllInShape(s, op.seen, width, rois);
    }
  }

  lemma {:induction false} RunInShape(s: State, ops: seq<Op>, width: Word, rois: Word)
    requires Legal(s, ops) && AllShaped(ops, width, rois) && OneShape(s, width, rois)
    ensures OneShape(Run(s, ops), width, rois)
    decreases |ops|
  {
    if ops != [] {
      StepInShape(s, ops[0], width, rois);
      RunInShape(Step(s, ops[0]), ops[1..], width, rois);
    }
  }

  // ---- Reading ---------------------------------------------------------------

  function Decode(ws: seq<Word>, cells: nat): (e: Entry)
    requires |ws| >= Size(cells)
    ensures Sized(e, cells) && Words(e) == ws[..Size(cells)]
  {
    Entry(ws[0], ws[1..1 + cells], ws[1 + cells], ws[2 + cells..2 + 2 * cells], ws[2 + 2 * cells..2 + 3 * cells])
  }

  /** The complete records at the start of `ws`. */
  ghost function Parsed(ws: seq<Word>, cells: nat): seq<Entry> {
    if |ws| < Size(cells) then [] else [Decode(ws, cells)] + Parsed(ws[Size(cells)..], cells)
  }

  ghost function Entries(log: seq<Word>): seq<Entry> {
    if |log| < 2 then [] else Parsed(log[2..], Cells(log[0], log[1]))
  }

  lemma {:induction false} FlatFront(e: Entry, es: seq<Entry>)
    ensures Flat([e] + es) == Words(e) + Flat(es)
  {
    hide Words;
    if es == [] {
      assert [e] + es == [] + [e] && Flat([] + [e]) == [] + Words(e) by { FlatBack([], e); }
    } else {
      var front, last := es[..|es| - 1], es[|es| - 1];
      FlatFront(e, front);
      assert [e] + es == ([e] + front) + [last];
      FlatBack([e] + front, last);
      JoinAssociates(Words(e), Flat(front), Words(last));
    }
  }

  lemma JoinAssociates(a: seq<Word>, b: seq<Word>, c: seq<Word>)
    ensures (a + b) + c == a + (b + c)
  {
  }

  lemma {:induction false} ParseFlat(es: seq<Entry>, cells: nat, rest: seq<Word>)
    requires AllSized(es, cells) && |rest| < Size(cells)
    ensures Parsed(Flat(es) + rest, cells) == es
  {
    if es == [] {
      assert Flat(es) + rest == rest;
    } else {
      var e, more := es[0], es[1..];
      assert es == [e] + more && e in es;
      forall x | x in more ensures Sized(x, cells) { assert x in es; }
      FlatFront(e, more);
      var ws := Flat(es) + rest;
      assert ws == Words(e) + (Flat(more) + rest);
      assert |Words(e)| == Size(cells);
      assert ws[Size(cells)..] == Flat(more) + rest;
      assert ws[..Size(cells)] == Words(e);
      DecodeWords(ws, e, cells);
      ParseFlat(more, cells, rest);
    }
  }

  lemma DecodeWords(ws: seq<Word>, e: Entry, cells: nat)
    requires Sized(e, cells) && |ws| >= Size(cells) && ws[..Size(cells)] == Words(e)
    ensures Decode(ws, cells) == e
  {
    var w := Words(e);
    assert |w| == Size(cells);
    Sub(ws, w, 1, 1 + cells);
    Sub(ws, w, 2 + cells, 2 + 2 * cells);
    Sub(ws, w, 2 + 2 * cells, 2 + 3 * cells);
    assert ws[0] == w[0] && ws[1 + cells] == w[1 + cells];
    assert w[1..1 + cells] == e.counters;
    assert w[2 + cells..2 + 2 * cells] == e.loads;
    assert w[2 + 2 * cells..2 + 3 * cells] == e.stores;
  }

  lemma Sub(ws: seq<Word>, w: seq<Word>, i: nat, j: nat)
    requires i <= j <= |w| <= |ws| && ws[..|w|] == w
    ensures ws[i..j] == w[i..j]
  {
    assert ws[..|w|][i..j] == ws[i..j];
  }

  /** The log of a run in which all threads have counters of one shape. */
  ghost function LogOf(s: State): seq<Word> {
    if s.entries == [] then [] else [s.width, s.rois] + Flat(s.entries)
  }

  /** Whatever was registered and polled, in any order, the log reads back as the records written. */
  lemma LogReadsBack(ops: seq<Op>, width: Word, rois: Word)
    requires Legal(Init(), ops) && AllShaped(ops, width, rois)
    ensures Entries(LogOf(Run(Init(), ops))) == Run(Init(), ops).entries
    ensures AllSized(Run(Init(), ops).entries, Cells(width, rois))
  {
    var s := Run(Init(), ops);
    RunInShape(Init(), ops, width, rois);
    if s.entries != [] {
      assert LogOf(s)[2..] == Flat(s.entries) + [];
      ParseFlat(s.entries, Cells(width, rois), []);
    }
  }

  // ---- What a record holds -----------------------------------------------------

  /** What was copied out of the threads, in the order polled. */
  ghost function AllSeen(ops: seq<Op>): seq<Seen> {
    if ops == [] then [] else (if ops[0].Poll? then ops[0].seen else []) + AllSeen(ops[1..])
  }

  ghost predicate Keeps(e: Entry, x: Seen) {
    e.tid == x.tid && e.counters == x.counters && e.loads == x.loads && e.stores == x.stores
  }

  ghost predicate Records(es: seq<Entry>, xs: seq<Seen>) {
    |es| == |xs| && forall k :: 0 <= k < |xs| ==> Keeps(es[k], xs[k])
  }

  lemma {:induction false} TakeAllKeeps(s: State, seen: seq<Seen>, xs: seq<Seen>)
    requires Known(s, seen) && Records(s.entries, xs)
    ensures Records(TakeAll(s, seen).entries, xs + seen)
  {
    if seen == [] {
      assert xs + seen == xs;
    } else {
      var front, x := seen[..|seen| - 1], seen[|seen| - 1];
      assert seen == front + [x];
      TakeAllKeeps(s, front, xs);
      assert xs + seen == (xs + front) + [x];
      hide Minus;
    }
  }

  lemma {:induction false} RunKeeps(s: State, ops: seq<Op>, xs: seq<Seen>)
    requires Legal(s, ops) && Records(s.entries, xs)
    ensures Records(Run(s, ops).entries, xs + AllSeen(ops))
    decreases |ops|
  {
    if ops == [] {
      assert xs + AllSeen(ops) == xs;
    } else {
      StepKeeps(s, ops[0], xs);
      var seen := if ops[0].Poll? then ops[0].seen else [];
      hide Step, CanStep, Records;
      RunKeeps(Step(s, ops[0]), ops[1..], xs + seen);
      JoinSeen(xs, seen, AllSeen(ops[1..]));
    }
  }

  lemma JoinSeen(a: seq<Seen>, b: seq<Seen>, c: seq<Seen>)
    ensures (a + b) + c == a + (b + c)
  {
  }

  lemma StepKeeps(s: State, op: Op, xs: seq<Seen>)
    requires CanStep(s, op) && Records(s.entries, xs)
    ensures Records(Step(s, op).entries, xs + if op.Poll? then op.seen else [])
  {
    if op.Poll? {
      TakeAllKeeps(s, op.seen, xs);
    } else {
      assert xs + [] == xs;
    }
  }

  /** The log has one record for each look at a thread, in the order polled, with exactly the counters and
      the bytes loaded and stored that were seen. */
  lemma RecordsAsPolled(ops: seq<Op>, width: Word, rois: Word)
    requires Legal(Init(), ops) && AllShaped(ops, width, rois)
    ensures Records(Entries(LogOf(Run(Init(), ops))), AllSeen(ops))
  {
    LogReadsBack(ops, width, rois);
    RunKeeps(Init(), ops, []);
    assert [] + AllSeen(ops) == AllSeen(ops);
  }

  /** The words before record `k` in a log of records of one size. */
  function Ahead(k: nat, size: nat): nat {
    k * size
  }

  lemma AheadNext(k: nat, size: nat)
    ensures Ahead(k + 1, size) == Ahead(k, size) + size
  {
  }

  lemma {:induction false} AheadGrows(k: nat, m: nat, size: nat)
    requires k < m
    ensures Ahead(k, size) + size <= Ahead(m, size)
    decreases m
  {
    AheadNext(m - 1, size);
    if k < m - 1 {
      AheadGrows(k, m - 1, size);
    }
    hide Ahead;
  }

  /** The log starts with the width of a row and the number of regions; then come the records, one after the
      other, all of one size. */
  lemma LogLayout(s: State, cells: nat, k: nat)
    requires AllSized(s.entries, cells) && k < |s.entries|
    ensures var log, at := LogOf(s), 2 + Ahead(k, Size(cells));
      && |log| == 2 + Ahead(|s.entries|, Size(cells)) && at + Size(cells) <= |log|
      && log[0] == s.width && log[1] == s.rois && log[at..at + Size(cells)] == Words(s.entries[k])
  {
    var flat, log := Flat(s.entries), LogOf(s);
    assert log == [s.width, s.rois] + flat;
    hide *;
    FlatLength(s.entries, cells);
    FlatAt(s.entries, cells, k);
    var at := Ahead(k, Size(cells));
    AheadGrows(k, |s.entries|, Size(cells));
    assert log[2..] == flat;
    assert log[2..][at..at + Size(cells)] == log[2 + at..2 + at + Size(cells)];
  }

  lemma {:induction false} FlatAt(es: seq<Entry>, cells: nat, k: nat)
    requires AllSized(es, cells) && k < |es|
    ensures var at := Ahead(k, Size(cells));
      at + Size(cells) <= |Flat(es)| && Flat(es)[at..at + Size(cells)] == Words(es[k])
  {
    hide *;
    FrontSized(es, cells);
    var front, last := es[..|es| - 1], es[|es| - 1];
    LastRecord(es, cells);
    FlatLength(front, cells);
    if k == |es| - 1 {
      LastPart(Flat(es), Flat(front), Words(last));
    } else {
      FlatAt(front, cells, k);
      FirstPart(Flat(es), Flat(front), Words(last), Ahead(k, Size(cells)), Ahead(k, Size(cells)) + Size(cells));
    }
  }

  lemma LastRecord(es: seq<Entry>, cells: nat)
    requires AllSized(es, cells) && es != []
    ensures Flat(es) == Flat(es[..|es| - 1]) + Words(es[|es| - 1]) && |Words(es[|es| - 1])| == Size(cells)
  {
    FrontSized(es, cells);
  }

  lemma FirstPart(l: seq<Word>, f: seq<Word>, w: seq<Word>, i: nat, j: nat)
    requires l == f + w && i <= j <= |f|
    ensures l[i..j] == f[i..j]
  {
  }

  lemma LastPart(l: seq<Word>, f: seq<Word>, w: seq<Word>)
    requires l == f + w
    ensures |l| == |f| + |w| && l[|f|..|f| + |w|] == w
  {
  }

  lemma FrontSized(es: seq<Entry>, cells: nat)
    requires AllSized(es, cells) && es != []
    ensures AllSized(es[..|es| - 1], cells) && Sized(es[|es| - 1], cells)
  {
    assert es == es[..|es| - 1] + [es[|es| - 1]];
    assert es[|es| - 1] in es && forall x :: x in es[..|es| - 1] ==> x in es;
  }

  lemma {:induction false} FlatLength(es: seq<Entry>, cells: nat)
    requires AllSized(es, cells)
    ensures |Flat(es)| == Ahead(|es|, Size(cells))
  {
    if es != [] {
      hide *;
      FrontSized(es, cells);
      FlatLength(es[..|es| - 1], cells);
      LastRecord(es, cells);
      AheadNext(|es| - 1, Size(cells));
    }
  }

  /** A record gives the thread, its counters, the time since its record before, the bytes loaded and the bytes
      stored, in this order. */
  lemma WordsAt(e: Entry, n: nat)
    requires Sized(e, n)
    ensures var w := Words(e);
      && |w| == Size(n) == 2 + 3 * n && w[0] == e.tid && w[1..1 + n] == e.counters && w[1 + n] == e.elapsed
      && w[2 + n..2 + 2 * n] == e.loads && w[2 + 2 * n..2 + 3 * n] == e.stores
  {
  }

  // ---- Time ------------------------------------------------------------------

  /** What an observer of one thread notes: the time covered while it was registered before, and, if
      it is now, when that began and when it was last polled. */
  datatype Watch = Watch(closed: nat, open: bool, from: nat, last: nat)

  ghost function PolledAt(seen: seq<Seen>, tid: Word, otherwise: nat): nat {
    if seen == [] then otherwise
    else if seen[|seen| - 1].tid == tid then seen[|seen| - 1].at
    else PolledAt(seen[..|seen| - 1], tid, otherwise)
  }

  function Cover(w: Watch): nat {
    w.closed + if w.open && w.from <= w.last then w.last - w.from else 0
  }

  ghost function Watched(w: Watch, op: Op, tid: Word): Watch {
    match op
    case Register(t, _, _, now) => if t == tid && !w.open then Watch(w.closed, true, now, now) else w
    case Unregister(t) => if t == tid then Watch(Cover(w), false, 0, 0) else w
    case Poll(seen) => if w.open then w.(last := PolledAt(seen, tid, w.last)) else w
  }

  ghost function WatchedAll(w: Watch, ops: seq<Op>, tid: Word): Watch
    decreases |ops|
  {
    if ops == [] then w else WatchedAll(Watched(w, ops[0], tid), ops[1..], tid)
  }

  /** The sum of the times written in a thread's records. */
  ghost function Elapsed(es: seq<Entry>, tid: Word): nat {
    if es == [] then 0
    else Elapsed(es[..|es| - 1], tid) + if es[|es| - 1].tid == tid then es[|es| - 1].elapsed else 0
  }

  /** The clock never runs backwards between two looks at the same thread. */
  ghost predicate OnTime(s: State, op: Op) {
    op.Poll? ==> forall x :: x in op.seen && x.tid in s.since ==> s.since[x.tid] <= x.at
  }

  ghost predicate AllOnTime(s: State, ops: seq<Op>)
    requires Legal(s, ops)
    decreases |ops|
  {
    ops == [] || (OnTime(s, ops[0]) && AllOnTime(Step(s, ops[0]), ops[1..]))
  }

  ghost predicate Agrees(s: State, w: Watch, tid: Word) {
    (tid in s.since <==> w.open)
    && (w.open ==> s.since[tid] == w.last && w.from <= w.last)
    && Elapsed(s.entries, tid) == Cover(w)
  }

  ghost predicate OncePerThread(seen: seq<Seen>) {
    forall i, j :: 0 <= i < j < |seen| ==> seen[i].tid != seen[j].tid
  }

  lemma {:induction false} NotPolled(seen: seq<Seen>, tid: Word, otherwise: nat)
    requires forall x :: x in seen ==> x.tid != tid
    ensures PolledAt(seen, tid, otherwise) == otherwise
  {
    if seen != [] {
      assert seen == seen[..|seen| - 1] + [seen[|seen| - 1]];
      NotPolled(seen[..|seen| - 1], tid, otherwise);
    }
  }

  lemma ElapsedBack(es: seq<Entry>, e: Entry, tid: Word)
    ensures Elapsed(es + [e], tid) == Elapsed(es, tid) + if e.tid == tid then e.elapsed else 0
  {
    assert (es + [e])[..|es|] == es;
  }

  lemma MinusForward(a: Word, b: Word)
    requires b <= a
    ensures Minus(a, b) == a - b
  {
  }

  lemma {:induction false} TakeAllTimes(s: State, seen: seq<Seen>, tid: Word)
    requires Known(s, seen) && OncePerThread(seen) && OnTime(s, Poll(seen)) && tid in s.since
    ensures var r := TakeAll(s, seen);
      r.since[tid] == PolledAt(seen, tid, s.since[tid]) && s.since[tid] <= r.since[tid]
      && Elapsed(r.entries, tid) == Elapsed(s.entries, tid) + r.since[tid] - s.since[tid]
  {
    if seen != [] {
      var front, x := seen[..|seen| - 1], seen[|seen| - 1];
      assert seen == front + [x];
      TakeAllTimes(s, front, tid);
      hide Minus;
      var r := TakeAll(s, front);
      var e := Entry(x.tid, x.counters, Minus(x.at, r.since[x.tid]), x.loads, x.stores);
      ElapsedBack(r.entries, e, tid);
      if x.tid == tid {
        NotPolled(front, tid, s.since[tid]);
        MinusForward(x.at, s.since[tid]);
      }
    }
  }

  lemma {:induction false} TakeAllUnknown(s: State, seen: seq<Seen>, tid: Word)
    requires Known(s, seen) && tid !in s.since
    ensures Elapsed(TakeAll(s, seen).entries, tid) == Elapsed(s.entries, tid)
  {
    if seen != [] {
      var front, x := seen[..|seen| - 1], seen[|seen| - 1];
      assert seen == front + [x];
      TakeAllUnknown(s, front, tid);
      hide Minus;
      var r := TakeAll(s, front);
      ElapsedBack(r.entries, Entry(x.tid, x.counters, Minus(x.at, r.since[x.tid]), x.loads, x.stores), tid);
    }
  }

  lemma StepAgrees(s: State, op: Op, w: Watch, tid: Word)
    requires CanStep(s, op) && OnTime(s, op) && Agrees(s, w, tid)
    ensures Agrees(Step(s, op), Watched(w, op, tid), tid)
  {
    if op.Poll? {
      if tid in s.since {
        TakeAllTimes(s, op.seen, tid);
      } else {
        TakeAllUnknown(s, op.seen, tid);
      }
    }
  }

  /** The times written for a thread add up to the spans from each of its registrations to its last
      poll before it was unregistered. */
  lemma {:induction false} TimesTelescope(s: State, ops: seq<Op>, w: Watch, tid: Word)
    requires Legal(s, ops) && AllOnTime(s, ops) && Agrees(s, w, tid)
    ensures Elapsed(Run(s, ops).entries, tid) == Cover(WatchedAll(w, ops, tid))
    decreases |ops|
  {
    if ops != [] {
      StepAgrees(s, ops[0], w, tid);
      hide Step, CanStep, OnTime;
      TimesTelescope(Step(s, ops[0]), ops[1..], Watched(w, ops[0], tid), tid);
    }
  }

  // ---- Deltas ----------------------------------------------------------------

  /** The last of the first `n` records that is of thread `tid`, or -1. */
  ghost function Prev(es: seq<Entry>, n: nat, tid: Word): (k: int)
    requires n <= |es|
    ensures -1 <= k < n && (k >= 0 ==> es[k].tid == tid)
    ensures forall j :: k < j < n ==> es[j].tid != tid
  {
    if n == 0 then -1 else if es[n - 1].tid == tid then n - 1 else Prev(es, n - 1, tid)
  }

  /** Counter `i` of a record. */
  ghost function Val(e: Entry, i: nat): Word {
    if i < |e.counters| then e.counters[i] else 0
  }

  ghost function Delta(es: seq<Entry>, k: nat, i: nat): Word
    requires k < |es|
  {
    var p := Prev(es, k, es[k].tid);
    if p >= 0 then Minus(Val(es[k], i), Val(es[p], i)) else Val(es[k], i)
  }

  /** No counter seems to have gone back since the thread's record before. */
  ghost predicate Passes(es: seq<Entry>, k: nat)
    requires k < |es|
  {
    Prev(es, k, es[k].tid) >= 0 ==> forall i :: 0 <= i < |es[k].counters| ==> Delta(es, k, i) < HALF
  }

  datatype Epoch = Epoch(tid: Word, counters: seq<Word>, elapsed: Word, loads: seq<Word>, stores: seq<Word>)

  ghost predicate IsEpoch(x: Epoch, es: seq<Entry>, k: nat)
    requires k < |es|
  {
    var e := es[k];
    x.tid == e.tid && x.elapsed == e.elapsed && x.loads == e.loads && x.stores == e.stores
    && |x.counters| == |e.counters|
    && (forall i :: 0 <= i < |e.counters| ==> x.counters[i] == Delta(es, k, i))
  }

  /** Subtracts the thread's previous counters; fails at the first difference that reads as negative. */
  method Subtract(now: seq<Word>, last: seq<Word>) returns (ok: bool, delta: seq<Word>)
    requires |now| == |last|
    ensures ok <==> forall i :: 0 <= i < |now| ==> Minus(now[i], last[i]) < HALF
    ensures ok ==> |delta| == |now| && forall i :: 0 <= i < |now| ==> delta[i] == Minus(now[i], last[i])
  {
    hide Minus;
    delta := [];
    for i := 0 to |now|
      invariant |delta| == i
      invariant forall j :: 0 <= j < i ==> delta[j] == Minus(now[j], last[j]) && delta[j] < HALF
    {
      var d := Minus(now[i], last[i]);
      delta := delta + [d];
      if d >= HALF {
        return false, delta;
      }
    }
    ok := true;
  }

  /** `last` holds the counters of the latest record of each thread seen so far. */
  ghost predicate Latest(last: map<Word, seq<Word>>, es: seq<Entry>, n: nat)
    requires n <= |es|
  {
    (forall tid: Word :: tid in last <==> Prev(es, n, tid) >= 0)
    && (forall tid: Word :: tid in last ==> last[tid] == es[Prev(es, n, tid)].counters)
  }

  /** Takes the next record's deltas from the counters kept for its thread. */
  method NextEpoch(e: Entry, last: map<Word, seq<Word>>, ghost es: seq<Entry>, ghost n: nat)
    returns (ok: bool, x: Epoch)
    requires n < |es| && e == es[n] && Latest(last, es, n)
    requires AllSized(es, |e.counters|)
    ensures ok <==> Passes(es, n)
    ensures ok ==> IsEpoch(x, es, n)
  {
    hide Minus;
    var delta := e.counters;
    ok := true;
    if e.tid in last {
      assert es[Prev(es, n, e.tid)] in es;
      ok, delta := Subtract(e.counters, last[e.tid]);
      assert forall i :: 0 <= i < |e.counters| ==> Delta(es, n, i) == Minus(e.counters[i], last[e.tid][i]);
    }
    x := Epoch(e.tid, delta, e.elapsed, e.loads, e.stores);
  }

  lemma LatestStep(last: map<Word, seq<Word>>, es: seq<Entry>, n: nat)
    requires n < |es| && Latest(last, es, n)
    ensures Latest(last[es[n].tid := es[n].counters], es, n + 1)
  {
  }

  /** Reads the whole log, one epoch a record, and stops with an error at the first record in which a
      counter seems to have gone back. */
  method ReadLog(log: seq<Word>) returns (ok: bool, epochs: seq<Epoch>)
    ensures |epochs| <= |Entries(log)|
    ensures forall k :: 0 <= k < |epochs| ==> Passes(Entries(log), k) && IsEpoch(epochs[k], Entries(log), k)
    ensures ok <==> |epochs| == |Entries(log)|
    ensures !ok ==> !Passes(Entries(log), |epochs|)
  {
    hide Minus, Passes, IsEpoch, Latest, Parsed, Decode, Cells;
    epochs, ok := [], true;
    if |log| < 2 {
      return;
    }
    var cells := Cells(log[0], log[1]);
    ghost var es := Entries(log);
    ParsedSized(log[2..], cells);
    var last: map<Word, seq<Word>> := map[];
    LatestStart(es);
    assert es[0..] == es;
    var pos := 2;
    while pos + Size(cells) <= |log|
      invariant 2 <= pos <= |log| && |epochs| <= |es| && Parsed(log[pos..], cells) == es[|epochs|..]
      invariant forall k :: 0 <= k < |epochs| ==> Passes(es, k) && IsEpoch(epochs[k], es, k)
      invariant Latest(last, es, |epochs|)
    {
      var e := Decode(log[pos..], cells);
      ParseNext(log, pos, cells);
      assert es[|epochs|..][0] == es[|epochs|] && es[|epochs|..][1..] == es[|epochs| + 1..];
      assert es[|epochs|] in es;
      var x: Epoch;
      ok, x := NextEpoch(e, last, es, |epochs|);
      if !ok {
        return;
      }
      LatestStep(last, es, |epochs|);
      last := last[e.tid := e.counters];
      epochs := epochs + [x];
      pos := pos + Size(cells);
    }
    ParsedNone(log[pos..], cells);
  }

  lemma ParseNext(log: seq<Word>, pos: nat, cells: nat)
    requires pos + Size(cells) <= |log|
    ensures Parsed(log[pos..], cells) == [Decode(log[pos..], cells)] + Parsed(log[pos + Size(cells)..], cells)
  {
    assert log[pos..][Size(cells)..] == log[pos + Size(cells)..];
  }

  lemma ParsedNone(ws: seq<Word>, cells: nat)
    requires |ws| < Size(cells)
    ensures Parsed(ws, cells) == []
  {
  }

  lemma LatestStart(es: seq<Entry>)
    ensures Latest(map[], es, 0)
  {
  }

  lemma {:induction false} ParsedSized(ws: seq<Word>, cells: nat)
    ensures AllSized(Parsed(ws, cells), cells)
  {
    if |ws| >= Size(cells) {
      ParsedSized(ws[Size(cells)..], cells);
    }
  }

  // ---- What the deltas add up to ---------------------------------------------

  /** `truth(k, i)` is what counter `i` really was when record `k` was written, before it was cut to
      64 bits. */
  ghost predicate Tracks(es: seq<Entry>, truth: (nat, nat) -> nat) {
    forall k, i :: 0 <= k < |es| && 0 <= i ==> Val(es[k], i) == truth(k, i) % M
  }

  /** The counter when the thread's latest of the first `n` records was written. */
  ghost function Before(es: seq<Entry>, truth: (nat, nat) -> nat, n: nat, tid: Word, i: nat): nat
    requires n <= |es|
  {
    var p := Prev(es, n, tid);
    if p >= 0 then truth(p, i) else 0
  }

  /** What a counter may have grown by since the thread's record before, or by the first one, for the
      difference to be read back as it is. */
  ghost function Limit(es: seq<Entry>, k: nat): nat
    requires k < |es|
  {
    if Prev(es, k, es[k].tid) >= 0 then HALF else M
  }

  /** By how much a counter has changed since the thread's record before. */
  ghost function Change(es: seq<Entry>, truth: (nat, nat) -> nat, k: nat, i: nat): int
    requires k < |es|
  {
    truth(k, i) - Before(es, truth, k, es[k].tid, i)
  }

  /** Between two records of a thread its counters grow, by less than 2^63. */
  ghost predicate Grows(es: seq<Entry>, truth: (nat, nat) -> nat) {
    forall k, i :: 0 <= k < |es| && 0 <= i ==> 0 <= Change(es, truth, k, i) < Limit(es, k)
  }

  /** Between two records of a thread id its counters change, either way, by at most 2^63: a thread id
      that is used again by another thread starts at zero again. */
  ghost predicate Moves(es: seq<Entry>, truth: (nat, nat) -> nat) {
    forall k, i :: 0 <= k < |es| && 0 <= i ==> 0 <= Change(es, truth, k, i) + HALF < Limit(es, k) + HALF
  }

  ghost predicate WentBack(es: seq<Entry>, truth: (nat, nat) -> nat, k: nat)
    requires k < |es|
  {
    exists i :: 0 <= i < |es[k].counters| && Change(es, truth, k, i) < 0
  }

  /** The sum of a thread's deltas. */
  ghost function Summed(es: seq<Entry>, n: nat, tid: Word, i: nat): nat
    requires n <= |es|
  {
    if n == 0 then 0
    else Summed(es, n - 1, tid, i) + if es[n - 1].tid == tid then Delta(es, n - 1, i) else 0
  }

  lemma WrapsBack(a: nat, b: nat)
    requires 0 <= b - a < M
    ensures Minus(b % M, a % M) == b - a
  {
    var x, y := b / M, a / M;
    assert b == M * x + b % M && a == M * y + a % M;
    var d := b % M - a % M;
    assert b - a == M * (x - y) + d;
    if d < 0 {
      assert x - y == 1;
    } else {
      assert x - y == 0;
    }
  }

  lemma WrapsForward(a: nat, b: nat)
    requires 0 < a - b <= HALF
    ensures HALF <= Minus(b % M, a % M)
  {
    WrapsBack(a, b + M);
    assert (b + M) % M == b % M;
  }

  /** A difference between two records reads as negative exactly if the counter has gone back. */
  lemma DeltaSigned(es: seq<Entry>, truth: (nat, nat) -> nat, k: nat, i: nat)
    requires Tracks(es, truth) && k < |es| && 0 <= Change(es, truth, k, i) + HALF < Limit(es, k) + HALF
    ensures 0 <= Change(es, truth, k, i) ==> Delta(es, k, i) == Change(es, truth, k, i)
    ensures Prev(es, k, es[k].tid) >= 0 ==> (Delta(es, k, i) < HALF <==> 0 <= Change(es, truth, k, i))
  {
    var p := Prev(es, k, es[k].tid);
    assert Val(es[k], i) == truth(k, i) % M && (p >= 0 ==> Val(es[p], i) == truth(p, i) % M);
    hide Tracks, Val, Prev, Minus;
    if p >= 0 {
      SignedChange(truth(p, i), truth(k, i));
    } else {
      SmallWord(truth(k, i));
    }
  }

  lemma SmallWord(a: nat)
    requires a < M
    ensures a % M == a
  {
  }

  lemma SignedChange(a: nat, b: nat)
    requires 0 <= b - a + HALF < M
    ensures 0 <= b - a ==> Minus(b % M, a % M) == b - a
    ensures Minus(b % M, a % M) < HALF <==> 0 <= b - a
  {
    hide Minus;
    if 0 <= b - a {
      WrapsBack(a, b);
    } else {
      WrapsForward(a, b);
    }
  }

  lemma DeltaTrue(es: seq<Entry>, truth: (nat, nat) -> nat, k: nat, i: nat)
    requires Tracks(es, truth) && Grows(es, truth) && k < |es|
    ensures Delta(es, k, i) == truth(k, i) - Before(es, truth, k, es[k].tid, i)
    ensures Prev(es, k, es[k].tid) >= 0 ==> Delta(es, k, i) < HALF
  {
    assert 0 <= Change(es, truth, k, i) < Limit(es, k);
    hide Tracks, Grows;
    DeltaSigned(es, truth, k, i);
  }

  /** If counters only grow, by less than 2^63 a poll, each thread's deltas add up to its final
      counters, even where those have wrapped around in the log. */
  lemma {:induction false} DeltasTelescope(es: seq<Entry>, truth: (nat, nat) -> nat, n: nat, tid: Word, i: nat)
    requires Tracks(es, truth) && Grows(es, truth) && n <= |es|
    ensures Summed(es, n, tid, i) == Before(es, truth, n, tid, i)
  {
    hide Tracks, Grows, Delta;
    if n != 0 {
      DeltasTelescope(es, truth, n - 1, tid, i);
      DeltaTrue(es, truth, n - 1, i);
    }
  }

  lemma AcceptsGrowth(es: seq<Entry>, truth: (nat, nat) -> nat, k: nat)
    requires Tracks(es, truth) && Grows(es, truth) && k < |es|
    ensures Passes(es, k)
  {
    hide Tracks, Grows, Delta;
    forall i | 0 <= i < |es[k].counters| ensures Prev(es, k, es[k].tid) >= 0 ==> Delta(es, k, i) < HALF {
      DeltaTrue(es, truth, k, i);
    }
  }

  /** If counters change by at most 2^63, a record is refused if and only if one of them has gone back. */
  lemma PassesIffForward(es: seq<Entry>, truth: (nat, nat) -> nat, k: nat)
    requires Tracks(es, truth) && Moves(es, truth) && k < |es|
    ensures Passes(es, k) <==> !WentBack(es, truth, k)
  {
    var p := Prev(es, k, es[k].tid);
    forall i: nat ensures p >= 0 ==> (Delta(es, k, i) < HALF <==> 0 <= Change(es, truth, k, i)) {
      assert 0 <= Change(es, truth, k, i) + HALF < Limit(es, k) + HALF;
      DeltaSigned(es, truth, k, i);
    }
    hide Tracks, Moves, Delta;
  }

  /** If none has gone back, all counters grow. */
  lemma ForwardGrows(es: seq<Entry>, truth: (nat, nat) -> nat, cells: nat)
    requires Tracks(es, truth) && Moves(es, truth) && AllSized(es, cells)
    requires forall k :: 0 <= k < |es| ==> !WentBack(es, truth, k)
    ensures Grows(es, truth)
  {
    forall k, i | 0 <= k < |es| && 0 <= i ensures 0 <= Change(es, truth, k, i) < Limit(es, k) {
      assert 0 <= Change(es, truth, k, i) + HALF < Limit(es, k) + HALF;
      assert !WentBack(es, truth, k);
      assert es[k] in es;
      if cells <= i {
        NothingThere(es, truth, k, i, cells);
      }
    }
  }

  /** Past the end of the arrays nothing changes. */
  lemma NothingThere(es: seq<Entry>, truth: (nat, nat) -> nat, k: nat, i: nat, cells: nat)
    requires Tracks(es, truth) && AllSized(es, cells) && k < |es| && cells <= i && 0 <= Change(es, truth, k, i) + HALF
    ensures 0 <= Change(es, truth, k, i)
  {
    var p := Prev(es, k, es[k].tid);
    assert es[k] in es && Val(es[k], i) == truth(k, i) % M;
    if p >= 0 {
      assert es[p] in es && Val(es[p], i) == truth(p, i) % M;
      hide Tracks, AllSized;
      WholeWords(truth(p, i), truth(k, i));
    }
  }

  lemma WholeWords(a: nat, b: nat)
    requires a % M == 0 && b % M == 0 && a - b <= HALF
    ensures 0 <= b - a
  {
    assert a == M * (a / M) && b == M * (b / M);
  }

  lemma SignedDifference(a: Word, b: Word)
    requires a < HALF && b < HALF
    ensures Minus(b, a) < HALF <==> a <= b
  {
    assert Minus(b, a) == if a <= b then b - a else b - a + M;
  }

  /** Below 2^63 the test is exact: a record is refused if and only if one of its counters is below
      that of the thread's record before. */
  lemma RefusedIffWentBack(es: seq<Entry>, k: nat)
    requires k < |es|
    requires forall j, i :: 0 <= j < |es| && 0 <= i ==> Val(es[j], i) < HALF
    ensures Passes(es, k) <==> (Prev(es, k, es[k].tid) >= 0 ==>
      forall i :: 0 <= i < |es[k].counters| ==> Val(es[Prev(es, k, es[k].tid)], i) <= Val(es[k], i))
  {
    var p := Prev(es, k, es[k].tid);
    if p >= 0 {
      forall i: nat ensures Val(es[p], i) <= Val(es[k], i) <==> Delta(es, k, i) < HALF {
        SignedDifference(Val(es[p], i), Val(es[k], i));
      }
    }
  }

  // ---- Profiles --------------------------------------------------------------

  /** The profile fields that come from counters alone. */
  ghost predicate Counted(f: nat) {
    f < FIELDS && f != INTRINSIC_LOAD && f != INTRINSIC_STORE
  }

  ghost function Mere(width: nat, counters: seq<nat>): Tally {
    Tally(width, counters, counters, counters)
  }

  /** `c` is the sum of `a` and `b`, slot by slot. */
  ghost predicate Adds(a: seq<nat>, b: seq<nat>, c: seq<nat>) {
    |a| == |b| == |c| && forall i :: 0 <= i < |c| ==> c[i] == a[i] + b[i]
  }

  ghost predicate Alike(t: Tally, width: nat, counters: seq<nat>) {
    t.width == width && t.counters == counters && |t.loads| == |t.stores| == |counters|
  }

  lemma TermAdds(a: Tally, b: Tally, c: Tally, p: Profile, q: nat, f: nat)
    requires a.width == b.width == c.width && Adds(a.counters, b.counters, c.counters) && Counted(f)
    requires Alike(a, a.width, a.counters) && Alike(b, b.width, b.counters) && Alike(c, c.width, c.counters)
    ensures Term(c, p, q, f) == Term(a, p, q, f) + Term(b, p, q, f)
  {
    var i := Index(c, p.slot, q);
    if i < |c.counters| {
      assert p.mix[f] * c.counters[i] == p.mix[f] * a.counters[i] + p.mix[f] * b.counters[i];
    }
  }

  lemma {:induction false} SumsAdd(a: Tally, b: Tally, c: Tally, log: seq<Record>, q: nat, f: nat)
    requires a.width == b.width == c.width && Adds(a.counters, b.counters, c.counters) && Counted(f)
    requires Alike(a, a.width, a.counters) && Alike(b, b.width, b.counters) && Alike(c, c.width, c.counters)
    ensures Direct(c, log, 0, q, f) == Direct(a, log, 0, q, f) + Direct(b, log, 0, q, f)
    ensures Indirect(c, log, q, f) == Indirect(a, log, q, f) + Indirect(b, log, q, f)
  {
    if log != [] {
      SumsAdd(a, b, c, log[..|log| - 1], q, f);
      TermAdds(a, b, c, log[|log| - 1].profile, q, f);
    }
  }

  lemma ProfilesAdd(a: Tally, b: Tally, c: Tally, log: seq<Record>, n: nat, q: nat, f: nat)
    requires a.width == b.width == c.width && Adds(a.counters, b.counters, c.counters) && Counted(f)
    requires Alike(a, a.width, a.counters) && Alike(b, b.width, b.counters) && Alike(c, c.width, c.counters)
    ensures Aggregated(c, log, 0, n, q, f) == Aggregated(a, log, 0, n, q, f) + Aggregated(b, log, 0, n, q, f)
  {
    SumsAdd(a, b, c, log, q, f);
    hide Direct, Indirect, Holders, Adds, Alike;
    Spread(Holders(log, 0, n, q), Indirect(a, log, q, f), Indirect(b, log, q, f));
  }

  lemma Spread(h: nat, x: nat, y: nat)
    ensures h * (x + y) == h * x + h * y
  {
  }

  /** The counters of a thread as of its latest of the first `n` records. */
  ghost function Final(es: seq<Entry>, truth: (nat, nat) -> nat, n: nat, tid: Word, cells: nat): seq<nat>
    requires n <= |es|
  {
    seq<nat>(cells, i requires 0 <= i < cells => Before(es, truth, n, tid, i))
  }

  /** The tally the reader hands to aggregation for record `k`. */
  ghost function EpochTally(es: seq<Entry>, k: nat, width: nat): Tally
    requires k < |es|
  {
    var deltas := seq<nat>(|es[k].counters|, i requires 0 <= i < |es[k].counters| => Delta(es, k, i));
    Tally(width, deltas, es[k].loads, es[k].stores)
  }

  /** The sum of a thread's per-epoch profiles. */
  ghost function ProfileSum(es: seq<Entry>, n: nat, tid: Word, width: nat, log: seq<Record>, rois: nat,
                            q: nat, f: nat): nat
    requires n <= |es| && f < FIELDS
  {
    if n == 0 then 0
    else
      ProfileSum(es, n - 1, tid, width, log, rois, q, f)
      + if es[n - 1].tid == tid then Aggregated(EpochTally(es, n - 1, width), log, 0, rois, q, f) else 0
  }

  lemma {:induction false} NothingCounted(width: nat, z: seq<nat>, log: seq<Record>, q: nat, f: nat)
    requires (forall i :: 0 <= i < |z| ==> z[i] == 0) && Counted(f)
    ensures Direct(Mere(width, z), log, 0, q, f) == 0 && Indirect(Mere(width, z), log, q, f) == 0
  {
    if log != [] {
      NothingCounted(width, z, log[..|log| - 1], q, f);
      var p := log[|log| - 1].profile;
      assert Term(Mere(width, z), p, q, f) == 0 by { assert p.mix[f] * 0 == 0; }
    }
  }

  lemma NothingAggregated(width: nat, z: seq<nat>, log: seq<Record>, rois: nat, q: nat, f: nat)
    requires (forall i :: 0 <= i < |z| ==> z[i] == 0) && Counted(f)
    ensures Aggregated(Mere(width, z), log, 0, rois, q, f) == 0
  {
    NothingCounted(width, z, log, q, f);
    assert Holders(log, 0, rois, q) * 0 == 0;
  }

  lemma FinalAdds(es: seq<Entry>, truth: (nat, nat) -> nat, n: nat, tid: Word, cells: nat, width: nat)
    requires Tracks(es, truth) && Grows(es, truth) && AllSized(es, cells) && n < |es| && es[n].tid == tid
    ensures Adds(Final(es, truth, n, tid, cells), EpochTally(es, n, width).counters,
                 Final(es, truth, n + 1, tid, cells))
  {
    assert es[n] in es;
    hide Tracks, Grows, Delta;
    forall i | 0 <= i < cells
      ensures Before(es, truth, n + 1, tid, i) == Before(es, truth, n, tid, i) + Delta(es, n, i)
    {
      DeltaTrue(es, truth, n, i);
    }
  }

  /** The profiles of a thread's epochs sum to the profile of its final counters, field by field. */
  lemma {:induction false} EpochProfilesSum(es: seq<Entry>, truth: (nat, nat) -> nat, n: nat, tid: Word,
                                            cells: nat, width: nat, log: seq<Record>, rois: nat, q: nat, f: nat)
    requires Tracks(es, truth) && Grows(es, truth) && AllSized(es, cells) && n <= |es| && Counted(f)
    ensures ProfileSum(es, n, tid, width, log, rois, q, f)
            == Aggregated(Mere(width, Final(es, truth, n, tid, cells)), log, 0, rois, q, f)
  {
    hide Tracks, Grows, Aggregated;
    if n == 0 {
      NothingAggregated(width, Final(es, truth, 0, tid, cells), log, rois, q, f);
    } else {
      EpochProfilesSum(es, truth, n - 1, tid, cells, width, log, rois, q, f);
      if es[n - 1].tid == tid {
        assert es[n - 1] in es;
        FinalAdds(es, truth, n - 1, tid, cells, width);
        ProfilesAdd(Mere(width, Final(es, truth, n - 1, tid, cells)), EpochTally(es, n - 1, width),
                    Mere(width, Final(es, truth, n, tid, cells)), log, rois, q, f);
      } else {
        assert Final(es, truth, n - 1, tid, cells) == Final(es, truth, n, tid, cells);
      }
    }
  }

  /** The tally the reader hands to aggregation for one epoch. */
  ghost function TallyOfEpoch(x: Epoch, width: nat): Tally {
    Tally(width, x.counters, x.loads, x.stores)
  }

  /** The sum of a thread's profiles over the first `n` epochs. */
  ghost function EpochSum(xs: seq<Epoch>, n: nat, tid: Word, width: nat, log: seq<Record>, rois: nat, q: nat,
                          f: nat): nat
    requires n <= |xs| && f < FIELDS
  {
    if n == 0 then 0
    else
      EpochSum(xs, n - 1, tid, width, log, rois, q, f)
      + if xs[n - 1].tid == tid then Aggregated(TallyOfEpoch(xs[n - 1], width), log, 0, rois, q, f) else 0
  }

  /** What the reader makes of a log that it accepts. */
  ghost predicate AreEpochs(xs: seq<Epoch>, es: seq<Entry>) {
    |xs| == |es| && forall k :: 0 <= k < |es| ==> IsEpoch(xs[k], es, k)
  }

  lemma {:induction false} EpochSumIs(xs: seq<Epoch>, es: seq<Entry>, n: nat, tid: Word, width: nat, log: seq<Record>,
                                      rois: nat, q: nat, f: nat)
    requires AreEpochs(xs, es) && n <= |es| && f < FIELDS
    ensures EpochSum(xs, n, tid, width, log, rois, q, f) == ProfileSum(es, n, tid, width, log, rois, q, f)
  {
    if n != 0 {
      EpochSumIs(xs, es, n - 1, tid, width, log, rois, q, f);
      hide Aggregated, Delta;
      var k := n - 1;
      assert IsEpoch(xs[k], es, k);
      assert TallyOfEpoch(xs[k], width).counters == EpochTally(es, k, width).counters;
    }
  }

  /** `truth(k, i)` is what counter `i` really was at the `k`-th look at a thread. */
  ghost predicate TracksSeen(xs: seq<Seen>, truth: (nat, nat) -> nat) {
    forall k, i :: 0 <= k < |xs| && 0 <= i ==>
      (if i < |xs[k].counters| then xs[k].counters[i] else 0) == truth(k, i) % M
  }

  /** The epochs that are read have, one by one, the threads and the bytes moved that were seen, and arrays of
      the shape that the profiles are made from. */
  ghost predicate ReadAsSeen(xs: seq<Epoch>, seen: seq<Seen>, width: nat, rois: nat) {
    && |xs| == |seen|
    && (forall k :: 0 <= k < |xs| ==>
          xs[k].tid == seen[k].tid && xs[k].loads == seen[k].loads && xs[k].stores == seen[k].stores)
    && (width * rois < M ==> forall k :: 0 <= k < |xs| ==> Holds(TallyOfEpoch(xs[k], width), rois))
  }

  lemma EpochsAsSeen(xs: seq<Epoch>, es: seq<Entry>, seen: seq<Seen>, width: Word, rois: Word)
    requires AreEpochs(xs, es) && Records(es, seen) && AllSized(es, Cells(width, rois))
    ensures ReadAsSeen(xs, seen, width, rois)
  {
    if width * rois < M {
      SmallWord(width * rois);
    }
    forall k | 0 <= k < |xs|
      ensures xs[k].tid == seen[k].tid && xs[k].loads == seen[k].loads && xs[k].stores == seen[k].stores
      ensures width * rois < M ==> Holds(TallyOfEpoch(xs[k], width), rois)
    {
      assert IsEpoch(xs[k], es, k) && Keeps(es[k], seen[k]) && es[k] in es;
    }
  }

  lemma TruthSeen(es: seq<Entry>, seen: seq<Seen>, truth: (nat, nat) -> nat)
    requires Records(es, seen) && TracksSeen(seen, truth)
    ensures Tracks(es, truth)
  {
    forall k, i | 0 <= k < |es| && 0 <= i ensures Val(es[k], i) == truth(k, i) % M {
      assert Keeps(es[k], seen[k]);
    }
  }

  /** End to end: for every run of registrations and polls, thread ids used again included, the log that was
      written is accepted if and only if no counter has gone back between two looks at one thread id.  If it
      is, the epochs read have the threads and the bytes moved that were seen, and the profiles of each id's
      epochs sum to that of its final counters. */
  lemma HostLogIsRight(ops: seq<Op>, truth: (nat, nat) -> nat, width: Word, rois: Word, xs: seq<Epoch>, tid: Word,
                       log: seq<Record>, q: nat, f: nat)
    requires Legal(Init(), ops) && AllShaped(ops, width, rois) && Counted(f)
    requires TracksSeen(AllSeen(ops), truth) && Moves(Run(Init(), ops).entries, truth)
    ensures var es := Entries(LogOf(Run(Init(), ops)));
      && Records(es, AllSeen(ops))
      && (forall k :: 0 <= k < |es| ==> (Passes(es, k) <==> !WentBack(es, truth, k)))
      && ((forall k :: 0 <= k < |es| ==> Passes(es, k)) && AreEpochs(xs, es) ==>
            && ReadAsSeen(xs, AllSeen(ops), width, rois)
            && EpochSum(xs, |xs|, tid, width, log, rois, q, f)
              == Aggregated(Mere(width, Final(es, truth, |es|, tid, Cells(width, rois))), log, 0, rois, q, f))
  {
    assert f < FIELDS;
    hide *;
    LogReadsBack(ops, width, rois);
    RecordsAsPolled(ops, width, rois);
    var es := Run(Init(), ops).entries;
    TruthSeen(es, AllSeen(ops), truth);
    forall k | 0 <= k < |es| ensures Passes(es, k) <==> !WentBack(es, truth, k) {
      PassesIffForward(es, truth, k);
    }
    if (forall k :: 0 <= k < |es| ==> Passes(es, k)) && AreEpochs(xs, es) {
      ForwardGrows(es, truth, Cells(width, rois));
      EpochsAsSeen(xs, es, AllSeen(ops), width, rois);
      SameNumber(xs, es);
      EpochSumIs(xs, es, |es|, tid, width, log, rois, q, f);
      EpochProfilesSum(es, truth, |es|, tid, Cells(width, rois), width, log, rois, q, f);
    }
  }

  lemma SameNumber(xs: seq<Epoch>, es: seq<Entry>)
    requires AreEpochs(xs, es)
    ensures |xs| == |es|
  {
  }

  // ---- Bytes moved by intrinsics ---------------------------------------------

  ghost function Loaded(e: Entry, i: nat): Word {
    if i < |e.loads| then e.loads[i] else 0
  }

  /** The sum over a thread's epochs of what the reader takes for the bytes loaded. */
  ghost function LoadSum(es: seq<Entry>, n: nat, tid: Word, i: nat): nat
    requires n <= |es|
  {
    if n == 0 then 0 else LoadSum(es, n - 1, tid, i) + if es[n - 1].tid == tid then Loaded(es[n - 1], i) else 0
  }

  ghost predicate NoneLoaded(es: seq<Entry>, n: nat, tid: Word, i: nat)
    requires n <= |es|
  {
    forall k :: 0 <= k < n && es[k].tid == tid ==> Loaded(es[k], i) == 0
  }

  lemma {:induction false} NoneLoadedIffZero(es: seq<Entry>, n: nat, tid: Word, i: nat)
    requires n <= |es|
    ensures LoadSum(es, n, tid, i) == 0 <==> NoneLoaded(es, n, tid, i)
  {
    if n != 0 {
      NoneLoadedIffZero(es, n - 1, tid, i);
    }
  }

  lemma {:induction false} LoadSumAtLast(es: seq<Entry>, n: nat, tid: Word, i: nat)
    requires n <= |es| && Prev(es, n, tid) >= 0
    ensures LoadSum(es, n, tid, i) == LoadSum(es, Prev(es, n, tid), tid, i) + Loaded(es[Prev(es, n, tid)], i)
  {
    if es[n - 1].tid != tid {
      LoadSumAtLast(es, n - 1, tid, i);
    }
  }

  /** The bytes moved by intrinsics are cumulative in every record and are not turned into deltas:
      epochs sum to the final value exactly when it was zero in every record but the last. */
  lemma LoadsSumIffLate(es: seq<Entry>, tid: Word, i: nat)
    requires Prev(es, |es|, tid) >= 0
    ensures LoadSum(es, |es|, tid, i) == Loaded(es[Prev(es, |es|, tid)], i)
            <==> NoneLoaded(es, Prev(es, |es|, tid), tid, i)
  {
    LoadSumAtLast(es, |es|, tid, i);
    NoneLoadedIffZero(es, Prev(es, |es|, tid), tid, i);
  }

  /** A thread that moves its bytes before its first record has them counted again with every record. */
  lemma EarlyLoadsCountAgain(tid: Word, x: Word)
    requires 0 < x
    ensures var e := Entry(tid, [0], 1, [x], [0]);
      LoadSum([e, e], 2, tid, 0) == 2 * x && Prev([e, e], 2, tid) == 1 && Loaded(e, 0) == x
  {
    var e := Entry(tid, [0], 1, [x], [0]);
    assert LoadSum([e, e], 1, tid, 0) == LoadSum([e, e], 0, tid, 0) + x;
  }

  // ---- Thread ids used again -------------------------------------------------

  /** A thread with counter `x` is polled and unregistered; its id is registered again, and polled with
      counter `y`. */
  function Reused(tid: Word, x: Word, y: Word): seq<Op> {
    [Op.Register(tid, 1, 1, 0), Op.Poll([Seen(tid, 1, [x], [0], [0])]), Op.Unregister(tid),
     Op.Register(tid, 1, 1, 2), Op.Poll([Seen(tid, 3, [y], [0], [0])])]
  }

  function ReusedEntries(tid: Word, x: Word, y: Word): seq<Entry> {
    [Entry(tid, [x], 1, [0], [0]), Entry(tid, [y], 1, [0], [0])]
  }

  lemma OnePoll(s: State, x: Seen)
    requires s.since.Keys == {x.tid}
    ensures CanStep(s, Op.Poll([x])) && Step(s, Op.Poll([x])) == Take(s, x)
  {
    var seen := [x];
    assert seen[0].tid == x.tid && seen[..|seen| - 1] == [];
    assert TakeAll(s, []) == s;
    assert TakeAll(s, seen) == Take(TakeAll(s, seen[..|seen| - 1]), seen[|seen| - 1]);
  }

  lemma ReusedRuns(tid: Word, x: Word, y: Word)
    ensures Legal(Init(), Reused(tid, x, y)) && AllShaped(Reused(tid, x, y), 1, 1)
    ensures Run(Init(), Reused(tid, x, y)).entries == ReusedEntries(tid, x, y)
  {
    var a, b := Seen(tid, 1, [x], [0], [0]), Seen(tid, 3, [y], [0], [0]);
    var ops := Reused(tid, x, y);
    var s1 := Step(Init(), ops[0]);
    OnePoll(s1, a);
    var s2 := Take(s1, a);
    var s3 := Step(s2, ops[2]);
    assert s3.since == map[];
    var s4 := Step(s3, ops[3]);
    OnePoll(s4, b);
    var s5 := Take(s4, b);
    hide Step, CanStep, Take;
    assert ops[1..][1..] == ops[2..] && ops[2..][1..] == ops[3..] && ops[3..][1..] == ops[4..] && ops[4..][1..] == [];
    assert Legal(s5, []) && Run(s5, []) == s5;
    assert Legal(s4, ops[4..]) && Run(s4, ops[4..]) == s5;
    assert Legal(s3, ops[3..]) && Run(s3, ops[3..]) == s5;
    assert Legal(s2, ops[2..]) && Run(s2, ops[2..]) == s5;
    assert Legal(s1, ops[1..]) && Run(s1, ops[1..]) == s5;
  }

  /** The reader takes the two threads for one: below 2^63 it accepts the log if and only if the second has
      counted at least as much by its poll as the first had. */
  lemma ReusedIdRefusedIffLess(tid: Word, x: Word, y: Word)
    requires x < HALF && y < HALF
    ensures Legal(Init(), Reused(tid, x, y)) && AllShaped(Reused(tid, x, y), 1, 1)
    ensures var es := Entries(LogOf(Run(Init(), Reused(tid, x, y))));
      |es| == 2 && Passes(es, 0) && (Passes(es, 1) <==> x <= y)
  {
    ReusedRuns(tid, x, y);
    LogReadsBack(Reused(tid, x, y), 1, 1);
    hide LogOf, Entries, Run, Reused, Legal, AllShaped;
    var es := ReusedEntries(tid, x, y);
    assert Prev(es, 0, tid) == -1 && Prev(es, 1, tid) == 0;
    assert Val(es[0], 0) == x && Val(es[1], 0) == y;
    RefusedIffWentBack(es, 1);
    assert Passes(es, 1) <==> forall i :: 0 <= i < 1 ==> Val(es[0], i) <= Val(es[1], i);
  }
}
