/**
 Sampling as a whole: a checkpoint of ledgers and cohorts is loaded, one window is scanned, ledgers
 are pruned, and the result is stored or thrown away. Every sample of every run is covered here.
 */
module Sampling {
  import opened Wrappers
  import opened Telemetry
  import opened Join
  import opened Windows
  import opened JoinPass
  import opened Collector

  datatype LedgerRecord = LedgerRecord(retainFrom: int, slices: seq<Slice>)

  datatype Checkpoint = Checkpoint(ledgers: map<string, LedgerRecord>, cohorts: map<Key, CohortRecord>)

  function SlicesOf(cp: Checkpoint, identity: string): seq<Slice> {
    if identity in cp.ledgers then cp.ledgers[identity].slices else []
  }

  predicate Collecting(c: CohortRecord) {
    c.summary.None? && !c.terminalLost
  }

  ghost predicate CohortOk(j: Journal, slices: seq<Slice>, ws: int, c: CohortRecord) {
    if Collecting(c) then Scanning(j, slices, ws, c) else Settled(j, ws, c)
  }

  /** Every slice is the journal's own, every open window is tiled, every closed one counts the journal. */
  ghost predicate CheckpointOk(cp: Checkpoint, journal: string -> Journal) {
    && (forall id | id in cp.ledgers :: LedgerOk(journal(id), cp.ledgers[id].slices) && cp.ledgers[id].retainFrom >= 0)
    && (forall k | k in cp.cohorts :: CohortOk(journal(k.0), SlicesOf(cp, k.0), k.1, cp.cohorts[k]))
  }

  // ---------------------------------------------------------------- pruning

  function Retained(slices: seq<Slice>, keepFrom: int): (r: seq<Slice>)
    ensures forall s :: s in r <==> s in slices && s.end > keepFrom
  {
    if slices == [] then []
    else (if slices[0].end > keepFrom then [slices[0]] else []) + Retained(slices[1..], keepFrom)
  }

  lemma {:induction false} RetainedStaysSorted(slices: seq<Slice>, keepFrom: int)
    requires Sorted(slices)
    ensures Sorted(Retained(slices, keepFrom))
  {
    if slices != [] {
      SortedTail(slices);
      RetainedStaysSorted(slices[1..], keepFrom);
    }
  }

  /** The earliest time a ledger must keep: its own mark and every open window's scan start. */
  ghost predicate IsKeepFrom(cp: Checkpoint, id: string, k: int)
    requires id in cp.ledgers
  {
    && k <= cp.ledgers[id].retainFrom
    && (forall key | key in cp.cohorts && key.0 == id && Collecting(cp.cohorts[key]) :: k <= cp.cohorts[key].scanStart)
    && (k == cp.ledgers[id].retainFrom
        || exists key | key in cp.cohorts :: key.0 == id && Collecting(cp.cohorts[key]) && k == cp.cohorts[key].scanStart)
  }

  method KeepFrom(cp: Checkpoint, id: string) returns (k: int)
    requires id in cp.ledgers
    ensures IsKeepFrom(cp, id, k)
  {
    k := cp.ledgers[id].retainFrom;
    var rest := cp.cohorts.Keys;
    while rest != {}
      invariant rest <= cp.cohorts.Keys
      invariant k <= cp.ledgers[id].retainFrom
      invariant forall key | key in cp.cohorts && key !in rest && key.0 == id && Collecting(cp.cohorts[key]) :: k <= cp.cohorts[key].scanStart
      invariant k == cp.ledgers[id].retainFrom
                || exists key | key in cp.cohorts :: key.0 == id && Collecting(cp.cohorts[key]) && k == cp.cohorts[key].scanStart
    {
      var key :| key in rest;
      rest := rest - {key};
      if Collecting(cp.cohorts[key]) && key.0 == id && cp.cohorts[key].scanStart < k { k := cp.cohorts[key].scanStart; }
    }
  }

  /** What a ledger is left with: the slices that end after its keep mark, or nothing at all. */
  ghost predicate PrunedAt(cp: Checkpoint, ledgers: map<string, LedgerRecord>, id: string)
    requires id in cp.ledgers
  {
    exists k :: IsKeepFrom(cp, id, k) &&
                var kept := Retained(cp.ledgers[id].slices, k);
                if kept == [] then id !in ledgers
                else id in ledgers && ledgers[id] == LedgerRecord(cp.ledgers[id].retainFrom, kept)
  }

  ghost predicate Pruned(cp: Checkpoint, r: Checkpoint) {
    && r.cohorts == cp.cohorts
    && r.ledgers.Keys <= cp.ledgers.Keys
    && forall id | id in cp.ledgers :: PrunedAt(cp, r.ledgers, id)
  }

  method Prune(cp: Checkpoint) returns (r: Checkpoint)
    ensures Pruned(cp, r)
  {
    var ledgers: map<string, LedgerRecord> := map[];
    var rest := cp.ledgers.Keys;
    while rest != {}
      invariant rest <= cp.ledgers.Keys
      invariant ledgers.Keys <= cp.ledgers.Keys - rest
      invariant forall id | id in cp.ledgers && id !in rest :: PrunedAt(cp, ledgers, id)
    {
      var id :| id in rest;
      var k := KeepFrom(cp, id);
      var kept := Retained(cp.ledgers[id].slices, k);
      var before := ledgers;
      if kept != [] { ledgers := ledgers[id := LedgerRecord(cp.ledgers[id].retainFrom, kept)]; }
      rest := rest - {id};
      assert PrunedAt(cp, ledgers, id);
      forall other | other in cp.ledgers && other !in rest && other != id ensures PrunedAt(cp, ledgers, other) {
        assert PrunedAt(cp, before, other);
      }
    }
    r := Checkpoint(ledgers, cp.cohorts);
  }

  /** Pruning leaves the tiling of every open window exactly as it was, even when its ledger goes. */
  lemma PruningKeepsTilings(cp: Checkpoint, r: Checkpoint, journal: string -> Journal, key: Key)
    requires CheckpointOk(cp, journal) && Pruned(cp, r)
    requires key in cp.cohorts && Collecting(cp.cohorts[key])
    ensures var c := cp.cohorts[key];
            TilesOf(SlicesOf(r, key.0), c.scanStart, c.scanEnd) == TilesOf(SlicesOf(cp, key.0), c.scanStart, c.scanEnd)
    ensures Scanning(journal(key.0), SlicesOf(r, key.0), key.1, cp.cohorts[key])
  {
    var c, id := cp.cohorts[key], key.0;
    var j, before, after := journal(id), SlicesOf(cp, id), SlicesOf(r, id);
    assert CohortOk(j, before, key.1, c);
    if id in cp.ledgers {
      assert PrunedAt(cp, r.ledgers, id);
      var k :| IsKeepFrom(cp, id, k) &&
               var kept := Retained(before, k);
               if kept == [] then id !in r.ledgers else id in r.ledgers && r.ledgers[id] == LedgerRecord(cp.ledgers[id].retainFrom, kept);
      assert after == Retained(before, k);
      RetainedStaysSorted(before, k);
      FitsInOther(before, after, c.scanStart, c.scanEnd, c.boot);
    } else {
      assert before == after == [];
    }
  }

  lemma PruningKeepsCheckpoint(cp: Checkpoint, r: Checkpoint, journal: string -> Journal)
    requires CheckpointOk(cp, journal) && Pruned(cp, r)
    ensures CheckpointOk(r, journal)
  {
    forall key | key in r.cohorts ensures CohortOk(journal(key.0), SlicesOf(r, key.0), key.1, r.cohorts[key]) {
      assert CohortOk(journal(key.0), SlicesOf(cp, key.0), key.1, cp.cohorts[key]);
      if Collecting(r.cohorts[key]) { PruningKeepsTilings(cp, r, journal, key); }
    }
    forall id | id in r.ledgers ensures LedgerOk(journal(id), r.ledgers[id].slices) {
      assert PrunedAt(cp, r.ledgers, id);
      var k :| IsKeepFrom(cp, id, k) && r.ledgers[id].slices == Retained(cp.ledgers[id].slices, k);
      RetainedStaysSorted(cp.ledgers[id].slices, k);
    }
  }

  // ---------------------------------------------------------------- the checks made on storing

  predicate AcceptsSlice(s: Slice) {
    && 0 <= s.start < s.end <= s.start + SLICE
    && (forall e | e in s.events :: s.start <= e.at < s.end)
    && (s.lifecycleAt.Some? ==> s.start <= s.lifecycleAt.value < s.end)
    && |s.events| <= MAX_ENTRIES
  }

  predicate AcceptsLedger(ledger: LedgerRecord) {
    && |ledger.slices| <= MAX_ENTRIES && ledger.retainFrom >= 0
    && (forall s | s in ledger.slices :: AcceptsSlice(s))
    && forall i | 0 < i < |ledger.slices| :: ledger.slices[i - 1].end <= ledger.slices[i].start
  }

  predicate AcceptsCohort(slices: seq<Slice>, ws: int, c: CohortRecord) {
    && (c.summary.Some? ==> AcceptsSummary(c.summary.value))
    && !(c.terminalLost && c.summary.Some?)
    && 0 <= c.scanStart <= ws <= c.scanEnd
    && (c.summary.Some? || c.terminalLost ==> c.scanEnd >= ws + SLICE && c.boot.Some?)
    && (c.summary.None? && !c.terminalLost ==> Fits(slices, c.scanStart, c.scanEnd, c.boot))
  }

  /**
   Nothing the collector produces is refused by the structural checks of its own store, except for a
   ledger that has grown beyond the cap on slices.
   */
  lemma StoreNeverRefuses(cp: Checkpoint, journal: string -> Journal)
    requires CheckpointOk(cp, journal)
    ensures forall id | id in cp.ledgers :: AcceptsLedger(cp.ledgers[id]) <==> |cp.ledgers[id].slices| <= MAX_ENTRIES
    ensures forall k | k in cp.cohorts :: AcceptsCohort(SlicesOf(cp, k.0), k.1, cp.cohorts[k])
  {
    forall id | id in cp.ledgers ensures AcceptsLedger(cp.ledgers[id]) <==> |cp.ledgers[id].slices| <= MAX_ENTRIES {
      assert LedgerOk(journal(id), cp.ledgers[id].slices);
    }
    forall k | k in cp.cohorts ensures AcceptsCohort(SlicesOf(cp, k.0), k.1, cp.cohorts[k]) {
      assert CohortOk(journal(k.0), SlicesOf(cp, k.0), k.1, cp.cohorts[k]);
    }
  }

  /** Neighbours that do not overlap are enough for the whole order. */
  lemma {:induction false} NeighboursSort(slices: seq<Slice>, i: nat, k: nat)
    requires i < k < |slices| && forall s | s in slices :: s.start < s.end
    requires forall n | 0 < n < |slices| :: slices[n - 1].end <= slices[n].start
    ensures slices[i].end <= slices[k].start
    decreases k - i
  {
    if i + 1 < k {
      NeighboursSort(slices, i, k - 1);
      assert slices[k - 1] in slices;
    }
  }

  lemma AcceptedLedgerIsSorted(ledger: LedgerRecord)
    requires AcceptsLedger(ledger)
    ensures Sorted(ledger.slices)
  {
    forall i, k | 0 <= i < k < |ledger.slices| ensures ledger.slices[i].end <= ledger.slices[k].start {
      NeighboursSort(ledger.slices, i, k);
    }
  }

  /** In an accepted ledger, whatever a later slice holds happened after all that an earlier one holds. */
  lemma AcceptedLedgerInTimeOrder(ledger: LedgerRecord, i: nat, k: nat)
    requires AcceptsLedger(ledger) && i < k < |ledger.slices|
    ensures forall e, f | e in ledger.slices[i].events && f in ledger.slices[k].events :: e.at < f.at
    ensures ledger.slices[i].lifecycleAt.Some? && ledger.slices[k].lifecycleAt.Some? ==>
              ledger.slices[i].lifecycleAt.value < ledger.slices[k].lifecycleAt.value
  {
    NeighboursSort(ledger.slices, i, k);
    assert AcceptsSlice(ledger.slices[i]) && AcceptsSlice(ledger.slices[k]);
  }

  /** What a stored checkpoint says of the journal is true; nothing is said of its structure. */
  ghost predicate Truthful(cp: Checkpoint, journal: string -> Journal) {
    && (forall id | id in cp.ledgers :: forall s | s in cp.ledgers[id].slices ::
          s.events == Between(journal(id).events, s.start, s.end) && s.lifecycleAt == LatestMark(journal(id).marks, s.start, s.end))
    && (forall k | k in cp.cohorts :: TruthfulCohort(journal(k.0), k.1, cp.cohorts[k]))
  }

  ghost predicate TruthfulCohort(j: Journal, ws: int, c: CohortRecord) {
    && (c.terminalLost ==> TerminalLost(EventsIn(j, c.scanStart, c.scanEnd), j.marks, c.scanStart, c.scanEnd, ws, ws + SLICE))
    && (c.summary.Some? ==> Completed(j, c.scanStart, c.scanEnd, ws, c.summary.value))
  }

  /** The checks ask for enough: whatever truthful checkpoint they accept, the collector can go on from. */
  lemma AcceptedIsUsable(cp: Checkpoint, journal: string -> Journal)
    requires forall id | id in cp.ledgers :: AcceptsLedger(cp.ledgers[id])
    requires forall k | k in cp.cohorts :: AcceptsCohort(SlicesOf(cp, k.0), k.1, cp.cohorts[k])
    requires Truthful(cp, journal)
    ensures CheckpointOk(cp, journal)
  {
    forall id | id in cp.ledgers ensures LedgerOk(journal(id), cp.ledgers[id].slices) && cp.ledgers[id].retainFrom >= 0 {
      assert AcceptsLedger(cp.ledgers[id]);
      AcceptedLedgerIsSorted(cp.ledgers[id]);
    }
    forall k | k in cp.cohorts ensures CohortOk(journal(k.0), SlicesOf(cp, k.0), k.1, cp.cohorts[k]) {
      assert AcceptsCohort(SlicesOf(cp, k.0), k.1, cp.cohorts[k]) && TruthfulCohort(journal(k.0), k.1, cp.cohorts[k]);
    }
  }

  /** Building the reported sample from stored counts never throws, whatever kinds count as timeouts. */
  lemma SampleNeverRefused(s: Summary, timeoutKinds: seq<string>)
    requires AcceptsSummary(s)
    ensures s.fiveXx <= s.requests && s.streamFailures <= s.requests && TotalOf(s.failures, timeoutKinds) <= s.requests
  {
    TimeoutsAtMostTotal(s.failures, timeoutKinds);
  }

  // ---------------------------------------------------------------- one sample

  function Updated(cp: Checkpoint, id: string, ws: int, ledger: LedgerRecord, c: CohortRecord): Checkpoint {
    Checkpoint(cp.ledgers[id := ledger], cp.cohorts[(id, ws) := c])
  }

  lemma UpdateKeepsCheckpoint(cp: Checkpoint, journal: string -> Journal, id: string, ws: int, ledger: LedgerRecord, c: CohortRecord)
    requires CheckpointOk(cp, journal)
    requires LedgerOk(journal(id), ledger.slices) && forall s | s in SlicesOf(cp, id) :: s in ledger.slices
    requires CohortOk(journal(id), ledger.slices, ws, c) && ledger.retainFrom >= 0
    ensures CheckpointOk(Updated(cp, id, ws, ledger, c), journal)
  {
    var r := Updated(cp, id, ws, ledger, c);
    forall key | key in r.cohorts ensures CohortOk(journal(key.0), SlicesOf(r, key.0), key.1, r.cohorts[key]) {
      if key != (id, ws) {
        assert CohortOk(journal(key.0), SlicesOf(cp, key.0), key.1, cp.cohorts[key]);
        if key.0 == id && Collecting(cp.cohorts[key]) {
          FitsInOther(SlicesOf(cp, id), ledger.slices, cp.cohorts[key].scanStart, cp.cohorts[key].scanEnd, cp.cohorts[key].boot);
        }
      }
    }
  }

  lemma DroppingKeepsCheckpoint(cp: Checkpoint, journal: string -> Journal, key: Key)
    requires CheckpointOk(cp, journal)
    ensures CheckpointOk(cp.(cohorts := cp.cohorts - {key}), journal)
  {
    var r := cp.(cohorts := cp.cohorts - {key});
    forall k | k in r.cohorts ensures CohortOk(journal(k.0), SlicesOf(r, k.0), k.1, r.cohorts[k]) {
      assert CohortOk(journal(k.0), SlicesOf(cp, k.0), k.1, cp.cohorts[k]);
    }
  }

  /** One request: which window of which release, when, and what the store will answer. */
  datatype Request = Request(
    identity: string, windowStart: int, sampledAt: int, lag: nat, retention: nat, baseline: bool, stored: bool, newTick: bool)

  /** The stored window has had its last word. */
  predicate IsFinal(cp: Checkpoint, q: Request) {
    (q.identity, q.windowStart) in cp.cohorts && !Collecting(cp.cohorts[(q.identity, q.windowStart)])
  }

  /** The reads that one window may make in so many ticks. */
  function Reads(ticks: nat): (r: nat)
    ensures r == 16 * ticks
  {
    if ticks == 0 then 0 else Reads(ticks - 1) + COHORT_TICK_SLICES
  }

  /** The cohort of the request, as it is stored or as it begins. */
  function CohortOf(cp: Checkpoint, q: Request): CohortRecord {
    if (q.identity, q.windowStart) in cp.cohorts then cp.cohorts[(q.identity, q.windowStart)]
    else CohortRecord(q.windowStart, q.windowStart, None, None, false)
  }

  /** How much of the journal the window may still have to read. */
  function Left(cp: Checkpoint, q: Request): int {
    Potential(CohortOf(cp, q), q.sampledAt - q.lag)
  }

  /** However little of a window was read, no more is left than the journal up to the sample and one slice. */
  lemma LeftIsBounded(cp: Checkpoint, journal: string -> Journal, q: Request)
    requires CheckpointOk(cp, journal) && InScope(q) && !IsFinal(cp, q)
    ensures Left(cp, q) <= q.sampledAt + SLICE
  {
    var key := (q.identity, q.windowStart);
    if key in cp.cohorts {
      assert CohortOk(journal(key.0), SlicesOf(cp, key.0), key.1, cp.cohorts[key]);
    }
  }

  lemma PruningOnlyDrops(cp: Checkpoint, r: Checkpoint, id: string)
    requires Pruned(cp, r)
    ensures forall s | s in SlicesOf(r, id) :: s in SlicesOf(cp, id)
  {
    if id in cp.ledgers {
      assert PrunedAt(cp, r.ledgers, id);
    }
  }

  /** No other window is touched. */
  ghost predicate OthersKept(cp: Checkpoint, r: Checkpoint, q: Request) {
    forall k | k != (q.identity, q.windowStart) :: (k in r.cohorts <==> k in cp.cohorts) && (k in cp.cohorts ==> r.cohorts[k] == cp.cohorts[k])
  }

  /** Counts, when reported, are those of the journal over some range, and pass the sample checks. */
  ghost predicate Honest(journal: string -> Journal, q: Request, counts: Option<Summary>) {
    counts.Some? ==> CountsTheJournal(journal(q.identity), q.windowStart, counts.value) && AcceptsSummary(counts.value)
  }

  /** The window has ended, and is not older than the evidence that is kept. */
  predicate InScope(q: Request) {
    0 <= q.windowStart && q.windowStart + SLICE <= q.sampledAt && q.sampledAt - q.retention <= q.windowStart
  }

  function Floor(q: Request): (r: int)
    ensures r >= 0
  {
    if q.sampledAt > q.retention then q.sampledAt - q.retention else 0
  }

  class Monitor {
    const metrics: VpsJournalMetrics
    var saved: Checkpoint

    constructor (metrics: VpsJournalMetrics)
      ensures this.metrics == metrics && saved == Checkpoint(map[], map[])
    {
      this.metrics, saved := metrics, Checkpoint(map[], map[]);
    }

    /** Nothing in the journal or its answers gives a scan of this window a reason to refuse. */
    ghost predicate Quiet(q: Request) {
      var j := metrics.journal(q.identity);
      metrics.Answering(q.identity) && WellLinked(j, Floor(q)) && forall a, b :: Joinable(j, a, b, q.windowStart)
    }

    /** And what was proven before is of the boot that answers now. */
    ghost predicate BootKept(cp: Checkpoint, q: Request) {
      metrics.SameBoot(SlicesOf(cp, q.identity), CohortOf(cp, q).boot)
    }

    ghost predicate Untroubled(cp: Checkpoint, q: Request) {
      Quiet(q) && BootKept(cp, q)
    }

    /** A tick that leaves the window open has read as many slices as one window may. */
    ghost predicate Progressed(before: Checkpoint, after: Checkpoint, q: Request) {
      IsFinal(after, q) || (BootKept(after, q) && Left(after, q) + COHORT_TICK_SLICES <= Left(before, q))
    }

    /** The tick has just begun. */
    ghost predicate NewTick()
      reads metrics
    {
      metrics.budget == TICK_SLICES && metrics.spent == map[]
    }

    /** Every request of the window has ended within the available journal, and ticks are not cut short. */
    ghost predicate Attentive(q: Request) {
      metrics.Unhindered() && EndedBy(metrics.journal(q.identity), q.windowStart, q.sampledAt - q.lag)
    }

    /** A scan of an open window: its ledger and cohort afterwards, or nothing when the scan refused. */
    method ScanOpen(cp: Checkpoint, q: Request, c: CohortRecord) returns (r: Option<(LedgerRecord, CohortRecord)>)
      requires metrics.WithinShare() && InScope(q)
      requires Scanning(metrics.journal(q.identity), SlicesOf(cp, q.identity), q.windowStart, c)
      modifies metrics
      ensures metrics.WithinShare()
      ensures r.None? ==>
                !(&& metrics.Answering(q.identity) && metrics.SameBoot(SlicesOf(cp, q.identity), c.boot)
                  && WellLinked(metrics.journal(q.identity), Floor(q))
                  && forall a, b :: Joinable(metrics.journal(q.identity), a, b, q.windowStart))
      ensures r.Some? ==>
                && LedgerOk(metrics.journal(q.identity), r.value.0.slices) && r.value.0.retainFrom >= 0
                && (forall s | s in SlicesOf(cp, q.identity) :: s in r.value.0.slices)
                && CohortOk(metrics.journal(q.identity), r.value.0.slices, q.windowStart, r.value.1)
      ensures r.Some? && Collecting(r.value.1) && metrics.Answering(q.identity) && metrics.SameBoot(SlicesOf(cp, q.identity), c.boot) ==>
                metrics.SameBoot(r.value.0.slices, r.value.1.boot)
      ensures r.Some? && Collecting(r.value.1) && old(NewTick()) && Attentive(q) ==>
                Potential(r.value.1, q.sampledAt - q.lag) + COHORT_TICK_SLICES <= Potential(c, q.sampledAt - q.lag)
    {
      var id, ws := q.identity, q.windowStart;
      var ledger := new Ledger(if id in cp.ledgers then cp.ledgers[id].retainFrom else ws, SlicesOf(cp, id));
      var cohort := new Cohort(ws, c);
      assert cohort.boot == c.boot && ledger.slices == SlicesOf(cp, id);
      var end := metrics.Scan(id, ledger, cohort, (id, ws), Floor(q), q.sampledAt - q.lag);
      if end.Refused? {
        assert end.why == QueryFailed || end.why == Unjoinable || end.why == AdmissionLost;
        return None;
      }
      ledger.retainFrom := if end.Lost? then cohort.scanEnd else cohort.scanStart;
      r := Some((LedgerRecord(ledger.retainFrom, ledger.slices), cohort.Record()));
    }

    /** The checkpoint after scanning a window, or nothing when the scan refused; a final window is not scanned again. */
    method ScanWindow(cp: Checkpoint, q: Request) returns (r: Option<Checkpoint>)
      requires metrics.WithinShare() && CheckpointOk(cp, metrics.journal) && InScope(q)
      modifies metrics
      ensures metrics.WithinShare()
      ensures Untroubled(cp, q) ==> r.Some?
      ensures r.Some? ==> CheckpointOk(r.value, metrics.journal) && (q.identity, q.windowStart) in r.value.cohorts
      ensures IsFinal(cp, q) ==> r == Some(cp)
      ensures r.Some? ==> OthersKept(cp, r.value, q)
      ensures r.Some? && !IsFinal(cp, q) && Untroubled(cp, q) && old(NewTick()) && Attentive(q) ==> Progressed(cp, r.value, q)
    {
      var id, ws := q.identity, q.windowStart;
      var key := (id, ws);
      var c := if key in cp.cohorts then cp.cohorts[key] else CohortRecord(ws, ws, None, None, false);
      if key in cp.cohorts { assert CohortOk(metrics.journal(id), SlicesOf(cp, id), ws, c); }
      if !Collecting(c) { return Some(cp); }
      var scanned := ScanOpen(cp, q, c);
      if scanned.None? { return None; }
      UpdateKeepsCheckpoint(cp, metrics.journal, id, ws, scanned.value.0, scanned.value.1);
      return Some(Updated(cp, id, ws, scanned.value.0, scanned.value.1));
    }

    /** Scans one window and stores what was proven; the counts returned are the journal's. */
    method Sample(q: Request) returns (counts: Option<Summary>)
      requires metrics.WithinShare() && CheckpointOk(saved, metrics.journal)
      modifies this`saved, metrics
      ensures metrics.WithinShare() && CheckpointOk(saved, metrics.journal)
      ensures Honest(metrics.journal, q, counts)
      ensures !q.stored || !InScope(q) ==> saved == old(saved) && counts.None?
      ensures q.stored && InScope(q) && IsFinal(old(saved), q) ==> counts == old(saved).cohorts[(q.identity, q.windowStart)].summary
      ensures counts.Some? ==>
                if q.baseline then (q.identity, q.windowStart) !in saved.cohorts
                else (q.identity, q.windowStart) in saved.cohorts && saved.cohorts[(q.identity, q.windowStart)].summary == counts
      ensures q.stored && InScope(q) && counts.None? && Untroubled(old(saved), q) ==>
                (q.identity, q.windowStart) in saved.cohorts && saved.cohorts[(q.identity, q.windowStart)].summary.None?
      ensures OthersKept(old(saved), saved, q)
      ensures q.stored && InScope(q) && !IsFinal(old(saved), q) && Untroubled(old(saved), q) && Attentive(q) && old(NewTick()) ==>
                counts.Some? || Progressed(old(saved), saved, q)
    {
      if q.windowStart < 0 || q.windowStart + SLICE > q.sampledAt { return None; }
      if q.windowStart < Floor(q) { return None; }
      var scanned := ScanWindow(saved, q);
      if scanned.None? { return None; }
      counts := scanned.value.cohorts[(q.identity, q.windowStart)].summary;
      var condensed := Condense(scanned.value, q);
      if !q.stored { return None; }
      saved := condensed;
    }

    /** A counted baseline window is dropped, and the ledgers are pruned. */
    method Condense(cp: Checkpoint, q: Request) returns (r: Checkpoint)
      requires CheckpointOk(cp, metrics.journal) && (q.identity, q.windowStart) in cp.cohorts
      ensures CheckpointOk(r, metrics.journal) && OthersKept(cp, r, q)
      ensures var key := (q.identity, q.windowStart);
              if cp.cohorts[key].summary.Some? && q.baseline then key !in r.cohorts
              else key in r.cohorts && r.cohorts[key] == cp.cohorts[key]
      ensures forall s | s in SlicesOf(r, q.identity) :: s in SlicesOf(cp, q.identity)
      ensures var c := cp.cohorts[(q.identity, q.windowStart)];
              c.summary.Some? ==> CountsTheJournal(metrics.journal(q.identity), q.windowStart, c.summary.value) && AcceptsSummary(c.summary.value)
    {
      var key := (q.identity, q.windowStart);
      assert CohortOk(metrics.journal(q.identity), SlicesOf(cp, q.identity), q.windowStart, cp.cohorts[key]);
      var kept := cp;
      if cp.cohorts[key].summary.Some? && q.baseline {
        DroppingKeepsCheckpoint(cp, metrics.journal, key);
        kept := cp.(cohorts := cp.cohorts - {key});
      }
      r := Prune(kept);
      PruningKeepsCheckpoint(kept, r, metrics.journal);
      PruningOnlyDrops(kept, r, q.identity);
    }

    /** One tick for one window. */
    method Tick(q: Request) returns (counts: Option<Summary>)
      requires metrics.WithinShare() && CheckpointOk(saved, metrics.journal)
      modifies this`saved, metrics
      ensures metrics.WithinShare() && CheckpointOk(saved, metrics.journal)
      ensures Honest(metrics.journal, q, counts)
      ensures q.stored && InScope(q) && !IsFinal(old(saved), q) && Untroubled(old(saved), q) && Attentive(q) ==>
                counts.Some? || Progressed(old(saved), saved, q)
    {
      metrics.BeginTick();
      counts := Sample(q);
    }

    /**
     Enough ticks settle a window: with nothing in the journal to refuse it, every request in it ended
     and no tick cut short, each tick that does not settle it reads as many slices as one window may.
     */
    method Await(q: Request, ticks: nat) returns (counts: Option<Summary>)
      requires metrics.WithinShare() && CheckpointOk(saved, metrics.journal)
      modifies this`saved, metrics
      ensures metrics.WithinShare() && CheckpointOk(saved, metrics.journal)
      ensures Honest(metrics.journal, q, counts)
      ensures q.stored && InScope(q) && Untroubled(old(saved), q) && Attentive(q) && Reads(ticks) > Left(old(saved), q) ==>
                counts.Some? || IsFinal(saved, q)
      ensures q.stored && InScope(q) && Untroubled(old(saved), q) && Attentive(q) && 16 * ticks > q.sampledAt + SLICE ==>
                counts.Some? || IsFinal(saved, q)
      decreases ticks
    {
      if InScope(q) && !IsFinal(saved, q) { LeftIsBounded(saved, metrics.journal, q); }
      hide CheckpointOk, Quiet, Attentive, Honest, BootKept;
      counts := Known(q);
      if ticks == 0 || IsFinal(saved, q) { return; }
      ghost var before := saved;
      counts := Tick(q);
      if counts.Some? || IsFinal(saved, q) { return; }
      if Progressed(before, saved, q) { OneTickLess(before, saved, q, ticks); }
      counts := Await(q, ticks - 1);
    }

    lemma OneTickLess(before: Checkpoint, after: Checkpoint, q: Request, ticks: nat)
      requires Progressed(before, after, q) && !IsFinal(after, q) && ticks > 0
      ensures BootKept(after, q) && (Reads(ticks) > Left(before, q) ==> Reads(ticks - 1) > Left(after, q))
    {}

    /** What is stored of the window; an open one still has something to read. */
    method Known(q: Request) returns (counts: Option<Summary>)
      requires CheckpointOk(saved, metrics.journal)
      ensures Honest(metrics.journal, q, counts)
      ensures InScope(q) && !IsFinal(saved, q) ==> Left(saved, q) >= 0
    {
      counts := None;
      if (q.identity, q.windowStart) in saved.cohorts {
        counts := saved.cohorts[(q.identity, q.windowStart)].summary;
        assert CohortOk(metrics.journal(q.identity), SlicesOf(saved, q.identity), q.windowStart, saved.cohorts[(q.identity, q.windowStart)]);
      }
    }

    /** A sample, in a new tick if one begins. */
    method Answer(q: Request) returns (counts: Option<Summary>)
      requires metrics.WithinShare() && CheckpointOk(saved, metrics.journal)
      modifies this`saved, metrics
      ensures metrics.WithinShare() && CheckpointOk(saved, metrics.journal)
      ensures Honest(metrics.journal, q, counts)
    {
      if q.newTick { metrics.BeginTick(); }
      counts := Sample(q);
    }

    /** Any run of samples, over any windows in any order, with any answers from journal and store. */
    method Run(requests: seq<Request>) returns (results: seq<Option<Summary>>)
      requires metrics.WithinShare() && CheckpointOk(saved, metrics.journal)
      modifies this`saved, metrics
      ensures metrics.WithinShare() && CheckpointOk(saved, metrics.journal)
      ensures |results| == |requests|
      ensures forall i | 0 <= i < |requests| :: Honest(metrics.journal, requests[i], results[i])
    {
      results := [];
      for i := 0 to |requests|
        invariant metrics.WithinShare() && CheckpointOk(saved, metrics.journal)
        invariant |results| == i
        invariant forall k | 0 <= k < i :: Honest(metrics.journal, requests[k], results[k])
      {
        var counts := Answer(requests[i]);
        results := results + [counts];
      }
    }
  }

  /** Two samples of one window, from any two runs over the same journal, report the same counts. */
  lemma SamplesAgree(j: Journal, ws: int, s: Summary, r: Summary)
    requires CountsTheJournal(j, ws, s) && CountsTheJournal(j, ws, r)
    requires forall a, b :: Consistent(EventsIn(j, a, b))
    ensures s == r
  {
    var a, b :| Completed(j, a, b, ws, s);
    var c, d :| Completed(j, c, d, ws, r);
    CompletionsAgree(j, a, b, c, d, ws, s, r);
  }
}
