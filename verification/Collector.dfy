/**
 The collector: each window (cohort) grows a proven range over the shared ledger of its release,
 forward for terminals and backward for admissions, until it is complete or known to be lost.
 */
module Collector {
  import opened Wrappers
  import opened Telemetry
  import opened Join
  import opened JoinPass
  import opened Windows

  const TICK_SLICES := 64
  const COHORT_TICK_SLICES := 16

  /** What one bounded journal query answers; when it answers at all, with the journal's own rows. */
  datatype Reply = Elapsed | Unavailable | Covered(boot: string)

  type Key = (string, int)

  // ---------------------------------------------------------------- a cohort on a ledger

  ghost predicate LedgerOk(j: Journal, slices: seq<Slice>) {
    Sorted(slices) && forall s | s in slices :: Proven(j, s) && |s.events| <= MAX_ENTRIES
  }

  /** The range is tiled by ledger slices of one boot; an empty range has no boot yet. */
  predicate Fits(slices: seq<Slice>, a: int, b: int, boot: Option<string>) {
    var tiles := TilesOf(slices, a, b);
    && tiles.Some?
    && (tiles.value == [] <==> boot.None?)
    && forall t | t in tiles.value :: Some(t.boot) == boot
  }

  predicate Straddled(slices: seq<Slice>, x: int) {
    exists s | s in slices :: s.start < x < s.end
  }

  lemma SortedMeansDisjoint(slices: seq<Slice>, s: Slice, t: Slice)
    requires Sorted(slices) && s in slices && t in slices && s != t
    ensures Disjoint(s, t)
  {
    var i :| 0 <= i < |slices| && slices[i] == s;
    var k :| 0 <= k < |slices| && slices[k] == t;
  }

  /** The edges of a proven range lie on slice boundaries. */
  lemma EdgesAreBoundaries(slices: seq<Slice>, a: int, b: int, boot: Option<string>)
    requires Sorted(slices) && Fits(slices, a, b, boot) && a < b
    ensures !Straddled(slices, a) && !Straddled(slices, b)
  {
    var tiles := TilesOf(slices, a, b).value;
    TilesAreAChain(slices, a, b);
    ChainBounds(tiles, a, b);
    var first, last := tiles[0], tiles[|tiles| - 1];
    assert first in tiles && last in tiles;
    forall s | s in slices ensures !(s.start < a < s.end) && !(s.start < b < s.end) {
      if s != first { SortedMeansDisjoint(slices, s, first); }
      if s != last { SortedMeansDisjoint(slices, s, last); }
    }
  }

  lemma AdoptForward(slices: seq<Slice>, a: int, b: int, boot: Option<string>, s: Slice)
    requires Sorted(slices) && Fits(slices, a, b, boot)
    requires s in slices && s.start == b && (boot.None? || boot == Some(s.boot))
    ensures Fits(slices, a, s.end, Some(s.boot))
  {
    var tiles := TilesOf(slices, a, b).value;
    TilesAreAChain(slices, a, b);
    ChainAppend(tiles, s, a);
    ChainIsFound(slices, tiles + [s], a, s.end);
  }

  lemma AdoptBackward(slices: seq<Slice>, a: int, b: int, boot: Option<string>, s: Slice)
    requires Sorted(slices) && Fits(slices, a, b, boot)
    requires s in slices && s.end == a && (boot.None? || boot == Some(s.boot))
    ensures Fits(slices, s.start, b, Some(s.boot))
  {
    var tiles := TilesOf(slices, a, b).value;
    TilesAreAChain(slices, a, b);
    assert ([s] + tiles)[1..] == tiles;
    ChainIsFound(slices, [s] + tiles, s.start, b);
  }

  /** More slices, or fewer of those outside it, leave a proven range as it was. */
  lemma FitsInOther(slices: seq<Slice>, other: seq<Slice>, a: int, b: int, boot: Option<string>)
    requires Sorted(slices) && Sorted(other) && Fits(slices, a, b, boot)
    requires forall s | s in slices && a <= s.start && s.end <= b :: s in other
    ensures Fits(other, a, b, boot) && TilesOf(other, a, b) == TilesOf(slices, a, b)
  {
    var tiles := TilesOf(slices, a, b).value;
    TilesAreAChain(slices, a, b);
    ChainBounds(tiles, a, b);
    ChainIsFound(other, tiles, a, b);
  }

  // ---------------------------------------------------------------- how far a read may go

  function Max(a: int, b: int): int { if a > b then a else b }

  function Min(a: int, b: int): int { if a < b then a else b }

  /** The lowest start of a backward read: past every slice that ends before the edge. */
  function ReadFrom(slices: seq<Slice>, edge: int, least: int): (r: int)
    requires least < edge
    ensures least <= r < edge
    ensures forall s | s in slices && s.end < edge :: s.end <= r
    ensures r == least || exists s | s in slices :: s.end == r
  {
    if slices == [] then least
    else
      var rest := ReadFrom(slices[1..], edge, least);
      var r := if slices[0].end < edge && slices[0].end > rest then slices[0].end else rest;
      assert forall s | s in slices :: s == slices[0] || s in slices[1..];
      assert r == slices[0].end ==> slices[0] in slices;
      r
  }

  /** The highest end of a forward read: short of every slice that starts after the edge. */
  function ReadTo(slices: seq<Slice>, edge: int, most: int): (r: int)
    requires edge < most
    ensures edge < r <= most
    ensures forall s | s in slices && s.start > edge :: r <= s.start
    ensures r == most || exists s | s in slices :: s.start == r
  {
    if slices == [] then most
    else
      var rest := ReadTo(slices[1..], edge, most);
      var r := if slices[0].start > edge && slices[0].start < rest then slices[0].start else rest;
      assert forall s | s in slices :: s == slices[0] || s in slices[1..];
      assert r == slices[0].start ==> slices[0] in slices;
      r
  }

  lemma ForwardGapIsFree(slices: seq<Slice>, edge: int, most: int)
    requires Sorted(slices) && edge < most && !Straddled(slices, edge)
    requires forall s | s in slices :: s.start != edge
    ensures forall s | s in slices :: s.end <= edge || ReadTo(slices, edge, most) <= s.start
  {
  }

  lemma BackwardGapIsFree(slices: seq<Slice>, edge: int, least: int)
    requires Sorted(slices) && least < edge && !Straddled(slices, edge)
    requires forall s | s in slices :: s.end != edge
    ensures forall s | s in slices :: s.end <= ReadFrom(slices, edge, least) || edge <= s.start
  {
  }

  /** The interval read next to an edge: as far as floor or available end, slice length and neighbours allow. */
  function GapAt(slices: seq<Slice>, edge: int, floor: int, availableEnd: int, backward: bool): (int, int)
    requires if backward then floor < edge else edge < availableEnd
  {
    if backward then (ReadFrom(slices, edge, Max(floor, edge - SLICE)), edge)
    else (edge, ReadTo(slices, edge, Min(availableEnd, edge + SLICE)))
  }

  lemma GapIsFree(slices: seq<Slice>, edge: int, floor: int, availableEnd: int, backward: bool)
    requires Sorted(slices) && !Straddled(slices, edge) && 0 <= edge && 0 <= floor
    requires if backward then floor < edge else edge < availableEnd
    requires forall s | s in slices :: (if backward then s.end else s.start) != edge
    ensures var gap := GapAt(slices, edge, floor, availableEnd, backward);
            && 0 <= gap.0 < gap.1 <= gap.0 + SLICE && (if backward then gap.1 else gap.0) == edge
            && (backward ==> gap.0 >= floor && (gap.0 == floor || gap.0 == edge - SLICE || exists s | s in slices :: s.end == gap.0))
            && (!backward ==> gap.1 <= availableEnd && (gap.1 == availableEnd || gap.1 == edge + SLICE || exists s | s in slices :: s.start == gap.1))
            && forall s | s in slices :: s.end <= gap.0 || gap.1 <= s.start
  {
    if backward { BackwardGapIsFree(slices, edge, Max(floor, edge - SLICE)); }
    else { ForwardGapIsFree(slices, edge, Min(availableEnd, edge + SLICE)); }
  }

  // ---------------------------------------------------------------- termination measure

  function Outside(slices: seq<Slice>, a: int, b: int): set<Slice> {
    set s | s in slices && !(a <= s.start && s.end <= b)
  }

  /** Adopting a slice leaves fewer to adopt; a slice read and adopted adds none. */
  lemma OutsideShrinks(slices: seq<Slice>, other: seq<Slice>, s: Slice, a: int, b: int, c: int, d: int)
    requires c <= a && b <= d && c <= s.start < s.end <= d
    requires forall t :: t in other <==> t in slices || t == s
    ensures |Outside(other, c, d)| <= |Outside(slices, a, b)|
    ensures s in slices && !(a <= s.start && s.end <= b) ==> |Outside(other, c, d)| < |Outside(slices, a, b)|
  {
    var small, large := Outside(other, c, d), Outside(slices, a, b);
    assert small <= large;
    if s in slices && !(a <= s.start && s.end <= b) {
      assert s in large && s !in small;
      Smaller(small + {s}, large);
    } else {
      Smaller(small, large);
    }
  }

  lemma Smaller<T>(s: set<T>, t: set<T>)
    requires s <= t
    ensures |s| <= |t|
  {
    assert t == s + (t - s);
  }

  // ---------------------------------------------------------------- scanning

  datatype Extension = Extended | Stopped | Broken

  datatype Why = Gap | Unjoinable | AdmissionLost | QueryFailed

  datatype ScanEnd = Lost | Done | Waiting | Refused(why: Why)

  class Cohort {
    const windowStart: int
    var scanStart: int
    var scanEnd: int
    var boot: Option<string>
    var summary: Option<Summary>
    var terminalLost: bool

    constructor (windowStart: int, c: CohortRecord)
      ensures this.windowStart == windowStart && Record() == c
    {
      this.windowStart := windowStart;
      scanStart, scanEnd, boot, summary, terminalLost := c.scanStart, c.scanEnd, c.boot, c.summary, c.terminalLost;
    }

    function Record(): CohortRecord
      reads this
    {
      CohortRecord(scanStart, scanEnd, boot, summary, terminalLost)
    }
  }

  datatype CohortRecord = CohortRecord(
    scanStart: int, scanEnd: int, boot: Option<string>, summary: Option<Summary>, terminalLost: bool)

  /** A cohort that may go on scanning. */
  ghost predicate Scanning(j: Journal, slices: seq<Slice>, ws: int, c: CohortRecord) {
    && LedgerOk(j, slices)
    && 0 <= c.scanStart <= ws <= c.scanEnd
    && Fits(slices, c.scanStart, c.scanEnd, c.boot)
    && c.summary.None? && !c.terminalLost
  }

  /** A cohort that has its final word: the counts of the completed range, or a request whose end was lost. */
  ghost predicate Settled(j: Journal, ws: int, c: CohortRecord) {
    && 0 <= c.scanStart <= ws && ws + SLICE <= c.scanEnd && c.boot.Some?
    && (c.terminalLost != c.summary.Some?)
    && (c.terminalLost ==> TerminalLost(EventsIn(j, c.scanStart, c.scanEnd), j.marks, c.scanStart, c.scanEnd, ws, ws + SLICE))
    && (c.summary.Some? ==> Completed(j, c.scanStart, c.scanEnd, ws, c.summary.value) && AcceptsSummary(c.summary.value))
  }

  lemma CoveredHasBoot(slices: seq<Slice>, c: CohortRecord)
    requires Sorted(slices) && Fits(slices, c.scanStart, c.scanEnd, c.boot) && c.scanStart < c.scanEnd
    ensures c.boot.Some?
  {
    TilesAreAChain(slices, c.scanStart, c.scanEnd);
    ChainBounds(TilesOf(slices, c.scanStart, c.scanEnd).value, c.scanStart, c.scanEnd);
  }

  /** No slice holds an edge of the range strictly inside it. */
  ghost predicate EdgesFree(slices: seq<Slice>, c: CohortRecord) {
    !Straddled(slices, c.scanStart) && !Straddled(slices, c.scanEnd)
  }

  /** A new window that starts inside a proven slice begins from that whole slice. */
  method Anchor(slices: seq<Slice>, cohort: Cohort, ghost j: Journal)
    requires Scanning(j, slices, cohort.windowStart, cohort.Record())
    modifies cohort`scanStart, cohort`scanEnd, cohort`boot
    ensures Scanning(j, slices, cohort.windowStart, cohort.Record()) && EdgesFree(slices, cohort.Record())
    ensures cohort.scanStart <= old(cohort.scanStart) && old(cohort.scanEnd) <= cohort.scanEnd
    ensures old(cohort.scanStart) != old(cohort.scanEnd) || !Straddled(slices, old(cohort.scanEnd)) ==> cohort.Record() == old(cohort.Record())
  {
    if cohort.scanStart != cohort.scanEnd {
      TilesAreAChain(slices, cohort.scanStart, cohort.scanEnd);
      ChainBounds(TilesOf(slices, cohort.scanStart, cohort.scanEnd).value, cohort.scanStart, cohort.scanEnd);
      EdgesAreBoundaries(slices, cohort.scanStart, cohort.scanEnd, cohort.boot);
      return;
    }
    if Straddled(slices, cohort.scanEnd) {
      var holding :| holding in slices && holding.start < cohort.scanEnd < holding.end;
      ChainIsFound(slices, [holding], holding.start, holding.end);
      cohort.scanStart, cohort.scanEnd, cohort.boot := holding.start, holding.end, Some(holding.boot);
      EdgesAreBoundaries(slices, cohort.scanStart, cohort.scanEnd, cohort.boot);
    }
  }

  /** Takes a slice into the range unless it belongs to another boot. */
  method Adopt(cohort: Cohort, slice: Slice, backward: bool) returns (ok: bool)
    modifies cohort`scanStart, cohort`scanEnd, cohort`boot
    ensures ok <==> old(cohort.boot).None? || old(cohort.boot) == Some(slice.boot)
    ensures cohort.Record() == if ok then Adopted(old(cohort.Record()), slice, backward) else old(cohort.Record())
  {
    if cohort.boot.Some? && cohort.boot.value != slice.boot { return false; }
    cohort.boot := Some(slice.boot);
    if backward { cohort.scanStart := slice.start; } else { cohort.scanEnd := slice.end; }
    return true;
  }

  /** The window is covered, and one of its requests can no longer end. */
  ghost predicate MayLose(j: Journal, c: CohortRecord, ws: int) {
    && Joinable(j, c.scanStart, c.scanEnd, ws) && ws + SLICE <= c.scanEnd
    && TerminalLost(EventsIn(j, c.scanStart, c.scanEnd), j.marks, c.scanStart, c.scanEnd, ws, ws + SLICE)
  }

  /** The window is covered, its requests have all ended, and every terminal is explained. */
  ghost predicate MayFinish(j: Journal, c: CohortRecord, ws: int) {
    var es := EventsIn(j, c.scanStart, c.scanEnd);
    && Joinable(j, c.scanStart, c.scanEnd, ws) && ws + SLICE <= c.scanEnd && !MayLose(j, c, ws)
    && Orphans(es, ws) == {} && !Pending(es, ws, ws + SLICE)
  }

  /** The requests that end from `a` on and before `b`. */
  function EndedIds(j: Journal, a: int, b: int): set<string> {
    set t | t in j.events && !t.accepted && a <= t.at < b :: t.id
  }

  /** Every request admitted in the window has ended before `e`. */
  ghost predicate EndedBy(j: Journal, ws: int, e: int) {
    ws + SLICE <= e && AdmittedIds(j, ws, ws + SLICE) <= EndedIds(j, ws, e)
  }

  /** How much of the journal the cohort may still have to read: all before its range, and up to one slice past `e`. */
  function Potential(c: CohortRecord, e: int): int {
    c.scanStart + if c.scanEnd < e + SLICE then e + SLICE - c.scanEnd else 0
  }

  lemma EndedIsNotPending(j: Journal, c: CohortRecord, ws: int, e: int)
    requires EndedBy(j, ws, e) && c.scanStart <= ws
    ensures c.scanEnd >= e ==> !Pending(EventsIn(j, c.scanStart, c.scanEnd), ws, ws + SLICE)
  {
    var es := EventsIn(j, c.scanStart, c.scanEnd);
    forall a | c.scanEnd >= e && a in Admissions(es, ws, ws + SLICE) ensures HasTerminal(es, a.id) {
      assert a.id in AdmittedIds(j, ws, ws + SLICE) && a.id in EndedIds(j, ws, e);
      var t :| t in j.events && !t.accepted && ws <= t.at < e && t.id == a.id;
      assert t in es;
    }
  }

  /** Where every request has ended by `e`, a window that is covered up to there and explained is settled. */
  lemma ForwardIsNeeded(j: Journal, c: CohortRecord, ws: int, e: int)
    requires EndedBy(j, ws, e) && Unsettled(j, c, ws) && c.scanStart <= ws
    requires ws + SLICE <= c.scanEnd ==> Orphans(EventsIn(j, c.scanStart, c.scanEnd), ws) == {}
    ensures c.scanEnd < e
  {
    EndedIsNotPending(j, c, ws, e);
  }

  /** Nothing settles the window yet. */
  ghost predicate Unsettled(j: Journal, c: CohortRecord, ws: int) {
    Joinable(j, c.scanStart, c.scanEnd, ws) && !MayFinish(j, c, ws) && !MayLose(j, c, ws)
  }

  /**
   The window is covered, and some terminal has no admission although the range goes back to the
   retention floor, or to its own latency and one slice before it.
   */
  ghost predicate MayGiveUp(j: Journal, c: CohortRecord, ws: int, floor: int) {
    && Joinable(j, c.scanStart, c.scanEnd, ws) && ws + SLICE <= c.scanEnd && !MayLose(j, c, ws)
    && exists t | t in Orphans(EventsIn(j, c.scanStart, c.scanEnd), ws) ::
         t.latencyMs.Some? && (c.scanStart <= floor || c.scanStart <= t.at - 1000 * t.latencyMs.value - SLICE)
  }

  /** What one look at the proven range decides. */
  datatype Decision = Refuse(why: Why) | Lose | Finish(summary: Summary) | GoOn(backward: bool)

  method Examine(slices: seq<Slice>, ghost j: Journal, ws: int, c: CohortRecord, floor: int) returns (d: Decision)
    requires Scanning(j, slices, ws, c)
    ensures d.Refuse? ==> d.why == Unjoinable || (d.why == AdmissionLost && !WellLinked(j, floor))
    ensures d == Refuse(AdmissionLost) <==> MayGiveUp(j, c, ws, floor)
    ensures d == Refuse(Unjoinable) <==> !Joinable(j, c.scanStart, c.scanEnd, ws)
    ensures d.Lose? <==> MayLose(j, c, ws)
    ensures d.Finish? <==> MayFinish(j, c, ws)
    ensures d.Lose? ==> Settled(j, ws, c.(terminalLost := true))
    ensures d.Finish? ==> Settled(j, ws, c.(summary := Some(d.summary)))
    ensures d.GoOn? ==> (d.backward <==> ws + SLICE <= c.scanEnd && Orphans(EventsIn(j, c.scanStart, c.scanEnd), ws) != {})
    ensures d.GoOn? && d.backward ==> floor < c.scanStart
  {
    var we := ws + SLICE;
    var tiles := TiledSlices(slices, c.scanStart, c.scanEnd);
    TilesAreAChain(slices, c.scanStart, c.scanEnd);
    var joined := JoinTiles(tiles.value, j, c.scanStart, c.scanEnd, ws, we, floor);
    if joined.None? { return Refuse(Unjoinable); }
    var covered := c.scanEnd >= we;
    if covered { CoveredHasBoot(slices, c); }
    if covered && joined.value.terminalLost { return Lose; }
    if covered && joined.value.orphanFloor.None? && !joined.value.pending {
      var summary := Summarize(joined.value.members);
      return Finish(summary);
    }
    var backward := covered && joined.value.orphanFloor.Some?;
    if backward && c.scanStart <= joined.value.orphanFloor.value {
      ghost var es := EventsIn(j, c.scanStart, c.scanEnd);
      if WellLinked(j, floor) {
        ghost var t :| t in Orphans(es, ws) &&
                       (joined.value.orphanFloor.value == floor || joined.value.orphanFloor.value == t.at - 1000 * t.latencyMs.value - SLICE);
        SearchEndsInTime(j, c.scanStart, c.scanEnd, ws, floor, t);
      }
      return Refuse(AdmissionLost);
    }
    return GoOn(backward);
  }

  class VpsJournalMetrics {
    const journal: string -> Journal
    const onTime: nat -> bool
    const reply: nat -> Reply
    var asked: nat
    var budget: nat
    var spent: map<Key, nat>
    ghost var queries: nat
    /** The boot that the machine is expected to be in. */
    ghost const boot: string

    constructor (journal: string -> Journal, onTime: nat -> bool, reply: nat -> Reply, ghost boot: string)
      ensures this.journal == journal && this.onTime == onTime && this.reply == reply && this.boot == boot
      ensures WithinShare()
    {
      this.journal, this.onTime, this.reply := journal, onTime, reply;
      this.boot := boot;
      asked, budget, spent, queries := 0, 0, map[], 0;
    }

    /** Reads made in this tick never exceed the tick's share, nor any cohort's. */
    ghost predicate WithinShare()
      reads this`budget, this`spent, this`queries
    {
      budget + queries <= TICK_SLICES && forall k | k in spent :: spent[k] <= COHORT_TICK_SLICES
    }

    /** The clock and the journal never cut a tick short. */
    ghost predicate Unhindered() {
      (forall n: nat :: onTime(n)) && forall n: nat :: !reply(n).Elapsed?
    }

    /** Every answer is of the expected boot, and no slice of the journal has too many rows for one read. */
    ghost predicate Answering(identity: string) {
      && (forall n: nat :: reply(n).Elapsed? || reply(n) == Covered(boot))
      && (forall a, b | a < b <= a + SLICE :: |Between(journal(identity).events, a, b)| <= MAX_ENTRIES)
    }

    /** Everything proven so far is of the expected boot. */
    ghost predicate SameBoot(slices: seq<Slice>, known: Option<string>) {
      (known.None? || known == Some(boot)) && forall s | s in slices :: s.boot == boot
    }

    /** Nothing but the shares of this tick, or the end of the available journal, holds the scan up. */
    ghost predicate OutOfShare(key: Key)
      reads this`budget, this`spent
    {
      budget == 0 || Spent(key) >= COHORT_TICK_SLICES
    }

    method BeginTick()
      modifies this`budget, this`spent, this`queries
      ensures WithinShare() && budget == TICK_SLICES && queries == 0 && spent == map[]
    {
      budget, spent, queries := TICK_SLICES, map[], 0;
    }

    function Spent(key: Key): nat
      reads this`spent
    {
      if key in spent then spent[key] else 0
    }

    method Affordable(key: Key) returns (r: bool)
      modifies this`asked
      ensures r <==> budget > 0 && Spent(key) < COHORT_TICK_SLICES && onTime(old(asked))
    {
      r := budget > 0 && Spent(key) < COHORT_TICK_SLICES && onTime(asked);
      asked := asked + 1;
    }

    /** One read of a free interval, kept in the ledger: it cannot collide with what is already there. */
    method Read(identity: string, ledger: Ledger, key: Key, start: int, end: int) returns (r: Reply, slice: Option<Slice>)
      requires WithinShare() && budget > 0 && Spent(key) < COHORT_TICK_SLICES
      requires LedgerOk(journal(identity), ledger.slices)
      requires 0 <= start < end <= start + SLICE
      requires forall s | s in ledger.slices :: s.end <= start || end <= s.start
      modifies this`asked, this`budget, this`spent, this`queries, ledger`slices
      ensures WithinShare() && budget == old(budget) - 1 && queries == old(queries) + 1
      ensures spent == old(spent)[key := old(Spent(key)) + 1]
      ensures LedgerOk(journal(identity), ledger.slices)
      ensures r.Covered? <==> slice.Some?
      ensures (exists n: nat :: r == reply(n)) || (r.Unavailable? && |Between(journal(identity).events, start, end)| > MAX_ENTRIES)
      ensures slice.None? ==> ledger.slices == old(ledger.slices)
      ensures slice.Some? ==>
                && slice.value.start == start && slice.value.end == end && slice.value.boot == r.boot
                && forall s :: s in ledger.slices <==> s in old(ledger.slices) || s == slice.value
    {
      budget, queries := budget - 1, queries + 1;
      spent := spent[key := Spent(key) + 1];
      r := reply(asked);
      asked := asked + 1;
      slice := None;
      var j := journal(identity);
      var events := Between(j.events, start, end);
      if r.Covered? && |events| > MAX_ENTRIES {
        r := Unavailable;
      } else if r.Covered? {
        var gained := Slice(start, end, r.boot, events, LatestMark(j.marks, start, end));
        var ok := ledger.Insert(gained);
        assert ok;
        slice := Some(gained);
      }
    }

    /** Reads the gap next to an edge, up to the nearest proven slice; the gap is never empty. */
    method ReadGap(identity: string, ledger: Ledger, key: Key, edge: int, floor: int, availableEnd: int, backward: bool)
      returns (r: Extension, slice: Option<Slice>)
      requires WithinShare() && LedgerOk(journal(identity), ledger.slices)
      requires !Straddled(ledger.slices, edge)
      requires forall s | s in ledger.slices :: (if backward then s.end else s.start) != edge
      requires 0 <= edge && 0 <= floor && (backward ==> floor < edge)
      modifies this`asked, this`budget, this`spent, this`queries, ledger`slices
      ensures WithinShare() && LedgerOk(journal(identity), ledger.slices)
      ensures r.Extended? <==> slice.Some?
      ensures budget + Spent(key) == old(budget + Spent(key)) && old(Spent(key)) <= Spent(key) <= old(Spent(key)) + 1
      ensures r.Stopped? && Unhindered() ==> Spent(key) == old(Spent(key))
      ensures r.Stopped? && Unhindered() ==> (!backward && edge >= availableEnd) || OutOfShare(key)
      ensures Answering(identity) ==> !r.Broken? && (slice.Some? ==> slice.value.boot == boot)
      ensures slice.None? ==> ledger.slices == old(ledger.slices)
      ensures slice.Some? ==>
                && budget < old(budget)
                && slice.value !in old(ledger.slices)
                && (backward || edge < availableEnd)
                && (slice.value.start, slice.value.end) == GapAt(old(ledger.slices), edge, floor, availableEnd, backward)
                && (if backward then slice.value.end == edge && slice.value.start >= floor else slice.value.start == edge && slice.value.end <= availableEnd)
                && forall s :: s in ledger.slices <==> s in old(ledger.slices) || s == slice.value
    {
      if !backward && edge >= availableEnd { return Stopped, None; }
      var affordable := Affordable(key);
      if !affordable { return Stopped, None; }
      var gap := GapAt(ledger.slices, edge, floor, availableEnd, backward);
      GapIsFree(ledger.slices, edge, floor, availableEnd, backward);
      r, slice := ReadInto(identity, ledger, key, gap.0, gap.1);
    }

    /** A read of a free interval: what it answered, and the slice it kept. */
    method ReadInto(identity: string, ledger: Ledger, key: Key, start: int, end: int) returns (r: Extension, slice: Option<Slice>)
      requires WithinShare() && !OutOfShare(key) && LedgerOk(journal(identity), ledger.slices)
      requires 0 <= start < end <= start + SLICE
      requires forall s | s in ledger.slices :: s.end <= start || end <= s.start
      modifies this`asked, this`budget, this`spent, this`queries, ledger`slices
      ensures WithinShare() && LedgerOk(journal(identity), ledger.slices) && budget < old(budget)
      ensures r.Extended? <==> slice.Some?
      ensures budget + Spent(key) == old(budget + Spent(key)) && old(Spent(key)) <= Spent(key) <= old(Spent(key)) + 1
      ensures Unhindered() ==> !r.Stopped?
      ensures Answering(identity) ==> !r.Broken? && (slice.Some? ==> slice.value.boot == boot)
      ensures slice.None? ==> ledger.slices == old(ledger.slices)
      ensures slice.Some? ==>
                && slice.value.start == start && slice.value.end == end && slice.value !in old(ledger.slices)
                && forall s :: s in ledger.slices <==> s in old(ledger.slices) || s == slice.value
    {
      var answer, gained := Read(identity, ledger, key, start, end);
      if gained.None? { return if answer.Elapsed? then Stopped else Broken, None; }
      return Extended, gained;
    }

    /** The slice next to an edge: the one the ledger has, or else one read of the gap. */
    method NextSlice(identity: string, ledger: Ledger, key: Key, edge: int, floor: int, availableEnd: int, backward: bool)
      returns (r: Extension, slice: Option<Slice>)
      requires WithinShare() && LedgerOk(journal(identity), ledger.slices) && !Straddled(ledger.slices, edge)
      requires 0 <= edge && 0 <= floor && (backward ==> floor < edge)
      modifies this`asked, this`budget, this`spent, this`queries, ledger`slices
      ensures WithinShare() && LedgerOk(journal(identity), ledger.slices)
      ensures r.Extended? <==> slice.Some?
      ensures budget + Spent(key) == old(budget + Spent(key)) && old(Spent(key)) <= Spent(key) <= old(Spent(key)) + 1
      ensures r.Stopped? && Unhindered() ==> Spent(key) == old(Spent(key))
      ensures r.Stopped? && Unhindered() ==> (!backward && edge >= availableEnd) || OutOfShare(key)
      ensures Answering(identity) ==> !r.Broken? && (slice.Some? ==> slice.value.boot == boot || slice.value in old(ledger.slices))
      ensures (exists s | s in old(ledger.slices) :: (if backward then s.end else s.start) == edge) ==>
                r.Extended? && ledger.slices == old(ledger.slices) && budget == old(budget)
      ensures slice.None? ==> ledger.slices == old(ledger.slices)
      ensures slice.Some? ==>
                && (if backward then slice.value.end else slice.value.start) == edge
                && (if slice.value in old(ledger.slices) then budget == old(budget) else budget < old(budget))
                && forall s :: s in ledger.slices <==> s in old(ledger.slices) || s == slice.value
    {
      if exists s | s in ledger.slices :: (if backward then s.end else s.start) == edge {
        var shared :| shared in ledger.slices && (if backward then shared.end else shared.start) == edge;
        return Extended, Some(shared);
      }
      r, slice := ReadGap(identity, ledger, key, edge, floor, availableEnd, backward);
    }

    /** One more slice at one edge, unless it belongs to another boot. */
    method Extend(identity: string, ledger: Ledger, cohort: Cohort, key: Key, floor: int, availableEnd: int, backward: bool)
      returns (r: Extension)
      requires WithinShare()
      requires Scanning(journal(identity), ledger.slices, cohort.windowStart, cohort.Record())
      requires EdgesFree(ledger.slices, cohort.Record())
      requires 0 <= floor && (backward ==> floor < cohort.scanStart)
      modifies this`asked, this`budget, this`spent, this`queries, ledger`slices, cohort`scanStart, cohort`scanEnd, cohort`boot
      ensures WithinShare()
      ensures !r.Broken? ==> Scanning(journal(identity), ledger.slices, cohort.windowStart, cohort.Record())
      ensures !r.Broken? ==> EdgesFree(ledger.slices, cohort.Record())
      ensures !r.Extended? ==> cohort.Record() == old(cohort.Record())
      ensures r.Stopped? ==> ledger.slices == old(ledger.slices)
      ensures budget + Spent(key) == old(budget + Spent(key)) && old(Spent(key)) <= Spent(key) <= old(Spent(key)) + 1
      ensures r.Stopped? && Unhindered() ==> Spent(key) == old(Spent(key))
      ensures r.Extended? ==> cohort.scanEnd <= old(cohort.scanEnd) + SLICE
      ensures r.Stopped? && Unhindered() ==> (!backward && cohort.scanEnd >= availableEnd) || OutOfShare(key)
      ensures Answering(identity) && old(SameBoot(ledger.slices, cohort.boot)) ==> !r.Broken? && SameBoot(ledger.slices, cohort.boot)
      ensures r.Extended? ==> if backward then cohort.scanStart < old(cohort.scanStart) && cohort.scanEnd == old(cohort.scanEnd)
                              else cohort.scanStart == old(cohort.scanStart) && old(cohort.scanEnd) < cohort.scanEnd
      ensures r.Extended? ==>
                budget + |Outside(ledger.slices, cohort.scanStart, cohort.scanEnd)|
                < old(budget + |Outside(ledger.slices, cohort.scanStart, cohort.scanEnd)|)
      ensures forall s | s in old(ledger.slices) :: s in ledger.slices
    {
      var c := cohort.Record();
      ghost var slices := ledger.slices;
      var step, found := NextSlice(identity, ledger, key, if backward then c.scanStart else c.scanEnd, floor, availableEnd, backward);
      if found.None? { return step; }
      var slice := found.value;
      FitsInOther(slices, ledger.slices, c.scanStart, c.scanEnd, c.boot);
      var ok := Adopt(cohort, slice, backward);
      if !ok { return Broken; }
      AdoptionAdvances(journal(identity), ledger.slices, cohort.windowStart, c, slice, backward);
      AdoptionShrinks(slices, ledger.slices, c, slice, backward);
      return Extended;
    }

    /** One look at the range and, unless that settles the window, one more slice; `None` to go on. */
    method Turn(identity: string, ledger: Ledger, cohort: Cohort, key: Key, floor: int, availableEnd: int)
      returns (r: Option<ScanEnd>)
      requires WithinShare() && 0 <= floor
      requires Scanning(journal(identity), ledger.slices, cohort.windowStart, cohort.Record()) && EdgesFree(ledger.slices, cohort.Record())
      modifies this`asked, this`budget, this`spent, this`queries, ledger`slices, cohort
      ensures WithinShare()
      ensures r.Some? ==> r.value != Refused(Gap)
      ensures r == Some(Refused(AdmissionLost)) ==>
                !WellLinked(journal(identity), floor) && MayGiveUp(journal(identity), cohort.Record(), cohort.windowStart, floor)
      ensures r == Some(Refused(Unjoinable)) ==> !Joinable(journal(identity), cohort.scanStart, cohort.scanEnd, cohort.windowStart)
      ensures r == Some(Refused(QueryFailed)) ==> !(Answering(identity) && old(SameBoot(ledger.slices, cohort.boot)))
      ensures r.None? ==> Answering(identity) && old(SameBoot(ledger.slices, cohort.boot)) ==> SameBoot(ledger.slices, cohort.boot)
      ensures r.None? ==> EdgesFree(ledger.slices, cohort.Record())
      ensures r in {None, Some(Waiting)} ==> Scanning(journal(identity), ledger.slices, cohort.windowStart, cohort.Record())
      ensures r == Some(Waiting) ==>
                Unsettled(journal(identity), cohort.Record(), cohort.windowStart) && !MayGiveUp(journal(identity), cohort.Record(), cohort.windowStart, floor)
      ensures budget + Spent(key) == old(budget + Spent(key)) && old(Spent(key)) <= Spent(key)
      ensures r.None? && EndedBy(journal(identity), cohort.windowStart, availableEnd) ==>
                Potential(cohort.Record(), availableEnd) + Spent(key) <= old(Potential(cohort.Record(), availableEnd) + Spent(key))
      ensures r == Some(Waiting) && Unhindered() && EndedBy(journal(identity), cohort.windowStart, availableEnd) ==>
                OutOfShare(key) && cohort.Record() == old(cohort.Record()) && Spent(key) == old(Spent(key))
      ensures r == Some(Waiting) && Answering(identity) && old(SameBoot(ledger.slices, cohort.boot)) ==> SameBoot(ledger.slices, cohort.boot)
      ensures r == Some(Waiting) && Unhindered() ==> cohort.scanEnd >= availableEnd || OutOfShare(key)
      ensures r in {Some(Done), Some(Lost)} ==> Settled(journal(identity), cohort.windowStart, cohort.Record())
      ensures r == Some(Done) ==> cohort.summary.Some?
      ensures r == Some(Lost) ==> cohort.terminalLost
      ensures r.Some? && !r.value.Refused? ==> LedgerOk(journal(identity), ledger.slices)
      ensures r.None? ==>
                budget + |Outside(ledger.slices, cohort.scanStart, cohort.scanEnd)|
                < old(budget + |Outside(ledger.slices, cohort.scanStart, cohort.scanEnd)|)
      ensures cohort.scanStart <= old(cohort.scanStart) && old(cohort.scanEnd) <= cohort.scanEnd
      ensures forall s | s in old(ledger.slices) :: s in ledger.slices
    {
      var verdict := Examine(ledger.slices, journal(identity), cohort.windowStart, cohort.Record(), floor);
      match verdict {
        case Refuse(why) => return Some(Refused(why));
        case Lose =>
          cohort.terminalLost := true;
          return Some(Lost);
        case Finish(summary) =>
          cohort.summary := Some(summary);
          return Some(Done);
        case GoOn(backward) =>
          r := GoOnward(identity, ledger, cohort, key, floor, availableEnd, backward);
      }
    }

    /** One more slice for a window that nothing settles yet. */
    method GoOnward(identity: string, ledger: Ledger, cohort: Cohort, key: Key, floor: int, availableEnd: int, backward: bool)
      returns (r: Option<ScanEnd>)
      requires WithinShare() && 0 <= floor && (backward ==> floor < cohort.scanStart)
      requires Scanning(journal(identity), ledger.slices, cohort.windowStart, cohort.Record()) && EdgesFree(ledger.slices, cohort.Record())
      requires Unsettled(journal(identity), cohort.Record(), cohort.windowStart)
      requires !backward && cohort.windowStart + SLICE <= cohort.scanEnd ==>
                 Orphans(EventsIn(journal(identity), cohort.scanStart, cohort.scanEnd), cohort.windowStart) == {}
      modifies this`asked, this`budget, this`spent, this`queries, ledger`slices, cohort`scanStart, cohort`scanEnd, cohort`boot
      ensures WithinShare() && r in {None, Some(Waiting), Some(Refused(QueryFailed))}
      ensures r == Some(Refused(QueryFailed)) ==> !(Answering(identity) && old(SameBoot(ledger.slices, cohort.boot)))
      ensures r != Some(Refused(QueryFailed)) ==>
                && Scanning(journal(identity), ledger.slices, cohort.windowStart, cohort.Record())
                && EdgesFree(ledger.slices, cohort.Record())
                && (Answering(identity) && old(SameBoot(ledger.slices, cohort.boot)) ==> SameBoot(ledger.slices, cohort.boot))
      ensures budget + Spent(key) == old(budget + Spent(key)) && old(Spent(key)) <= Spent(key)
      ensures r == Some(Waiting) ==> cohort.Record() == old(cohort.Record())
      ensures r == Some(Waiting) && Unhindered() ==>
                Spent(key) == old(Spent(key)) && ((!backward && cohort.scanEnd >= availableEnd) || OutOfShare(key))
      ensures r == Some(Waiting) && Unhindered() && EndedBy(journal(identity), cohort.windowStart, availableEnd) ==> OutOfShare(key)
      ensures r.None? ==>
                budget + |Outside(ledger.slices, cohort.scanStart, cohort.scanEnd)|
                < old(budget + |Outside(ledger.slices, cohort.scanStart, cohort.scanEnd)|)
      ensures r.None? && EndedBy(journal(identity), cohort.windowStart, availableEnd) ==>
                Potential(cohort.Record(), availableEnd) + Spent(key) <= old(Potential(cohort.Record(), availableEnd) + Spent(key))
      ensures cohort.scanStart <= old(cohort.scanStart) && old(cohort.scanEnd) <= cohort.scanEnd
      ensures forall s | s in old(ledger.slices) :: s in ledger.slices
    {
      if EndedBy(journal(identity), cohort.windowStart, availableEnd) && !backward {
        ForwardIsNeeded(journal(identity), cohort.Record(), cohort.windowStart, availableEnd);
      }
      var step := Extend(identity, ledger, cohort, key, floor, availableEnd, backward);
      return if step.Broken? then Some(Refused(QueryFailed)) else if step.Stopped? then Some(Waiting) else None;
    }

    /**
     Scans until the window is complete, known to be lost, out of budget or refused. The loop ends
     because each turn spends a read or adopts a slice that was there already.
     */
    method Scan(identity: string, ledger: Ledger, cohort: Cohort, key: Key, floor: int, availableEnd: int)
      returns (r: ScanEnd)
      requires WithinShare()
      requires Scanning(journal(identity), ledger.slices, cohort.windowStart, cohort.Record()) && 0 <= floor
      modifies this`asked, this`budget, this`spent, this`queries, ledger`slices, cohort
      ensures WithinShare()
      ensures r != Refused(Gap)
      ensures r == Refused(AdmissionLost) ==>
                !WellLinked(journal(identity), floor) && MayGiveUp(journal(identity), cohort.Record(), cohort.windowStart, floor)
      ensures r == Refused(Unjoinable) ==> !Joinable(journal(identity), cohort.scanStart, cohort.scanEnd, cohort.windowStart)
      ensures r == Refused(QueryFailed) ==> !(Answering(identity) && old(SameBoot(ledger.slices, cohort.boot)))
      ensures r.Waiting? ==> Scanning(journal(identity), ledger.slices, cohort.windowStart, cohort.Record())
      ensures r.Waiting? ==>
                Unsettled(journal(identity), cohort.Record(), cohort.windowStart) && !MayGiveUp(journal(identity), cohort.Record(), cohort.windowStart, floor)
      ensures budget + Spent(key) == old(budget + Spent(key)) && old(Spent(key)) <= Spent(key)
      ensures r.Waiting? && Unhindered() && EndedBy(journal(identity), cohort.windowStart, availableEnd) ==>
                && OutOfShare(key)
                && Potential(cohort.Record(), availableEnd) + Spent(key) <= old(Potential(cohort.Record(), availableEnd) + Spent(key))
      ensures r.Waiting? && Answering(identity) && old(SameBoot(ledger.slices, cohort.boot)) ==> SameBoot(ledger.slices, cohort.boot)
      ensures r.Waiting? && Unhindered() ==> cohort.scanEnd >= availableEnd || OutOfShare(key)
      ensures r.Done? || r.Lost? ==> Settled(journal(identity), cohort.windowStart, cohort.Record())
      ensures r.Done? ==> cohort.summary.Some?
      ensures r.Lost? ==> cohort.terminalLost
      ensures !r.Refused? ==> LedgerOk(journal(identity), ledger.slices)
      ensures cohort.scanStart <= old(cohort.scanStart) && old(cohort.scanEnd) <= cohort.scanEnd
      ensures forall s | s in old(ledger.slices) :: s in ledger.slices
    {
      Anchor(ledger.slices, cohort, journal(identity));
      assert Answering(identity) && old(SameBoot(ledger.slices, cohort.boot)) ==> SameBoot(ledger.slices, cohort.boot) by {
        AnchoredBoot(ledger.slices, cohort.Record());
      }
      while true
        invariant WithinShare()
        invariant Scanning(journal(identity), ledger.slices, cohort.windowStart, cohort.Record()) && EdgesFree(ledger.slices, cohort.Record())
        invariant cohort.scanStart <= old(cohort.scanStart) && old(cohort.scanEnd) <= cohort.scanEnd
        invariant forall s | s in old(ledger.slices) :: s in ledger.slices
        invariant Answering(identity) && old(SameBoot(ledger.slices, cohort.boot)) ==> SameBoot(ledger.slices, cohort.boot)
        invariant budget + Spent(key) == old(budget + Spent(key)) && old(Spent(key)) <= Spent(key)
        invariant EndedBy(journal(identity), cohort.windowStart, availableEnd) ==>
                    Potential(cohort.Record(), availableEnd) + Spent(key) <= old(Potential(cohort.Record(), availableEnd) + Spent(key))
        decreases budget + |Outside(ledger.slices, cohort.scanStart, cohort.scanEnd)|
      {
        var end := Turn(identity, ledger, cohort, key, floor, availableEnd);
        if end.Some? { return end.value; }
      }
    }

    /** A range tiled by slices of the expected boot is of that boot. */
    lemma AnchoredBoot(slices: seq<Slice>, c: CohortRecord)
      requires Sorted(slices) && Fits(slices, c.scanStart, c.scanEnd, c.boot)
      ensures (forall s | s in slices :: s.boot == boot) ==> SameBoot(slices, c.boot)
    {
      var tiles := TilesOf(slices, c.scanStart, c.scanEnd).value;
      TilesAreAChain(slices, c.scanStart, c.scanEnd);
      if tiles != [] { assert tiles[0] in tiles; }
    }
  }

  function Adopted(c: CohortRecord, s: Slice, backward: bool): CohortRecord {
    if backward then c.(scanStart := s.start, boot := Some(s.boot)) else c.(scanEnd := s.end, boot := Some(s.boot))
  }

  /** A slice that touches an edge and has the cohort's boot extends the proven range. */
  lemma AdoptionAdvances(j: Journal, slices: seq<Slice>, ws: int, c: CohortRecord, s: Slice, backward: bool)
    requires Scanning(j, slices, ws, c) && s in slices
    requires if backward then s.end == c.scanStart else s.start == c.scanEnd
    requires c.boot.None? || c.boot == Some(s.boot)
    ensures Scanning(j, slices, ws, Adopted(c, s, backward)) && EdgesFree(slices, Adopted(c, s, backward))
  {
    var a, b := if backward then s.start else c.scanStart, if backward then c.scanEnd else s.end;
    if backward {
      AdoptBackward(slices, c.scanStart, c.scanEnd, c.boot, s);
    } else {
      AdoptForward(slices, c.scanStart, c.scanEnd, c.boot, s);
    }
    EdgesAreBoundaries(slices, a, b, Some(s.boot));
  }

  lemma AdoptionShrinks(slices: seq<Slice>, other: seq<Slice>, c: CohortRecord, s: Slice, backward: bool)
    requires c.scanStart <= c.scanEnd && s.start < s.end
    requires forall t :: t in other <==> t in slices || t == s
    requires if backward then s.end == c.scanStart else s.start == c.scanEnd
    ensures var c' := Adopted(c, s, backward);
            && |Outside(other, c'.scanStart, c'.scanEnd)| <= |Outside(slices, c.scanStart, c.scanEnd)|
            && (s in slices ==> |Outside(other, c'.scanStart, c'.scanEnd)| < |Outside(slices, c.scanStart, c.scanEnd)|)
  {
    var c' := Adopted(c, s, backward);
    OutsideShrinks(slices, other, s, c.scanStart, c.scanEnd, c'.scanStart, c'.scanEnd);
  }
}
