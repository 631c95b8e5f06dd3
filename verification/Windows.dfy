/**
 What a completed window says, stated on the journal alone: it is stable when more of the journal
 is read, two ways of completing it agree, and neighbouring windows add up.
 */
module Windows {
  import opened Wrappers
  import opened Telemetry
  import opened Join

  /** The range covers the window, every request admitted in it has ended, nothing is unexplained. */
  ghost predicate Completed(j: Journal, a: int, b: int, ws: int, s: Summary) {
    var es := EventsIn(j, a, b);
    && a <= ws && ws + SLICE <= b
    && Consistent(es)
    && !Pending(es, ws, ws + SLICE)
    && Orphans(es, ws) == {}
    && Summarizes(s, Finished(es, ws, ws + SLICE))
  }

  lemma AdmittedHasEnded(es: set<Event>, ws: int, we: int, e: Event)
    requires !Pending(es, ws, we) && e in Admissions(es, ws, we)
    ensures HasTerminal(es, e.id)
  {
  }

  /** Reading more of the journal changes neither the finished requests nor that they are all finished. */
  lemma WideningKeepsFinished(j: Journal, a: int, b: int, c: int, d: int, ws: int, s: Summary)
    requires Completed(j, a, b, ws, s)
    requires c <= a && b <= d && Consistent(EventsIn(j, c, d))
    ensures Finished(EventsIn(j, c, d), ws, ws + SLICE) == Finished(EventsIn(j, a, b), ws, ws + SLICE)
    ensures !Pending(EventsIn(j, c, d), ws, ws + SLICE)
    ensures Summarizes(s, Finished(EventsIn(j, c, d), ws, ws + SLICE))
    ensures !TerminalLost(EventsIn(j, c, d), j.marks, c, d, ws, ws + SLICE)
  {
    var small, large, we := EventsIn(j, a, b), EventsIn(j, c, d), ws + SLICE;
    forall e | e in Admissions(large, ws, we) ensures e in Admissions(small, ws, we) && HasTerminal(large, e.id) {
      assert e in Admissions(small, ws, we);
      AdmittedHasEnded(small, ws, we, e);
      var t :| t in small && !t.accepted && t.id == e.id;
      assert t in large;
    }
    forall t | t in Finished(large, ws, we) ensures t in Finished(small, ws, we) {
      var e :| e in large && InWindow(e, ws, we) && e.id == t.id;
      assert e in Admissions(large, ws, we);
      AdmittedHasEnded(small, ws, we, e);
      var u :| u in small && !u.accepted && u.id == e.id;
      assert u in large && u == t;
    }
  }

  /** However a window came to be completed, its counts are the same. */
  lemma CompletionsAgree(j: Journal, a: int, b: int, c: int, d: int, ws: int, s: Summary, r: Summary)
    requires Completed(j, a, b, ws, s) && Completed(j, c, d, ws, r)
    requires Consistent(EventsIn(j, if a < c then a else c, if b < d then d else b))
    ensures s == r
  {
    var lo, hi := if a < c then a else c, if b < d then d else b;
    WideningKeepsFinished(j, a, b, lo, hi, ws, s);
    WideningKeepsFinished(j, c, d, lo, hi, ws, r);
    SummaryIsDetermined(s, r, Finished(EventsIn(j, lo, hi), ws, ws + SLICE));
  }

  // ---------------------------------------------------------------- conservation

  function AdmittedIds(j: Journal, a: int, b: int): set<string> {
    set e | e in j.events && e.accepted && a <= e.at < b :: e.id
  }

  ghost predicate UniqueAdmissions(j: Journal) {
    forall e, f | e in j.events && f in j.events && e.accepted && f.accepted && e.id == f.id :: e.at == f.at
  }

  function Ids(ts: set<Event>): set<string> {
    set t | t in ts :: t.id
  }

  lemma {:induction false} DistinctIdsCount(ts: set<Event>)
    requires forall t, u | t in ts && u in ts && t.id == u.id :: t == u
    ensures |Ids(ts)| == |ts|
  {
    if ts != {} {
      var t :| t in ts;
      var rest := ts - {t};
      DistinctIdsCount(rest);
      assert Ids(ts) == {t.id} + Ids(rest);
      assert t.id !in Ids(rest);
    }
  }

  /** A completed window counts exactly the distinct requests admitted in it. */
  lemma RequestsAreAdmissions(j: Journal, a: int, b: int, ws: int, s: Summary)
    requires Completed(j, a, b, ws, s)
    ensures s.requests == |AdmittedIds(j, ws, ws + SLICE)|
  {
    var es, we := EventsIn(j, a, b), ws + SLICE;
    var done := Finished(es, ws, we);
    DistinctIdsCount(done);
    forall id | id in Ids(done) ensures id in AdmittedIds(j, ws, we) {
      var t :| t in done && t.id == id;
      var e :| e in es && InWindow(e, ws, we) && e.id == t.id;
    }
    forall id | id in AdmittedIds(j, ws, we) ensures id in Ids(done) {
      var e :| e in j.events && e.accepted && ws <= e.at < we && e.id == id;
      assert e in es && e in Admissions(es, ws, we);
      AdmittedHasEnded(es, ws, we, e);
      var t :| t in es && !t.accepted && t.id == id;
      assert InWindow(e, ws, we) && t in done;
    }
    assert Ids(done) == AdmittedIds(j, ws, we);
  }

  lemma AdmittedIdsSplit(j: Journal, a: int, b: int, c: int)
    requires UniqueAdmissions(j) && a <= b <= c
    ensures AdmittedIds(j, a, c) == AdmittedIds(j, a, b) + AdmittedIds(j, b, c)
    ensures AdmittedIds(j, a, b) !! AdmittedIds(j, b, c)
  {
    forall id | id in AdmittedIds(j, a, c) ensures id in AdmittedIds(j, a, b) + AdmittedIds(j, b, c) {
      var e :| e in j.events && e.accepted && a <= e.at < c && e.id == id;
    }
    forall id | id in AdmittedIds(j, a, b) + AdmittedIds(j, b, c) ensures id in AdmittedIds(j, a, c) {
      var e :| e in j.events && e.accepted && a <= e.at < c && e.id == id;
    }
  }

  /** The summary is that of the window over some range of the journal. */
  ghost predicate CountsTheJournal(j: Journal, ws: int, s: Summary) {
    exists a, b :: Completed(j, a, b, ws, s)
  }

  /** The window at `ws` and those after it, each completed over a range of its own. */
  ghost predicate CompletedRun(j: Journal, ws: int, summaries: seq<Summary>)
    decreases |summaries|
  {
    summaries == [] || (CountsTheJournal(j, ws, summaries[0]) && CompletedRun(j, ws + SLICE, summaries[1..]))
  }

  function TotalRequests(summaries: seq<Summary>): nat {
    if summaries == [] then 0 else summaries[0].requests + TotalRequests(summaries[1..])
  }

  /** Where the n-th window after `ws` begins. */
  function After(ws: int, n: nat): (r: int)
    ensures r >= ws
    decreases n
  {
    if n == 0 then ws else After(ws + SLICE, n - 1)
  }

  /** A count over adjacent windows, one by one. */
  function ByWindow(count: (int, int) -> nat, ws: int, n: nat): nat
    decreases n
  {
    if n == 0 then 0 else count(ws, ws + SLICE) + ByWindow(count, ws + SLICE, n - 1)
  }

  lemma {:induction false} WindowsPartition(count: (int, int) -> nat, ws: int, n: nat)
    requires forall a, b, c | a <= b <= c :: count(a, b) + count(b, c) == count(a, c)
    ensures ByWindow(count, ws, n) == count(ws, After(ws, n))
    decreases n
  {
    if n == 0 {
      assert count(ws, ws) + count(ws, ws) == count(ws, ws);
    } else {
      WindowsPartition(count, ws + SLICE, n - 1);
      assert count(ws, ws + SLICE) + count(ws + SLICE, After(ws, n)) == count(ws, After(ws, n));
    }
  }

  lemma {:induction false} RequestsByWindow(j: Journal, count: (int, int) -> nat, ws: int, summaries: seq<Summary>)
    requires CompletedRun(j, ws, summaries)
    requires forall s, a | CountsTheJournal(j, a, s) :: s.requests == count(a, a + SLICE)
    ensures TotalRequests(summaries) == ByWindow(count, ws, |summaries|)
    decreases |summaries|
  {
    if summaries != [] { RequestsByWindow(j, count, ws + SLICE, summaries[1..]); }
  }

  function AdmittedCount(j: Journal): (int, int) -> nat {
    (a: int, b: int) => |AdmittedIds(j, a, b)|
  }

  /** However many adjacent windows are completed, together they count each request admitted in them once. */
  lemma WindowsAddUp(j: Journal, ws: int, summaries: seq<Summary>)
    requires UniqueAdmissions(j) && CompletedRun(j, ws, summaries)
    ensures TotalRequests(summaries) == |AdmittedIds(j, ws, After(ws, |summaries|))|
  {
    var count := AdmittedCount(j);
    forall a, b, c | a <= b <= c ensures count(a, b) + count(b, c) == count(a, c) { AdmittedIdsSplit(j, a, b, c); }
    forall s, a | CountsTheJournal(j, a, s) ensures s.requests == count(a, a + SLICE) {
      var c, d :| Completed(j, c, d, a, s);
      RequestsAreAdmissions(j, c, d, a, s);
    }
    RequestsByWindow(j, count, ws, summaries);
    WindowsPartition(count, ws, |summaries|);
  }

  // ---------------------------------------------------------------- the backward search

  /**
   Every request that reports its end was admitted, not before the retention floor and not before its
   own latency and one slice ahead of its end.
   */
  ghost predicate WellLinked(j: Journal, floor: int) {
    forall t {:trigger t.latencyMs} | t in j.events && !t.accepted && t.stage != PreAdmission ::
      && t.latencyMs.Some?
      && exists e | e in j.events ::
           e.accepted && e.id == t.id && floor <= e.at <= t.at && t.at - 1000 * t.latencyMs.value - SLICE <= e.at
  }

  /** On such a journal the search never reaches the point where it would give an admission up. */
  lemma SearchEndsInTime(j: Journal, a: int, b: int, ws: int, floor: int, t: Event)
    requires WellLinked(j, floor) && t in Orphans(EventsIn(j, a, b), ws)
    ensures t.latencyMs.Some? && a > floor && a > t.at - 1000 * t.latencyMs.value - SLICE
  {
    var es := EventsIn(j, a, b);
    assert t.latencyMs.Some?;
    var e :| e in j.events && e.accepted && e.id == t.id && floor <= e.at <= t.at && t.at - 1000 * t.latencyMs.value - SLICE <= e.at;
    assert e in es ==> HasAdmission(es, t.id);
  }
}
