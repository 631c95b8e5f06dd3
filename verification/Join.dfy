/**
 Joining admissions with terminals. What a join should say is stated over the set of events in a
 range, so it cannot depend on how the range was read; the code builds maps and lists instead.
 */
module Join {
  import opened Wrappers
  import opened Telemetry

  datatype Summary = Summary(requests: nat, fiveXx: nat, streamFailures: nat, failures: seq<(string, nat)>)

  // ---------------------------------------------------------------- the meaning of a range

  /** A request id carries one admission and one terminal at most, and never a refused admission too. */
  ghost predicate Consistent(es: set<Event>) {
    forall e, f | e in es && f in es && e.id == f.id ::
      && (e.accepted == f.accepted ==> e == f)
      && (e.accepted && !f.accepted ==> f.stage != PreAdmission)
  }

  predicate InWindow(e: Event, ws: int, we: int) {
    e.accepted && ws <= e.at < we
  }

  predicate HasAdmission(es: set<Event>, id: string) {
    exists e | e in es :: e.accepted && e.id == id
  }

  predicate HasTerminal(es: set<Event>, id: string) {
    exists e | e in es :: !e.accepted && e.id == id
  }

  function Admissions(es: set<Event>, ws: int, we: int): set<Event> {
    set e | e in es && InWindow(e, ws, we)
  }

  /** The terminals of the requests admitted in the window. */
  function Finished(es: set<Event>, ws: int, we: int): set<Event> {
    set t | t in es && !t.accepted && exists a | a in es :: InWindow(a, ws, we) && a.id == t.id
  }

  predicate Pending(es: set<Event>, ws: int, we: int) {
    exists a | a in Admissions(es, ws, we) :: !HasTerminal(es, a.id)
  }

  /** Terminals that may belong to an admission of this window the range has not shown. */
  function Orphans(es: set<Event>, ws: int): set<Event> {
    set t | t in es && !t.accepted && t.at >= ws && t.stage != PreAdmission && !HasAdmission(es, t.id)
  }

  /**
   How far back the search for the orphans' admissions goes: to the retention floor, or to the latest of
   the moments that lie an orphan's own latency and one slice before it.
   */
  ghost predicate IsOrphanFloor(es: set<Event>, ws: int, floor: int, r: Option<int>) {
    && (forall t | t in Orphans(es, ws) :: t.latencyMs.Some?)
    && (r.None? <==> Orphans(es, ws) == {})
    && (r.Some? ==>
          && r.value >= floor
          && (forall t | t in Orphans(es, ws) :: t.at - 1000 * t.latencyMs.value - SLICE <= r.value)
          && exists t | t in Orphans(es, ws) :: r.value == floor || r.value == t.at - 1000 * t.latencyMs.value - SLICE)
  }

  ghost predicate TerminalLost(es: set<Event>, marks: seq<int>, a: int, b: int, ws: int, we: int) {
    exists e, m | e in Admissions(es, ws, we) && m in marks :: !HasTerminal(es, e.id) && a <= m < b && e.at < m
  }

  // ---------------------------------------------------------------- counting

  function CountWhere(ts: seq<Event>, p: Event -> bool): nat {
    if ts == [] then 0 else (if p(ts[0]) then 1 else 0) + CountWhere(ts[1..], p)
  }

  ghost predicate Distinct(ts: seq<Event>) {
    forall i, j :: 0 <= i < j < |ts| ==> ts[i] != ts[j]
  }

  function Range(ts: seq<Event>): set<Event> {
    set t | t in ts
  }

  function Where(ts: set<Event>, p: Event -> bool): set<Event> {
    set t | t in ts && p(t)
  }

  lemma WhereInsert(t: Event, rest: set<Event>, p: Event -> bool)
    requires t !in rest
    ensures |Where({t} + rest, p)| == (if p(t) then 1 else 0) + |Where(rest, p)|
  {
    if p(t) {
      assert Where({t} + rest, p) == {t} + Where(rest, p);
    } else {
      assert Where({t} + rest, p) == Where(rest, p);
    }
  }

  lemma DistinctTail(ts: seq<Event>)
    requires Distinct(ts) && ts != []
    ensures Distinct(ts[1..]) && ts[0] !in Range(ts[1..])
    ensures Range(ts) == {ts[0]} + Range(ts[1..])
  {
    assert ts == [ts[0]] + ts[1..];
  }

  /** Counting along a list without repeats is the size of a set. */
  lemma {:induction false} CountIsCardinality(ts: seq<Event>, p: Event -> bool)
    requires Distinct(ts)
    ensures CountWhere(ts, p) == |Where(Range(ts), p)|
  {
    if ts != [] {
      DistinctTail(ts);
      CountIsCardinality(ts[1..], p);
      WhereInsert(ts[0], Range(ts[1..]), p);
    }
  }

  lemma {:induction false} LengthIsCardinality(ts: seq<Event>)
    requires Distinct(ts)
    ensures |ts| == |Range(ts)|
  {
    if ts != [] {
      DistinctTail(ts);
      LengthIsCardinality(ts[1..]);
    }
  }

  lemma {:induction false} CountAtMostAll(ts: seq<Event>, p: Event -> bool)
    ensures CountWhere(ts, p) <= |ts|
  {
    if ts != [] { CountAtMostAll(ts[1..], p); }
  }

  // ---------------------------------------------------------------- failure kinds in order

  predicate Less(a: string, b: string) {
    b != [] && (a == [] || a[0] < b[0] || (a[0] == b[0] && Less(a[1..], b[1..])))
  }

  lemma {:induction false} LessIsTotal(a: string, b: string)
    ensures !(Less(a, b) && Less(b, a)) && !Less(a, a)
    ensures a != b ==> Less(a, b) || Less(b, a)
  {
    if a != [] { LessIsTotal(a[1..], a[1..]); }
    if a != [] && b != [] && a[0] == b[0] {
      LessIsTotal(a[1..], b[1..]);
      assert a == [a[0]] + a[1..] && b == [b[0]] + b[1..];
    }
  }

  lemma {:induction false} LessIsTransitive(a: string, b: string, c: string)
    requires Less(a, b) && Less(b, c)
    ensures Less(a, c)
  {
    if a != [] && a[0] == b[0] && b[0] == c[0] { LessIsTransitive(a[1..], b[1..], c[1..]); }
  }

  /** The order of kinds on their characters: the first difference decides, or the end of the shorter one. */
  lemma {:induction false} LessByCharacters(a: string, b: string)
    ensures Less(a, b) <==> exists i | 0 <= i < |b| :: i <= |a| && a[..i] == b[..i] && (i == |a| || a[i] < b[i])
  {
    if a != [] && b != [] && a[0] == b[0] {
      LessByCharacters(a[1..], b[1..]);
      if i :| 0 <= i < |b[1..]| && i <= |a[1..]| && a[1..][..i] == b[1..][..i] && (i == |a[1..]| || a[1..][i] < b[1..][i]) {
        assert a[..i + 1] == [a[0]] + a[1..][..i] && b[..i + 1] == [b[0]] + b[1..][..i];
      }
      if i :| 0 <= i < |b| && i <= |a| && a[..i] == b[..i] && (i == |a| || a[i] < b[i]) {
        assert i > 0;
        assert a[1..][..i - 1] == a[..i][1..] && b[1..][..i - 1] == b[..i][1..];
      }
    } else if b != [] && (a == [] || a[0] < b[0]) {
      assert a[..0] == b[..0];
    } else {
      assert forall i | 0 < i <= |a| && i <= |b| :: a[..i] == b[..i] ==> a[..i][0] == b[..i][0];
    }
  }

  lemma LeastExists(kinds: set<string>) returns (k: string)
    requires kinds != {}
    ensures k in kinds && forall l | l in kinds :: l == k || Less(k, l)
  {
    k :| k in kinds;
    if kinds != {k} {
      var l := LeastExists(kinds - {k});
      LessIsTotal(k, l);
      if Less(l, k) {
        k := l;
      } else {
        forall m | m in kinds && m != k ensures Less(k, m) {
          if m != l { LessIsTransitive(k, l, m); }
        }
      }
    }
  }

  predicate Ascending(entries: seq<(string, nat)>) {
    forall i, j :: 0 <= i < j < |entries| ==> Less(entries[i].0, entries[j].0)
  }

  function Total(entries: seq<(string, nat)>): nat {
    if entries == [] then 0 else entries[0].1 + Total(entries[1..])
  }

  function TotalOf(entries: seq<(string, nat)>, kinds: seq<string>): nat {
    if entries == [] then 0
    else (if entries[0].0 in kinds then entries[0].1 else 0) + TotalOf(entries[1..], kinds)
  }

  function Kinds(ts: set<Event>): set<string> {
    set t | t in ts && t.failure.Some? :: t.failure.value
  }

  predicate Is5xx(t: Event) { t.status >= 500 }

  predicate IsStreamFailure(t: Event) { t.stream && t.failure.Some? }

  function IsKind(k: string): Event -> bool {
    (t: Event) => t.failure == Some(k)
  }

  /** The summary's numbers are the sizes of sets of finished requests. */
  ghost predicate Summarizes(s: Summary, ts: set<Event>) {
    && s.requests == |ts|
    && s.fiveXx == |Where(ts, Is5xx)|
    && s.streamFailures == |Where(ts, IsStreamFailure)|
    && Ascending(s.failures)
    && (forall i | 0 <= i < |s.failures| :: s.failures[i].1 == |Where(ts, IsKind(s.failures[i].0))|)
    && (forall k :: k in Kinds(ts) <==> exists i | 0 <= i < |s.failures| :: s.failures[i].0 == k)
  }

  /** The checks a stored summary has to pass. */
  predicate AcceptsSummary(s: Summary) {
    && s.fiveXx <= s.requests && s.streamFailures <= s.requests
    && (forall i | 0 <= i < |s.failures| :: s.failures[i].1 >= 1)
    && (forall i | 0 < i < |s.failures| :: Less(s.failures[i - 1].0, s.failures[i].0))
    && Total(s.failures) <= s.requests
  }

  /** The comparison of neighbours is enough: kinds that pass the checks ascend, so no kind comes twice. */
  lemma {:induction false} AcceptedKindsAscend(s: Summary, i: nat, k: nat)
    requires AcceptsSummary(s) && i < k < |s.failures|
    ensures Less(s.failures[i].0, s.failures[k].0) && s.failures[i].0 != s.failures[k].0
    decreases k - i
  {
    if i + 1 < k {
      AcceptedKindsAscend(s, i, k - 1);
      LessIsTransitive(s.failures[i].0, s.failures[k - 1].0, s.failures[k].0);
    }
    LessIsTotal(s.failures[i].0, s.failures[k].0);
  }

  lemma {:induction false} CountsAddUp(entries: seq<(string, nat)>)
    requires forall i | 0 <= i < |entries| :: entries[i].1 >= 1
    ensures |entries| <= Total(entries)
  {
    if entries != [] { CountsAddUp(entries[1..]); }
  }

  /** There are never more kinds than requests. */
  lemma AcceptedKindsAreFew(s: Summary)
    requires AcceptsSummary(s)
    ensures |s.failures| <= s.requests
  {
    CountsAddUp(s.failures);
  }

  ghost predicate HasKey(entries: seq<(string, nat)>, k: string) {
    exists i | 0 <= i < |entries| :: entries[i].0 == k
  }

  /** A list of kinds in order is determined by which kinds it has and how many of each. */
  lemma {:induction false} AscendingIsDetermined(xs: seq<(string, nat)>, ys: seq<(string, nat)>, count: string -> nat)
    requires Ascending(xs) && Ascending(ys)
    requires forall k :: HasKey(xs, k) <==> HasKey(ys, k)
    requires forall i | 0 <= i < |xs| :: xs[i].1 == count(xs[i].0)
    requires forall i | 0 <= i < |ys| :: ys[i].1 == count(ys[i].0)
    ensures xs == ys
  {
    if xs == [] || ys == [] {
      if xs != [] { assert HasKey(xs, xs[0].0); }
      if ys != [] { assert HasKey(ys, ys[0].0); }
    } else {
      SameFirst(xs, ys);
      forall k ensures HasKey(xs[1..], k) <==> HasKey(ys[1..], k) { TailKeys(xs, k); TailKeys(ys, k); }
      AscendingIsDetermined(xs[1..], ys[1..], count);
      assert xs == [xs[0]] + xs[1..] && ys == [ys[0]] + ys[1..];
    }
  }

  lemma SameFirst(xs: seq<(string, nat)>, ys: seq<(string, nat)>)
    requires Ascending(xs) && Ascending(ys) && xs != [] && ys != []
    requires forall k :: HasKey(xs, k) <==> HasKey(ys, k)
    ensures xs[0].0 == ys[0].0
  {
    assert HasKey(xs, xs[0].0) && HasKey(ys, ys[0].0);
    var i :| 0 <= i < |ys| && ys[i].0 == xs[0].0;
    var j :| 0 <= j < |xs| && xs[j].0 == ys[0].0;
    LessIsTotal(xs[0].0, ys[0].0);
  }

  lemma TailKeys(xs: seq<(string, nat)>, k: string)
    requires Ascending(xs) && xs != []
    ensures HasKey(xs[1..], k) <==> HasKey(xs, k) && k != xs[0].0
  {
    if HasKey(xs[1..], k) {
      var i :| 0 <= i < |xs[1..]| && xs[1..][i].0 == k;
      assert xs[i + 1].0 == k && Less(xs[0].0, xs[i + 1].0);
      LessIsTotal(k, k);
    }
    if HasKey(xs, k) && k != xs[0].0 {
      var i :| 0 <= i < |xs| && xs[i].0 == k;
      assert xs[1..][i - 1].0 == k;
    }
  }

  /** Two summaries of the same finished requests are the same summary. */
  lemma SummaryIsDetermined(s: Summary, r: Summary, ts: set<Event>)
    requires Summarizes(s, ts) && Summarizes(r, ts)
    ensures s == r
  {
    forall k ensures HasKey(s.failures, k) <==> HasKey(r.failures, k) {
      assert HasKey(s.failures, k) <==> k in Kinds(ts);
    }
    AscendingIsDetermined(s.failures, r.failures, k => |Where(ts, IsKind(k))|);
  }

  // ---------------------------------------------------------------- bounds on the kinds

  function KindTotal(entries: seq<(string, nat)>, ts: seq<Event>): nat {
    if entries == [] then 0 else CountWhere(ts, IsKind(entries[0].0)) + KindTotal(entries[1..], ts)
  }

  lemma {:induction false} OneMoreEvent(entries: seq<(string, nat)>, t: Event, ts: seq<Event>)
    requires Ascending(entries)
    ensures KindTotal(entries, [t] + ts) <= KindTotal(entries, ts) + 1
    ensures (t.failure.None? || !HasKey(entries, t.failure.value)) ==> KindTotal(entries, [t] + ts) == KindTotal(entries, ts)
  {
    assert ([t] + ts)[1..] == ts;
    if entries != [] {
      OneMoreEvent(entries[1..], t, ts);
      if t.failure.Some? { TailKeys(entries, t.failure.value); }
      assert HasKey(entries, entries[0].0);
    }
  }

  lemma {:induction false} KindTotalAtMostAll(entries: seq<(string, nat)>, ts: seq<Event>)
    requires Ascending(entries)
    ensures KindTotal(entries, ts) <= |ts|
  {
    if ts == [] {
      NoEventsNoKinds(entries);
    } else {
      KindTotalAtMostAll(entries, ts[1..]);
      OneMoreEvent(entries, ts[0], ts[1..]);
      assert ts == [ts[0]] + ts[1..];
    }
  }

  lemma {:induction false} NoEventsNoKinds(entries: seq<(string, nat)>)
    ensures KindTotal(entries, []) == 0
  {
    if entries != [] { NoEventsNoKinds(entries[1..]); }
  }

  lemma {:induction false} TotalIsKindTotal(entries: seq<(string, nat)>, ts: seq<Event>)
    requires forall i | 0 <= i < |entries| :: entries[i].1 == CountWhere(ts, IsKind(entries[i].0))
    ensures Total(entries) == KindTotal(entries, ts)
  {
    if entries != [] {
      assert forall i | 0 <= i < |entries[1..]| :: entries[1..][i] == entries[i + 1];
      TotalIsKindTotal(entries[1..], ts);
    }
  }

  /** Whatever kinds count as timeouts, there are no more of them than failures. */
  lemma {:induction false} TimeoutsAtMostTotal(entries: seq<(string, nat)>, kinds: seq<string>)
    ensures TotalOf(entries, kinds) <= Total(entries)
  {
    if entries != [] { TimeoutsAtMostTotal(entries[1..], kinds); }
  }

  // ---------------------------------------------------------------- what the numbers are

  /** The numbers of a summary, in terms of what the finished requests report. */
  lemma SummaryMeans(s: Summary, ts: set<Event>)
    requires Summarizes(s, ts)
    ensures s.requests == |ts|
    ensures s.fiveXx == |set t | t in ts && t.status >= 500|
    ensures s.streamFailures == |set t | t in ts && t.stream && t.failure.Some?|
    ensures forall i | 0 <= i < |s.failures| :: s.failures[i].1 == |set t | t in ts && t.failure == Some(s.failures[i].0)|
  {
    assert Where(ts, Is5xx) == set t | t in ts && t.status >= 500;
    assert Where(ts, IsStreamFailure) == set t | t in ts && t.stream && t.failure.Some?;
    forall i | 0 <= i < |s.failures| ensures s.failures[i].1 == |set t | t in ts && t.failure == Some(s.failures[i].0)| {
      assert Where(ts, IsKind(s.failures[i].0)) == set t | t in ts && t.failure == Some(s.failures[i].0);
    }
  }

  /** The finished requests that failed in a way that is listed both among the entries and among the kinds. */
  ghost function FailedIn(entries: seq<(string, nat)>, kinds: seq<string>, ts: set<Event>): set<Event> {
    set t | t in ts && t.failure.Some? && t.failure.value in kinds && HasKey(entries, t.failure.value)
  }

  lemma {:induction false} TotalOfCounts(entries: seq<(string, nat)>, kinds: seq<string>, ts: set<Event>)
    requires Ascending(entries) && forall i | 0 <= i < |entries| :: entries[i].1 == |Where(ts, IsKind(entries[i].0))|
    ensures TotalOf(entries, kinds) == |FailedIn(entries, kinds, ts)|
  {
    if entries == [] {
      assert FailedIn(entries, kinds, ts) == {};
    } else {
      var rest, k := entries[1..], entries[0].0;
      TotalOfCounts(rest, kinds, ts);
      forall l ensures HasKey(rest, l) <==> HasKey(entries, l) && l != k { TailKeys(entries, l); }
      assert HasKey(entries, k);
      if k in kinds {
        assert FailedIn(entries, kinds, ts) == Where(ts, IsKind(k)) + FailedIn(rest, kinds, ts);
        assert Where(ts, IsKind(k)) !! FailedIn(rest, kinds, ts);
      } else {
        assert FailedIn(entries, kinds, ts) == FailedIn(rest, kinds, ts);
      }
    }
  }

  /**
   The timeouts reported are the finished requests whose failure is of a kind on the list; and a list
   names a kind that was reported, as an upstream-wide fault is looked for, exactly when one of them is.
   */
  lemma TimeoutsMean(s: Summary, ts: set<Event>, kinds: seq<string>)
    requires Summarizes(s, ts)
    ensures TotalOf(s.failures, kinds) == |set t | t in ts && t.failure.Some? && t.failure.value in kinds|
    ensures (exists i | 0 <= i < |s.failures| :: s.failures[i].0 in kinds) <==> exists t | t in ts :: t.failure.Some? && t.failure.value in kinds
  {
    if t :| t in ts && t.failure.Some? && t.failure.value in kinds { assert t.failure.value in Kinds(ts); }
    if i :| 0 <= i < |s.failures| && s.failures[i].0 in kinds { assert s.failures[i].0 in Kinds(ts); }
    TotalOfCounts(s.failures, kinds, ts);
    forall t | t in ts && t.failure.Some? ensures HasKey(s.failures, t.failure.value) { assert t.failure.value in Kinds(ts); }
    assert FailedIn(s.failures, kinds, ts) == set t | t in ts && t.failure.Some? && t.failure.value in kinds;
  }
}
