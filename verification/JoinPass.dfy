/**
 The join as the collector runs it: one pass that indexes events by request id, one over the
 admissions of the window, one over the terminals, and one that counts failure kinds.
 */
module JoinPass {
  import opened Wrappers
  import opened Telemetry
  import opened Join

  datatype Index = Index(accepted: map<string, Event>, terminals: map<string, Event>)

  datatype Refusal = TooMany | Conflict | NoLatency

  datatype Joined = Joined(members: seq<(Event, Event)>, pending: bool, orphanFloor: Option<int>, terminalLost: bool)

  ghost predicate Indexes(x: Index, es: set<Event>) {
    && (forall e | e in es && e.accepted :: e.id in x.accepted && x.accepted[e.id] == e)
    && (forall e | e in es && !e.accepted :: e.id in x.terminals && x.terminals[e.id] == e)
    && (forall id | id in x.accepted :: x.accepted[id] in es && x.accepted[id].accepted && x.accepted[id].id == id)
    && (forall id | id in x.terminals :: x.terminals[id] in es && !x.terminals[id].accepted && x.terminals[id].id == id)
  }

  /** Admissions and terminals by request id; refused when an id carries two different facts. */
  method IndexEvents(events: seq<Event>) returns (r: Option<Index>)
    ensures r.Some? <==> |events| <= 2 * MAX_ENTRIES && Consistent(Range(events))
    ensures r.Some? ==> Indexes(r.value, Range(events))
  {
    if |events| > 2 * MAX_ENTRIES { return None; }
    var x := Index(map[], map[]);
    for i := 0 to |events|
      invariant Indexes(x, Range(events[..i]))
    {
      var e := events[i];
      var target := if e.accepted then x.accepted else x.terminals;
      assert e in events && forall f | f in events[..i] :: f in events;
      if e.id in target && target[e.id] != e {
        assert target[e.id] in Range(events) && e in Range(events);
        return None;
      }
      assert Range(events[..i + 1]) == Range(events[..i]) + {e} by { assert events[..i + 1] == events[..i] + [e]; }
      x := if e.accepted then x.(accepted := x.accepted[e.id := e]) else x.(terminals := x.terminals[e.id := e]);
    }
    assert events[..|events|] == events;
    var refused := exists id | id in x.terminals :: x.terminals[id].stage == PreAdmission && id in x.accepted;
    RefusedIsConflict(x, Range(events));
    return if refused then None else Some(x);
  }

  lemma RefusedIsConflict(x: Index, es: set<Event>)
    requires Indexes(x, es)
    ensures Consistent(es) <==> !exists id | id in x.terminals :: x.terminals[id].stage == PreAdmission && id in x.accepted
  {
    if id :| id in x.terminals && x.terminals[id].stage == PreAdmission && id in x.accepted {
      assert x.accepted[id] in es && x.terminals[id] in es;
    }
  }

  lemma IndexDecides(x: Index, es: set<Event>, id: string)
    requires Indexes(x, es)
    ensures HasAdmission(es, id) <==> id in x.accepted
    ensures HasTerminal(es, id) <==> id in x.terminals
  {
    if id in x.accepted { assert x.accepted[id] in es; }
    if id in x.terminals { assert x.terminals[id] in es; }
  }

  function Ends(members: seq<(Event, Event)>): seq<Event> {
    if members == [] then [] else [members[0].1] + Ends(members[1..])
  }

  lemma {:induction false} EndsAt(members: seq<(Event, Event)>, i: nat)
    requires i < |members|
    ensures |Ends(members)| == |members| && Ends(members)[i] == members[i].1
  {
    if i > 0 { EndsAt(members[1..], i - 1); } else if |members| > 1 { EndsAt(members[1..], 0); }
  }

  /** The members list is the finished requests of the window, each once. */
  ghost predicate ListsFinished(members: seq<(Event, Event)>, x: Index, ids: set<string>, ws: int, we: int) {
    && (forall i | 0 <= i < |members| ::
          && members[i].0.id in ids && members[i].0.id in x.accepted && x.accepted[members[i].0.id] == members[i].0
          && InWindow(members[i].0, ws, we)
          && members[i].0.id in x.terminals && x.terminals[members[i].0.id] == members[i].1)
    && (forall i, j :: 0 <= i < j < |members| ==> members[i].0.id != members[j].0.id)
    && (forall id | id in ids && id in x.accepted && InWindow(x.accepted[id], ws, we) && id in x.terminals ::
          exists i | 0 <= i < |members| :: members[i].0.id == id)
  }

  method CollectMembers(x: Index, ghost es: set<Event>, ws: int, we: int) returns (members: seq<(Event, Event)>, pending: bool)
    requires Indexes(x, es)
    ensures ListsFinished(members, x, x.accepted.Keys, ws, we)
    ensures pending <==> Pending(es, ws, we)
  {
    members, pending := [], false;
    var rest := x.accepted.Keys;
    ghost var seen: set<string> := {};
    while rest != {}
      invariant rest !! seen && rest + seen == x.accepted.Keys
      invariant ListsFinished(members, x, seen, ws, we)
      invariant pending <==> exists id | id in seen && id in x.accepted :: InWindow(x.accepted[id], ws, we) && id !in x.terminals
    {
      var id :| id in rest;
      var admission := x.accepted[id];
      if InWindow(admission, ws, we) {
        if id in x.terminals {
          MembersGrow(members, x, seen, id, ws, we);
          members := members + [(admission, x.terminals[id])];
        } else {
          pending := true;
        }
      }
      rest, seen := rest - {id}, seen + {id};
    }
    assert seen == x.accepted.Keys;
    PendingByIndex(x, es, ws, we);
  }

  lemma MembersGrow(members: seq<(Event, Event)>, x: Index, ids: set<string>, id: string, ws: int, we: int)
    requires ListsFinished(members, x, ids, ws, we) && id !in ids
    requires id in x.accepted && x.accepted[id].id == id && InWindow(x.accepted[id], ws, we) && id in x.terminals
    ensures ListsFinished(members + [(x.accepted[id], x.terminals[id])], x, ids + {id}, ws, we)
  {
    var more := members + [(x.accepted[id], x.terminals[id])];
    assert more[|members|].0.id == id;
    forall k | k in ids + {id} && k in x.accepted && InWindow(x.accepted[k], ws, we) && k in x.terminals
      ensures exists i | 0 <= i < |more| :: more[i].0.id == k
    {
      if k != id {
        var i :| 0 <= i < |members| && members[i].0.id == k;
        assert more[i].0.id == k;
      }
    }
  }

  lemma PendingByIndex(x: Index, es: set<Event>, ws: int, we: int)
    requires Indexes(x, es)
    ensures Pending(es, ws, we) <==>
            exists id | id in x.accepted :: InWindow(x.accepted[id], ws, we) && id !in x.terminals
  {
    if Pending(es, ws, we) {
      var a :| a in Admissions(es, ws, we) && !HasTerminal(es, a.id);
      IndexDecides(x, es, a.id);
      assert a.id in x.accepted;
    }
    if id :| id in x.accepted && InWindow(x.accepted[id], ws, we) && id !in x.terminals {
      IndexDecides(x, es, id);
      assert x.accepted[id] in Admissions(es, ws, we);
    }
  }

  /** The list has the finished set as its terminals, without repeats. */
  lemma MembersAreFinished(members: seq<(Event, Event)>, x: Index, es: set<Event>, ws: int, we: int)
    requires Indexes(x, es) && ListsFinished(members, x, x.accepted.Keys, ws, we)
    ensures Distinct(Ends(members)) && Range(Ends(members)) == Finished(es, ws, we)
    ensures |Ends(members)| == |members|
  {
    var ends := Ends(members);
    if members != [] { EndsAt(members, 0); }
    forall i | 0 <= i < |members| ensures |ends| == |members| && ends[i] == members[i].1 { EndsAt(members, i); }
    forall t | t in Range(ends) ensures t in Finished(es, ws, we) {
      var i :| 0 <= i < |ends| && ends[i] == t;
      assert members[i].0 in es && members[i].1 in es;
    }
    forall t | t in Finished(es, ws, we) ensures t in Range(ends) {
      var a :| a in es && InWindow(a, ws, we) && a.id == t.id;
      assert x.accepted[a.id] == a && x.terminals[t.id] == t;
      var i :| 0 <= i < |members| && members[i].0.id == a.id;
      assert ends[i] == t;
    }
  }

  /** The deepest reach among the orphans, or the refusal of an orphan that reports no latency. */
  method FindOrphanFloor(x: Index, ghost es: set<Event>, ws: int, floor: int) returns (ok: bool, r: Option<int>)
    requires Indexes(x, es)
    ensures ok <==> forall t | t in Orphans(es, ws) :: t.latencyMs.Some?
    ensures ok ==> IsOrphanFloor(es, ws, floor, r)
  {
    r := None;
    var rest := x.terminals.Keys;
    while rest != {}
      invariant rest <= x.terminals.Keys
      invariant forall t | t in Orphans(es, ws) && t.id !in rest ::
                  t.latencyMs.Some? && r.Some? && t.at - 1000 * t.latencyMs.value - SLICE <= r.value
      invariant r.Some? ==>
                  && r.value >= floor
                  && exists t | t in Orphans(es, ws) :: t.latencyMs.Some? && (r.value == floor || r.value == t.at - 1000 * t.latencyMs.value - SLICE)
    {
      var id :| id in rest;
      var t := x.terminals[id];
      rest := rest - {id};
      OrphanByIndex(x, es, ws, id);
      if t.at < ws || id in x.accepted || t.stage == PreAdmission { continue; }
      if t.latencyMs.None? { return false, r; }
      var known, bound := if r.Some? then r.value else floor, t.at - 1000 * t.latencyMs.value - SLICE;
      r := Some(if bound > known then bound else known);
    }
    return true, r;
  }

  lemma OrphanByIndex(x: Index, es: set<Event>, ws: int, id: string)
    requires Indexes(x, es) && id in x.terminals
    ensures x.terminals[id] in Orphans(es, ws) <==>
            !(x.terminals[id].at < ws || id in x.accepted || x.terminals[id].stage == PreAdmission)
    ensures forall t | t in Orphans(es, ws) && t.id == id :: t == x.terminals[id]
  {
    IndexDecides(x, es, id);
  }

  // ---------------------------------------------------------------- lifecycle marks

  function LatestLifecycle(tiles: seq<Slice>): (r: int)
    ensures r >= -1
  {
    if tiles == [] then -1
    else
      var rest := LatestLifecycle(tiles[1..]);
      if tiles[0].lifecycleAt.Some? && tiles[0].lifecycleAt.value > rest then tiles[0].lifecycleAt.value else rest
  }

  ghost predicate MarkAfter(marks: seq<int>, a: int, b: int, x: int) {
    exists m | m in marks :: a <= m < b && x < m
  }

  /** The latest mark over the tiles speaks for every mark in the range. */
  lemma {:induction false} LifecycleReadsTheJournal(j: Journal, tiles: seq<Slice>, a: int, b: int, x: int)
    requires Chain(tiles, a, b) && x >= 0
    requires forall t | t in tiles :: Proven(j, t)
    ensures x < LatestLifecycle(tiles) <==> MarkAfter(j.marks, a, b, x)
  {
    if tiles != [] {
      var s, rest := tiles[0], tiles[1..];
      assert s in tiles && forall t | t in rest :: t in tiles;
      ChainBounds(rest, s.end, b);
      LifecycleReadsTheJournal(j, rest, s.end, b, x);
      assert MarkAfter(j.marks, a, b, x) <==> MarkAfter(j.marks, a, s.end, x) || MarkAfter(j.marks, s.end, b, x);
    }
  }

  method FindTerminalLost(x: Index, ghost es: set<Event>, ws: int, we: int, lifecycleAt: int) returns (lost: bool)
    requires Indexes(x, es)
    ensures lost <==> exists e | e in Admissions(es, ws, we) :: !HasTerminal(es, e.id) && e.at < lifecycleAt
  {
    lost := exists id | id in x.accepted :: InWindow(x.accepted[id], ws, we) && id !in x.terminals && x.accepted[id].at < lifecycleAt;
    if lost {
      var id :| id in x.accepted && InWindow(x.accepted[id], ws, we) && id !in x.terminals && x.accepted[id].at < lifecycleAt;
      IndexDecides(x, es, id);
      assert x.accepted[id] in Admissions(es, ws, we);
    }
    if e :| e in Admissions(es, ws, we) && !HasTerminal(es, e.id) && e.at < lifecycleAt {
      IndexDecides(x, es, e.id);
      assert e.id in x.accepted;
    }
  }

  // ---------------------------------------------------------------- the join of a tiled range

  /** What the join of a range has to report, read straight off the journal. */
  ghost predicate Reports(r: Joined, j: Journal, a: int, b: int, ws: int, we: int, floor: int) {
    var es := EventsIn(j, a, b);
    && Consistent(es)
    && Distinct(Ends(r.members)) && Range(Ends(r.members)) == Finished(es, ws, we) && |Ends(r.members)| == |r.members|
    && (r.pending <==> Pending(es, ws, we))
    && IsOrphanFloor(es, ws, floor, r.orphanFloor)
    && (r.terminalLost <==> TerminalLost(es, j.marks, a, b, ws, we))
  }

  /** A join that refuses would have refused the undivided journal too. */
  ghost predicate Joinable(j: Journal, a: int, b: int, ws: int) {
    && |Between(j.events, a, b)| <= 2 * MAX_ENTRIES
    && Consistent(EventsIn(j, a, b))
    && forall t | t in Orphans(EventsIn(j, a, b), ws) :: t.latencyMs.Some?
  }

  method JoinTiles(tiles: seq<Slice>, ghost j: Journal, ghost a: int, ghost b: int, ws: int, we: int, floor: int)
    returns (r: Option<Joined>)
    requires Chain(tiles, a, b) && ws >= 0
    requires forall t | t in tiles :: Proven(j, t)
    ensures r.Some? <==> Joinable(j, a, b, ws)
    ensures r.Some? ==> Reports(r.value, j, a, b, ws, we, floor)
  {
    ghost var es := EventsIn(j, a, b);
    ChainReadsTheJournal(j, tiles, a, b);
    var events := EventsOf(tiles);
    assert Range(events) == es;
    var indexed := IndexEvents(events);
    if indexed.None? { return None; }
    var x := indexed.value;
    var members, pending := CollectMembers(x, es, ws, we);
    MembersAreFinished(members, x, es, ws, we);
    var ok, orphanFloor := FindOrphanFloor(x, es, ws, floor);
    if !ok { return None; }
    var terminalLost := FindTerminalLost(x, es, ws, we, LatestLifecycle(tiles));
    assert terminalLost <==> TerminalLost(es, j.marks, a, b, ws, we) by { LostByMarks(j, tiles, a, b, ws, we); }
    return Some(Joined(members, pending, orphanFloor, terminalLost));
  }

  lemma LostByMarks(j: Journal, tiles: seq<Slice>, a: int, b: int, ws: int, we: int)
    requires Chain(tiles, a, b) && ws >= 0
    requires forall t | t in tiles :: Proven(j, t)
    ensures var es := EventsIn(j, a, b);
            TerminalLost(es, j.marks, a, b, ws, we) <==>
            exists e | e in Admissions(es, ws, we) :: !HasTerminal(es, e.id) && e.at < LatestLifecycle(tiles)
  {
    var es := EventsIn(j, a, b);
    forall e | e in Admissions(es, ws, we)
      ensures e.at < LatestLifecycle(tiles) <==> MarkAfter(j.marks, a, b, e.at)
    {
      LifecycleReadsTheJournal(j, tiles, a, b, e.at);
    }
  }

  // ---------------------------------------------------------------- the summary

  ghost predicate Tallies(counts: map<string, nat>, ts: seq<Event>) {
    && (forall k :: k in counts <==> k in Kinds(Range(ts)))
    && (forall k | k in counts :: counts[k] == CountWhere(ts, IsKind(k)) >= 1)
  }

  function Tally(counts: map<string, nat>, t: Event): map<string, nat> {
    if t.failure.None? then counts
    else
      var k := t.failure.value;
      counts[k := (if k in counts then counts[k] else 0) + 1]
  }

  method CountKinds(ts: seq<Event>) returns (counts: map<string, nat>)
    ensures Tallies(counts, ts)
  {
    counts := map[];
    var i := |ts|;
    while i > 0
      invariant 0 <= i <= |ts|
      invariant Tallies(counts, ts[i..])
    {
      i := i - 1;
      assert ts[i..] == [ts[i]] + ts[i + 1..];
      TallyOneMore(counts, ts[i], ts[i + 1..]);
      counts := Tally(counts, ts[i]);
    }
    assert ts[0..] == ts;
  }

  lemma TallyOneMore(counts: map<string, nat>, t: Event, ts: seq<Event>)
    requires Tallies(counts, ts)
    ensures Tallies(Tally(counts, t), [t] + ts)
  {
    assert Kinds(Range([t] + ts)) == Kinds(Range(ts)) + (if t.failure.Some? then {t.failure.value} else {}) by {
      assert Range([t] + ts) == {t} + Range(ts);
    }
    assert ([t] + ts)[1..] == ts;
    forall k | k in Tally(counts, t)
      ensures Tally(counts, t)[k] == CountWhere([t] + ts, IsKind(k)) >= 1
    {
      if k !in Kinds(Range(ts)) { AbsentKind(ts, k); }
      assert CountWhere([t] + ts, IsKind(k)) == (if IsKind(k)(t) then 1 else 0) + CountWhere(ts, IsKind(k));
    }
  }

  lemma {:induction false} AbsentKind(ts: seq<Event>, k: string)
    requires k !in Kinds(Range(ts))
    ensures CountWhere(ts, IsKind(k)) == 0
  {
    if ts != [] {
      assert ts[0] in Range(ts) && forall t | t in Range(ts[1..]) :: t in Range(ts);
      AbsentKind(ts[1..], k);
    }
  }

  method SortKinds(counts: map<string, nat>) returns (entries: seq<(string, nat)>)
    ensures Ascending(entries)
    ensures forall k :: k in counts <==> HasKey(entries, k)
    ensures forall i | 0 <= i < |entries| :: entries[i].0 in counts && entries[i].1 == counts[entries[i].0]
  {
    entries := [];
    var rest := counts.Keys;
    while rest != {}
      invariant rest <= counts.Keys
      invariant Ascending(entries)
      invariant forall i, k :: 0 <= i < |entries| && k in rest ==> Less(entries[i].0, k)
      invariant forall k :: k in counts.Keys - rest <==> HasKey(entries, k)
      invariant forall i | 0 <= i < |entries| :: entries[i].0 in counts && entries[i].1 == counts[entries[i].0]
    {
      ghost var _ := LeastExists(rest);
      var k :| k in rest && forall l | l in rest :: l == k || Less(k, l);
      KeysGrow(entries, (k, counts[k]));
      entries, rest := entries + [(k, counts[k])], rest - {k};
    }
  }

  lemma KeysGrow(entries: seq<(string, nat)>, entry: (string, nat))
    ensures forall k :: HasKey(entries + [entry], k) <==> HasKey(entries, k) || k == entry.0
  {
    var more := entries + [entry];
    assert more[|entries|] == entry;
    forall k | HasKey(entries, k) ensures HasKey(more, k) {
      var i :| 0 <= i < |entries| && entries[i].0 == k;
      assert more[i].0 == k;
    }
  }

  /** The counts of a completed window, which always pass the checks made when they are stored. */
  method Summarize(members: seq<(Event, Event)>) returns (s: Summary)
    requires Distinct(Ends(members)) && |Ends(members)| == |members|
    ensures Summarizes(s, Range(Ends(members)))
    ensures AcceptsSummary(s)
  {
    var ts := Ends(members);
    var counts := CountKinds(ts);
    var failures := SortKinds(counts);
    s := Summary(|members|, CountWhere(ts, Is5xx), CountWhere(ts, IsStreamFailure), failures);
    LengthIsCardinality(ts);
    CountIsCardinality(ts, Is5xx);
    CountIsCardinality(ts, IsStreamFailure);
    forall i | 0 <= i < |failures| ensures failures[i].1 == |Where(Range(ts), IsKind(failures[i].0))| {
      CountIsCardinality(ts, IsKind(failures[i].0));
    }
    CountAtMostAll(ts, Is5xx);
    CountAtMostAll(ts, IsStreamFailure);
    TotalIsKindTotal(failures, ts);
    KindTotalAtMostAll(failures, ts);
    assert forall k :: k in Kinds(Range(ts)) <==> HasKey(failures, k);
  }
}
