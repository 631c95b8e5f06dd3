/**
 * Release retention: which release directories a pruning run deletes. The running release and
 * every pinned candidate and prior stay, whatever their age, beside the newest few.
 */
module Retention {
  import opened Wrappers
  import opened ReleaseJournal

  /** A directory of the release store whose name is a full revision and which is not a link. */
  datatype Entry = Entry(name: Release, modifiedAt: int)

  /** Newer first, and by name when two are as old. */
  predicate Before(a: Entry, b: Entry) {
    a.modifiedAt > b.modifiedAt || (a.modifiedAt == b.modifiedAt && a.name < b.name)
  }

  /** Times never rise along the list, and names rise among entries of one time. */
  predicate Ordered(s: seq<Entry>) {
    forall i, k | 0 <= i < k < |s| :: s[i].modifiedAt > s[k].modifiedAt || (s[i].modifiedAt == s[k].modifiedAt && s[i].name < s[k].name)
  }

  predicate DistinctNames(s: seq<Entry>) {
    forall i, k | 0 <= i < k < |s| :: s[i].name != s[k].name
  }

  /** The entries with a later time than `e`, and those of its time with a smaller name. */
  ghost function Newer(all: set<Entry>, e: Entry): set<Entry> {
    set x | x in all && (x.modifiedAt > e.modifiedAt || (x.modifiedAt == e.modifiedAt && x.name < e.name))
  }

  ghost function All(s: seq<Entry>): set<Entry> {
    set e | e in s
  }

  predicate Pinned(pins: seq<Pin>, r: Release) {
    exists p | p in pins :: r == p.candidate || r == p.prior
  }

  /** What a run deletes: not running, not pinned, and at least `keep` entries are newer. */
  ghost predicate Prunable(entries: seq<Entry>, e: Entry, current: Option<Release>, pins: seq<Pin>, keep: nat) {
    e in entries && Some(e.name) != current && !Pinned(pins, e.name) && |Newer(All(entries), e)| >= keep
  }

  lemma {:induction false} OrderedCount(s: seq<Entry>)
    requires Ordered(s)
    ensures |All(s)| == |s|
  {
    if s != [] {
      var front := s[..|s| - 1];
      var last := s[|s| - 1];
      OrderedCount(front);
      assert last !in front;
      assert s == front + [last];
      assert All(s) == All(front) + {last};
    }
  }

  /** The place in the sorted list is the number of newer entries. */
  lemma PlaceIsRank(s: seq<Entry>, i: nat)
    requires Ordered(s) && i < |s|
    ensures |Newer(All(s), s[i])| == i
  {
    OrderedCount(s[..i]);
    forall x ensures x in Newer(All(s), s[i]) <==> x in All(s[..i]) {
      if x in Newer(All(s), s[i]) {
        var k :| 0 <= k < |s| && s[k] == x;
        assert k < i ==> s[..i][k] == x;
      }
      if x in s[..i] {
        var k :| 0 <= k < i && s[..i][k] == x;
        assert s[k] == x;
      }
    }
    assert Newer(All(s), s[i]) == All(s[..i]);
  }

  /** Sorted newest first: the same entries, in order. */
  method SortNewestFirst(entries: seq<Entry>) returns (sorted: seq<Entry>)
    requires DistinctNames(entries)
    ensures Ordered(sorted) && All(sorted) == All(entries)
  {
    sorted := [];
    for i := 0 to |entries|
      invariant Ordered(sorted) && All(sorted) == All(entries[..i])
    {
      var e := entries[i];
      assert forall x | x in sorted :: x in entries[..i] && x.name != e.name by {
        assert forall x | x in sorted :: x in All(sorted);
      }
      var at := 0;
      while at < |sorted| && Before(sorted[at], e)
        invariant at <= |sorted| && forall k | 0 <= k < at :: Before(sorted[k], e)
      {
        at := at + 1;
      }
      ghost var was := sorted;
      sorted := sorted[..at] + [e] + sorted[at..];
      assert Ordered(sorted) by { InsertKeepsOrder(was, at, e); }
      assert All(sorted) == All(entries[..i + 1]) by { InsertAdds(was, at, e, entries, i); }
    }
    assert entries[..|entries|] == entries;
  }

  lemma InsertKeepsOrder(s: seq<Entry>, at: nat, e: Entry)
    requires Ordered(s) && at <= |s| && (forall k | 0 <= k < at :: Before(s[k], e))
    requires at < |s| ==> !Before(s[at], e)
    requires forall x | x in s :: x.name != e.name
    ensures Ordered(s[..at] + [e] + s[at..])
  {
    assert forall k | at <= k < |s| :: Before(e, s[k]) by {
      if at < |s| { assert s[at] in s; }
    }
  }

  lemma InsertAdds(s: seq<Entry>, at: nat, e: Entry, entries: seq<Entry>, i: nat)
    requires at <= |s| && i < |entries| && entries[i] == e && All(s) == All(entries[..i])
    ensures All(s[..at] + [e] + s[at..]) == All(entries[..i + 1])
  {
    assert s == s[..at] + s[at..];
    assert All(s[..at] + [e] + s[at..]) == All(s) + {e};
    assert entries[..i + 1] == entries[..i] + [e];
  }

  method HasPin(pins: seq<Pin>, r: Release) returns (found: bool)
    ensures found <==> Pinned(pins, r)
  {
    for i := 0 to |pins|
      invariant forall k | 0 <= k < i :: r != pins[k].candidate && r != pins[k].prior
    {
      if r == pins[i].candidate || r == pins[i].prior { return true; }
    }
    return false;
  }

  /** The entry at place `k` is beyond the newest, and nothing protects it. */
  ghost predicate Doomed(sorted: seq<Entry>, k: nat, current: Option<Release>, pins: seq<Pin>, keep: nat)
    requires k < |sorted|
  {
    k >= keep && Some(sorted[k].name) != current && !Pinned(pins, sorted[k].name)
  }

  /** The first `n` entries have been reported, each in the list that its fate asks for. */
  ghost predicate Reported(sorted: seq<Entry>, n: nat, current: Option<Release>, pins: seq<Pin>, keep: nat, removed: seq<Release>, kept: seq<Release>)
    requires n <= |sorted|
  {
    && (forall k: nat | k < n :: sorted[k].name in if Doomed(sorted, k, current, pins, keep) then removed else kept)
    && (forall r | r in removed :: exists k: nat | k < n :: sorted[k].name == r && Doomed(sorted, k, current, pins, keep))
    && (forall r | r in kept :: exists k: nat | k < n :: sorted[k].name == r && !Doomed(sorted, k, current, pins, keep))
  }

  lemma ReportedNext(sorted: seq<Entry>, n: nat, current: Option<Release>, pins: seq<Pin>, keep: nat, removed: seq<Release>, kept: seq<Release>)
    requires n < |sorted| && Reported(sorted, n, current, pins, keep, removed, kept)
    ensures Doomed(sorted, n, current, pins, keep) ==> Reported(sorted, n + 1, current, pins, keep, removed + [sorted[n].name], kept)
    ensures !Doomed(sorted, n, current, pins, keep) ==> Reported(sorted, n + 1, current, pins, keep, removed, kept + [sorted[n].name])
  {}

  /** The report in terms of the store: fates do not depend on the order that sorting chose. */
  lemma ReportMeans(
    entries: seq<Entry>, sorted: seq<Entry>, current: Option<Release>, pins: seq<Pin>, keep: nat, removed: seq<Release>, kept: seq<Release>, e: Entry)
    requires DistinctNames(entries) && Ordered(sorted) && All(sorted) == All(entries) && e in entries
    requires Reported(sorted, |sorted|, current, pins, keep, removed, kept)
    ensures Prunable(entries, e, current, pins, keep) <==> e.name in removed
    ensures Prunable(entries, e, current, pins, keep) <==> e.name !in kept
  {
    assert e in All(sorted);
    var i :| 0 <= i < |sorted| && sorted[i] == e;
    PlaceIsRank(sorted, i);
    forall k: nat | k < |sorted| && sorted[k].name == e.name ensures k == i {
      assert sorted[k] in All(sorted) && sorted[k] in entries;
      var a :| 0 <= a < |entries| && entries[a] == e;
      var b :| 0 <= b < |entries| && entries[b] == sorted[k];
      assert a == b;
      assert !Before(e, e);
    }
  }

  class ReleaseStore {
    var present: set<Release>

    /** `None` is the refusal of a keep count that is not a natural number. */
    method PruneReleases(entries: seq<Entry>, current: Option<Release>, pins: seq<Pin>, keep: int, dryRun: bool)
      returns (report: Option<(seq<Release>, seq<Release>)>)
      requires DistinctNames(entries)
      modifies this
      ensures report.None? <==> keep < 0
      ensures report.None? ==> present == old(present)
      ensures report.Some? ==> forall e | e in entries :: Prunable(entries, e, current, pins, keep) <==> e.name in report.value.0
      ensures report.Some? ==> forall e | e in entries :: Prunable(entries, e, current, pins, keep) <==> e.name !in report.value.1
      ensures report.Some? ==> forall r | r in report.value.0 :: exists e | e in entries :: e.name == r
      ensures report.Some? ==> present == if dryRun then old(present) else old(present) - (set r | r in report.value.0)
    {
      if keep < 0 { return None; }
      var sorted := SortNewestFirst(entries);
      var removed: seq<Release>, kept: seq<Release> := [], [];
      for i := 0 to |sorted|
        invariant Reported(sorted, i, current, pins, keep, removed, kept)
        invariant present == if dryRun then old(present) else old(present) - (set r | r in removed)
      {
        ReportedNext(sorted, i, current, pins, keep, removed, kept);
        var isPinned := HasPin(pins, sorted[i].name);
        if i < keep || Some(sorted[i].name) == current || isPinned {
          kept := kept + [sorted[i].name];
        } else {
          if !dryRun { present := present - {sorted[i].name}; }
          removed := removed + [sorted[i].name];
        }
      }
      report := Some((removed, kept));
      forall e | e in entries
        ensures Prunable(entries, e, current, pins, keep) <==> e.name in removed
        ensures Prunable(entries, e, current, pins, keep) <==> e.name !in kept
      {
        ReportMeans(entries, sorted, current, pins, keep, removed, kept, e);
      }
      forall r | r in removed ensures exists e | e in entries :: e.name == r {
        var k: nat :| k < |sorted| && sorted[k].name == r;
        assert sorted[k] in All(sorted) && sorted[k] in entries;
      }
    }
  }

  /** Of two entries that nothing protects, the older one is never kept when the newer one is removed. */
  lemma OlderGoesFirst(entries: seq<Entry>, a: Entry, b: Entry, current: Option<Release>, pins: seq<Pin>, keep: nat)
    requires b in entries && a.modifiedAt > b.modifiedAt && Prunable(entries, a, current, pins, keep)
    requires Some(b.name) != current && !Pinned(pins, b.name)
    ensures Prunable(entries, b, current, pins, keep)
  {
    var x, y := Newer(All(entries), a), Newer(All(entries), b);
    assert x <= y;
    assert y == x + (y - x);
  }
}
