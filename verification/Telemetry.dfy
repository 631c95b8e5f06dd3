/**
 The request journal, the slices of it that have been read, and the ledger that keeps the slices
 of one release identity in order. Times are whole microseconds, the unit journal rows carry.
 */
module Telemetry {
  import opened Wrappers

  const SLICE := 30_000_000
  const MAX_ENTRIES := 8192

  datatype Stage = Unstaged | Admitted | PreAdmission

  datatype Event = Event(
    id: string, at: int, accepted: bool, status: int, stream: bool,
    failure: Option<string>, stage: Stage, latencyMs: Option<nat>)

  /** What the journal holds for one release identity: request rows and unit exit or restart marks. */
  datatype Journal = Journal(events: seq<Event>, marks: seq<int>)

  datatype Slice = Slice(start: int, end: int, boot: string, events: seq<Event>, lifecycleAt: Option<int>)

  // ---------------------------------------------------------------- reading

  function Between(events: seq<Event>, a: int, b: int): (r: seq<Event>)
    ensures forall e :: e in r <==> e in events && a <= e.at < b
  {
    if events == [] then []
    else (if a <= events[0].at < b then [events[0]] else []) + Between(events[1..], a, b)
  }

  function LatestMark(marks: seq<int>, a: int, b: int): (r: Option<int>)
    ensures r.None? <==> forall m | m in marks :: !(a <= m < b)
    ensures r.Some? ==> r.value in marks && a <= r.value < b
    ensures r.Some? ==> forall m | m in marks && a <= m < b :: m <= r.value
  {
    if marks == [] then None
    else
      var rest := LatestMark(marks[1..], a, b);
      assert marks[0] in marks && forall m :: m in marks <==> m == marks[0] || m in marks[1..];
      if a <= marks[0] < b && (rest.None? || rest.value < marks[0]) then Some(marks[0]) else rest
  }

  /** The slice holds exactly what the journal holds for its interval. */
  predicate Proven(j: Journal, s: Slice) {
    && 0 <= s.start < s.end <= s.start + SLICE
    && s.events == Between(j.events, s.start, s.end)
    && s.lifecycleAt == LatestMark(j.marks, s.start, s.end)
  }

  function EventsIn(j: Journal, a: int, b: int): set<Event> {
    set e | e in j.events && a <= e.at < b
  }

  function EventsOf(tiles: seq<Slice>): seq<Event> {
    if tiles == [] then [] else tiles[0].events + EventsOf(tiles[1..])
  }

  lemma {:induction false} BetweenSplits(events: seq<Event>, a: int, b: int, c: int)
    requires a <= b <= c
    ensures |Between(events, a, c)| == |Between(events, a, b)| + |Between(events, b, c)|
  {
    if events != [] { BetweenSplits(events[1..], a, b, c); }
  }

  lemma {:induction false} BetweenNothing(events: seq<Event>, a: int)
    ensures Between(events, a, a) == []
  {
    if events != [] { BetweenNothing(events[1..], a); }
  }

  // ---------------------------------------------------------------- ledgers and tilings

  /** In order, never empty, never overlapping. */
  predicate Sorted(slices: seq<Slice>) {
    && (forall s | s in slices :: s.start < s.end)
    && forall i, j :: 0 <= i < j < |slices| ==> slices[i].end <= slices[j].start
  }

  predicate Disjoint(s: Slice, t: Slice) {
    s.end <= t.start || t.end <= s.start
  }

  /** Slices laid end to end from `a` to `b`. */
  predicate Chain(tiles: seq<Slice>, a: int, b: int) {
    if tiles == [] then a == b
    else tiles[0].start == a && tiles[0].start < tiles[0].end && Chain(tiles[1..], tiles[0].end, b)
  }

  /** The tiling found by one pass over the ledger. */
  function TilesOf(slices: seq<Slice>, next: int, end: int): Option<seq<Slice>> {
    if next >= end || slices == [] then
      if next == end then Some([]) else None
    else if slices[0].end <= next then TilesOf(slices[1..], next, end)
    else if slices[0].start != next then None
    else
      match TilesOf(slices[1..], slices[0].end, end)
      case None => None
      case Some(tiles) => Some([slices[0]] + tiles)
  }

  function Prepend(tiles: seq<Slice>, rest: Option<seq<Slice>>): Option<seq<Slice>> {
    match rest
    case None => None
    case Some(more) => Some(tiles + more)
  }

  lemma PrependOne(tiles: seq<Slice>, slice: Slice, rest: Option<seq<Slice>>)
    ensures Prepend(tiles, Prepend([slice], rest)) == Prepend(tiles + [slice], rest)
  {
    if rest.Some? { assert tiles + ([slice] + rest.value) == (tiles + [slice]) + rest.value; }
  }

  lemma PrependNothing(rest: Option<seq<Slice>>)
    ensures Prepend([], rest) == rest
  {
    if rest.Some? { assert [] + rest.value == rest.value; }
  }

  method TiledSlices(slices: seq<Slice>, start: int, end: int) returns (r: Option<seq<Slice>>)
    ensures r == TilesOf(slices, start, end)
  {
    var tiles: seq<Slice>, next, i := [], start, 0;
    assert slices[0..] == slices;
    PrependNothing(TilesOf(slices, start, end));
    while i < |slices| && next < end
      invariant 0 <= i <= |slices|
      invariant TilesOf(slices, start, end) == Prepend(tiles, TilesOf(slices[i..], next, end))
    {
      var slice := slices[i];
      assert slices[i..][0] == slice && slices[i..][1..] == slices[i + 1..];
      i := i + 1;
      if slice.end <= next { continue; }
      if slice.start != next { return None; }
      PrependOne(tiles, slice, TilesOf(slices[i..], slice.end, end));
      tiles, next := tiles + [slice], slice.end;
    }
    assert tiles + [] == tiles;
    return if next == end then Some(tiles) else None;
  }

  lemma {:induction false} ChainBounds(tiles: seq<Slice>, a: int, b: int)
    requires Chain(tiles, a, b)
    ensures a <= b && (a == b <==> tiles == [])
    ensures forall t | t in tiles :: a <= t.start < t.end <= b
    ensures tiles != [] ==> tiles[|tiles| - 1].end == b
  {
    if tiles != [] {
      ChainBounds(tiles[1..], tiles[0].end, b);
      assert forall t | t in tiles :: t == tiles[0] || t in tiles[1..];
    }
  }

  /** What the pass returns is a chain over the whole range made of ledger slices. */
  lemma {:induction false} TilesAreAChain(slices: seq<Slice>, a: int, b: int)
    requires Sorted(slices) && TilesOf(slices, a, b).Some?
    ensures Chain(TilesOf(slices, a, b).value, a, b)
    ensures forall t | t in TilesOf(slices, a, b).value :: t in slices
  {
    if a < b && slices != [] {
      var rest := slices[1..];
      assert forall s | s in rest :: s in slices;
      if slices[0].end <= a { TilesAreAChain(rest, a, b); } else { TilesAreAChain(rest, slices[0].end, b); }
    }
  }

  lemma SortedTail(slices: seq<Slice>)
    requires Sorted(slices) && slices != []
    ensures Sorted(slices[1..])
    ensures forall s | s in slices :: s == slices[0] || (s in slices[1..] && slices[0].end <= s.start)
  {
    var rest := slices[1..];
    assert forall i, j | 0 <= i < j < |rest| :: rest[i] == slices[i + 1] && rest[j] == slices[j + 1];
    forall s | s in slices && s != slices[0] ensures s in rest && slices[0].end <= s.start {
      var k :| 0 <= k < |slices| && slices[k] == s;
      assert rest[k - 1] == s;
    }
  }

  /** Any chain of ledger slices over a range is the tiling the pass finds. */
  lemma {:induction false} ChainIsFound(slices: seq<Slice>, tiles: seq<Slice>, a: int, b: int)
    requires Sorted(slices) && Chain(tiles, a, b)
    requires forall t | t in tiles :: t in slices
    ensures TilesOf(slices, a, b) == Some(tiles)
  {
    ChainBounds(tiles, a, b);
    if tiles != [] {
      assert tiles[0] in tiles;
      SortedTail(slices);
      if slices[0] == tiles[0] {
        ChainBounds(tiles[1..], tiles[0].end, b);
        forall t | t in tiles[1..] ensures t in slices[1..] { assert t in tiles; }
        ChainIsFound(slices[1..], tiles[1..], tiles[0].end, b);
        assert [slices[0]] + tiles[1..] == tiles;
      } else {
        assert slices[0] in slices;
        ChainIsFound(slices[1..], tiles, a, b);
      }
    }
  }

  lemma {:induction false} ChainAppend(tiles: seq<Slice>, s: Slice, a: int)
    requires Chain(tiles, a, s.start) && s.start < s.end
    ensures Chain(tiles + [s], a, s.end)
  {
    if tiles != [] {
      assert (tiles + [s])[1..] == tiles[1..] + [s];
      ChainAppend(tiles[1..], s, tiles[0].end);
    }
  }

  /** Concatenated slices are the journal itself, however the range was cut. */
  lemma {:induction false} ChainReadsTheJournal(j: Journal, tiles: seq<Slice>, a: int, b: int)
    requires Chain(tiles, a, b) && forall t | t in tiles :: Proven(j, t)
    ensures forall e :: e in EventsOf(tiles) <==> e in EventsIn(j, a, b)
    ensures |EventsOf(tiles)| == |Between(j.events, a, b)|
  {
    if tiles == [] {
      BetweenNothing(j.events, a);
    } else {
      var s, rest := tiles[0], tiles[1..];
      ChainBounds(rest, s.end, b);
      assert s in tiles && forall t | t in rest :: t in tiles;
      ChainReadsTheJournal(j, rest, s.end, b);
      BetweenSplits(j.events, a, s.end, b);
    }
  }

  lemma SpliceLeavesRoom(slices: seq<Slice>, at: nat, slice: Slice)
    requires Sorted(slices) && at <= |slices| && slice.start < slice.end
    requires at > 0 ==> slices[at - 1].end <= slice.start
    requires at < |slices| ==> slice.end <= slices[at].start
    ensures forall i | 0 <= i < at :: slices[i].end <= slice.start
    ensures forall i | at <= i < |slices| :: slice.end <= slices[i].start
  {
    if 0 < at { assert slices[at - 1] in slices; }
    if at < |slices| { assert slices[at] in slices; }
  }

  function Splice(slices: seq<Slice>, at: nat, slice: Slice): seq<Slice>
    requires at <= |slices|
  {
    slices[..at] + [slice] + slices[at..]
  }

  lemma SpliceContents(slices: seq<Slice>, at: nat, slice: Slice)
    requires at <= |slices|
    ensures forall s :: s in Splice(slices, at, slice) <==> s in slices || s == slice
  {
    assert slices == slices[..at] + slices[at..];
  }

  lemma SplicePairs(slices: seq<Slice>, at: nat, slice: Slice, i: nat, j: nat)
    requires at <= |slices| && i < j <= |slices|
    requires forall i, j :: 0 <= i < j < |slices| ==> slices[i].end <= slices[j].start
    requires forall i | 0 <= i < at :: slices[i].end <= slice.start
    requires forall i | at <= i < |slices| :: slice.end <= slices[i].start
    ensures Splice(slices, at, slice)[i].end <= Splice(slices, at, slice)[j].start
  {
    var r := Splice(slices, at, slice);
    assert r[i] == if i < at then slices[i] else if i == at then slice else slices[i - 1];
    assert r[j] == if j < at then slices[j] else if j == at then slice else slices[j - 1];
  }

  /** A slice put between its neighbours keeps the ledger in order. */
  lemma SpliceKeepsOrder(slices: seq<Slice>, at: nat, slice: Slice)
    requires Sorted(slices) && at <= |slices| && slice.start < slice.end
    requires at > 0 ==> slices[at - 1].end <= slice.start
    requires at < |slices| ==> slice.end <= slices[at].start
    ensures Sorted(Splice(slices, at, slice))
  {
    var r := Splice(slices, at, slice);
    assert forall i, j :: 0 <= i < j < |r| ==> r[i].end <= r[j].start by {
      SpliceLeavesRoom(slices, at, slice);
      forall i, j | 0 <= i < j < |r| ensures r[i].end <= r[j].start { SplicePairs(slices, at, slice, i, j); }
    }
    SpliceContents(slices, at, slice);
  }

  class Ledger {
    var retainFrom: int
    var slices: seq<Slice>

    constructor (retainFrom: int, slices: seq<Slice>)
      ensures this.retainFrom == retainFrom && this.slices == slices
    {
      this.retainFrom, this.slices := retainFrom, slices;
    }

    /** Adds a slice in order; refuses one that overlaps, and only such a one. */
    method Insert(slice: Slice) returns (ok: bool)
      requires Sorted(slices) && slice.start < slice.end
      modifies this`slices
      ensures ok <==> forall s | s in old(slices) :: Disjoint(s, slice)
      ensures ok ==> Sorted(slices) && forall s :: s in slices <==> s in old(slices) || s == slice
      ensures !ok ==> slices == old(slices)
    {
      var at := 0;
      while at < |slices| && slices[at].start < slice.end
        invariant 0 <= at <= |slices|
        invariant forall i | 0 <= i < at :: slices[i].start < slice.end
      {
        at := at + 1;
      }
      if at > 0 && slices[at - 1].end > slice.start {
        assert slices[at - 1] in slices && !Disjoint(slices[at - 1], slice);
        return false;
      }
      SpliceLeavesRoom(slices, at, slice);
      SpliceContents(slices, at, slice);
      SpliceKeepsOrder(slices, at, slice);
      slices := Splice(slices, at, slice);
      return true;
    }
  }
}
