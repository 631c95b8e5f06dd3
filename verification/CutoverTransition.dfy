/**
 * The phase machine of the first Bun cutover: `executeCutoverTransition` with effects that may
 * fail at any call, a journal write that may fail before or after reaching the disk, and a
 * cancellation signal that may fire at any time.
 */
module CutoverTransition {
  import opened Wrappers

  datatype Phase =
    | Prepared | Stopping | Stopped | Converted | Starting | CandidateReady | Accepted
    | Recovering | LegacyStarting | RolledBack | RecoveryUnproved

  datatype Step =
    | Record(phase: Phase) | Preflight | Stop | Preserve | Convert | Start | Verify
    | Recover(startupAttempted: bool)

  /** A journal write may throw without reaching the disk (`Failed`), or after it did (`Late`). */
  datatype Outcome = Done | Failed | Late

  datatype Call = Call(step: Step, outcome: Outcome)

  datatype Journal = Journal(phase: Phase, bunStartupAttempted: bool)

  /** How the transition ends; the last four are the errors it throws. */
  datatype End = EndAccepted | EndRolledBack | Refused | Unrecorded | Unproved | UnprovedUnrecorded

  // ---------------------------------------------------------------- the durable journal as a function of the calls

  /** The journal object in memory: `record` changes it before it writes. */
  function InMemory(calls: seq<Call>): (j: Journal) {
    if calls == [] then Journal(Prepared, false)
    else
      var j, last := InMemory(calls[..|calls| - 1]), calls[|calls| - 1].step;
      if last.Record? then Journal(last.phase, j.bunStartupAttempted || last.phase == Starting) else j
  }

  /** What a process that starts after the calls finds on disk. */
  function OnDisk(calls: seq<Call>): (j: Option<Journal>) {
    if calls == [] then None
    else
      var last := calls[|calls| - 1];
      if last.step.Record? && last.outcome != Failed then Some(InMemory(calls))
      else OnDisk(calls[..|calls| - 1])
  }

  predicate Called(calls: seq<Call>, step: Step) {
    exists i | 0 <= i < |calls| :: calls[i].step == step
  }

  // ---------------------------------------------------------------- the calls a run may make

  /** The forward script, in order. */
  function Script(): (s: seq<Step>)
    ensures |s| == 13
  {
    [Record(Prepared), Preflight, Record(Stopping), Stop, Preserve, Record(Stopped), Convert,
     Record(Converted), Record(Starting), Start, Record(CandidateReady), Verify, Record(Accepted)]
  }

  /** The first calls of the script, all of them successful. */
  predicate Going(f: seq<Call>, n: nat) {
    |f| == n <= 13 && forall i | 0 <= i < n :: f[i] == Call(Script()[i], Done)
  }

  /** The forward calls of a run that did not get through: a call failed, or the signal fired before a record. */
  predicate Broken(f: seq<Call>) {
    || (|f| < 13 && Going(f, |f|) && Script()[|f|].Record?)
    || (0 < |f| <= 13 && Going(f[..|f| - 1], |f| - 1) && f[|f| - 1].step == Script()[|f| - 1] && f[|f| - 1].outcome != Done)
  }

  /** The gateway may have been interrupted: `stopping` was recorded successfully. */
  predicate Interrupted(f: seq<Call>) {
    |f| > 2 && f[2].outcome == Done
  }

  /** The error after an unproved recovery: its own, or that of the record that failed too. */
  function UnprovedEnd(last: Call): End {
    if last.outcome == Done then Unproved else UnprovedUnrecorded
  }

  /** The calls after `recovering` was recorded, with the outcome that each pattern of failures gives. */
  predicate Rollback(r: seq<Call>, attempted: bool, end: End) {
    && 2 <= |r| <= 3 && r[0].step == Recover(attempted)
    && (r[0].outcome != Done ==> |r| == 2 && r[1].step == Record(RecoveryUnproved) && end == UnprovedEnd(r[1]))
    && (r[0].outcome == Done ==>
          && r[1].step == Record(RolledBack)
          && (r[1].outcome == Done ==> |r| == 2 && end == EndRolledBack)
          && (r[1].outcome != Done ==> |r| == 3 && r[2].step == Record(RecoveryUnproved) && end == UnprovedEnd(r[2])))
  }

  /** The calls of the recovery. */
  predicate Recovery(r: seq<Call>, attempted: bool, end: End) {
    && r != [] && r[0].step == Record(Recovering)
    && if r[0].outcome != Done then |r| == 1 && end == Unrecorded else Rollback(r[1..], attempted, end)
  }

  /** The calls `f` of the forward part and `r` of the recovery, and how the run ended. */
  predicate Run(f: seq<Call>, r: seq<Call>, end: End) {
    if Going(f, 13) then r == [] && end == EndAccepted
    else if !Interrupted(f) then Broken(f) && r == [] && (end == if |f| <= 1 && !Going(f, 1) then Unrecorded else Refused)
    else Broken(f) && Recovery(r, |f| > 9, end)
  }

  /** The next call of the script carries it on, or breaks it. */
  lemma OneMoreCall(f: seq<Call>, c: Call)
    requires |f| < 13 && Going(f, |f|) && c.step == Script()[|f|]
    ensures c.outcome == Done ==> Going(f + [c], |f| + 1)
    ensures c.outcome != Done ==> Broken(f + [c]) && !Going(f + [c], |f| + 1)
  {
    assert (f + [c])[..|f|] == f;
  }

  /** Only a failed write ends the forward part right after `stopping` or `starting`. */
  lemma WhereItBroke(f: seq<Call>)
    requires Broken(f)
    ensures Interrupted(f) <==> |f| > 3
    ensures |f| == 9 ==> f[8].step == Record(Starting) && f[8].outcome != Done
    ensures !Going(f, 13)
  {
    assert Script()[3] == Stop && Script()[9] == Start;
    if Going(f, |f|) { assert |f| > 2 ==> f[2] == Call(Script()[2], Done); }
    else {
      var g := f[..|f| - 1];
      assert |f| > 3 ==> g[2] == f[2];
    }
  }

  // ---------------------------------------------------------------- the transition

  class Supervisor {
    /** Whether the n-th effect succeeds, and whether the signal has fired before it. */
    const outcome: nat -> Outcome
    const aborted: nat -> bool
    var calls: seq<Call>
    var journal: Journal
    var disk: Option<Journal>

    constructor (outcome: nat -> Outcome, aborted: nat -> bool)
      ensures calls == [] && Valid()
      ensures this.outcome == outcome && this.aborted == aborted
    {
      this.outcome, this.aborted := outcome, aborted;
      calls, journal, disk := [], Journal(Prepared, false), None;
    }

    ghost predicate Valid() reads this {
      journal == InMemory(calls) && disk == OnDisk(calls)
    }

    /** The calls met the outcomes of the environment, and no forward record was made after the signal. */
    ghost predicate Faithful(f: seq<Call>) {
      forall i | 0 <= i < |f| :: f[i].outcome == outcome(i) && (f[i].step.Record? ==> !aborted(i))
    }

    /** The forward part ended where it had to: at the first failure or at the first record after the signal. */
    ghost predicate EndedByCause(f: seq<Call>) {
      Faithful(f) && (Going(f, |f|) && |f| < 13 ==> aborted(|f|))
    }

    /** The calls of a recovery that begins at the n-th call met the outcomes of the environment. */
    ghost predicate Answered(n: nat, r: seq<Call>) {
      && |r| <= 4
      && (|r| > 0 ==> r[0].outcome == outcome(n)) && (|r| > 1 ==> r[1].outcome == outcome(n + 1))
      && (|r| > 2 ==> r[2].outcome == outcome(n + 2)) && (|r| > 3 ==> r[3].outcome == outcome(n + 3))
    }

    /** One effect other than a journal write. */
    method Perform(step: Step) returns (ok: bool)
      requires Valid() && !step.Record?
      modifies this
      ensures Valid()
      ensures calls == old(calls) + [Call(step, outcome(|old(calls)|))]
      ensures ok <==> outcome(|old(calls)|) == Done
    {
      var result := outcome(|calls|);
      ghost var was := calls;
      calls := calls + [Call(step, result)];
      assert calls[..|calls| - 1] == was;
      ok := result == Done;
    }

    /** The journal write: memory first, then the file, then the directory sync that may still throw. */
    method Persist(phase: Phase) returns (ok: bool)
      requires Valid()
      modifies this
      ensures Valid()
      ensures calls == old(calls) + [Call(Record(phase), outcome(|old(calls)|))]
      ensures ok <==> outcome(|old(calls)|) == Done
    {
      var result := outcome(|calls|);
      journal := journal.(phase := phase);
      if phase == Starting { journal := journal.(bunStartupAttempted := true); }
      if result != Failed { disk := Some(journal); }
      ghost var was := calls;
      calls := calls + [Call(Record(phase), result)];
      assert calls[..|calls| - 1] == was;
      ok := result == Done;
    }

    /** The forward `record`: refused once the signal has fired. */
    method Checked(phase: Phase) returns (ok: bool)
      requires Valid() && |calls| < 13 && Going(calls, |calls|) && Script()[|calls|] == Record(phase) && Faithful(calls)
      modifies this
      ensures Valid() && Faithful(calls)
      ensures ok ==> Going(calls, |old(calls)| + 1)
      ensures !ok ==> Broken(calls) && EndedByCause(calls) && |old(calls)| <= |calls| <= |old(calls)| + 1
    {
      hide InMemory, OnDisk;
      if aborted(|calls|) { return false; }
      OneMoreCall(calls, Call(Record(phase), outcome(|calls|)));
      ok := Persist(phase);
    }

    /** A forward effect. */
    method Effect(step: Step) returns (ok: bool)
      requires Valid() && |calls| < 13 && Going(calls, |calls|) && Script()[|calls|] == step && !step.Record? && Faithful(calls)
      modifies this
      ensures Valid() && Faithful(calls)
      ensures ok ==> Going(calls, |old(calls)| + 1)
      ensures !ok ==> Broken(calls) && EndedByCause(calls) && |calls| == |old(calls)| + 1
    {
      OneMoreCall(calls, Call(step, outcome(|calls|)));
      ok := Perform(step);
    }

    method Execute() returns (end: End, ghost f: seq<Call>, ghost r: seq<Call>)
      requires Valid() && calls == []
      modifies this
      ensures Valid() && calls == f + r
      ensures Run(f, r, end) && EndedByCause(f) && Answered(|f|, r)
    {
      var recorded, stopping, startupAttempted, ok := Forward();
      f, r := calls, [];
      if !recorded { return Unrecorded, f, r; }
      if ok { return EndAccepted, f, r; }
      if !stopping { return Refused, f, r; }
      end, r := Recovered(startupAttempted);
    }

    /** The `prepared` record and the try block, with the flags that its catch clause reads. */
    method Forward() returns (recorded: bool, stopping: bool, startupAttempted: bool, ok: bool)
      requires Valid() && calls == []
      modifies this
      ensures Valid() && EndedByCause(calls)
      ensures if ok then Going(calls, 13) else Broken(calls) && !Going(calls, 13)
      ensures recorded <==> |calls| > 1 || Going(calls, 1)
      ensures ok ==> recorded
      ensures !ok ==> (stopping <==> Interrupted(calls)) && (startupAttempted <==> |calls| > 9)
    {
      stopping, startupAttempted := false, false;
      ok := Checked(Prepared);
      recorded := ok;
      if ok { stopping := Interrupt(); ok := stopping; }
      if ok { ok := Migrate(); }
      if ok { ok, startupAttempted := Launch(); }
      if !ok { WhereItBroke(calls); }
    }

    /** Preflight and the `stopping` intent. */
    method Interrupt() returns (ok: bool)
      requires Valid() && Going(calls, 1) && Faithful(calls)
      modifies this
      ensures Valid() && Faithful(calls)
      ensures if ok then Going(calls, 3) else Broken(calls) && EndedByCause(calls) && 2 <= |calls| <= 3
    {
      ok := Effect(Preflight);
      if ok { ok := Checked(Stopping); }
    }

    /** Stop, preserve and convert, each recorded before the next. */
    method Migrate() returns (ok: bool)
      requires Valid() && Going(calls, 3) && Faithful(calls)
      modifies this
      ensures Valid() && Faithful(calls)
      ensures if ok then Going(calls, 8) else Broken(calls) && EndedByCause(calls) && 4 <= |calls| <= 8
    {
      ok := Effect(Stop);
      if ok { ok := Effect(Preserve); }
      if ok { ok := Checked(Stopped); }
      if ok { ok := Effect(Convert); }
      if ok { ok := Checked(Converted); }
    }

    /** The first start of Bun, its readiness and acceptance. */
    method Launch() returns (ok: bool, startupAttempted: bool)
      requires Valid() && Going(calls, 8) && Faithful(calls)
      modifies this
      ensures Valid() && Faithful(calls)
      ensures if ok then Going(calls, 13) else Broken(calls) && EndedByCause(calls) && 8 <= |calls| <= 13 && startupAttempted == (|calls| > 9)
    {
      startupAttempted := false;
      ok := Checked(Starting);
      if !ok { return; }
      startupAttempted := true;
      ok := Effect(Start);
      if ok { ok := Checked(CandidateReady); }
      if ok { ok := Effect(Verify); }
      if ok { ok := Checked(Accepted); }
    }

    /** The catch clause: the cancellation signal is no longer consulted. */
    method Recovered(startupAttempted: bool) returns (end: End, ghost r: seq<Call>)
      requires Valid()
      modifies this
      ensures Valid() && calls == old(calls) + r
      ensures Recovery(r, startupAttempted, end) && Answered(|old(calls)|, r)
    {
      ghost var first := Call(Record(Recovering), outcome(|calls|));
      var ok := Persist(Recovering);
      if !ok { return Unrecorded, [first]; }
      ghost var rest;
      end, rest := RolledBackOr(startupAttempted);
      r := [first] + rest;
      assert r[1..] == rest;
      assert old(calls) + r == (old(calls) + [first]) + rest;
    }

    /** The recovery effect and its last record. */
    method RolledBackOr(startupAttempted: bool) returns (end: End, ghost r: seq<Call>)
      requires Valid()
      modifies this
      ensures Valid() && calls == old(calls) + r
      ensures Rollback(r, startupAttempted, end) && Answered(|old(calls)|, r)
    {
      ghost var was, n := calls, |calls|;
      ghost var a := Call(Recover(startupAttempted), outcome(n));
      var ok := Perform(Recover(startupAttempted));
      if !ok {
        end := Unproven();
        r := [a, Call(Record(RecoveryUnproved), outcome(n + 1))];
        assert calls == was + r;
        return;
      }
      ghost var b := Call(Record(RolledBack), outcome(n + 1));
      ok := Persist(RolledBack);
      if ok {
        r := [a, b];
        assert calls == was + r;
        return EndRolledBack, r;
      }
      end := Unproven();
      r := [a, b, Call(Record(RecoveryUnproved), outcome(n + 2))];
      assert calls == was + r;
    }

    method Unproven() returns (end: End)
      requires Valid()
      modifies this
      ensures Valid() && calls == old(calls) + [Call(Record(RecoveryUnproved), outcome(|old(calls)|))]
      ensures end == UnprovedEnd(calls[|calls| - 1])
    {
      var ok := Persist(RecoveryUnproved);
      end := if ok then Unproved else UnprovedUnrecorded;
    }
  }

  // ---------------------------------------------------------------- what every run promises

  predicate Persisted(c: Call) {
    c.step.Record? && c.outcome != Failed
  }

  lemma {:induction false} AttemptIsRemembered(calls: seq<Call>)
    ensures InMemory(calls).bunStartupAttempted <==> Called(calls, Record(Starting))
  {
    if calls != [] {
      var front := calls[..|calls| - 1];
      AttemptIsRemembered(front);
      if Called(calls, Record(Starting)) && calls[|calls| - 1].step != Record(Starting) {
        var i :| 0 <= i < |calls| && calls[i].step == Record(Starting);
        assert front[i] == calls[i];
      }
      if Called(front, Record(Starting)) {
        var i :| 0 <= i < |front| && front[i].step == Record(Starting);
        assert calls[i] == front[i];
      }
    }
  }

  /** After a write that reached the disk, the disk holds that journal or a later one. */
  lemma {:induction false} DiskAfterWrite(calls: seq<Call>, n: nat) returns (m: nat)
    requires n < |calls| && Persisted(calls[n])
    ensures n <= m < |calls| && Persisted(calls[m]) && OnDisk(calls) == Some(InMemory(calls[..m + 1]))
  {
    var last := |calls| - 1;
    if Persisted(calls[last]) {
      m := last;
      assert calls[..last + 1] == calls;
    } else {
      m := DiskAfterWrite(calls[..last], n);
      assert calls[..last][..m + 1] == calls[..m + 1];
    }
  }

  /** The journal on disk names the phase of its last write and remembers every recorded attempt to start. */
  lemma DiskReads(calls: seq<Call>, n: nat) returns (m: nat)
    requires n < |calls| && Persisted(calls[n])
    ensures n <= m < |calls| && Persisted(calls[m]) && OnDisk(calls).Some? && OnDisk(calls).value.phase == calls[m].step.phase
    ensures OnDisk(calls).value.bunStartupAttempted <==> Called(calls[..m + 1], Record(Starting))
  {
    m := DiskAfterWrite(calls, n);
    AttemptIsRemembered(calls[..m + 1]);
  }

  /** Where each step of the forward part stands, and that the recovery repeats none of them. */
  lemma Places(f: seq<Call>, r: seq<Call>, end: End, i: nat)
    requires Run(f, r, end) && i < |f + r|
    ensures (f + r)[i].step == Stop ==> i == 3 < |f|
    ensures (f + r)[i].step == Start ==> i == 9 < |f|
    ensures (f + r)[i].step == Record(Prepared) ==> i == 0
    ensures (f + r)[i].step.Recover? ==> i == |f| + 1 && (f + r)[i].step.startupAttempted == (|f| > 9)
    ensures i < |f| ==> (f + r)[i].step == Script()[i] && (i < |f| - 1 ==> f[i].outcome == Done)
    ensures i >= |f| ==> (f + r)[i].step.Recover? || (f + r)[i].step in {Record(Recovering), Record(RolledBack), Record(RecoveryUnproved)}
  {
    if i < |f| {
      if Broken(f) && !Going(f, |f|) {
        var g := f[..|f| - 1];
        assert i < |f| - 1 ==> g[i] == f[i];
      }
    } else {
      assert (f + r)[i] == r[i - |f|];
    }
  }

  /** `stop` is called only with `stopping` on disk, `start` only with `starting` and the attempt on disk. */
  lemma IntentsAreDurable(f: seq<Call>, r: seq<Call>, end: End, n: nat)
    requires Run(f, r, end) && n < |f + r|
    ensures (f + r)[n].step == Stop ==> OnDisk((f + r)[..n]) == Some(Journal(Stopping, false))
    ensures (f + r)[n].step == Start ==> OnDisk((f + r)[..n]) == Some(Journal(Starting, true))
  {
    Places(f, r, end, n);
    var p := (f + r)[..n];
    if (f + r)[n].step in {Stop, Start} {
      forall i | 0 <= i < n ensures p[i] == Call(Script()[i], Done) {
        Places(f, r, end, i);
        assert p[i] == f[i];
      }
      var m := DiskReads(p, n - 1);
      assert (n == 9 ==> p[8].step == Record(Starting)) && (n == 3 ==> p[2].step == Record(Stopping));
      assert p[..m + 1] == p;
    }
  }

  /**
   * Wherever the supervisor dies after `stop` was called, a process that finds the journal never
   * takes the gateway for an untouched baseline.
   */
  lemma CrashFindsTheStop(f: seq<Call>, r: seq<Call>, end: End, n: nat)
    requires Run(f, r, end) && n <= |f + r| && Called((f + r)[..n], Stop)
    ensures OnDisk((f + r)[..n]).Some? && OnDisk((f + r)[..n]).value.phase != Prepared
  {
    var p := (f + r)[..n];
    var i :| 0 <= i < |p| && p[i].step == Stop;
    Places(f, r, end, i);
    Places(f, r, end, 2);
    assert p[2] == f[2] && Persisted(p[2]);
    var m := DiskReads(p, 2);
    Places(f, r, end, m);
  }

  /** Wherever it dies after `start` was called, the journal holds the attempt. */
  lemma CrashFindsTheStart(f: seq<Call>, r: seq<Call>, end: End, n: nat)
    requires Run(f, r, end) && n <= |f + r| && Called((f + r)[..n], Start)
    ensures OnDisk((f + r)[..n]).Some? && OnDisk((f + r)[..n]).value.bunStartupAttempted
  {
    var p := (f + r)[..n];
    var i :| 0 <= i < |p| && p[i].step == Start;
    Places(f, r, end, i);
    Places(f, r, end, 8);
    assert p[8] == f[8] && Persisted(p[8]);
    var m := DiskReads(p, 8);
    assert p[..m + 1][8].step == Record(Starting);
  }

  /** Recovery is entered at most once, and is told of a start exactly when `start` was called. */
  lemma RecoveryAtMostOnce(f: seq<Call>, r: seq<Call>, end: End, i: nat, j: nat)
    requires Run(f, r, end) && i < |f + r| && j < |f + r| && (f + r)[i].step.Recover?
    ensures (f + r)[j].step.Recover? ==> i == j
    ensures (f + r)[i].step.startupAttempted <==> Called(f + r, Start)
    ensures Called((f + r)[..i], Record(Recovering)) && end in {EndRolledBack, Unproved, UnprovedUnrecorded}
  {
    Places(f, r, end, i);
    Places(f, r, end, j);
    assert (f + r)[..i][|f|] == r[0];
    if |f| > 9 { Places(f, r, end, 9); assert (f + r)[9].step == Start; }
    if Called(f + r, Start) {
      var k :| 0 <= k < |f + r| && (f + r)[k].step == Start;
      Places(f, r, end, k);
    }
  }

  /**
   * What each end means: accepted exactly when every call succeeded, and then no recovery was
   * entered; rolled back only with the recovery done and on disk.
   */
  lemma EndsMean(f: seq<Call>, r: seq<Call>, end: End)
    requires Run(f, r, end)
    ensures end == EndAccepted <==> Called(f, Record(Accepted)) && f[|f| - 1].outcome == Done
    ensures end == EndAccepted ==> r == [] && OnDisk(f + r) == Some(Journal(Accepted, true))
    ensures end == EndRolledBack ==> |r| == 3 && r[1].outcome == Done && OnDisk(f + r).Some? && OnDisk(f + r).value.phase == RolledBack
  {
    if Called(f, Record(Accepted)) {
      var i :| 0 <= i < |f| && f[i].step == Record(Accepted);
      Places(f, r, end, i);
      assert Script()[i] == Record(Accepted);
    }
    if end == EndAccepted {
      assert f[12] == Call(Script()[12], Done) && (f + r)[12] == f[12];
      var m := DiskReads(f + r, 12);
      assert (f + r)[..m + 1][8] == Call(Script()[8], Done);
    }
    if end == EndRolledBack {
      assert (f + r)[|f| + 2] == r[2] && r[1..][1] == r[2];
      var m := DiskReads(f + r, |f| + 2);
    }
  }

  /** A refused run has stopped nothing, and a run that called `stop` is accepted or turns to recovery. */
  lemma StopIsAcceptedOrRecovered(f: seq<Call>, r: seq<Call>, end: End)
    requires Run(f, r, end)
    ensures end == Refused ==> !Called(f + r, Stop) && r == []
    ensures Called(f + r, Stop) && end != EndAccepted ==> r != [] && r[0].step == Record(Recovering)
  {
    if Called(f + r, Stop) {
      var i :| 0 <= i < |f + r| && (f + r)[i].step == Stop;
      Places(f, r, end, i);
      Places(f, r, end, 2);
    }
  }

  /**
   * The flag handed to the running recovery and the flag a later process would read differ
   * exactly when the write of `starting` itself threw.
   */
  lemma AttemptFlagsAgree(f: seq<Call>, r: seq<Call>, end: End, i: nat)
    requires Run(f, r, end) && i < |f + r| && (f + r)[i].step.Recover?
    ensures OnDisk((f + r)[..i]).Some?
    ensures (f + r)[i].step.startupAttempted ==> OnDisk((f + r)[..i]).value.bunStartupAttempted
    ensures (f + r)[i].step.startupAttempted != OnDisk((f + r)[..i]).value.bunStartupAttempted <==> |f| == 9
  {
    Places(f, r, end, i);
    var p := (f + r)[..i];
    assert i == |f| + 1 && p[|f|] == r[0] && Persisted(p[|f|]);
    var m := DiskReads(p, |f|);
    assert p[..m + 1] == p;
    if |f| > 8 { Places(f, r, end, 8); assert p[8] == f[8]; }
    if Called(p, Record(Starting)) {
      var k :| 0 <= k < |p| && p[k].step == Record(Starting);
      assert k < |f|;
      Places(f, r, end, k);
      assert Script()[k] == Record(Starting);
    }
  }

  // ---------------------------------------------------------------- the order of the effects

  /** Every call of the forward part follows directly on the success of the one before it. */
  lemma EffectsInOrder(f: seq<Call>, r: seq<Call>, end: End, n: nat)
    requires Run(f, r, end) && n < |f + r|
    ensures var calls := f + r;
            && (calls[n].step == Preflight ==> n > 0 && calls[n - 1] == Call(Record(Prepared), Done))
            && (calls[n].step == Record(Stopping) ==> n > 0 && calls[n - 1] == Call(Preflight, Done))
            && (calls[n].step == Stop ==> n > 0 && calls[n - 1] == Call(Record(Stopping), Done))
            && (calls[n].step == Preserve ==> n > 0 && calls[n - 1] == Call(Stop, Done))
            && (calls[n].step == Record(Stopped) ==> n > 0 && calls[n - 1] == Call(Preserve, Done))
            && (calls[n].step == Convert ==> n > 0 && calls[n - 1] == Call(Record(Stopped), Done))
            && (calls[n].step == Record(Converted) ==> n > 0 && calls[n - 1] == Call(Convert, Done))
            && (calls[n].step == Record(Starting) ==> n > 0 && calls[n - 1] == Call(Record(Converted), Done))
            && (calls[n].step == Start ==> n > 0 && calls[n - 1] == Call(Record(Starting), Done))
            && (calls[n].step == Record(CandidateReady) ==> n > 0 && calls[n - 1] == Call(Start, Done))
            && (calls[n].step == Verify ==> n > 0 && calls[n - 1] == Call(Record(CandidateReady), Done))
            && (calls[n].step == Record(Accepted) ==> n > 0 && calls[n - 1] == Call(Verify, Done))
  {
    Places(f, r, end, n);
    if 0 < n < |f| { Places(f, r, end, n - 1); }
  }

  /** `accepted` is recorded only after the candidate was started and then verified. */
  lemma AcceptedAfterVerify(f: seq<Call>, r: seq<Call>, end: End, n: nat)
    requires Run(f, r, end) && n < |f + r| && (f + r)[n].step == Record(Accepted)
    ensures exists i, k | 0 <= i < k < n :: (f + r)[i] == Call(Start, Done) && (f + r)[k] == Call(Verify, Done)
  {
    EffectsInOrder(f, r, end, n);
    EffectsInOrder(f, r, end, n - 1);
    EffectsInOrder(f, r, end, n - 2);
    assert (f + r)[n - 3] == Call(Start, Done) && (f + r)[n - 1] == Call(Verify, Done);
  }

  /** `start` is called only after a conversion that succeeded and was recorded on disk. */
  lemma StartAfterConvert(f: seq<Call>, r: seq<Call>, end: End, n: nat)
    requires Run(f, r, end) && n < |f + r| && (f + r)[n].step == Start
    ensures n > 1 && (f + r)[n - 2] == Call(Record(Converted), Done) && OnDisk((f + r)[..n - 1]) == Some(Journal(Converted, false))
    ensures exists i | 0 <= i < n - 2 :: (f + r)[i] == Call(Convert, Done)
  {
    EffectsInOrder(f, r, end, n);
    EffectsInOrder(f, r, end, n - 1);
    EffectsInOrder(f, r, end, n - 2);
    Places(f, r, end, n);
    DiskIsFresh(f, r, end, n - 2);
    assert (f + r)[n - 3] == Call(Convert, Done);
  }

  /** The conversion begins only after the stopped source was preserved and `stopped` is on disk. */
  lemma ConvertAfterPreserve(f: seq<Call>, r: seq<Call>, end: End, n: nat)
    requires Run(f, r, end) && n < |f + r| && (f + r)[n].step == Convert
    ensures OnDisk((f + r)[..n]) == Some(Journal(Stopped, false))
    ensures exists i | 0 <= i < n :: (f + r)[i] == Call(Preserve, Done)
  {
    EffectsInOrder(f, r, end, n);
    EffectsInOrder(f, r, end, n - 1);
    Places(f, r, end, n);
    DiskIsFresh(f, r, end, n - 1);
    assert (f + r)[n - 2] == Call(Preserve, Done);
  }

  /** The intent to stop is recorded only after the preflight succeeded. */
  lemma StoppingAfterPreflight(f: seq<Call>, r: seq<Call>, end: End, n: nat)
    requires Run(f, r, end) && n < |f + r| && (f + r)[n].step == Record(Stopping)
    ensures exists i | 0 <= i < n :: (f + r)[i] == Call(Preflight, Done)
  {
    EffectsInOrder(f, r, end, n);
  }

  /** Right after a successful record before `starting`, the disk has its phase and no attempt. */
  lemma DiskIsFresh(f: seq<Call>, r: seq<Call>, end: End, k: nat)
    requires Run(f, r, end) && k < 8 && k < |f| && (f + r)[k].step.Record? && (f + r)[k].outcome == Done
    ensures OnDisk((f + r)[..k + 1]) == Some(Journal((f + r)[k].step.phase, false))
  {
    var p := (f + r)[..k + 1];
    var m := DiskReads(p, k);
    assert p[..m + 1] == p;
    forall i | 0 <= i < |p| ensures p[i].step != Record(Starting) { Places(f, r, end, i); }
  }
}
