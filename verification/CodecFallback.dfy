/**
 * The rule that a bound operation does not fall back to a legacy release after Bun was started: what
 * the driver keeps of it, and a run that breaks it.
 */
module CodecFallback {
  import opened Wrappers
  import opened ReleaseJournal
  import opened ReleaseOps
  import opened Runs

  /** The call that works on `op` has asked for a restart, or is a restoration, and the way back crosses codecs. */
  predicate Guarded(s: State) {
    s.process.Driving? && s.process.restarted && s.process.receipt.prior in s.legacy && s.process.receipt.candidate !in s.legacy
  }

  /** The driver may go back exactly where the guard of this call lets it. */
  lemma ReselectsExactly(s: State)
    requires Inv(s) && s.process.Driving? && s.process.at == ToReselect
    ensures DriverActs(s, s.(selector := Some(s.process.receipt.prior), process := s.process.(at := ToProve))) <==> !Guarded(s)
  {
    var v := s.process;
    assert Owns(s.files.pins, v.op);
  }

  /** Within a call that restarted the candidate, no step goes back across codecs. */
  lemma GuardedCallStays(run: seq<State>, n: nat)
    requires Reachable(run) && n + 1 < |run| && Guarded(run[n])
    ensures run[n + 1].selector == Some(run[n].process.receipt.prior) ==> run[n].selector == run[n + 1].selector
  {
    RunKeeps(run, n);
    assert StepAt(Next, run, n);
    GuardedStep(run[n], run[n + 1]);
  }

  lemma OnlyActsSelect(s: State, t: State)
    requires Next(s, t) && s.process.Driving?
    ensures t.selector == s.selector || DriverActs(s, t)
  {
    hide Patched, Admits, DriverActs, WithReceipt, WithPin, AfterRecord, DriverCaught;
  }

  lemma GuardedStep(s: State, t: State)
    requires Inv(s) && Next(s, t) && Guarded(s)
    ensures t.selector == Some(s.process.receipt.prior) ==> s.selector == t.selector
  {
    assert s.process.at == ToSelect ==> s.process.receipt.candidate != s.process.receipt.prior by {
      assert s.process.at == ToSelect ==> Parses(s.process.op, s.files.receipts[s.process.op]);
    }
    OnlyActsSelect(s, t);
    hide Inv, Next;
  }

  // ---------------------------------------------------------------- a run that breaks the rule

  /** The state with the pin of `op` and its receipt, between calls. */
  function Holding(s: State, op: OpId, r: Receipt, selector: Release): State
    requires op.Bound?
  {
    s.(selector := Some(selector), releases := s.releases + {op.revision}, files := Files([PinOf(op, r)], map[op := r]), process := Idle)
  }

  ghost predicate Trail(run: seq<State>, s: State, t: State) {
    Reachable(run) && run[0] == s && run[|run| - 1] == t
  }

  lemma Go(run: seq<State>, s: State, a: State, b: State) returns (longer: seq<State>)
    requires Trail(run, s, a) && Next(a, b)
    ensures longer == run + [b] && Trail(longer, s, b)
  {
    PathGrows(Next, run, b);
    longer := run + [b];
  }

  lemma Prepares(s: State, op: OpId, prior: Release) returns (run: seq<State>)
    requires Init(s) && op.Bound? && s.selector == Some(prior) && op.revision != prior
    ensures Trail(run, s, Holding(s, op, Initial(op, prior), prior))
  {
    var r := Initial(op, prior);
    var a := s.(releases := s.releases + {op.revision}, process := Driving(op, r, ToPrepare, false));
    assert DriverEnters(s, a, op, prior, Prepared);
    run := Go([s], s, s, a);
    var b := a.(files := WithPin(a.files, op, r));
    assert DriverRecords(a, b);
    run := Go(run, s, a, b);
    var c := b.(files := WithReceipt(b.files, op, r), process := Idle);
    assert b.files.pins[0].op == op;
    assert DriverRecords(b, c);
    run := Go(run, s, b, c);
    assert c == Holding(s, op, r, prior);
  }

  /** A receipt write between two states that differ only in the receipt and the process. */
  lemma Writes(run: seq<State>, s: State, op: OpId, r: Receipt, selector: Release, p: DriverPoint, restarted: bool) returns (longer: seq<State>)
    requires op.Bound? && Records(p) && p != ToPrepare && Parses(op, Patched(p, r)) && ValidSuccessor(r, Patched(p, r))
    requires Trail(run, s, Holding(s, op, r, selector).(process := Driving(op, r, p, restarted)))
    ensures |longer| == |run| + 1 && longer[..|run|] == run
    ensures var n := Patched(p, r);
            Trail(longer, s, Holding(s, op, n, selector).(process := AfterRecord(Driving(op, r, p, restarted), n)))
  {
    var n := Patched(p, r);
    var a := Holding(s, op, r, selector).(process := Driving(op, r, p, restarted));
    var b := Holding(s, op, n, selector).(process := AfterRecord(Driving(op, r, p, restarted), n));
    assert a.files.pins[0].op == op && Owns(a.files.pins, op) && Admits(a.files, op, n);
    assert map[op := r][op := n] == map[op := n];
    assert DriverRecords(a, b);
    longer := Go(run, s, a, b);
  }

  /** The first call: intent, selector, restart of the candidate, `candidate_ready`, and then the driver dies. */
  lemma FirstCall(s: State, op: OpId, prior: Release) returns (run: seq<State>, i: nat)
    requires Init(s) && op.Bound? && s.selector == Some(prior) && op.revision != prior
    ensures Trail(run, s, Holding(s, op, ReadyReceipt(op, prior), op.revision))
    ensures i < |run| && run[i].process == Driving(op, SelectedReceipt(op, prior), ToRecordReady, true)
  {
    run := Prepares(s, op, prior);
    var r := Initial(op, prior);
    var h := Holding(s, op, r, prior);
    assert DriverEnters(h, h.(process := Driving(op, r, ToIntend, false)), op, prior, Prepared);
    run := Go(run, s, h, h.(process := Driving(op, r, ToIntend, false)));
    run := Writes(run, s, op, r, prior, ToIntend, false);
    var n := Patched(ToIntend, r);
    var a := Holding(s, op, n, prior).(process := Driving(op, n, ToSelect, false));
    var b := Holding(s, op, n, op.revision).(process := Driving(op, n, ToRecordSelected, false));
    assert DriverActs(a, b);
    run := Go(run, s, a, b);
    run := Writes(run, s, op, n, op.revision, ToRecordSelected, false);
    run, i := FirstRestart(s, op, prior, run);
  }

  function SelectedReceipt(op: OpId, prior: Release): Receipt
    requires op.Bound?
  {
    Patched(ToRecordSelected, Patched(ToIntend, Initial(op, prior)))
  }

  function ReadyReceipt(op: OpId, prior: Release): Receipt
    requires op.Bound?
  {
    Patched(ToRecordReady, SelectedReceipt(op, prior))
  }

  lemma FirstRestart(s: State, op: OpId, prior: Release, run: seq<State>) returns (longer: seq<State>, i: nat)
    requires op.Bound? && op.revision != prior
    requires Trail(run, s, Holding(s, op, SelectedReceipt(op, prior), op.revision).(process := Driving(op, SelectedReceipt(op, prior), ToRestart, false)))
    ensures Trail(longer, s, Holding(s, op, ReadyReceipt(op, prior), op.revision))
    ensures i < |longer| && longer[i].process == Driving(op, SelectedReceipt(op, prior), ToRecordReady, true)
  {
    var m, q := SelectedReceipt(op, prior), ReadyReceipt(op, prior);
    var c := Holding(s, op, m, op.revision).(process := Driving(op, m, ToRestart, false));
    var d := c.(process := Driving(op, m, ToRecordReady, true));
    assert DriverActs(c, d);
    longer := Go(run, s, c, d);
    i := |longer| - 1;
    longer := Writes(longer, s, op, m, op.revision, ToRecordReady, true);
    var e := Holding(s, op, q, op.revision).(process := Driving(op, q, ToReload, true));
    assert Next(e, e.(process := Idle));
    longer := Go(longer, s, e, e.(process := Idle));
  }

  /**
   * A second call resumes at `candidate_ready`. Its ingress reload fails, and it goes back to the legacy
   * release although the first call restarted Bun: its own flag was never set.
   */
  lemma ResumedCallFallsBack(s: State, op: OpId, prior: Release) returns (run: seq<State>, i: nat)
    requires Init(s) && op.Bound? && s.selector == Some(prior) && op.revision != prior && prior in s.legacy && op.revision !in s.legacy
    ensures Reachable(run) && run[0] == s
    ensures i < |run| && run[i].process == Driving(op, SelectedReceipt(op, prior), ToRecordReady, true) && run[i].selector == Some(op.revision)
    ensures var t := run[|run| - 1];
            t.selector == Some(prior) && prior in t.legacy && op.revision !in t.legacy && op in t.files.receipts && t.files.receipts[op].phase == RollbackPending
  {
    run, i := FirstCall(s, op, prior);
    var q := ReadyReceipt(op, prior);
    var h := Holding(s, op, q, op.revision);
    var a := h.(process := Driving(op, q, ToReload, false));
    assert prior in s.releases;
    assert DriverEnters(h, a, op, prior, Prepared);
    run := Go(run, s, h, a);
    var b := h.(process := Driving(op, q, ToRecordRollback, false));
    assert DriverActs(a, b);
    run := Go(run, s, a, b);
    run := Writes(run, s, op, q, op.revision, ToRecordRollback, false);
    var n := Patched(ToRecordRollback, q);
    var c := Holding(s, op, n, op.revision).(process := Driving(op, n, ToReselect, false));
    var d := Holding(s, op, n, prior).(process := Driving(op, n, ToProve, false));
    assert DriverActs(c, d);
    run := Go(run, s, c, d);
    RestartedThere(run, i, op, SelectedReceipt(op, prior));
  }

  lemma RestartedThere(run: seq<State>, i: nat, op: OpId, r: Receipt)
    requires Reachable(run) && i < |run| && run[i].process == Driving(op, r, ToRecordReady, true)
    ensures run[i].selector == Some(r.candidate)
  {
    RunKeeps(run, i);
    assert Owns(run[i].files.pins, op);
  }
}
