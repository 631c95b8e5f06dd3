/**
 What the transition system of the release operations leaves to chance: every write may be lost or
 may land and throw all the same, and the cutover moves its selector as it likes.
 */
module ReleaseFaults {
  import opened Wrappers
  import opened Runs
  import opened ReleaseJournal
  import opened ReleaseOps
  import opened ReleasePrograms

  /** Where a driver call is after an error: in the catch clause of an activation, or over. */
  predicate DriverErred(v: Process, w: Process) {
    if v.Driving? && v.at in {ToRestart, ToRecordReady, ToReload, ToRecordIngress, ToRecordProof}
    then w == v.(at := if v.receipt.phase == IngressApplied then ToRecordError else ToRecordRollback)
    else w.Idle?
  }

  /** A receipt of the driver is written, is written and throws all the same, or is lost; nothing else changes. */
  lemma ReceiptMayEnd(s: State) returns (done: State, landed: State, lost: State)
    requires Inv(s) && s.process.Driving? && Records(s.process.at) && s.process.at != ToPrepare
    requires Synced(s, s.process.op, s.process.receipt)
    ensures Next(s, done) && Next(s, landed) && Next(s, lost)
    ensures done.files == landed.files && lost.files == s.files && done.files.pins == s.files.pins
    ensures var op, r := s.process.op, s.process.receipt;
            && done.files.receipts.Keys == s.files.receipts.Keys && op in s.files.receipts
            && (forall o | o in s.files.receipts && o != op :: done.files.receipts[o] == s.files.receipts[o])
            && ValidSuccessor(r, done.files.receipts[op])
            && (done.process.Driving? ==> done.process.receipt == done.files.receipts[op])
    ensures DriverErred(s.process, landed.process) && DriverErred(s.process, lost.process)
    ensures forall t | t in {done, landed, lost} :: t.(files := s.files, process := s.process) == s
  {
    var v := s.process;
    DriverWritesAreAdmitted(s);
    var n := Patched(v.at, v.receipt);
    done := s.(files := WithReceipt(s.files, v.op, n), process := AfterRecord(v, n));
    landed := s.(files := WithReceipt(s.files, v.op, n), process := DriverCaught(v));
    lost := s.(process := DriverCaught(v));
    assert DriverRecords(s, done) && DriverRecords(s, landed) && DriverRecords(s, lost);
  }

  /** So is a recovery receipt of the ordinary deploy, whose copy in memory has changed by then. */
  lemma SaveMayEnd(s: State) returns (done: State, landed: State, lost: State)
    requires s.process.Deploying? && Saves(s.process.point)
    ensures Next(s, done) && Next(s, landed) && Next(s, lost)
    ensures done.deploy.Some? && done.deploy == landed.deploy && lost.deploy == s.deploy
    ensures done.deploy.value.candidate == s.process.recovery.candidate && done.deploy.value.previous == s.process.recovery.previous
    ensures done.process.Deploying? ==> done.process.recovery == done.deploy.value
    ensures landed.process == lost.process && !done.process.Pruning?
    ensures if s.process.point in {ToSave, ToMarkRolledBack} || s.process.ingressApplied then lost.process.Idle?
            else lost.process.Deploying? && lost.process.point == ToRestore && lost.process.recovery == done.deploy.value
    ensures forall t | t in {done, landed, lost} :: t.(deploy := s.deploy, process := s.process) == s
  {
    var v := s.process.(recovery := Marked(s.process));
    done := s.(deploy := Some(v.recovery), process := AfterSave(v));
    landed := s.(deploy := Some(v.recovery), process := DeployCaught(v));
    lost := s.(process := DeployCaught(v));
  }

  /** The first cutover from any idle state that nobody owns: claim, pin, candidate, a crash, and back after it. */
  lemma CutoverMayRun(s: State, pin: Pin) returns (run: seq<State>)
    requires s.process.Idle? && s.deploy.None? && s.files.pins == []
    requires pin.op.FirstCutover? && s.selector == Some(pin.prior) && pin.prior in s.releases
    ensures |run| == 7 && run[0] == s && Path(Next, run) && run[4].process.Idle?
    ensures forall i | 1 <= i < 7 :: run[i].releases == s.releases + {pin.candidate} && run[i].files.receipts == s.files.receipts
    ensures run[1].files.pins == [] && forall i | 2 <= i < 7 :: run[i].files.pins == [pin]
    ensures run[2].selector == run[6].selector == Some(pin.prior) && run[3].selector == run[4].selector == Some(pin.candidate)
  {
    var a := s.(releases := s.releases + {pin.candidate}, process := Claiming(pin));
    var b := a.(files := a.files.(pins := [pin]), process := CuttingOver(pin.op));
    var c := b.(selector := Some(pin.candidate));
    assert Next(s, a) by { assert CutoverStep(s, a, pin); }
    assert Next(a, b) by { assert CutoverStep(a, b, pin); }
    assert Next(b, c) by { assert CutoverStep(b, c, pin); }
    run := [s, a, b, c];
    assert Path(Next, run);
    run := CutoverResumes(run, pin);
  }

  lemma CutoverResumes(run: seq<State>, pin: Pin) returns (more: seq<State>)
    requires |run| == 4 && Path(Next, run) && pin.op.FirstCutover?
    requires run[3].process == CuttingOver(pin.op) && run[3].files.pins == [pin]
    ensures |more| == 7 && more[..4] == run && Path(Next, more) && more[4] == run[3].(process := Idle)
    ensures more[5] == run[3] && more[6] == run[3].(selector := Some(pin.prior))
  {
    var c := run[3];
    var d, f := c.(process := Idle), c.(selector := Some(pin.prior));
    assert Next(d, c) by { assert CutoverStep(d, c, pin); }
    assert Next(c, f) by { assert CutoverStep(c, f, pin); }
    PathGrows(Next, run, d);
    PathGrows(Next, run + [d], c);
    PathGrows(Next, run + [d] + [c], f);
    more := run + [d] + [c] + [f];
  }
}
