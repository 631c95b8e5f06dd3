/**
 * Two runs that end in a state from which the recovery refuses although Bun's store holds the latest
 * write, step by step from the first state of the cutover.
 */
module CutoverRuns {
  import opened Wrappers
  import opened CutoverTransition
  import opened Cutover
  import opened CutoverOperator
  import opened Runs

  ghost predicate ReachableState(s: State) {
    exists run :: Reachable(run) && run[|run| - 1] == s
  }

  lemma Onward(s: State, t: State)
    requires ReachableState(s) && Next(s, t)
    ensures ReachableState(t)
  {
    var run :| Reachable(run) && run[|run| - 1] == s;
    PathGrows(Next, run, t);
    assert Reachable(run + [t]) && (run + [t])[|run + [t]| - 1] == t;
  }

  /** The effect or the record at the supervisor's point, with no failure. */
  function Done(s: State): State
    requires !s.supervisor.Gone?
  {
    if PhaseAt(s.supervisor).Some? then Written(s).(supervisor := AfterRecord(Written(s).supervisor)) else Effect(s, 7)
  }

  lemma DoneOnward(s: State)
    requires ReachableState(s) && !s.supervisor.Gone?
    ensures ReachableState(Done(s))
  {
    if PhaseAt(s.supervisor).None? { assert EffectStep(s, Effect(s, 7)); }
    Onward(s, Done(s));
  }

  // ---------------------------------------------------------------- stations of the runs

  const RECEIPT := Receipt(7, 1, 1)

  function Operating(phase: Phase, converted: bool, bunAttempted: bool, legacyAttempted: bool): Operation {
    Operation(phase, if phase == Prepared || phase == Stopping then None else Some(1), if converted then Some(RECEIPT) else None,
              bunAttempted, legacyAttempted)
  }

  /** The first state: Deno's store holds 1. */
  function First(): State {
    State(Some(1), None, None, None, None, None, None, None, Prior, None, Down, false,
          Advancing(ToPrepare, Operation(Prepared, None, None, false, false), false), 1)
  }

  /** Stopped, drained and recorded. */
  function DrainedStore(): State {
    var o := Operating(Stopped, false, false, false);
    State(Some(1), None, None, None, None, None, None, None, Prior, Some(o), Down, true, Advancing(ToConvert, o, false), 1)
  }

  /** Converted, selected and released to start. */
  function Started(): State {
    var o := Operating(Starting, true, true, false);
    State(Some(1), None, Some(1), None, None, Some(RECEIPT), None, None, Candidate, Some(o), Down, false, Advancing(ToReady, o, true), 1)
  }

  /** The recovery at `p` after Bun's store was converted back and its receipt published. */
  function Reverted(p: Back, legacyAttempted: bool, adoption: Option<Receipt>): State {
    var o := Operating(if legacyAttempted then LegacyStarting else Recovering, true, true, legacyAttempted);
    State(Some(1), None, Some(1), None, Some(1), Some(RECEIPT), Some(RECEIPT), adoption, Candidate, Some(o), Down, true, Returning(p, o, true), 1)
  }

  /** The intent to stop is on disk. */
  function Intending(): State {
    var o := Operating(Stopping, false, false, false);
    First().(disk := Some(o), supervisor := Advancing(ToStop, o, false))
  }

  /** Converted and recorded. */
  function ConvertedStore(): State {
    var o := Operating(Converted, true, false, false);
    DrainedStore().(bunMain := Some(1), forward := Some(RECEIPT), disk := Some(o), supervisor := Advancing(ToAttempt, o, false))
  }

  lemma TwoOnward(s: State)
    requires ReachableState(s) && !s.supervisor.Gone? && !Done(s).supervisor.Gone?
    ensures ReachableState(Done(Done(s)))
  {
    DoneOnward(s);
    DoneOnward(Done(s));
  }

  lemma ReachesFirst()
    ensures ReachableState(First())
  {
    var s := First();
    assert Reachable([s]) && [s][|[s]| - 1] == s;
  }

  /** Stopped and drained, the source not copied yet. */
  function StoppedStore(): State {
    Intending().(service := Down, held := true, supervisor := Intending().supervisor.(ahead := ToPreserve))
  }

  lemma StepsToDrained()
    ensures !Done(First()).supervisor.Gone? && Done(Done(First())) == Intending()
    ensures !Done(Intending()).supervisor.Gone? && Done(Done(Intending())) == StoppedStore()
    ensures !Done(StoppedStore()).supervisor.Gone? && Done(Done(StoppedStore())) == DrainedStore()
  {}

  lemma ReachesDrained()
    ensures ReachableState(DrainedStore())
  {
    StepsToDrained();
    ReachesFirst();
    TwoOnward(First());
    TwoOnward(Intending());
    TwoOnward(StoppedStore());
  }

  function PublishedStore(): State {
    DrainedStore().(bunMain := Some(1), forward := Some(RECEIPT), supervisor := DrainedStore().supervisor.(ahead := ToSync))
  }

  function SelectedCandidate(): State {
    Started().(held := true, supervisor := Started().supervisor.(ahead := ToStart))
  }

  lemma StepsToStarted()
    ensures !Done(DrainedStore()).supervisor.Gone? && Done(Done(DrainedStore())) == PublishedStore()
    ensures !Done(PublishedStore()).supervisor.Gone? && Done(Done(PublishedStore())) == ConvertedStore()
    ensures !Done(ConvertedStore()).supervisor.Gone? && Done(Done(ConvertedStore())) == SelectedCandidate()
    ensures Done(SelectedCandidate()) == Started()
  {}

  lemma ReachesStarted()
    ensures ReachableState(Started())
  {
    StepsToStarted();
    ReachesDrained();
    TwoOnward(DrainedStore());
    TwoOnward(PublishedStore());
    TwoOnward(ConvertedStore());
    DoneOnward(SelectedCandidate());
  }

  /** The health check of the candidate fails, and the recovery gets as far as draining Bun's store. */
  function Halting(p: Back, held: bool): State {
    var o := Operating(Recovering, true, true, false);
    Started().(disk := Some(o), held := held, supervisor := Returning(p, o, true))
  }

  lemma StepsToRecovery()
    ensures Done(Caught(Started())) == Halting(ToHalt, false)
    ensures !Done(Halting(ToHalt, false)).supervisor.Gone? && Done(Done(Halting(ToHalt, false))) == Halting(ToCheckAdoption, true)
    ensures Done(Halting(ToCheckAdoption, true)) == Halting(ToCheckpoint, true)
  {}

  lemma ReachesRecovery()
    ensures ReachableState(Halting(ToCheckpoint, true))
  {
    StepsToRecovery();
    ReachesStarted();
    assert RecordStep(Started(), Caught(Started()));
    Onward(Started(), Caught(Started()));
    DoneOnward(Caught(Started()));
    TwoOnward(Halting(ToHalt, false));
    DoneOnward(Halting(ToCheckAdoption, true));
  }

  function ClearedStore(): State {
    Halting(ToSetAside, true).(legacyMain := None, retained := Some(1))
  }

  lemma StepsToReverted()
    ensures !Done(Halting(ToCheckpoint, true)).supervisor.Gone? && Done(Done(Halting(ToCheckpoint, true))) == ClearedStore()
    ensures !Done(ClearedStore()).supervisor.Gone? && Done(Done(ClearedStore())) == Reverted(ToRevertReceipt, false, None).(rollback := None)
    ensures Done(Reverted(ToRevertReceipt, false, None).(rollback := None)) == Reverted(ToRevertSync, false, None)
  {}

  lemma ReachesReverted()
    ensures ReachableState(Reverted(ToRevertSync, false, None))
  {
    StepsToReverted();
    ReachesRecovery();
    TwoOnward(Halting(ToCheckpoint, true));
    TwoOnward(ClearedStore());
    DoneOnward(Reverted(ToRevertReceipt, false, None).(rollback := None));
  }

  lemma ReachesLegacyIntent()
    ensures ReachableState(Reverted(ToReselect, true, Some(RECEIPT)))
  {
    ReachesReverted();
    TwoOnward(Reverted(ToRevertSync, false, None));
    assert Done(Done(Reverted(ToRevertSync, false, None))) == Reverted(ToVerify, false, None);
    TwoOnward(Reverted(ToVerify, false, None));
    assert Done(Done(Reverted(ToVerify, false, None))) == Reverted(ToReselect, true, Some(RECEIPT));
  }

  /** After a reboot the launcher starts Bun, which still is selected, and Bun writes; then the recovery enters again. */
  lemma RelaunchedAndReentered(s: State, v: Value)
    requires ReachableState(s) && s.selector == Candidate && s.bunMain.Some? && s.disk.Some?
    requires s.disk.value.phase in {Recovering, LegacyStarting}
    ensures ReachableState(Reentered(s, v)) && BunStore(Reentered(s, v)) == Some(Reentered(s, v).latest)
  {
    var a := s.(supervisor := Gone, service := Down, held := false);
    Onward(s, a);
    var b := a.(adoption := None, service := Bun);
    assert LaunchStep(a, b);
    Onward(a, b);
    var c := b.(bunWal := Some(v), latest := v);
    assert ServiceStep(b, c);
    Onward(b, c);
    var d := Entered(c);
    assert ReentryStep(c, d);
    Onward(c, d);
    DoneOnward(d);
  }

  function Reentered(s: State, v: Value): State
    requires s.disk.Some?
  {
    Done(Entered(s.(service := Bun, held := false, adoption := None, bunWal := Some(v), latest := v)))
  }

  /** A crash after the rollback receipt, and a write of Bun before the recovery enters again. */
  lemma StaleReceiptRefuses(v: Value) returns (s: State)
    requires v != 1
    ensures ReachableState(s) && s.supervisor.Returning? && s.supervisor.back == ToHalt
    ensures BunStore(s) == Some(s.latest) == Some(v) && !Recoverable(s)
  {
    ReachesReverted();
    RelaunchedAndReentered(Reverted(ToRevertSync, false, None), v);
    s := Reentered(Reverted(ToRevertSync, false, None), v);
  }

  /** A crash between the announcement of the legacy start and the selection of the prior release. */
  lemma RelaunchAfterIntentRefuses(v: Value) returns (s: State)
    ensures ReachableState(s) && s.supervisor.Returning? && s.supervisor.back == ToHalt
    ensures BunStore(s) == Some(s.latest) == Some(v) && !Recoverable(s)
  {
    ReachesLegacyIntent();
    RelaunchedAndReentered(Reverted(ToReselect, true, Some(RECEIPT)), v);
    s := Reentered(Reverted(ToReselect, true, Some(RECEIPT)), v);
  }
}
