/**
 * The cutover operator as a program: the recovery of `ops/cutover-recovery.ts` in its own order, run
 * on the state of the transition system, with an outside failure possible at every point. Each method
 * follows steps of that system, so everything proved about its runs holds at every intermediate state,
 * and says exactly when the recovery gets through.
 */
module CutoverOperator {
  import opened Wrappers
  import opened CutoverTransition
  import opened Cutover
  import opened Runs

  /**
   * When a recovery that has just been recorded can prove the latest state: always before a start
   * of Bun; afterwards only on an adopted rollback, or while no legacy start was announced and the
   * only receipt is of what Bun holds now.
   */
  predicate Recoverable(s: State)
    requires s.supervisor.Returning?
  {
    var v := s.supervisor;
    || (!v.attempted && s.selector == Prior)
    || s.adoption.Some?
    || (!v.memory.legacyAttempted && s.bunMain.Some? && (s.rollback.Some? ==> BunStore(s) == Some(s.rollback.value.source)))
  }

  /** How the recovery entry answers. */
  datatype RecoveryEnd =
    | NotStarted | Settled(phase: Phase) | Unhealthy
    | Unentered | RecoveredPrior | UnprovedState(recorded: bool)

  class Operator {
    /** Where the outside world fails. */
    const fails: Back -> bool
    var state: State
    ghost var trace: seq<State>

    /** Nothing fails on the way of a conversion back to Deno, up to the comparison of the two stores. */
    predicate ClearRevert() {
      !fails(ToSetAside) && !fails(ToRevert) && !fails(ToRevertReceipt) && !fails(ToRevertSync) && !fails(ToProve)
    }

    /** Nothing fails while Bun's store is brought up to date and compared. */
    predicate ClearUpdate(s: State) {
      !fails(ToCheckpoint) && !fails(ToRetain) && !fails(ToProve) && (s.rollback.None? ==> ClearRevert())
    }

    /** Nothing fails on the way of the restoration of the latest Bun state. */
    predicate ClearRestore(s: State) {
      !fails(ToCheckAdoption) && !fails(ToVerify) && (s.adoption.None? ==> ClearUpdate(s))
    }

    predicate ClearRestart() {
      !fails(ToIntendLegacy) && !fails(ToReselect) && !fails(ToRestart)
    }

    /** Nothing fails on the way of a recovery to the start of the prior release. */
    predicate ClearRoute(s: State)
      requires s.supervisor.Returning?
    {
      && !fails(ToHalt) && !fails(ToRoute) && ClearRestart()
      && if s.supervisor.attempted || s.selector == Candidate then ClearRestore(s) else s.bunMain.Some? ==> !fails(ToPutBunAside)
    }

    ghost predicate Valid() reads this {
      trace != [] && trace[|trace| - 1] == state && Path(Next, trace) && Inv(trace[0])
    }

    ghost predicate AtPoint(p: Back) reads this {
      Valid() && state.supervisor.Returning? && state.supervisor.back == p
    }

    constructor (s: State, fails: Back -> bool)
      requires Inv(s)
      ensures Valid() && state == s && trace == [s] && this.fails == fails
    {
      this.fails := fails;
      state, trace := s, [s];
    }

    /** The effect at the supervisor's point, or the error it throws. */
    method Attempt(id: nat) returns (ok: bool)
      requires Valid() && state.supervisor.Returning? && PhaseAt(state.supervisor).None?
      modifies this
      ensures Valid() && trace[0] == old(trace[0])
      ensures ok <==> !fails(old(state.supervisor.back))
      ensures state == if ok then RecoveryEffect(old(state), id) else Thrown(old(state))
    {
      ok := !fails(state.supervisor.back);
      if ok { Perform(id); return; }
      assert EffectStep(state, Thrown(state));
      PathGrows(Next, trace, Thrown(state));
      state := Thrown(state);
      trace := trace + [state];
    }

    /** A journal record, or the error of a check or write before it. */
    method RecordOrThrow() returns (ok: bool)
      requires Valid() && state.supervisor.Returning? && PhaseAt(state.supervisor).Some?
      modifies this
      ensures Valid() && trace[0] == old(trace[0])
      ensures ok <==> !fails(old(state.supervisor.back))
      ensures state == if ok then Written(old(state)).(supervisor := AfterRecord(Written(old(state)).supervisor)) else Caught(old(state))
    {
      ok := !fails(state.supervisor.back);
      if ok { Record(); return; }
      PathGrows(Next, trace, Caught(state));
      state := Caught(state);
      trace := trace + [state];
    }

    /** A converter that fails takes away what it had published. */
    method GiveUp(id: nat)
      requires Valid() && state.supervisor.Returning? && state.supervisor.back in {ToGiveUp, UndoRevert, UndoRevertReceipt}
      modifies this
      ensures AtPoint(ToGiveUp) && trace[0] == old(trace[0])
    {
      var ok;
      if state.supervisor.back == UndoRevertReceipt { ok := Attempt(id); }
      if state.supervisor.back == UndoRevert { ok := Attempt(id); }
    }

    /** The effect at the supervisor's point. */
    method Perform(id: nat)
      requires Valid() && state.supervisor.Returning? && PhaseAt(state.supervisor).None?
      modifies this
      ensures Valid() && trace[0] == old(trace[0])
      ensures state == RecoveryEffect(old(state), id)
    {
      assert Effect(state, id) == RecoveryEffect(state, id);
      assert EffectStep(state, RecoveryEffect(state, id));
      PathGrows(Next, trace, RecoveryEffect(state, id));
      state := RecoveryEffect(state, id);
      trace := trace + [state];
    }

    /** The forward effect at the supervisor's point, with no failure from outside. */
    method Proceed(id: nat)
      requires Valid() && state.supervisor.Advancing? && PhaseAt(state.supervisor).None?
      modifies this
      ensures Valid() && trace[0] == old(trace[0])
      ensures state == ForwardEffect(old(state), id)
    {
      assert Effect(state, id) == ForwardEffect(state, id);
      assert EffectStep(state, ForwardEffect(state, id));
      PathGrows(Next, trace, ForwardEffect(state, id));
      state := ForwardEffect(state, id);
      trace := trace + [state];
    }

    /** A journal record that reaches the disk. */
    method Record()
      requires Valid() && PhaseAt(state.supervisor).Some?
      modifies this
      ensures Valid() && trace[0] == old(trace[0])
      ensures state == Written(old(state)).(supervisor := AfterRecord(Written(old(state)).supervisor))
    {
      ghost var t := Written(state).(supervisor := AfterRecord(Written(state).supervisor));
      PathGrows(Next, trace, t);
      state := Written(state).(supervisor := AfterRecord(Written(state).supervisor));
      trace := trace + [state];
    }

    /** From the intent to stop to a drained legacy store. */
    method StopAndDrain(id: nat)
      requires Valid() && Init(state)
      modifies this
      ensures Valid() && trace[0] == old(trace[0])
      ensures var m := Operation(Stopped, Some(old(state.latest)), None, false, false);
              state == State(Some(old(state.latest)), None, None, None, None, None, None, None,
                             Prior, Some(m), Down, true, Advancing(ToConvert, m, false), old(state.latest))
    {
      Record();
      Record();
      Proceed(id);
      Proceed(id);
      Proceed(id);
      Record();
    }

    /** A converted store beside the drained one. */
    method StopAndConvert(id: nat)
      requires Valid() && Init(state)
      modifies this
      ensures Valid() && trace[0] == old(trace[0])
      ensures var m := Operation(Converted, Some(old(state.latest)), Some(Receipt(id, old(state.latest), old(state.latest))), false, false);
              state == State(Some(old(state.latest)), None, Some(old(state.latest)), None, None, m.conversion, None, None,
                             Prior, Some(m), Down, true, Advancing(ToAttempt, m, false), old(state.latest))
    {
      StopAndDrain(id);
      Proceed(id);
      Proceed(id);
      Proceed(id);
      Record();
    }

    /** `performFirstBunCutover` when nothing fails: the candidate is selected, released and accepted on the latest write. */
    method PerformFirstBunCutover(id: nat)
      requires Valid() && Init(state)
      modifies this
      ensures Valid() && trace[0] == old(trace[0]) && state.supervisor.Gone?
      ensures state.disk.Some? && state.disk.value.phase == Accepted && state.selector == Candidate && !state.held
      ensures state.latest == old(state.latest) && BunStore(state) == LegacyStore(state) == Some(state.latest)
    {
      StopAndConvert(id);
      Record();
      Proceed(id);
      Proceed(id);
      Record();
      Record();
    }

    /** A new Deno store from the stopped Bun store, published before its receipt, and then compared with it. */
    method Revert(id: nat) returns (ok: bool)
      requires AtPoint(ToSetAside) && state.bunMain.Some? && state.bunWal.None? && state.legacyWal.None? && state.rollback.None?
      modifies this
      ensures Valid() && trace[0] == old(trace[0])
      ensures ok <==> ClearRevert()
      ensures AtPoint(if ok then ToVerify else ToGiveUp)
      ensures ok ==> state.legacyMain == state.bunMain == old(state.bunMain) && state.bunWal.None? && state.adoption == old(state.adoption)
      ensures ok ==> state.rollback == Some(Receipt(id, state.bunMain.value, state.bunMain.value))
    {
      ok := Convert(id);
      if !ok { return; }
      ok := Attempt(id);
    }

    /** The conversion itself. */
    method Convert(id: nat) returns (ok: bool)
      requires AtPoint(ToSetAside) && state.bunMain.Some? && state.bunWal.None? && state.rollback.None?
      modifies this
      ensures Valid() && trace[0] == old(trace[0])
      ensures ok <==> !fails(ToSetAside) && !fails(ToRevert) && !fails(ToRevertReceipt) && !fails(ToRevertSync)
      ensures AtPoint(if ok then ToProve else ToGiveUp)
      ensures ok ==>
                state == GoBack(old(state).(legacyMain := old(state.bunMain),
                                            rollback := Some(Receipt(id, old(state.bunMain.value), old(state.bunMain.value)))), ToProve)
    {
      ok := Publish(id);
      if !ok { return; }
      ok := Attempt(id);
      if ok { ok := Attempt(id); }
      if !ok { GiveUp(id); }
    }

    /** What an earlier, killed converter left is set aside, and the new destination is published. */
    method Publish(id: nat) returns (ok: bool)
      requires AtPoint(ToSetAside) && state.bunMain.Some? && state.bunWal.None? && state.rollback.None?
      modifies this
      ensures Valid() && trace[0] == old(trace[0])
      ensures ok <==> !fails(ToSetAside) && !fails(ToRevert)
      ensures AtPoint(if ok then ToRevertReceipt else ToGiveUp)
      ensures ok ==> state == GoBack(old(state).(legacyMain := old(state.bunMain)), ToRevertReceipt)
    {
      ok := Attempt(id);
      if ok { ok := Attempt(id); }
    }

    /** Checkpoint Bun, move the retained store away, and convert or compare. */
    method BringUpToDate(id: nat) returns (ok: bool)
      requires AtPoint(ToCheckpoint)
      modifies this
      ensures Valid() && trace[0] == old(trace[0])
      ensures AtPoint(if ok then ToVerify else ToGiveUp)
      ensures ok <==> old(state.bunMain.Some? && (state.rollback.Some? ==> BunStore(state) == Some(state.rollback.value.source)))
                      && ClearUpdate(old(state))
      ensures ok ==> VerifyRollback(state).Some?
    {
      assert state.adoption.None? by { PathStaysInvariant(trace, |trace| - 1); }
      ok := Checkpoint(id);
      if !ok { return; }
      if state.rollback.None? { ok := Revert(id); return; }
      ok := Attempt(id);
      return state.supervisor.back != ToGiveUp;
    }

    /** Bun's log is drained and the retained legacy store is out of the way. */
    method Checkpoint(id: nat) returns (ok: bool)
      requires AtPoint(ToCheckpoint)
      modifies this
      ensures Valid() && trace[0] == old(trace[0])
      ensures ok <==> old(state.bunMain.Some?) && !fails(ToCheckpoint) && !fails(ToRetain)
      ensures AtPoint(if !ok then ToGiveUp else if old(state.rollback).None? then ToSetAside else ToProve)
      ensures ok ==>
                && state.bunMain == BunStore(old(state)) && state.bunMain.Some? && state.bunWal.None? && state.legacyWal.None?
                && state.rollback == old(state.rollback) && state.adoption.None?
                && (state.rollback.Some? ==> state.legacyMain == Some(state.rollback.value.destination) == Some(state.rollback.value.source))
    {
      assert && state.adoption.None? && (state.bunMain.Some? ==> state.legacyWal.None?) && (state.legacyMain.None? ==> state.retained.Some?)
             && (state.rollback.Some? ==>
                   && state.retained.Some? && state.legacyMain == Some(state.rollback.value.destination)
                   && state.rollback.value.source == state.rollback.value.destination) by {
        PathStaysInvariant(trace, |trace| - 1);
      }
      ok := Attempt(id);
      if !ok || state.supervisor.back == ToGiveUp { return false; }
      ok := Attempt(id);
    }

    /** The latest Bun state becomes Deno's, or the recovery refuses. */
    method RestoreLatestBun(id: nat) returns (ok: bool)
      requires AtPoint(ToCheckAdoption)
      modifies this
      ensures Valid() && trace[0] == old(trace[0])
      ensures AtPoint(if ok then ToIntendLegacy else ToGiveUp)
      ensures ok <==> Recoverable(old(state)) && ClearRestore(old(state))
    {
      assert (state.adoption.Some? ==> VerifyRollback(state).Some?) && state.supervisor.attempted by {
        PathStaysInvariant(trace, |trace| - 1);
      }
      ok := CheckAdoption(id);
      if !ok { return; }
      if state.adoption.None? {
        ok := BringUpToDate(id);
        if !ok { return; }
      }
      ok := Attempt(id);
    }

    /** After an announced legacy start, only an adopted rollback may be taken up. */
    method CheckAdoption(id: nat) returns (ok: bool)
      requires AtPoint(ToCheckAdoption)
      modifies this
      ensures Valid() && trace[0] == old(trace[0])
      ensures ok <==> !fails(ToCheckAdoption) && !(old(state.supervisor.memory.legacyAttempted) && old(state.adoption).None?)
      ensures state == GoBack(old(state), if !ok then ToGiveUp else if old(state.adoption).Some? then ToVerify else ToCheckpoint)
    {
      ok := Attempt(id);
      ok := ok && state.supervisor.back != ToGiveUp;
    }

    /** `recoverCutoverLatest` after `recovering` was recorded, up to the start of the prior release. */
    method RecoverCutoverLatest(id: nat) returns (ok: bool)
      requires AtPoint(ToHalt)
      modifies this
      ensures Valid() && trace[0] == old(trace[0])
      ensures ok <==> Recoverable(old(state)) && ClearRoute(old(state))
      ensures AtPoint(if ok then ToRollBack else ToGiveUp)
      ensures ok ==> LegacyAuthoritative(state) && state.selector == Prior && !state.held
    {
      ok := Quiesce(id);
      if !ok { return; }
      PathStaysInvariant(trace, |trace| - 1);
      if state.supervisor.back == ToCheckAdoption {
        ok := RestoreLatestBun(id);
      } else if state.supervisor.back == ToPutBunAside { ok := Attempt(id); }
      if ok { ok := RestartPrior(id); }
    }

    /** Stop the gateway and choose the way. */
    method Quiesce(id: nat) returns (ok: bool)
      requires AtPoint(ToHalt)
      modifies this
      ensures Valid() && trace[0] == old(trace[0])
      ensures ok <==> !fails(ToHalt) && !fails(ToRoute)
      ensures !ok ==> AtPoint(ToGiveUp)
      ensures ok ==>
                var s := old(state);
                state == GoBack(s.(service := Down, held := true),
                                if s.supervisor.attempted || s.selector == Candidate then ToCheckAdoption
                                else if s.bunMain.Some? then ToPutBunAside else ToIntendLegacy)
    {
      ok := Attempt(id);
      if ok { ok := Attempt(id); }
    }

    /** Announce the legacy start, then reselect and start the prior release. */
    method RestartPrior(id: nat) returns (ok: bool)
      requires AtPoint(ToIntendLegacy)
      modifies this
      ensures Valid() && trace[0] == old(trace[0])
      ensures ok <==> ClearRestart()
      ensures AtPoint(if ok then ToRollBack else ToGiveUp)
      ensures ok ==> LegacyAuthoritative(state) && state.selector == Prior && !state.held
    {
      ok := RecordOrThrow();
      if ok { ok := Attempt(id); }
      if ok { ok := Attempt(id); }
      PathStaysInvariant(trace, |trace| - 1);
    }

    /**
     * The recovery entry: a missing journal or one at `prepared` is no interruption, a settled one is
     * left as it is, both with their health checks; any other is recovered to `rolled_back`, or ends
     * unproved.
     */
    method RecoverFirstBunCutover(id: nat, healthy: bool) returns (end: RecoveryEnd)
      requires Valid() && state.supervisor.Gone?
      modifies this
      ensures Valid() && trace[0] == old(trace[0]) && state.supervisor.Gone?
      ensures !LeftOpen(old(state)) ==>
                && state == old(state)
                && end == if !healthy then Unhealthy
                          else if state.disk.None? || state.disk.value.phase == Prepared then NotStarted else Settled(state.disk.value.phase)
      ensures LeftOpen(old(state)) && fails(ToRecover) ==> end == Unentered && state == old(state)
      ensures LeftOpen(old(state)) && !fails(ToRecover) ==>
                && (end == RecoveredPrior <==> Recoverable(Entered(old(state))) && ClearRoute(Entered(old(state))) && !fails(ToRollBack))
                && (end == RecoveredPrior ==>
                      && LegacyAuthoritative(state) && state.selector == Prior && !state.held
                      && state.disk.Some? && state.disk.value.phase == RolledBack)
                && (end != RecoveredPrior ==> end == UnprovedState(!fails(ToGiveUp)))
                && (end == UnprovedState(true) ==> state.disk.Some? && state.disk.value.phase == RecoveryUnproved)
    {
      if !LeftOpen(state) {
        if !healthy { return Unhealthy; }
        return if state.disk.None? || state.disk.value.phase == Prepared then NotStarted else Settled(state.disk.value.phase);
      }
      Enter();
      var ok := RecordOrThrow();
      if !ok { return Unentered; }
      ok := RecoverCutoverLatest(id);
      end := Finish(ok);
    }

    /** The last record: `rolled_back`, or `recovery_unproved`. */
    method Finish(recovered: bool) returns (end: RecoveryEnd)
      requires AtPoint(if recovered then ToRollBack else ToGiveUp)
      modifies this
      ensures Valid() && trace[0] == old(trace[0]) && state.supervisor.Gone?
      ensures end == if recovered && !fails(ToRollBack) then RecoveredPrior else UnprovedState(!fails(ToGiveUp))
      ensures end == RecoveredPrior ==> state.disk.Some? && state.disk.value.phase == RolledBack
      ensures end == UnprovedState(true) ==> state.disk.Some? && state.disk.value.phase == RecoveryUnproved
      ensures state == old(state).(disk := state.disk, supervisor := Gone)
    {
      if recovered {
        var ok := RecordOrThrow();
        if ok { return RecoveredPrior; }
      }
      var ok := RecordOrThrow();
      end := UnprovedState(ok);
    }

    method Enter()
      requires Valid() && state.supervisor.Gone? && LeftOpen(state)
      modifies this
      ensures Valid() && trace[0] == old(trace[0]) && state == Entered(old(state))
    {
      assert ReentryStep(state, Entered(state));
      PathGrows(Next, trace, Entered(state));
      state := Entered(state);
      trace := trace + [state];
    }
  }

  /** The journal records an interruption that has not been settled. */
  predicate LeftOpen(s: State) {
    s.disk.Some? && s.disk.value.phase !in {Prepared, Accepted, RolledBack}
  }

  /** The recovery entry has read the journal. */
  function Entered(s: State): State
    requires s.disk.Some?
  {
    s.(supervisor := Returning(ToRecover, s.disk.value, s.disk.value.bunAttempted))
  }
}
