/**
 * The first Bun cutover and its recovery as a transition system over one disk. The supervisor may
 * die, and the machine may reboot, between any two durable effects; the service manager restarts
 * the gateway whenever it is not held stopped, and a running gateway writes at any time.
 *
 * A converted store holds the same contents as its source, so contents are values and a file
 * digest is the value in the main file. What a program reads is the write-ahead log if it is not
 * empty, and the main file otherwise.
 */
module Cutover {
  import opened Wrappers
  import opened CutoverTransition
  import opened Runs

  /** The contents of a store; 0 is the store a gateway creates when it finds none. */
  type Value = nat

  const EMPTY: Value := 0

  datatype Selector = Prior | Candidate
  datatype Service = Down | Deno | Bun

  /** A conversion receipt: digests of the stopped source and of the new destination. */
  datatype Receipt = Receipt(id: nat, source: Value, destination: Value)

  /** The operation journal, in the supervisor's memory and on disk. */
  datatype Operation = Operation(
    phase: Phase, priorSource: Option<Value>, conversion: Option<Receipt>, bunAttempted: bool, legacyAttempted: bool)

  /** The next effect of the forward part. */
  datatype Ahead =
    | ToPrepare | ToIntend | ToStop | ToDrain | ToPreserve | ToRecordStopped
    | ToConvert | ToReceipt | ToSync | ToRecordConverted | ToAttempt | ToSelect | ToStart | ToReady | ToAccept
    | UndoForwardReceipt | UndoForward

  /** The next effect of a recovery. */
  datatype Back =
    | ToRecover | ToHalt | ToRoute | ToCheckAdoption | ToCheckpoint | ToRetain | ToSetAside
    | ToRevert | ToRevertReceipt | ToRevertSync | UndoRevertReceipt | UndoRevert
    | ToProve | ToVerify | ToPutBunAside | ToIntendLegacy | ToReselect | ToRestart | ToRollBack | ToGiveUp

  /** The operator process: its journal object and its `startupAttempted` flag die with it. */
  datatype Supervisor =
    | Gone
    | Advancing(ahead: Ahead, memory: Operation, attempted: bool)
    | Returning(back: Back, memory: Operation, attempted: bool)

  datatype State = State(
    legacyMain: Option<Value>, legacyWal: Option<Value>,
    bunMain: Option<Value>, bunWal: Option<Value>,
    retained: Option<Value>, forward: Option<Receipt>,
    rollback: Option<Receipt>, adoption: Option<Receipt>,
    selector: Selector, disk: Option<Operation>,
    service: Service, held: bool, supervisor: Supervisor,
    latest: Value)

  /** What a program that opens the store reads. */
  function Contents(main: Option<Value>, wal: Option<Value>): Option<Value> {
    if wal.Some? then wal else main
  }

  function LegacyStore(s: State): Option<Value> { Contents(s.legacyMain, s.legacyWal) }
  function BunStore(s: State): Option<Value> { Contents(s.bunMain, s.bunWal) }

  // ---------------------------------------------------------------- the supervisor's effects

  function GoTo(s: State, p: Ahead): State
    requires !s.supervisor.Gone?
  {
    s.(supervisor := Advancing(p, s.supervisor.memory, s.supervisor.attempted))
  }

  function GoBack(s: State, p: Back): State
    requires !s.supervisor.Gone?
  {
    s.(supervisor := Returning(p, s.supervisor.memory, s.supervisor.attempted))
  }

  /** Where an error leads: refused before `stopping`, to recovery after it, to an unproved recovery from there. */
  function Caught(s: State): State
    requires !s.supervisor.Gone?
  {
    match s.supervisor
    case Advancing(p, _, _) => if p in {ToPrepare, ToIntend} then s.(supervisor := Gone) else GoBack(s, ToRecover)
    case Returning(p, _, _) => if p in {ToRecover, ToGiveUp} then s.(supervisor := Gone) else GoBack(s, ToGiveUp)
  }

  /** The journal object after `record(phase)` has changed it. */
  function Noted(m: Operation, phase: Phase): Operation {
    m.(phase := phase, bunAttempted := m.bunAttempted || phase == Starting, legacyAttempted := m.legacyAttempted || phase == LegacyStarting)
  }

  /** The phase recorded at the supervisor's point, if it is at a record. */
  function PhaseAt(v: Supervisor): Option<Phase> {
    match v
    case Gone => None
    case Advancing(p, _, _) => (
      match p
      case ToPrepare => Some(Prepared)
      case ToIntend => Some(Stopping)
      case ToRecordStopped => Some(Stopped)
      case ToRecordConverted => Some(Converted)
      case ToAttempt => Some(Starting)
      case ToReady => Some(CandidateReady)
      case ToAccept => Some(Accepted)
      case _ => None)
    case Returning(p, _, _) => (
      match p
      case ToRecover => Some(Recovering)
      case ToIntendLegacy => Some(LegacyStarting)
      case ToRollBack => Some(RolledBack)
      case ToGiveUp => Some(RecoveryUnproved)
      case _ => None)
  }

  /** The supervisor after the record at its point succeeded. */
  function AfterRecord(v: Supervisor): Supervisor {
    match v
    case Gone => Gone
    case Advancing(p, _, _) => (
      match p
      case ToPrepare => v.(ahead := ToIntend)
      case ToIntend => v.(ahead := ToStop)
      case ToRecordStopped => v.(ahead := ToConvert)
      case ToRecordConverted => v.(ahead := ToAttempt)
      case ToAttempt => v.(ahead := ToSelect, attempted := true)
      case ToReady => v.(ahead := ToAccept)
      case _ => Gone)
    case Returning(p, _, _) => (
      match p
      case ToRecover => v.(back := ToHalt)
      case ToIntendLegacy => v.(back := ToReselect)
      case _ => Gone)
  }

  /** The journal object has changed in memory. */
  function Remembered(s: State): State
    requires PhaseAt(s.supervisor).Some?
  {
    s.(supervisor := s.supervisor.(memory := Noted(s.supervisor.memory, PhaseAt(s.supervisor).value)))
  }

  /** It has also reached the disk. */
  function Written(s: State): State
    requires PhaseAt(s.supervisor).Some?
  {
    Remembered(s).(disk := Some(Remembered(s).supervisor.memory))
  }

  /**
   * A journal write: memory changes, the disk may or may not, and the write may throw either way.
   * A cancelled record, or a check just before it, throws before anything changes.
   */
  predicate RecordStep(s: State, t: State) {
    && PhaseAt(s.supervisor).Some?
    && (|| t == Written(s).(supervisor := AfterRecord(Written(s).supervisor))
        || t == Caught(Written(s))
        || t == Caught(Remembered(s))
        || t == Caught(s))
  }

  /** `verifyLegacyRollback`: refused, or passed with the adoption published. */
  function VerifyRollback(s: State): Option<State> {
    if s.bunMain.None? then Some(s)
    else if s.rollback.None? || s.legacyMain.None? || s.bunMain != Some(s.rollback.value.source) || s.bunWal.Some? then None
    else if s.adoption.Some? then (if s.adoption == s.rollback then Some(s) else None)
    else if s.legacyMain == Some(s.rollback.value.destination) then Some(s.(adoption := s.rollback))
    else None
  }

  /** The forward effects, each at its point; `id` makes a new receipt different from every other. */
  function ForwardEffect(s: State, id: nat): State
    requires s.supervisor.Advancing?
  {
    var m := s.supervisor.memory;
    match s.supervisor.ahead
    case ToStop => GoTo(s.(service := Down, held := true), ToDrain)
    case ToDrain =>
      if s.legacyMain.None? then Caught(s) else GoTo(s.(legacyMain := LegacyStore(s), legacyWal := None), ToPreserve)
    case ToPreserve =>
      if s.legacyMain.None? then Caught(s)
      else s.(supervisor := s.supervisor.(ahead := ToRecordStopped, memory := m.(priorSource := s.legacyMain)))
    case ToConvert =>
      if s.bunMain.Some? || s.forward.Some? || s.legacyMain.None? || s.legacyWal.Some? then Caught(s)
      else GoTo(s.(bunMain := s.legacyMain), ToReceipt)
    case ToReceipt =>
      if s.legacyMain.None? || s.bunMain.None? then Caught(s)
      else GoTo(s.(forward := Some(Receipt(id, s.legacyMain.value, s.bunMain.value))), ToSync)
    case ToSync =>
      if s.forward.None? || m.priorSource != Some(s.forward.value.source) then Caught(s)
      else s.(supervisor := s.supervisor.(ahead := ToRecordConverted, memory := m.(conversion := s.forward)))
    case UndoForwardReceipt => GoTo(s.(forward := None), UndoForward)
    case UndoForward => Caught(s.(bunMain := None))
    case ToSelect =>
      if s.legacyMain == m.priorSource && m.conversion.Some? && s.bunMain == Some(m.conversion.value.destination)
      then GoTo(s.(selector := Candidate), ToStart)
      else Caught(s)
    case ToStart => GoTo(s.(held := false), ToReady)
    case _ => s
  }

  /** The recovery effects, each at its point, with the refusals the code makes. */
  function RecoveryEffect(s: State, id: nat): State
    requires s.supervisor.Returning?
  {
    var m := s.supervisor.memory;
    match s.supervisor.back
    case ToHalt => GoBack(s.(service := Down, held := true), ToRoute)
    case ToRoute =>
      if s.supervisor.attempted || s.selector == Candidate then GoBack(s, ToCheckAdoption)
      else if s.bunMain.Some? then GoBack(s, ToPutBunAside)
      else GoBack(s, ToIntendLegacy)
    case ToCheckAdoption =>
      if m.legacyAttempted && s.adoption.None? then Caught(s)
      else GoBack(s, if s.adoption.Some? then ToVerify else ToCheckpoint)
    case ToCheckpoint =>
      if s.bunMain.None? then Caught(s) else GoBack(s.(bunMain := BunStore(s), bunWal := None), ToRetain)
    case ToRetain =>
      if s.retained.None? && s.legacyMain.None? then Caught(s)
      else
        var moved := if s.retained.None? then s.(retained := s.legacyMain, legacyMain := None) else s;
        GoBack(moved, if s.rollback.None? then ToSetAside else ToProve)
    case ToSetAside => GoBack(s.(legacyMain := None), ToRevert)
    case ToRevert =>
      if s.legacyMain.Some? || s.rollback.Some? || s.bunMain.None? || s.bunWal.Some? then Caught(s)
      else GoBack(s.(legacyMain := s.bunMain), ToRevertReceipt)
    case ToRevertReceipt =>
      if s.legacyMain.None? || s.bunMain.None? then Caught(s)
      else GoBack(s.(rollback := Some(Receipt(id, s.bunMain.value, s.legacyMain.value))), ToRevertSync)
    case ToRevertSync => GoBack(s, ToProve)
    case UndoRevertReceipt => GoBack(s.(rollback := None), UndoRevert)
    case UndoRevert => Caught(s.(legacyMain := None))
    case ToProve =>
      if s.bunMain.Some? && s.legacyMain.Some? && BunStore(s) == LegacyStore(s) then GoBack(s, ToVerify) else Caught(s)
    case ToVerify =>
      if VerifyRollback(s).Some? then GoBack(VerifyRollback(s).value, ToIntendLegacy) else Caught(s)
    case ToPutBunAside =>
      if || m.priorSource.None? || s.legacyMain != m.priorSource || s.bunMain.None?
         || (s.forward.Some? && (s.forward.value.source != m.priorSource.value || s.bunMain != Some(s.forward.value.destination)))
      then Caught(s)
      else GoBack(s.(bunMain := None), ToIntendLegacy)
    case ToReselect => GoBack(s.(selector := Prior), ToRestart)
    case ToRestart => GoBack(s.(held := false), ToRollBack)
    case _ => s
  }

  /** An effect that throws; a converter that had published first takes its own files away again. */
  function Thrown(s: State): State
    requires !s.supervisor.Gone?
  {
    match s.supervisor
    case Advancing(p, _, _) => if p == ToReceipt then GoTo(s, UndoForward) else if p == ToSync then GoTo(s, UndoForwardReceipt) else Caught(s)
    case Returning(p, _, _) =>
      if p == ToRevertReceipt then GoBack(s, UndoRevert) else if p == ToRevertSync then GoBack(s, UndoRevertReceipt) else Caught(s)
  }

  function Effect(s: State, id: nat): State {
    match s.supervisor
    case Gone => s
    case Advancing(_, _, _) => ForwardEffect(s, id)
    case Returning(_, _, _) => RecoveryEffect(s, id)
  }

  ghost predicate EffectStep(s: State, t: State) {
    && !s.supervisor.Gone? && PhaseAt(s.supervisor).None?
    && (t == Thrown(s) || exists id: nat :: t == Effect(s, id))
  }

  // ---------------------------------------------------------------- the rest of the machine

  /** The supervisor dies, or the whole machine reboots and nothing is held stopped any more. */
  predicate CrashStep(s: State, t: State) {
    || t == s.(supervisor := Gone)
    || t == s.(supervisor := Gone, service := Down, held := false)
  }

  /** The pinned recovery entry: it acts only on an interruption that has not been settled. */
  predicate ReentryStep(s: State, t: State) {
    && s.supervisor.Gone? && s.disk.Some? && s.disk.value.phase !in {Prepared, Accepted, RolledBack}
    && t == s.(supervisor := Returning(ToRecover, s.disk.value, s.disk.value.bunAttempted))
  }

  /** The launcher, whenever nothing holds the gateway down: it may die before it execs the runtime. */
  predicate LaunchStep(s: State, t: State) {
    && s.service == Down && !s.held
    && if s.selector == Candidate then
         || t == s.(adoption := None)
         || (s.bunMain.Some? && t == s.(adoption := None, service := Bun))
       else
         && VerifyRollback(s).Some?
         && var v := VerifyRollback(s).value;
            || t == v
            || t == v.(service := Deno, legacyMain := if v.legacyMain.None? then Some(EMPTY) else v.legacyMain)
  }

  /** A running gateway commits a write, moves its log into its main file, or dies. */
  ghost predicate ServiceStep(s: State, t: State) {
    || (s.service != Down && t == s.(service := Down))
    || (s.service == Deno && (
         || t == s.(legacyMain := LegacyStore(s), legacyWal := None)
         || exists v: Value :: t == s.(legacyWal := Some(v), latest := v)))
    || (s.service == Bun && (
         || t == s.(bunMain := BunStore(s), bunWal := None)
         || exists v: Value :: t == s.(bunWal := Some(v), latest := v)))
  }

  ghost predicate Next(s: State, t: State) {
    RecordStep(s, t) || EffectStep(s, t) || CrashStep(s, t) || ReentryStep(s, t) || LaunchStep(s, t) || ServiceStep(s, t)
  }

  /** The operator has checked the baseline and written its pin: only the legacy store exists. */
  ghost predicate Init(s: State) {
    && s.legacyMain.Some? && LegacyStore(s) == Some(s.latest)
    && s.bunMain.None? && s.bunWal.None? && s.retained.None? && s.forward.None? && s.rollback.None? && s.adoption.None?
    && s.selector == Prior && s.disk.None? && s.service != Bun && !s.held
    && s.supervisor == Advancing(ToPrepare, Operation(Prepared, None, None, false, false), false)
  }

  ghost predicate Reachable(run: seq<State>) {
    run != [] && Init(run[0]) && Path(Next, run)
  }

  // ---------------------------------------------------------------- the invariant

  /** Deno may run now and reads the latest write: Bun's store is gone, or the rollback was adopted. */
  predicate LegacyAuthoritative(s: State) {
    && (s.bunMain.None? || s.adoption.Some?)
    && s.legacyMain.Some? && LegacyStore(s) == Some(s.latest)
  }

  /** Where the latest write is, by what a launcher would find. */
  predicate LatestInv(s: State) {
    if s.bunMain.None? || s.adoption.Some?
    then s.legacyMain.Some? && LegacyStore(s) == Some(s.latest)
    else BunStore(s) == Some(s.latest) && s.legacyWal.None?
  }

  /** The rollback evidence: a receipt never speaks of anything but the converted state it was made from. */
  predicate EvidenceInv(s: State) {
    && (s.bunMain.None? ==> s.bunWal.None? && s.adoption.None? && s.selector == Prior)
    && (s.legacyMain.None? ==> s.retained.Some?)
    && (s.rollback.Some? ==>
          && s.bunMain.Some? && s.retained.Some? && s.rollback.value.source == s.rollback.value.destination
          && s.disk.Some? && s.disk.value.bunAttempted
          && (s.adoption.None? ==> s.legacyMain == Some(s.rollback.value.destination)))
    && (s.adoption.Some? ==> s.adoption == s.rollback && s.bunMain == Some(s.rollback.value.source) && s.bunWal.None?)
    && (s.adoption.Some? && s.selector == Candidate ==> s.legacyWal.None? && s.legacyMain == s.bunMain)
  }

  predicate ServiceInv(s: State) {
    && (s.service == Deno ==> s.selector == Prior && (s.bunMain.None? || s.adoption.Some?))
    && (s.service == Bun ==> s.selector == Candidate && s.adoption.None?)
    && (s.held ==> s.service == Down)
    && (s.selector == Candidate ==> s.disk.Some? && s.disk.value.bunAttempted)
  }

  /** Bun was never given a chance to run: both stores are the stopped source. */
  predicate Unstarted(s: State, o: Operation) {
    && s.selector == Prior && s.service != Bun && s.rollback.None? && s.retained.None?
    && (s.bunMain.Some? ==> s.bunWal.None? && s.legacyWal.None? && s.legacyMain == s.bunMain == Some(s.latest) == o.priorSource)
    && (s.forward.Some? && s.bunMain.Some? ==> s.forward.value.source == s.forward.value.destination == s.latest)
  }

  /** What the journal on disk promises a process that finds it. */
  predicate DiskInv(s: State) {
    && (s.disk.None? ==> s.bunMain.None? && (s.supervisor.Gone? || (s.supervisor.Advancing? && s.supervisor.ahead == ToPrepare)))
    && (s.disk.Some? ==>
          var d := s.disk.value;
          && (!d.bunAttempted ==> Unstarted(s, d))
          && (d.phase == Prepared ==>
                && s.bunMain.None? && d.priorSource.None? && d.conversion.None? && !d.bunAttempted && !d.legacyAttempted
                && (s.supervisor.Gone? || (s.supervisor.Advancing? && s.supervisor.ahead == ToIntend)))
          && (d.phase == Accepted ==> s.selector == Candidate && (s.supervisor.Gone? || (s.supervisor.Returning? && s.supervisor.back == ToRecover)))
          && (d.phase == RolledBack ==> s.selector == Prior && (s.bunMain.None? || s.adoption.Some?)))
  }

  /** What holds at each point of the forward part. */
  predicate ForwardInv(s: State, p: Ahead, m: Operation, attempted: bool) {
    && (p !in {ToPrepare, ToIntend, ToStop, ToReady, ToAccept} ==> s.held)
    && s.rollback.None? && s.retained.None? && !m.legacyAttempted && (s.disk.Some? ==> s.disk.value.phase != RolledBack)
    && (p in {ToPrepare, ToIntend} ==> m.priorSource.None? && m.conversion.None? && !m.bunAttempted)
    && (p in {ToPrepare, ToIntend, ToStop, ToDrain, ToPreserve, ToRecordStopped, ToConvert} ==> s.bunMain.None? && s.forward.None?)
    && (p in {ToPreserve, ToRecordStopped, ToConvert} ==> s.legacyWal.None?)
    && (p in {ToRecordStopped, ToConvert} ==> m.priorSource == s.legacyMain)
    && (p in {ToConvert, ToReceipt, ToSync, UndoForwardReceipt, UndoForward} ==>
          s.disk.Some? && s.disk.value.priorSource == m.priorSource && !s.disk.value.bunAttempted)
    && (p in {ToReceipt, ToSync, UndoForwardReceipt, UndoForward, ToRecordConverted, ToAttempt, ToSelect, ToStart} ==> s.bunMain.Some?)
    && (p in {ToReceipt, UndoForward} ==> s.forward.None?)
    && (p !in {ToSelect, ToStart, ToReady, ToAccept} ==> !m.bunAttempted && !attempted)
    && (p in {ToSelect, ToStart, ToReady, ToAccept} ==> attempted)
    && (p in {ToStart, ToReady, ToAccept} ==> s.selector == Candidate)
    && (p == ToSelect ==> s.selector == Prior)
  }

  /** The points from the move of the retained store to the round-trip proof. */
  predicate Reverting(p: Back) {
    p in {ToSetAside, ToRevert, ToRevertReceipt, ToRevertSync, UndoRevertReceipt, UndoRevert, ToProve}
  }

  /** What holds at each point of the recovery. */
  predicate RecoveryInv(s: State, p: Back, attempted: bool) {
    && (p !in {ToRecover, ToHalt, ToRollBack, ToGiveUp} ==> s.held)
    && (Reverting(p) || p in {ToCheckAdoption, ToCheckpoint, ToRetain, ToVerify} ==> attempted)
    && (Reverting(p) || p in {ToCheckpoint, ToRetain} ==> s.adoption.None?)
    && (Reverting(p) || p == ToRetain ==> s.bunMain.Some? && s.bunWal.None?)
    && (Reverting(p) ==> s.retained.Some?)
    && (p in {ToSetAside, ToRevert, ToRevertReceipt, UndoRevert} ==> s.rollback.None?)
    && (p == ToRevertReceipt ==> s.legacyMain == s.bunMain)
    && (p == ToPutBunAside ==> !attempted && s.bunMain.Some?)
    && (p in {ToIntendLegacy, ToReselect, ToRestart, ToRollBack} ==> s.bunMain.None? || s.adoption.Some?)
    && (p in {ToRestart, ToRollBack} ==> s.selector == Prior)
  }

  predicate SupervisorInv(s: State) {
    && (!s.supervisor.Gone? ==>
          var m, attempted := s.supervisor.memory, s.supervisor.attempted;
          && (s.disk.Some? && s.disk.value.bunAttempted ==> m.bunAttempted)
          && (attempted ==> s.disk.Some? && s.disk.value.bunAttempted)
          && (!attempted ==> Unstarted(s, m)))
    && (s.supervisor.Advancing? ==> ForwardInv(s, s.supervisor.ahead, s.supervisor.memory, s.supervisor.attempted))
    && (s.supervisor.Returning? ==> RecoveryInv(s, s.supervisor.back, s.supervisor.attempted))
  }

  predicate Inv(s: State) {
    LatestInv(s) && EvidenceInv(s) && ServiceInv(s) && DiskInv(s) && SupervisorInv(s)
  }

  lemma InitHolds(s: State)
    requires Init(s)
    ensures Inv(s)
  {}

  lemma ForwardRecordKeeps(s: State)
    requires Inv(s) && PhaseAt(s.supervisor).Some? && s.supervisor.Advancing?
    ensures Inv(Written(s).(supervisor := AfterRecord(Written(s).supervisor)))
  {}

  lemma RecoveryRecordKeeps(s: State)
    requires Inv(s) && PhaseAt(s.supervisor).Some? && s.supervisor.Returning?
    ensures Inv(Written(s).(supervisor := AfterRecord(Written(s).supervisor)))
  {}

  lemma ForwardLateRecordKeeps(s: State)
    requires Inv(s) && PhaseAt(s.supervisor).Some? && s.supervisor.Advancing?
    ensures Inv(Caught(Written(s)))
  {}

  lemma RecoveryLateRecordKeeps(s: State)
    requires Inv(s) && PhaseAt(s.supervisor).Some? && s.supervisor.Returning?
    ensures Inv(Caught(Written(s)))
  {}

  lemma ForwardLostRecordKeeps(s: State)
    requires Inv(s) && PhaseAt(s.supervisor).Some? && s.supervisor.Advancing?
    ensures Inv(Caught(Remembered(s))) && Inv(Caught(s))
  {}

  lemma RecoveryLostRecordKeeps(s: State)
    requires Inv(s) && PhaseAt(s.supervisor).Some? && s.supervisor.Returning?
    ensures Inv(Caught(Remembered(s)))
  {}

  lemma RecoveryRecordThrowKeeps(s: State)
    requires Inv(s) && PhaseAt(s.supervisor).Some? && s.supervisor.Returning?
    ensures Inv(Caught(s))
  {
    if s.supervisor.back != ToRecover { GivingUpKeeps(s); }
    CrashKeeps(s, s.(supervisor := Gone));
  }

  lemma RecordKeeps(s: State, t: State)
    requires Inv(s) && RecordStep(s, t)
    ensures Inv(t)
  {
    if s.supervisor.Advancing? {
      ForwardRecordKeeps(s);
      ForwardLateRecordKeeps(s);
      ForwardLostRecordKeeps(s);
    } else {
      RecoveryRecordKeeps(s);
      RecoveryLateRecordKeeps(s);
      RecoveryLostRecordKeeps(s);
      RecoveryRecordThrowKeeps(s);
    }
  }

  lemma StoppingKeeps(s: State, id: nat)
    requires Inv(s) && s.supervisor.Advancing? && s.supervisor.ahead in {ToStop, ToDrain, ToPreserve, ToConvert, ToReceipt}
    ensures Inv(ForwardEffect(s, id))
  {}

  lemma StartingKeeps(s: State, id: nat)
    requires Inv(s) && s.supervisor.Advancing? && s.supervisor.ahead in {ToSync, UndoForwardReceipt, UndoForward, ToSelect, ToStart}
    ensures Inv(ForwardEffect(s, id))
  {}

  lemma HaltingKeeps(s: State, id: nat)
    requires Inv(s) && s.supervisor.Returning? && s.supervisor.back in {ToHalt, ToRoute, ToCheckAdoption, ToCheckpoint, ToRetain}
    ensures Inv(RecoveryEffect(s, id))
  {
    GivingUpKeeps(s);
  }

  lemma RevertingKeeps(s: State, id: nat)
    requires Inv(s) && s.supervisor.Returning? && Reverting(s.supervisor.back)
    ensures Inv(RecoveryEffect(s, id))
  {
    GivingUpKeeps(s);
  }

  lemma AdoptingKeeps(s: State, id: nat)
    requires Inv(s) && s.supervisor.Returning? && s.supervisor.back in {ToVerify, ToPutBunAside}
    ensures Inv(RecoveryEffect(s, id))
  {
    GivingUpKeeps(s);
  }

  lemma RestartingKeeps(s: State, id: nat)
    requires Inv(s) && s.supervisor.Returning? && s.supervisor.back in {ToReselect, ToRestart}
    ensures Inv(RecoveryEffect(s, id))
  {}

  lemma ForwardThrowKeeps(s: State)
    requires Inv(s) && s.supervisor.Advancing? && PhaseAt(s.supervisor).None?
    ensures Inv(Thrown(s))
  {}

  lemma GivingUpKeeps(s: State)
    requires Inv(s) && s.supervisor.Returning? && s.supervisor.back != ToRecover
    ensures Inv(GoBack(s, ToGiveUp))
  {}

  lemma UndoingKeeps(s: State)
    requires Inv(s) && s.supervisor.Returning? && s.supervisor.back in {ToRevertReceipt, ToRevertSync}
    ensures Inv(Thrown(s))
  {}

  lemma EffectKeeps(s: State, t: State)
    requires Inv(s) && EffectStep(s, t)
    ensures Inv(t)
  {
    var v := s.supervisor;
    if t == Thrown(s) {
      if v.Advancing? { ForwardThrowKeeps(s); }
      else if v.back in {ToRevertReceipt, ToRevertSync} { UndoingKeeps(s); }
      else { GivingUpKeeps(s); }
    } else {
      var id: nat :| t == Effect(s, id);
      if v.Advancing? {
        if v.ahead in {ToStop, ToDrain, ToPreserve, ToConvert, ToReceipt} { StoppingKeeps(s, id); } else { StartingKeeps(s, id); }
      }
      else if Reverting(v.back) { RevertingKeeps(s, id); }
      else if v.back in {ToVerify, ToPutBunAside} { AdoptingKeeps(s, id); }
      else if v.back in {ToReselect, ToRestart} { RestartingKeeps(s, id); }
      else { HaltingKeeps(s, id); }
    }
  }

  lemma LaunchKeeps(s: State, t: State)
    requires Inv(s) && LaunchStep(s, t)
    ensures Inv(t)
  {}

  lemma ServiceKeeps(s: State, t: State)
    requires Inv(s) && ServiceStep(s, t)
    ensures Inv(t)
  {}

  lemma CrashKeeps(s: State, t: State)
    requires Inv(s) && (CrashStep(s, t) || ReentryStep(s, t))
    ensures Inv(t)
  {}

  lemma NextKeeps(s: State, t: State)
    requires Inv(s) && Next(s, t)
    ensures Inv(t)
  {
    if RecordStep(s, t) { RecordKeeps(s, t); }
    else if EffectStep(s, t) { EffectKeeps(s, t); }
    else if LaunchStep(s, t) { LaunchKeeps(s, t); }
    else if ServiceStep(s, t) { ServiceKeeps(s, t); }
    else { CrashKeeps(s, t); }
  }

  // ---------------------------------------------------------------- over whole runs

  lemma RunKeeps(run: seq<State>, n: nat)
    requires Reachable(run) && n < |run|
    ensures Inv(run[n])
  {
    InitHolds(run[0]);
    PathStaysInvariant(run, n);
  }

  lemma PathStaysInvariant(states: seq<State>, n: nat)
    requires Path(Next, states) && n < |states| && Inv(states[0])
    ensures Inv(states[n])
  {
    forall s, t | Inv(s) && Next(s, t) ensures Inv(t) { NextKeeps(s, t); }
    PathKeeps(Next, Inv, states, n);
  }

  /**
   * In every reachable state the latest write is what one of the two stores holds, the gateway that
   * runs serves the store that holds it, and so does whatever the launcher would start now.
   */
  lemma LatestWriteSurvives(run: seq<State>, n: nat)
    requires Reachable(run) && n < |run|
    ensures Some(run[n].latest) in {LegacyStore(run[n]), BunStore(run[n])}
    ensures run[n].service == Deno ==> run[n].legacyMain.Some? && LegacyStore(run[n]) == Some(run[n].latest)
    ensures run[n].service == Bun ==> run[n].bunMain.Some? && BunStore(run[n]) == Some(run[n].latest)
    ensures run[n].selector == Prior && VerifyRollback(run[n]).Some? ==> run[n].legacyMain.Some? && LegacyStore(run[n]) == Some(run[n].latest)
    ensures run[n].selector == Candidate ==> run[n].bunMain.Some? && BunStore(run[n]) == Some(run[n].latest)
  {
    RunKeeps(run, n);
  }

  /**
   * A recovery that has not proved the legacy store refuses: once it announces the legacy start,
   * reselects the prior release or starts it, Deno's store holds the latest write.
   */
  lemma LegacyStartsOnlyWhenProved(run: seq<State>, n: nat)
    requires Reachable(run) && n < |run| && run[n].supervisor.Returning?
    ensures run[n].supervisor.back in {ToIntendLegacy, ToReselect, ToRestart, ToRollBack} ==> LegacyAuthoritative(run[n])
  {
    RunKeeps(run, n);
  }

  /** `rolled_back` on disk means the prior release is selected and authoritative; `accepted`, that Bun is. */
  lemma SettledPhasesMean(run: seq<State>, n: nat)
    requires Reachable(run) && n < |run| && run[n].disk.Some?
    ensures run[n].disk.value.phase == RolledBack ==> run[n].selector == Prior && LegacyAuthoritative(run[n])
    ensures run[n].disk.value.phase == Accepted ==> run[n].selector == Candidate && BunStore(run[n]) == Some(run[n].latest)
  {
    RunKeeps(run, n);
  }

  /** A journal still at `prepared` leaves the baseline that its recovery entry insists on. */
  lemma PreparedLeavesBaseline(run: seq<State>, n: nat)
    requires Reachable(run) && n < |run| && run[n].disk.Some? && run[n].disk.value.phase == Prepared
    ensures run[n].disk.value == Operation(Prepared, None, None, false, false)
    ensures run[n].selector == Prior && run[n].bunMain.None? && LegacyAuthoritative(run[n])
  {
    RunKeeps(run, n);
  }

  /** A settled operation with no supervisor left stays settled, whatever is launched, written or rebooted. */
  lemma {:induction false} SettlementIsFinal(run: seq<State>, n: nat, k: nat)
    requires Reachable(run) && n <= k < |run|
    requires run[n].supervisor.Gone? && run[n].disk.Some? && run[n].disk.value.phase in {Accepted, RolledBack}
    ensures run[k].supervisor.Gone? && run[k].disk == run[n].disk && run[k].selector == run[n].selector
  {
    if n < k {
      SettlementIsFinal(run, n, k - 1);
      assert StepAt(Next, run, k - 1);
    }
  }

  // ---------------------------------------------------------------- what the launcher can start

  /**
   * With the prior release selected and nothing holding it down, the launcher can start Deno exactly
   * when there is no Bun store, or a rollback receipt describes the drained Bun store and a Deno store
   * exists, and the receipt was adopted or the Deno store still is the converted one.
   */
  lemma DenoStartsExactly(s: State)
    requires s.service == Down && !s.held && s.selector == Prior
    ensures (exists t :: LaunchStep(s, t) && t.service == Deno) <==>
            || s.bunMain.None?
            || (&& s.rollback.Some? && s.legacyMain.Some? && s.bunMain == Some(s.rollback.value.source) && s.bunWal.None?
                && (s.adoption == s.rollback || (s.adoption.None? && s.legacyMain == Some(s.rollback.value.destination))))
    ensures forall t | LaunchStep(s, t) && t.service == Deno :: LaunchStep(s, t.(service := Down, legacyMain := s.legacyMain))
  {
    if VerifyRollback(s).Some? {
      var v := VerifyRollback(s).value;
      assert LaunchStep(s, v.(service := Deno, legacyMain := if v.legacyMain.None? then Some(EMPTY) else v.legacyMain));
    }
  }

  /** With the candidate selected, it can start Bun exactly when there is a Bun store, and never Deno. */
  lemma BunStartsExactly(s: State)
    requires s.service == Down && !s.held && s.selector == Candidate
    ensures (exists t :: LaunchStep(s, t) && t.service == Bun) <==> s.bunMain.Some?
    ensures forall t | LaunchStep(s, t) :: t.service != Deno && t.adoption.None?
    ensures LaunchStep(s, s.(adoption := None))
  {
    if s.bunMain.Some? { assert LaunchStep(s, s.(adoption := None, service := Bun)); }
  }

  /** In every reachable state in which the legacy store is the authority, the launcher can start Deno on the latest write. */
  lemma LegacyComesUp(run: seq<State>, n: nat) returns (t: State)
    requires Reachable(run) && n < |run|
    requires run[n].service == Down && !run[n].held && run[n].selector == Prior && LegacyAuthoritative(run[n])
    ensures LaunchStep(run[n], t) && t.service == Deno && t.latest == run[n].latest
    ensures t.legacyMain.Some? && LegacyStore(t) == Some(t.latest)
  {
    RunKeeps(run, n);
    t := run[n].(service := Deno);
  }

  /** In every reachable state with the candidate selected, it can start Bun on the latest write. */
  lemma CandidateComesUp(run: seq<State>, n: nat) returns (t: State)
    requires Reachable(run) && n < |run|
    requires run[n].service == Down && !run[n].held && run[n].selector == Candidate
    ensures LaunchStep(run[n], t) && t.service == Bun && t.latest == run[n].latest
    ensures t.bunMain.Some? && BunStore(t) == Some(t.latest) && t.adoption.None?
  {
    RunKeeps(run, n);
    t := run[n].(service := Bun, adoption := None);
  }

  // ---------------------------------------------------------------- what may happen at any time

  /** The process after an error in it: refused before the interruption, recovering, giving up, or gone. */
  predicate HandlesError(v: Supervisor, w: Supervisor) {
    if v.Advancing? then (if v.ahead in {ToPrepare, ToIntend} then w.Gone? else w.Returning? && w.back == ToRecover)
    else v.Returning? && if v.back in {ToRecover, ToGiveUp} then w.Gone? else w.Returning? && w.back == ToGiveUp
  }

  /** Any record may succeed, may land and throw all the same, or may be lost; nothing else changes. */
  lemma RecordMayEnd(s: State, phase: Phase) returns (done: State, landed: State, lost: State)
    requires PhaseAt(s.supervisor) == Some(phase)
    ensures Next(s, done) && Next(s, landed) && Next(s, lost)
    ensures var m := s.supervisor.memory;
            done.disk == landed.disk == Some(Operation(phase, m.priorSource, m.conversion,
                                                       m.bunAttempted || phase == Starting, m.legacyAttempted || phase == LegacyStarting))
    ensures lost.disk == s.disk && (lost.supervisor.Returning? ==> lost.supervisor.memory == done.disk.value)
    ensures HandlesError(s.supervisor, landed.supervisor) && HandlesError(s.supervisor, lost.supervisor)
    ensures done.supervisor.Gone? <==> phase in {Accepted, RolledBack, RecoveryUnproved}
    ensures forall t | t in {done, landed, lost} :: t.(supervisor := s.supervisor, disk := s.disk) == s
  {
    done := Written(s).(supervisor := AfterRecord(Written(s).supervisor));
    landed := Caught(Written(s));
    lost := Caught(Remembered(s));
  }

  /** Any effect may throw before it changes anything, and a converter in the middle then undoes its part. */
  lemma EffectMayFail(s: State) returns (t: State)
    requires !s.supervisor.Gone? && PhaseAt(s.supervisor).None?
    ensures Next(s, t) && t.(supervisor := s.supervisor) == s
    ensures s.supervisor.Advancing? && s.supervisor.ahead in {ToReceipt, ToSync} ==>
              t.supervisor == s.supervisor.(ahead := if s.supervisor.ahead == ToSync then UndoForwardReceipt else UndoForward)
    ensures s.supervisor.Returning? && s.supervisor.back in {ToRevertReceipt, ToRevertSync} ==>
              t.supervisor == s.supervisor.(back := if s.supervisor.back == ToRevertSync then UndoRevertReceipt else UndoRevert)
    ensures || (s.supervisor.Advancing? && s.supervisor.ahead in {ToReceipt, ToSync})
            || (s.supervisor.Returning? && s.supervisor.back in {ToRevertReceipt, ToRevertSync})
            || HandlesError(s.supervisor, t.supervisor)
  {
    t := Thrown(s);
  }

  /** A converter that fails after it published takes away what it published, and nothing else. */
  lemma ConversionIsUndone(s: State) returns (run: seq<State>)
    requires s.supervisor.Advancing? && s.supervisor.ahead in {ToReceipt, ToSync}
    ensures run != [] && run[0] == s && Path(Next, run)
    ensures run[|run| - 1] == s.(bunMain := None, forward := if s.supervisor.ahead == ToSync then None else s.forward,
                                 supervisor := Returning(ToRecover, s.supervisor.memory, s.supervisor.attempted))
  {
    run := [s, Thrown(s)];
    assert StepAt(Next, run, 0);
    if s.supervisor.ahead == ToSync {
      assert EffectStep(run[1], Effect(run[1], 0));
      PathGrows(Next, run, Effect(run[1], 0));
      run := run + [Effect(run[1], 0)];
    }
    var last := run[|run| - 1];
    assert EffectStep(last, Effect(last, 0));
    PathGrows(Next, run, Effect(last, 0));
    run := run + [Effect(last, 0)];
  }

  /** A running gateway may write anything, may move its log into its main file, and may die. */
  lemma GatewayMayAct(s: State, v: Value) returns (written: State, moved: State)
    requires s.service != Down
    ensures Next(s, written) && Next(s, moved) && Next(s, s.(service := Down))
    ensures s.service == Deno ==>
              && written == s.(legacyWal := Some(v), latest := v)
              && moved.legacyWal.None? && moved.legacyMain == LegacyStore(s) && moved.(legacyMain := s.legacyMain, legacyWal := s.legacyWal) == s
    ensures s.service == Bun ==>
              && written == s.(bunWal := Some(v), latest := v)
              && moved.bunWal.None? && moved.bunMain == BunStore(s) && moved.(bunMain := s.bunMain, bunWal := s.bunWal) == s
  {
    if s.service == Deno {
      written, moved := s.(legacyWal := Some(v), latest := v), s.(legacyMain := LegacyStore(s), legacyWal := None);
    } else {
      written, moved := s.(bunWal := Some(v), latest := v), s.(bunMain := BunStore(s), bunWal := None);
    }
    assert ServiceStep(s, written) && ServiceStep(s, moved);
  }
}
