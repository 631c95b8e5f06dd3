/**
 * The bound release driver, the ordinary deploy, the first cutover's claim and release pruning as
 * one transition system. One process at a time holds the deploy lock; it may die between any two
 * durable writes, and any check or command of the outside world may fail.
 */
module ReleaseOps {
  import opened Wrappers
  import opened ReleaseJournal
  import opened Retention
  import opened Runs

  /** The recovery receipt of an ordinary deploy. */
  datatype Recovery = Recovery(candidate: Release, previous: Option<Release>, phase: Phase, restartIssued: bool)

  /** The next effect of `prepare`, `activate`, `restore` or `settle`. */
  datatype DriverPoint =
    | ToPrepare | ToIntend | ToSelect | ToRecordSelected | ToRestart | ToRecordReady | ToReload | ToRecordIngress | ToRecordProof
    | ToRecordRollback | ToRecordError | ToReselect | ToProve | ToRecordRolledBack
    | ToSettle(disposition: Phase) | ToRelease

  /** The next effect of an ordinary deploy. */
  datatype DeployPoint =
    | ToSave | ToDecide | ToRecordPrepared | ToSelectCandidate | ToMarkSelected | ToIssue | ToRestartCandidate | ToMarkReady
    | ToReloadIngress | ToMarkIngress | ToAccept | ToRestore | ToProvePrevious | ToMarkRolledBack

  /** The holder of the deploy lock, with its copy of the receipt it works on. */
  datatype Process =
    | Idle
    | Driving(op: OpId, receipt: Receipt, at: DriverPoint, restarted: bool)
    | Deploying(point: DeployPoint, recovery: Recovery, started: bool, restartAttempted: bool, ingressApplied: bool)
    | Claiming(pin: Pin)
    | CuttingOver(claim: OpId)
    | Pruning

  /**
   * `issued`: a restart was asked for on behalf of the deployment in `deploy`. `legacy`: the releases
   * that run the legacy codec; a release never changes.
   */
  datatype State = State(
    selector: Option<Release>, files: Files, deploy: Option<Recovery>, releases: set<Release>, process: Process, issued: bool,
    legacy: set<Release>)

  /** Going back from the candidate would take Bun's data to a release that cannot read it. */
  predicate Crosses(s: State, r: Receipt) {
    r.prior in s.legacy && r.candidate !in s.legacy
  }

  // ---------------------------------------------------------------- the bound driver

  function Initial(op: OpId, prior: Release): Receipt
    requires op.Bound?
  {
    Receipt(op.revision, prior, Prepared, 1, None, None, None, None, None, false)
  }

  predicate Records(p: DriverPoint) {
    !(p.ToSelect? || p.ToRestart? || p.ToReload? || p.ToReselect? || p.ToProve? || p.ToRelease?)
  }

  /** The receipt written at a recording point; the health it carries was proved just before. */
  function Patched(p: DriverPoint, r: Receipt): Receipt {
    var n := r.(sequence := r.sequence + 1);
    var good := Proof(r.candidate, true);
    match p
    case ToPrepare => r
    case ToIntend => n.(intent := Some(Promote))
    case ToRecordSelected => n.(phase := Selected)
    case ToRecordReady => n.(phase := CandidateReady, loopback := Some(good))
    case ToRecordIngress => n.(phase := IngressApplied)
    case ToRecordProof => n.(loopback := Some(good), public := Some(good))
    case ToRecordRollback => n.(phase := RollbackPending, intent := Some(Rollback))
    case ToRecordError => n.(error := true)
    case ToRecordRolledBack => n.(phase := RolledBack, restoration := Some(Restoration(Proof(r.prior, true), Proof(r.prior, true))))
    case ToSettle(d) => n.(phase := d, settlement := Some(d), error := d == Failed || r.error)
    case _ => n
  }

  function AfterRecord(v: Process, n: Receipt): Process
    requires v.Driving?
  {
    match v.at
    case ToIntend => v.(receipt := n, at := ToSelect)
    case ToRecordSelected => v.(receipt := n, at := ToRestart)
    case ToRecordReady => v.(receipt := n, at := ToReload)
    case ToRecordIngress => v.(receipt := n, at := ToRecordProof)
    case ToRecordRollback => v.(receipt := n, at := ToReselect)
    case ToSettle(_) => v.(receipt := n, at := ToRelease)
    case _ => Idle
  }

  /** An error: after `selected`, the activation turns to its catch clause; elsewhere it surfaces. */
  function DriverCaught(v: Process): Process
    requires v.Driving?
  {
    if v.at in {ToRestart, ToRecordReady, ToReload, ToRecordIngress, ToRecordProof}
    then v.(at := if v.receipt.phase == IngressApplied then ToRecordError else ToRecordRollback)
    else Idle
  }

  /** The journal write: the pin when it is missing, then the receipt, with an error possible at any time. */
  predicate DriverRecords(s: State, t: State) {
    && s.process.Driving? && Records(s.process.at)
    && var v := s.process;
    var n := Patched(v.at, v.receipt);
    var caught := s.(process := DriverCaught(v));
    || t == caught
    || (Admits(s.files, v.op, n) && !Owns(s.files.pins, v.op) && t == s.(files := WithPin(s.files, v.op, n)))
    || (Admits(s.files, v.op, n) && Owns(s.files.pins, v.op) && (
          || t == s.(files := WithReceipt(s.files, v.op, n), process := AfterRecord(v, n))
          || t == caught.(files := WithReceipt(s.files, v.op, n))))
  }

  /** The other effects of the driver. */
  predicate DriverActs(s: State, t: State) {
    && s.process.Driving? && !Records(s.process.at)
    && var v := s.process;
    var r := v.receipt;
    || t == s.(process := DriverCaught(v))
    || (v.at == ToSelect && t == s.(selector := Some(r.candidate), process := v.(at := ToRecordSelected)))
    || (v.at == ToRestart && t == s.(process := v.(at := ToRecordReady, restarted := true)))
    || (v.at == ToReload && t == s.(process := v.(at := ToRecordIngress)))
    || (v.at == ToReselect && s.selector in {Some(r.prior), Some(r.candidate)} && r.prior in s.releases && !(v.restarted && Crosses(s, r))
        && t == s.(selector := Some(r.prior), process := v.(at := ToProve)))
    || (v.at == ToProve && t == s.(process := v.(at := ToRecordRolledBack)))
    || (v.at == ToRelease && Settled(r) && (forall p | p in s.files.pins && p.op == v.op :: p == PinOf(v.op, r))
        && t == s.(files := s.files.(pins := Without(s.files.pins, v.op)), process := Idle))
  }

  /** Where `activate` resumes a receipt. */
  function ActivationPoint(phase: Phase): Option<DriverPoint> {
    match phase
    case Prepared => Some(ToIntend)
    case Selected => Some(ToRestart)
    case CandidateReady => Some(ToReload)
    case IngressApplied => Some(ToRecordProof)
    case _ => None
  }

  predicate MaySettle(r: Receipt, d: Phase) {
    && d in {Accepted, RolledBack, Failed}
    && (d == Failed && r.intent.None? ==> r == Receipt(r.candidate, r.prior, Prepared, 1, None, None, None, None, None, false))
    && (d == RolledBack ==> r.phase == RolledBack)
    && (d == Accepted ==> r.phase == IngressApplied && r.loopback == Some(Proof(r.candidate, true)) && r.public == Some(Proof(r.candidate, true)))
  }

  /** A call of the driver that gets past its checks. */
  predicate DriverEnters(s: State, t: State, op: OpId, prior: Release, d: Phase) {
    && s.process.Idle? && op.Bound?
    && if op !in s.files.receipts then
      && s.deploy.None? && s.selector == Some(prior) && prior in s.releases && op.revision != prior
      && t == s.(releases := s.releases + {op.revision}, process := Driving(op, Initial(op, prior), ToPrepare, false))
    else
      var r := s.files.receipts[op];
      || (ActivationPoint(r.phase).Some? && r.candidate in s.releases && r.prior in s.releases
          && s.selector in {Some(r.prior), Some(r.candidate)} && (r.phase == Prepared ==> s.selector == Some(r.prior))
          && t == s.(process := Driving(op, r, ActivationPoint(r.phase).value, false)))
      || (r.phase !in {Accepted, Failed, RolledBack}
          && t == s.(process := Driving(op, r, if r.phase == RollbackPending then ToReselect else ToRecordRollback, true)))
      || (r.settlement.Some? && r.phase == d && t == s.(process := Driving(op, r, ToRelease, false)))
      || (r.settlement.None? && MaySettle(r, d) && t == s.(process := Driving(op, r, ToSettle(d), false)))
  }

  // ---------------------------------------------------------------- the ordinary deploy

  /** The phase that a deploy saves at a recording point, unless ingress was already applied. */
  function PhaseAt(p: DeployPoint): Option<Phase> {
    match p
    case ToRecordPrepared => Some(Prepared)
    case ToMarkSelected => Some(Selected)
    case ToMarkReady => Some(CandidateReady)
    case ToMarkIngress => Some(IngressApplied)
    case ToMarkRolledBack => Some(RolledBack)
    case _ => None
  }

  predicate Saves(p: DeployPoint) {
    p.ToSave? || p.ToIssue? || PhaseAt(p).Some?
  }

  /** The recovery receipt in memory, changed before it is saved. */
  function Marked(v: Process): Recovery
    requires v.Deploying?
  {
    var r := v.recovery;
    if v.point == ToIssue then r.(restartIssued := true)
    else if v.point in {ToRecordPrepared, ToMarkSelected, ToMarkReady} && v.ingressApplied then r
    else if PhaseAt(v.point).Some? then r.(phase := PhaseAt(v.point).value)
    else r
  }

  function AfterSave(v: Process): Process
    requires v.Deploying?
  {
    match v.point
    case ToSave => v.(point := ToDecide)
    case ToRecordPrepared => v.(point := ToSelectCandidate)
    case ToMarkSelected => v.(point := ToIssue)
    case ToIssue => v.(point := ToRestartCandidate, restartAttempted := true)
    case ToMarkReady => v.(point := ToReloadIngress)
    case ToMarkIngress => v.(point := ToAccept)
    case _ => Idle
  }

  /** An error: before ingress was applied the activation restores, otherwise the candidate stays. */
  function DeployCaught(v: Process): Process
    requires v.Deploying?
  {
    if v.point in {ToSave, ToDecide, ToRestore, ToProvePrevious, ToMarkRolledBack} || v.ingressApplied then Idle else v.(point := ToRestore)
  }

  /** The check or command before a save fails, or the save is done, done but thrown, or lost. */
  predicate DeploySaves(s: State, t: State) {
    && s.process.Deploying? && Saves(s.process.point)
    && var v := s.process.(recovery := Marked(s.process));
    || t == s.(deploy := Some(v.recovery), process := AfterSave(v))
    || t == s.(deploy := Some(v.recovery), process := DeployCaught(v))
    || t == s.(process := DeployCaught(v))
    || t == s.(process := DeployCaught(s.process))
  }

  /** Whether a retry may go on with a candidate that is not selected. */
  predicate UnselectedMayStart(s: State, r: Recovery, started: bool) {
    || (r.previous.None? && s.selector.None? && !r.restartIssued && r.phase in {Prepared, Selected})
    || ((started || r.phase == RolledBack) && r.phase in {Prepared, RolledBack} && s.selector == r.previous
        && (r.previous.Some? ==> r.previous.value in s.releases))
  }

  /** Where the activation begins: a serving candidate resumes at ingress, a selected first one restarts. */
  predicate DeployDecides(s: State, t: State) {
    && s.process.Deploying? && s.process.point == ToDecide
    && var v, r := s.process, s.process.recovery;
    var selected := s.selector == Some(r.candidate);
    var w := v.(restartAttempted := selected, ingressApplied := r.phase == IngressApplied);
    || (selected && r.phase != RolledBack && (r.previous.Some? ==> r.previous.value in s.releases)
        && t == s.(process := w.(point := ToReloadIngress)))
    || (selected && r.phase != RolledBack && r.previous.None? && t == s.(process := w.(point := ToRecordPrepared)))
    || (!selected && UnselectedMayStart(s, r, v.started) && t == s.(process := w.(point := ToRecordPrepared)))
  }

  predicate DeployActs(s: State, t: State) {
    && s.process.Deploying? && !Saves(s.process.point)
    && var v, r := s.process, s.process.recovery;
    || t == s.(process := DeployCaught(v))
    || DeployDecides(s, t)
    || (v.point == ToSelectCandidate && t == s.(selector := Some(r.candidate), process := v.(point := ToMarkSelected)))
    || (v.point == ToRestartCandidate && t == s.(issued := true, process := v.(point := ToMarkReady)))
    || (v.point == ToReloadIngress
        && t == s.(process := v.(point := ToMarkIngress, ingressApplied := true, recovery := r.(phase := IngressApplied))))
    || (v.point == ToAccept && t == s.(deploy := None, issued := false, process := Pruning))
    || (v.point == ToRestore && r.previous.None? && !v.restartAttempted && t == s.(selector := None, process := v.(point := ToMarkRolledBack)))
    || (v.point == ToRestore && r.previous.Some? && !(v.restartAttempted && r.previous.value in s.legacy)
        && t == s.(selector := r.previous, process := v.(point := ToProvePrevious)))
    || (v.point == ToProvePrevious && t == s.(process := v.(point := ToMarkRolledBack)))
  }

  /** A deploy that gets past its checks: fresh, a retry of its own receipt, or of a selected release. */
  predicate DeployEnters(s: State, t: State, sha: Release) {
    && s.process.Idle? && s.files.pins == []
    && (|| (sha !in s.releases && s.deploy.None? && (s.selector.Some? ==> s.selector.value in s.releases)
        && t == s.(releases := s.releases + {sha}, process := Deploying(ToSave, Recovery(sha, s.selector, Prepared, false), true, false, false)))
    || (sha in s.releases && s.deploy.Some? && s.deploy.value.candidate == sha
        && t == s.(process := Deploying(ToDecide, s.deploy.value, false, false, false)))
    || (sha in s.releases && s.deploy.None? && s.selector == Some(sha) && t == s.(process := Pruning)))
  }

  // ---------------------------------------------------------------- the cutover's claim, pruning, crashes

  /** The first cutover claims an unowned store, then moves the selector between its two releases. */
  predicate CutoverStep(s: State, t: State, pin: Pin) {
    || (s.process.Idle? && s.deploy.None? && s.files.pins == [] && pin.op.FirstCutover? && s.selector == Some(pin.prior) && pin.prior in s.releases
        && t == s.(releases := s.releases + {pin.candidate}, process := Claiming(pin)))
    || (s.process.Claiming? && t == s.(files := s.files.(pins := [s.process.pin]), process := CuttingOver(s.process.pin.op)))
    || (s.process.Idle? && pin.op.FirstCutover? && s.files.pins == [pin] && t == s.(process := CuttingOver(pin.op)))
    || (s.process.CuttingOver? && s.files.pins == [pin] && pin.op == s.process.claim
        && (t == s.(selector := Some(pin.candidate)) || t == s.(selector := Some(pin.prior))))
  }

  /** A pruning run deletes one directory at a time, none of them running or pinned. */
  predicate PruneStep(s: State, t: State, r: Release) {
    || (s.process.Idle? && t == s.(process := Pruning))
    || (s.process.Pruning? && Some(r) != s.selector && !Pinned(s.files.pins, r) && t == s.(releases := s.releases - {r}))
  }

  ghost predicate Next(s: State, t: State) {
    || DriverRecords(s, t) || DriverActs(s, t)
    || (exists op, prior, d :: DriverEnters(s, t, op, prior, d))
    || DeploySaves(s, t) || DeployActs(s, t)
    || (exists sha :: DeployEnters(s, t, sha))
    || (exists pin :: CutoverStep(s, t, pin))
    || (exists r :: PruneStep(s, t, r))
    || t == s.(process := Idle)
  }

  ghost predicate Init(s: State) {
    && s.files == Files([], map[]) && s.deploy.None? && s.process.Idle? && !s.issued
    && (s.selector.Some? ==> s.selector.value in s.releases)
  }

  ghost predicate Reachable(run: seq<State>) {
    run != [] && Init(run[0]) && Path(Next, run)
  }

  // ---------------------------------------------------------------- the invariant

  /** What the selector is while a receipt is pinned. */
  predicate SelectorMatches(selector: Option<Release>, r: Receipt) {
    && selector in {Some(r.prior), Some(r.candidate)}
    && (selector == Some(r.candidate) ==> r.intent.Some?)
    && (r.phase in {Selected, CandidateReady, IngressApplied, Accepted} ==> selector == Some(r.candidate))
    && (r.phase == RolledBack ==> selector == Some(r.prior))
  }

  /** What a receipt of each phase carries: the intent it was made under, and the proofs it rests on. */
  predicate InOrder(r: Receipt) {
    && (r.phase == Prepared ==> r.intent in {None, Some(Promote)})
    && (r.phase in {Selected, CandidateReady, IngressApplied, Accepted} ==> r.intent == Some(Promote))
    && (r.phase in {RollbackPending, RolledBack} ==> r.intent == Some(Rollback))
    && (r.phase in {CandidateReady, IngressApplied, Accepted} ==> r.loopback == Some(Proof(r.candidate, true)))
    && (r.phase == Accepted ==> r.public == Some(Proof(r.candidate, true)) && r.settlement == Some(Accepted))
    && (r.phase == Failed ==> r.error && r.settlement == Some(Failed))
  }

  predicate PinInv(s: State, p: Pin) {
    && p.candidate in s.releases && p.prior in s.releases && (p.op.Bound? ==> p.candidate != p.prior)
    && (if p.op.FirstCutover? then s.selector in {Some(p.prior), Some(p.candidate)}
        else if p.op in s.files.receipts then p == PinOf(p.op, s.files.receipts[p.op]) && SelectorMatches(s.selector, s.files.receipts[p.op])
        else p.candidate == p.op.revision && s.selector == Some(p.prior))
  }

  ghost predicate JournalInv(s: State) {
    && SingleOwner(s.files)
    && EachSound(s.files.receipts)
    && (s.files.pins != [] ==> PinInv(s, s.files.pins[0]) && s.deploy.None? && !s.process.Deploying? && !s.process.Claiming?)
    && (s.selector.Some? ==> s.selector.value in s.releases)
  }

  /** The ordinary deploy's own receipt. */
  predicate DeployInv(s: State) {
    && (s.deploy.None? ==> !s.issued)
    && (s.deploy.Some? ==>
          var d := s.deploy.value;
          && d.previous != Some(d.candidate)
          && s.selector in {d.previous, Some(d.candidate)}
          && (d.phase == IngressApplied ==> s.selector == Some(d.candidate))
          && (d.phase == RolledBack ==> s.selector == d.previous)
          && (s.issued && d.previous.None? ==> s.selector == Some(d.candidate)))
  }

  /** The journal still holds the receipt the driver works on, or already the one it failed to confirm. */
  predicate Synced(s: State, op: OpId, r: Receipt) {
    op in s.files.receipts && s.files.receipts[op] == r
  }

  predicate Stale(s: State, op: OpId, r: Receipt) {
    op in s.files.receipts && s.files.receipts[op].sequence == r.sequence + 1
  }

  predicate DriverInv(s: State, op: OpId, r: Receipt, p: DriverPoint) {
    && op.Bound?
    && (p == ToPrepare ==>
          && op !in s.files.receipts && s.deploy.None? && s.selector == Some(r.prior) && r.prior in s.releases
          && r == Initial(op, r.prior) && r.candidate in s.releases && r.candidate != r.prior)
    && (!p.ToPrepare? && !p.ToRecordRollback? && !p.ToRecordError? ==> Synced(s, op, r))
    && (p.ToRecordRollback? || p.ToRecordError? ==> Synced(s, op, r) || Stale(s, op, r))
    && (p in {ToIntend, ToSelect, ToRecordSelected} ==> r.phase == Prepared)
    && (p == ToIntend ==> s.selector == Some(r.prior))
    && (p in {ToSelect, ToRecordSelected} ==> r.intent.Some?)
    && (p == ToRecordSelected ==> s.selector == Some(r.candidate))
    && (p in {ToRestart, ToRecordReady} ==> r.phase == Selected)
    && (p in {ToReload, ToRecordIngress} ==> r.phase == CandidateReady)
    && (p in {ToRecordProof, ToRecordError} ==> r.phase == IngressApplied)
    && (p in {ToReselect, ToProve, ToRecordRolledBack} ==> r.phase == RollbackPending)
    && (p == ToRecordRollback ==> r.phase !in {Accepted, Failed, RolledBack})
    && (p in {ToProve, ToRecordRolledBack} ==> s.selector == Some(r.prior))
    && (p.ToSettle? ==> r.settlement.None? && MaySettle(r, p.disposition))
    && (p == ToRelease ==> r.settlement.Some?)
  }

  predicate DeployingInv(s: State, p: DeployPoint, r: Recovery, restartAttempted: bool, ingressApplied: bool) {
    && s.files.pins == [] && r.candidate in s.releases && r.previous != Some(r.candidate)
    && (p == ToSave ==> s.deploy.None? && s.selector == r.previous && r.phase == Prepared)
    && (p != ToSave ==> s.deploy.Some? && s.deploy.value.candidate == r.candidate && s.deploy.value.previous == r.previous)
    && (p == ToDecide ==> s.deploy == Some(r))
    && (p != ToDecide && r.previous.Some? ==> r.previous.value in s.releases)
    && (p !in {ToSave, ToDecide} ==>
          && (s.deploy.value.phase == IngressApplied ==> ingressApplied)
          && (ingressApplied <==> r.phase == IngressApplied)
          && (ingressApplied ==> s.selector == Some(r.candidate))
          && (r.previous.None? && !restartAttempted ==> !s.issued))
    && (p in {ToSelectCandidate, ToMarkSelected, ToIssue, ToRestartCandidate, ToMarkReady} ==> s.deploy.value.phase != RolledBack && r.phase != RolledBack)
    && (p in {ToMarkSelected, ToIssue, ToRestartCandidate, ToMarkReady, ToReloadIngress, ToMarkIngress, ToAccept} ==> s.selector == Some(r.candidate))
    && (p in {ToRestartCandidate, ToMarkReady} ==> restartAttempted)
    && (p in {ToMarkIngress, ToAccept} ==> ingressApplied)
    && (p in {ToRestore, ToProvePrevious, ToMarkRolledBack} ==> !ingressApplied)
    && (p in {ToProvePrevious, ToMarkRolledBack} ==> s.selector == r.previous)
  }

  predicate ProcessInv(s: State) {
    match s.process
    case Driving(op, r, p, _) => DriverInv(s, op, r, p)
    case Deploying(p, r, _, a, i) => DeployingInv(s, p, r, a, i)
    case Claiming(pin) =>
      && pin.op.FirstCutover? && s.files.pins == [] && s.deploy.None? && s.selector == Some(pin.prior)
      && pin.candidate in s.releases && pin.prior in s.releases
    case CuttingOver(claim) => claim.FirstCutover?
    case _ => true
  }

  ghost predicate Inv(s: State) {
    JournalInv(s) && DeployInv(s) && ProcessInv(s)
  }

  lemma InitHolds(s: State)
    requires Init(s)
    ensures Inv(s)
  {}

  /** The pin alone: a crash here leaves the prior selected. */
  lemma PinWriteKeeps(s: State)
    requires Inv(s) && s.process.Driving? && Records(s.process.at)
    requires Admits(s.files, s.process.op, Patched(s.process.at, s.process.receipt)) && !Owns(s.files.pins, s.process.op)
    ensures Inv(s.(files := WithPin(s.files, s.process.op, Patched(s.process.at, s.process.receipt))))
  {
    WritingKeepsSingleOwner(s.files, s.process.op, Patched(s.process.at, s.process.receipt));
  }

  lemma ThrowKeeps(s: State)
    requires Inv(s) && s.process.Driving?
    ensures Inv(s.(process := DriverCaught(s.process)))
  {}

  /** What the driver writes is in order by itself. */
  lemma WrittenIsSound(s: State)
    requires s.process.Driving? && Records(s.process.at) && DriverInv(s, s.process.op, s.process.receipt, s.process.at)
    requires Admits(s.files, s.process.op, Patched(s.process.at, s.process.receipt))
    requires Synced(s, s.process.op, s.process.receipt) ==>
               && SelectorMatches(s.selector, s.process.receipt) && s.process.receipt.settlement.None? && MaySettle(s.process.receipt, Failed)
               && InOrder(s.process.receipt)
    ensures var n := Patched(s.process.at, s.process.receipt);
            && InOrder(n) && Terminal(n) == n.settlement.Some? && (n.settlement.None? ==> MaySettle(n, Failed))
            && SelectorMatches(s.selector, n) && n.candidate == s.process.receipt.candidate && n.prior == s.process.receipt.prior
  {}

  /** What holds of each receipt by itself. */
  ghost predicate EachSound(receipts: map<OpId, Receipt>) {
    forall op | op in receipts ::
      && Terminal(receipts[op]) == receipts[op].settlement.Some? && InOrder(receipts[op])
      && (receipts[op].settlement.None? ==> MaySettle(receipts[op], Failed))
  }

  /** The pin of the operation still fits after its receipt was written. */
  lemma PinStillFits(s: State, next: Process)
    requires Inv(s) && s.process.Driving? && Records(s.process.at)
    requires Admits(s.files, s.process.op, Patched(s.process.at, s.process.receipt)) && Owns(s.files.pins, s.process.op)
    ensures var t := s.(files := WithReceipt(s.files, s.process.op, Patched(s.process.at, s.process.receipt)), process := next);
            |s.files.pins| == 1 && PinInv(t, s.files.pins[0])
  {
    WrittenIsSound(s);
  }

  /** What a receipt write keeps, whatever the process does next. */
  lemma ReceiptWriteKeeps(s: State, next: Process)
    requires Inv(s) && s.process.Driving? && Records(s.process.at)
    requires Admits(s.files, s.process.op, Patched(s.process.at, s.process.receipt)) && Owns(s.files.pins, s.process.op)
    requires next.Idle? || next.Driving?
    ensures var t := s.(files := WithReceipt(s.files, s.process.op, Patched(s.process.at, s.process.receipt)), process := next);
            JournalInv(t) && DeployInv(t)
  {
    PinStillFits(s, next);
    WrittenIsSound(s);
    WritingKeepsSingleOwner(s.files, s.process.op, Patched(s.process.at, s.process.receipt));
    hide DriverInv, SelectorMatches, InOrder, MaySettle, Patched, Parses, ValidSuccessor, PinInv, SingleOwner, Terminal;
  }

  lemma DriverRecordsKeeps(s: State, t: State)
    requires Inv(s) && DriverRecords(s, t)
    ensures Inv(t)
  {
    var v := s.process;
    var n := Patched(v.at, v.receipt);
    if t == s.(process := DriverCaught(v)) { ThrowKeeps(s); }
    else if !Owns(s.files.pins, v.op) { PinWriteKeeps(s); }
    else { ReceiptWriteKeeps(s, t.process); AfterWriteInOrder(s, t); }
  }

  /** After a receipt write, or one that landed and threw, the process is where it should be. */
  lemma AfterWriteInOrder(s: State, t: State)
    requires s.process.Driving? && Records(s.process.at) && DriverInv(s, s.process.op, s.process.receipt, s.process.at)
    requires Admits(s.files, s.process.op, Patched(s.process.at, s.process.receipt))
    requires var n := Patched(s.process.at, s.process.receipt);
             && t == s.(files := WithReceipt(s.files, s.process.op, n), process := t.process)
             && t.process in {AfterRecord(s.process, n), DriverCaught(s.process)}
    ensures ProcessInv(t)
  {}

  lemma ReleaseKeeps(s: State, t: State)
    requires Inv(s) && DriverActs(s, t) && s.process.at == ToRelease
    ensures Inv(t)
  {
    ReleasingKeepsSingleOwner(s.files, s.process.op);
    ThrowKeeps(s);
  }

  lemma DriverActsKeeps(s: State, t: State)
    requires Inv(s) && DriverActs(s, t)
    ensures Inv(t)
  {
    if s.process.at == ToRelease { ReleaseKeeps(s, t); }
    else if t == s.(process := DriverCaught(s.process)) { ThrowKeeps(s); }
    else {
      assert t.files == s.files && t.deploy == s.deploy && t.releases == s.releases;
      assert JournalInv(t);
      assert ProcessInv(t);
    }
  }

  lemma DriverPreparesKeeps(s: State, t: State, op: OpId, prior: Release, d: Phase)
    requires Inv(s) && DriverEnters(s, t, op, prior, d) && op !in s.files.receipts
    ensures Inv(t)
  {}

  lemma DriverResumesKeeps(s: State, t: State, op: OpId, prior: Release, d: Phase)
    requires Inv(s) && DriverEnters(s, t, op, prior, d) && op in s.files.receipts
    ensures Inv(t)
  {
    assert t == s.(process := t.process);
    assert JournalInv(t);
  }

  lemma DriverEntersKeeps(s: State, t: State, op: OpId, prior: Release, d: Phase)
    requires Inv(s) && DriverEnters(s, t, op, prior, d)
    ensures Inv(t)
  {
    if op in s.files.receipts { DriverResumesKeeps(s, t, op, prior, d); } else { DriverPreparesKeeps(s, t, op, prior, d); }
  }

  lemma DeployThrowKeeps(s: State)
    requires Inv(s) && s.process.Deploying?
    ensures Inv(s.(process := DeployCaught(s.process)))
  {}

  lemma DeployLostSaveKeeps(s: State)
    requires Inv(s) && s.process.Deploying? && Saves(s.process.point)
    ensures var v := s.process.(recovery := Marked(s.process));
            Inv(s.(process := DeployCaught(v)))
  {}

  lemma DeployLateSaveKeeps(s: State)
    requires Inv(s) && s.process.Deploying? && Saves(s.process.point)
    ensures var v := s.process.(recovery := Marked(s.process));
            Inv(s.(deploy := Some(v.recovery), process := DeployCaught(v)))
  {}

  lemma DeploySavedKeeps(s: State)
    requires Inv(s) && s.process.Deploying? && Saves(s.process.point)
    ensures var v := s.process.(recovery := Marked(s.process));
            Inv(s.(deploy := Some(v.recovery), process := AfterSave(v)))
  {}

  lemma DeploySavesKeeps(s: State, t: State)
    requires Inv(s) && DeploySaves(s, t)
    ensures Inv(t)
  {
    var v := s.process.(recovery := Marked(s.process));
    if t == s.(deploy := Some(v.recovery), process := DeployCaught(v)) { DeployLateSaveKeeps(s); }
    else if t == s.(process := DeployCaught(v)) { DeployLostSaveKeeps(s); }
    else if t == s.(process := DeployCaught(s.process)) { DeployThrowKeeps(s); }
    else { DeploySavedKeeps(s); }
  }

  lemma DeployDecidesKeeps(s: State, t: State)
    requires Inv(s) && DeployDecides(s, t)
    ensures Inv(t)
  {}

  lemma DeployActsKeeps(s: State, t: State)
    requires Inv(s) && DeployActs(s, t)
    ensures Inv(t)
  {
    if s.process.point == ToDecide {
      if DeployDecides(s, t) { DeployDecidesKeeps(s, t); } else { DeployThrowKeeps(s); }
    }
    else if t == s.(process := DeployCaught(s.process)) { DeployThrowKeeps(s); }
    else { assert JournalInv(t); assert DeployInv(t); assert ProcessInv(t); }
  }

  lemma DeployEntersKeeps(s: State, t: State, sha: Release)
    requires Inv(s) && DeployEnters(s, t, sha)
    ensures Inv(t)
  {}

  lemma CutoverKeeps(s: State, t: State, pin: Pin)
    requires Inv(s) && CutoverStep(s, t, pin)
    ensures Inv(t)
  {}

  lemma PruneKeeps(s: State, t: State, r: Release)
    requires Inv(s) && PruneStep(s, t, r)
    ensures Inv(t)
  {}

  lemma NextKeeps(s: State, t: State)
    requires Inv(s) && Next(s, t)
    ensures Inv(t)
  {
    if DriverRecords(s, t) { DriverRecordsKeeps(s, t); }
    else if DriverActs(s, t) { DriverActsKeeps(s, t); }
    else if DeploySaves(s, t) { DeploySavesKeeps(s, t); }
    else if DeployActs(s, t) { DeployActsKeeps(s, t); }
    else if op, prior, d :| DriverEnters(s, t, op, prior, d) { DriverEntersKeeps(s, t, op, prior, d); }
    else if sha :| DeployEnters(s, t, sha) { DeployEntersKeeps(s, t, sha); }
    else if pin :| CutoverStep(s, t, pin) { CutoverKeeps(s, t, pin); }
    else if r :| PruneStep(s, t, r) { PruneKeeps(s, t, r); }
  }

  // ---------------------------------------------------------------- over whole runs

  lemma RunKeeps(run: seq<State>, n: nat)
    requires Reachable(run) && n < |run|
    ensures Inv(run[n])
  {
    InitHolds(run[0]);
    PathStaysInvariant(run, n);
  }

  lemma PathStaysInvariant(states: seq<State>, n: nat)
    requires Path(Next, states) && n < |states| && Inv(states[0])
    ensures Inv(states[n])
  {
    forall s, t | Inv(s) && Next(s, t) ensures Inv(t) { NextKeeps(s, t); }
    PathKeeps(Next, Inv, states, n);
  }

  /**
   * While a bound operation is pinned, the selector is its prior or its candidate; it is the
   * candidate only under a durable intent; the promoted phases imply the candidate, and
   * `rolled_back` the prior with healthy proofs of it on both surfaces.
   */
  lemma PinnedSelector(run: seq<State>, n: nat, p: Pin)
    requires Reachable(run) && n < |run| && p in run[n].files.pins
    ensures run[n].selector in {Some(p.prior), Some(p.candidate)}
    ensures p.op.Bound? && run[n].selector == Some(p.candidate) ==>
              p.op in run[n].files.receipts && run[n].files.receipts[p.op].intent.Some?
    ensures p.op in run[n].files.receipts ==>
              var r := run[n].files.receipts[p.op];
              && p == PinOf(p.op, r)
              && (r.phase in {Selected, CandidateReady, IngressApplied, Accepted} ==> run[n].selector == Some(p.candidate))
              && (r.phase == RolledBack ==>
                    run[n].selector == Some(p.prior) && r.restoration == Some(Restoration(Proof(p.prior, true), Proof(p.prior, true))))
  {
    RunKeeps(run, n);
    assert p == run[n].files.pins[0];
  }

  /**
   * At every instant there is at most one pin, every receipt that is not settled has its own, and so
   * two unsettled operations are one.
   */
  lemma OneOwner(run: seq<State>, n: nat, a: OpId, b: OpId)
    requires Reachable(run) && n < |run|
    ensures |run[n].files.pins| <= 1
    ensures a in run[n].files.receipts && !Settled(run[n].files.receipts[a]) ==> PinOf(a, run[n].files.receipts[a]) in run[n].files.pins
    ensures a in run[n].files.receipts && b in run[n].files.receipts && !Settled(run[n].files.receipts[a]) && !Settled(run[n].files.receipts[b]) ==> a == b
  {
    RunKeeps(run, n);
    var f := run[n].files;
    if a in f.receipts && !Settled(f.receipts[a]) {
      assert Owns(f.pins, a);
      if b in f.receipts && !Settled(f.receipts[b]) { OneUnsettledOperation(f, a, b); }
    }
  }

  /** Every receipt of every reachable state was made under the intent of its phase and rests on its proofs. */
  lemma ReceiptsInOrder(run: seq<State>, n: nat, op: OpId)
    requires Reachable(run) && n < |run| && op in run[n].files.receipts
    ensures var r := run[n].files.receipts[op];
            && (r.phase == Prepared ==> r.intent in {None, Some(Promote)})
            && (r.phase in {Selected, CandidateReady, IngressApplied, Accepted} ==> r.intent == Some(Promote))
            && (r.phase in {RollbackPending, RolledBack} ==> r.intent == Some(Rollback))
            && (r.phase in {CandidateReady, IngressApplied, Accepted} ==> r.loopback == Some(Proof(r.candidate, true)))
            && (r.phase == Accepted ==> r.public == Some(Proof(r.candidate, true)) && r.settlement == Some(Accepted))
            && (r.phase == RolledBack ==> r.restoration == Some(Restoration(Proof(r.prior, true), Proof(r.prior, true))))
            && (r.phase == Failed ==> r.error && r.settlement == Some(Failed))
            && (r.phase !in {Accepted, RolledBack, Failed} ==> r.settlement.None?)
    ensures var r := run[n].files.receipts[op];
            && op.Bound? && r.candidate == op.revision && r.candidate != r.prior && r.sequence >= 1
            && (r.loopback.Some? ==> r.loopback.value.release == r.candidate)
            && (r.public.Some? ==> r.public.value.release == r.candidate)
            && (r.restoration.Some? ==> r.restoration.value == Restoration(Proof(r.prior, true), Proof(r.prior, true)))
            && (r.intent.None? ==> r.phase == Prepared || (r.phase == Failed && r.sequence == 2 && r.loopback.None? && r.public.None? && r.restoration.None?))
  {
    RunKeeps(run, n);
  }

  /** The bound driver, the cutover and the ordinary deploy exclude each other, after any crash. */
  lemma OwnersExclude(run: seq<State>, n: nat)
    requires Reachable(run) && n < |run|
    ensures run[n].files.pins == [] || run[n].deploy.None?
  {
    RunKeeps(run, n);
  }

  /** No number of pruning runs removes the selected release or a pinned candidate or prior. */
  lemma ProtectedReleasesStay(run: seq<State>, n: nat)
    requires Reachable(run) && n < |run|
    ensures run[n].selector.Some? ==> run[n].selector.value in run[n].releases
    ensures forall p | p in run[n].files.pins :: p.candidate in run[n].releases && p.prior in run[n].releases
  {
    RunKeeps(run, n);
  }

  /** The deployment of `c` has applied its ingress and is not accepted yet. */
  predicate Applied(s: State, c: Release) {
    s.deploy.Some? && s.deploy.value.phase == IngressApplied && s.deploy.value.candidate == c && s.selector == Some(c)
  }

  /** A driver that finds no pin can only be releasing one. */
  lemma DriverLeavesDeployAlone(s: State, t: State)
    requires Inv(s) && s.deploy.Some? && s.process.Driving? && (DriverRecords(s, t) || DriverActs(s, t))
    ensures t.deploy == s.deploy && t.selector == s.selector && t.issued == s.issued
  {
    var v := s.process;
    assert Synced(s, v.op, v.receipt) && !Settled(v.receipt) ==> Owns(s.files.pins, v.op);
  }

  /** Only the deploy itself touches its receipt or moves the selector while the receipt exists. */
  lemma OthersLeaveDeployAlone(s: State, t: State)
    requires Inv(s) && Next(s, t) && s.deploy.Some? && !s.process.Deploying?
    ensures t.deploy == s.deploy && t.selector == s.selector && t.issued == s.issued
  {
    if DriverRecords(s, t) || DriverActs(s, t) { DriverLeavesDeployAlone(s, t); }
  }

  lemma DeployKeepsIngress(s: State, t: State, c: Release)
    requires Inv(s) && Applied(s, c) && t.deploy.Some? && (DeploySaves(s, t) || DeployActs(s, t) || t == s.(process := Idle))
    ensures Applied(t, c)
  {}

  lemma IngressStep(s: State, t: State, c: Release)
    requires Inv(s) && Next(s, t) && Applied(s, c) && t.deploy.Some?
    ensures Applied(t, c)
  {
    if s.process.Deploying? { DeployKeepsIngress(s, t, c); } else { OthersLeaveDeployAlone(s, t); }
  }

  lemma IngressRunStep(run: seq<State>, n: nat, c: Release)
    requires Reachable(run) && n + 1 < |run| && Applied(run[n], c) && run[n + 1].deploy.Some?
    ensures Applied(run[n + 1], c)
  {
    RunKeeps(run, n);
    assert StepAt(Next, run, n);
    IngressStep(run[n], run[n + 1], c);
  }

  /** An applied ingress means the candidate is selected. */
  lemma IngressSelects(run: seq<State>, n: nat)
    requires Reachable(run) && n < |run| && run[n].deploy.Some? && run[n].deploy.value.phase == IngressApplied
    ensures Applied(run[n], run[n].deploy.value.candidate)
  {
    RunKeeps(run, n);
  }

  /** Across failed and retried deploys, an applied ingress never regresses and keeps the candidate selected until acceptance. */
  lemma {:induction false} IngressNeverRegresses(run: seq<State>, n: nat, k: nat)
    requires Reachable(run) && n <= k < |run|
    requires forall i | n <= i <= k :: run[i].deploy.Some?
    requires run[n].deploy.value.phase == IngressApplied
    ensures Applied(run[k], run[n].deploy.value.candidate)
  {
    if n == k { IngressSelects(run, n); }
    else {
      IngressNeverRegresses(run, n, k - 1);
      IngressRunStep(run, k - 1, run[n].deploy.value.candidate);
    }
  }

  /** The first deployment of `c` has asked for a restart and is not accepted yet. */
  predicate Started(s: State, c: Release) {
    s.deploy.Some? && s.deploy.value.candidate == c && s.deploy.value.previous.None? && s.issued
  }

  lemma DeployKeepsStarted(s: State, t: State, c: Release)
    requires Inv(s) && Started(s, c) && t.deploy.Some? && (DeploySaves(s, t) || DeployActs(s, t) || t == s.(process := Idle))
    ensures Started(t, c)
  {}

  lemma StartedRunStep(run: seq<State>, n: nat, c: Release)
    requires Reachable(run) && n + 1 < |run| && Started(run[n], c) && run[n + 1].deploy.Some?
    ensures Started(run[n + 1], c)
  {
    RunKeeps(run, n);
    assert StepAt(Next, run, n);
    if run[n].process.Deploying? { DeployKeepsStarted(run[n], run[n + 1], c); } else { OthersLeaveDeployAlone(run[n], run[n + 1]); }
  }

  /** Once a restart was issued for a first deployment, no later run clears its selector before acceptance. */
  lemma {:induction false} FirstDeploymentStaysSelected(run: seq<State>, n: nat, k: nat, c: Release)
    requires Reachable(run) && n <= k < |run| && Started(run[n], c)
    requires forall i | n <= i <= k :: run[i].deploy.Some?
    ensures Started(run[k], c) && run[k].selector == Some(c)
  {
    if n < k {
      FirstDeploymentStaysSelected(run, n, k - 1, c);
      StartedRunStep(run, k - 1, c);
    }
    StartedSelects(run, k, c);
  }

  lemma StartedSelects(run: seq<State>, n: nat, c: Release)
    requires Reachable(run) && n < |run| && Started(run[n], c)
    ensures run[n].selector == Some(c)
  {
    RunKeeps(run, n);
  }

  /** A later state of one operation's receipt. */
  predicate Advances(r: Receipt, q: Receipt) {
    && q.candidate == r.candidate && q.prior == r.prior && q.sequence >= r.sequence
    && (r.intent.Some? ==> q.intent.Some?) && (q.sequence == r.sequence ==> q == r) && (Terminal(r) ==> q == r)
  }

  lemma AdvancesOn(a: Receipt, b: Receipt, c: Receipt)
    requires Advances(a, b) && Advances(b, c)
    ensures Advances(a, c)
  {}

  lemma RecordAdvances(s: State, t: State, op: OpId)
    requires DriverRecords(s, t) && op in s.files.receipts
    ensures op in t.files.receipts && Advances(s.files.receipts[op], t.files.receipts[op])
  {}

  lemma OnlyRecordsWrite(s: State, t: State)
    requires Next(s, t) && !DriverRecords(s, t)
    ensures t.files.receipts == s.files.receipts
  {}

  lemma ReceiptStep(s: State, t: State, op: OpId)
    requires Next(s, t) && op in s.files.receipts
    ensures op in t.files.receipts && Advances(s.files.receipts[op], t.files.receipts[op])
  {
    if DriverRecords(s, t) { RecordAdvances(s, t, op); } else { OnlyRecordsWrite(s, t); }
  }

  /** Receipts only advance: bound releases never change, and a terminal receipt is final. */
  lemma {:induction false} ReceiptsOnlyAdvance(run: seq<State>, n: nat, k: nat, op: OpId)
    requires Reachable(run) && n <= k < |run| && op in run[n].files.receipts
    ensures op in run[k].files.receipts && Advances(run[n].files.receipts[op], run[k].files.receipts[op])
  {
    if n < k {
      ReceiptsOnlyAdvance(run, n, k - 1, op);
      assert StepAt(Next, run, k - 1);
      ReceiptStep(run[k - 1], run[k], op);
      AdvancesOn(run[n].files.receipts[op], run[k - 1].files.receipts[op], run[k].files.receipts[op]);
    }
  }
}
