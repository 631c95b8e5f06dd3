/**
 * The release operations as programs: `prepare`, `activate`, `restore` and `settle` of the bound
 * driver and the ordinary deploy, in their own control flow, on the state of the transition system.
 * Each method follows steps of that system and says what it leaves behind for every combination of
 * failing health checks and commands.
 */
module ReleasePrograms {
  import opened Wrappers
  import opened ReleaseJournal
  import opened ReleaseOps
  import opened Runs

  /** The journal never refuses a receipt that the driver writes on top of the one it read. */
  lemma DriverWritesAreAdmitted(s: State)
    requires Inv(s) && s.process.Driving? && Records(s.process.at) && s.process.at != ToPrepare
    requires Synced(s, s.process.op, s.process.receipt)
    ensures Admits(s.files, s.process.op, Patched(s.process.at, s.process.receipt)) && Owns(s.files.pins, s.process.op)
  {
    assert Parses(s.process.op, s.files.receipts[s.process.op]);
    assert !Terminal(s.process.receipt);
  }

  /**
   * What the outside world answers a driver call: the checks of checkout, releases and prior health;
   * daemon-reload, readiness of the restarted candidate, ingress reload and both health proofs; and
   * whether the prior release is proved healthy again.
   */
  datatype World = World(checks: bool, reloaded: bool, ready: bool, ingress: bool, proved: bool, restored: bool)

  /** The activation gets its ingress applied, now or before. */
  predicate Applies(r: Receipt, w: World) {
    r.phase == IngressApplied || (w.ingress && (r.phase == CandidateReady || (w.reloaded && w.ready)))
  }

  /** This call asks for a restart of the candidate; what earlier calls asked for does not count. */
  predicate Restarts(r: Receipt, w: World) {
    r.phase in {Prepared, Selected} && w.reloaded
  }

  /**
   * What an activation leaves: the candidate with its ingress applied, or the way back to the prior
   * release, which is refused, with the candidate still selected, exactly when it crosses codecs and
   * this call restarted the candidate.
   */
  predicate Outcome(r: Receipt, w: World, crosses: bool, selector: Option<Release>, n: Receipt) {
    if Applies(r, w) then
      && selector == Some(r.candidate) && n.phase == IngressApplied
      && if w.proved then n.loopback == n.public == Some(Proof(r.candidate, true)) else n.error
    else if Restarts(r, w) && crosses then selector == Some(r.candidate) && n.phase == RollbackPending
    else selector == Some(r.prior) && n.phase == if w.restored then RolledBack else RollbackPending
  }

  class LockHolder {
    var state: State
    ghost var trace: seq<State>

    /** The trace is a run of the transition system from its first state to the present one. */
    ghost predicate Valid() reads this {
      trace != [] && trace[|trace| - 1] == state && Inv(trace[0]) && Path(Next, trace)
    }

    ghost predicate At(op: OpId, r: Receipt, p: DriverPoint) reads this {
      Valid() && state.process.Driving? && state.process.op == op && state.process.receipt == r && state.process.at == p && Synced(state, op, r)
    }

    constructor (s: State)
      requires Inv(s)
      ensures Valid() && state == s && trace == [s]
    {
      state, trace := s, [s];
    }

    /** One step of the system. */
    method Step(t: State)
      requires Valid() && Next(state, t)
      modifies this
      ensures Valid() && state == t && trace == old(trace) + [t]
    {
      PathGrows(Next, trace, t);
      trace := trace + [t];
      state := t;
    }

    /** A receipt write on top of the receipt that was read. */
    method Write()
      requires Valid() && state.process.Driving? && Records(state.process.at) && state.process.at != ToPrepare
      requires Synced(state, state.process.op, state.process.receipt)
      modifies this
      ensures Valid() && trace[0] == old(trace[0])
      ensures var v := old(state.process);
              var n := Patched(v.at, v.receipt);
              state == old(state).(files := WithReceipt(old(state.files), v.op, n), process := AfterRecord(v, n))
    {
      PathStaysInvariant(trace, |trace| - 1);
      DriverWritesAreAdmitted(state);
      var v := state.process;
      var n := Patched(v.at, v.receipt);
      Step(state.(files := WithReceipt(state.files, v.op, n), process := AfterRecord(v, n)));
    }

    /**
     * `prepare`: an operation that has a receipt is only read; otherwise the releases are pinned and
     * the first receipt recorded, unless a pending deploy, another owner or the selector forbids it,
     * or a check of the outside world (checkout, request, health, ancestry, ingress) fails.
     */
    method Prepare(op: OpId, prior: Release, checks: bool) returns (refused: bool)
      requires Valid() && state.process.Idle? && op.Bound?
      modifies this
      ensures Valid() && trace[0] == old(trace[0]) && state.process.Idle?
      ensures state.selector == old(state.selector) && state.deploy == old(state.deploy)
      ensures op in old(state.files.receipts) ==> state == old(state) && (refused <==> !checks || old(state.files.receipts)[op].prior != prior)
      ensures op !in old(state.files.receipts) ==>
                (refused <==>
                 || !checks || old(state.deploy).Some? || old(state.selector) != Some(prior) || op.revision == prior
                 || (old(state.files.pins) != [] && !Owns(old(state.files.pins), op)))
      ensures refused ==> state.files == old(state.files)
      ensures !refused && op !in old(state.files.receipts) ==>
                && state.files == Files([Pin(op, op.revision, prior)], old(state.files.receipts)[op := Initial(op, prior)])
                && state.releases == old(state.releases) + {op.revision}
    {
      if op in state.files.receipts { return !checks || state.files.receipts[op].prior != prior; }
      if !checks || state.deploy.Some? || state.selector != Some(prior) || op.revision == prior { return true; }
      BeginPreparation(op, prior);
      if state.files.pins != [] && !Owns(state.files.pins, op) {
        Step(state.(process := Idle));
        return true;
      }
      RecordFirst(op, prior);
      refused := false;
    }

    method BeginPreparation(op: OpId, prior: Release)
      requires Valid() && state.process.Idle? && op.Bound? && op !in state.files.receipts
      requires state.deploy.None? && state.selector == Some(prior) && op.revision != prior
      modifies this
      ensures Valid() && trace[0] == old(trace[0])
      ensures state == old(state).(releases := old(state.releases) + {op.revision}, process := Driving(op, Initial(op, prior), ToPrepare, false))
    {
      PathStaysInvariant(trace, |trace| - 1);
      var t := state.(releases := state.releases + {op.revision}, process := Driving(op, Initial(op, prior), ToPrepare, false));
      assert DriverEnters(state, t, op, prior, Prepared);
      Step(t);
    }

    /** The pin, unless a crash left it there, and then the receipt. */
    method RecordFirst(op: OpId, prior: Release)
      requires Valid() && op.Bound? && op !in state.files.receipts && state.process == Driving(op, Initial(op, prior), ToPrepare, false)
      requires op.revision != prior && (state.files.pins == [] || Owns(state.files.pins, op))
      modifies this
      ensures Valid() && trace[0] == old(trace[0])
      ensures state == old(state).(process := Idle,
                                   files := Files([Pin(op, op.revision, prior)], old(state.files.receipts)[op := Initial(op, prior)]))
    {
      PathStaysInvariant(trace, |trace| - 1);
      var r := Initial(op, prior);
      if state.files.pins == [] {
        assert DriverRecords(state, state.(files := WithPin(state.files, op, r)));
        Step(state.(files := WithPin(state.files, op, r)));
      }
      assert state.files.pins == [Pin(op, op.revision, prior)] && state.files.pins[0].op == op;
      assert DriverRecords(state, state.(files := WithReceipt(state.files, op, r), process := Idle));
      Step(state.(files := WithReceipt(state.files, op, r), process := Idle));
    }

    /** Only the selector, the receipt of `op` and the process have changed since `s`. */
    ghost predicate OnlyMoved(s: State, op: OpId) reads this {
      && op in state.files.receipts
      && state == s.(selector := state.selector, process := state.process,
                     files := s.files.(receipts := s.files.receipts[op := state.files.receipts[op]]))
    }

    /** Back to the prior release, recorded only with its health proved on both surfaces. */
    method RestoreOwned(op: OpId, r: Receipt, w: World)
      requires At(op, r, ToReselect) && r.phase == RollbackPending
      modifies this
      ensures Valid() && trace[0] == old(trace[0]) && state.process.Idle? && OnlyMoved(old(state), op)
      ensures var refused := old(state.process.restarted) && Crosses(old(state), r);
              && state.selector == (if refused then old(state.selector) else Some(r.prior))
              && state.files.receipts[op] == if w.restored && !refused then Patched(ToRecordRolledBack, r) else r
    {
      if state.process.restarted && Crosses(state, r) {
        Step(state.(process := Idle));
        return;
      }
      Reselect(op, r);
      if !w.restored {
        Step(state.(process := Idle));
        return;
      }
      Prove(op, r);
      Write();
    }

    /** The selector, when nothing forbids it. */
    method Reselect(op: OpId, r: Receipt)
      requires At(op, r, ToReselect) && r.phase == RollbackPending && !(state.process.restarted && Crosses(state, r))
      modifies this
      ensures Valid() && trace[0] == old(trace[0])
      ensures state == old(state).(selector := Some(r.prior), process := old(state.process).(at := ToProve))
    {
      assert SelectorMatches(state.selector, r) && r.prior in state.releases by {
        PathStaysInvariant(trace, |trace| - 1);
        OwnedSelector(state, op);
      }
      assert DriverActs(state, state.(selector := Some(r.prior), process := state.process.(at := ToProve)));
      Step(state.(selector := Some(r.prior), process := state.process.(at := ToProve)));
    }

    /** Restart if need be, readiness and both proofs of the prior release. */
    method Prove(op: OpId, r: Receipt)
      requires At(op, r, ToProve)
      modifies this
      ensures Valid() && trace[0] == old(trace[0])
      ensures state == old(state).(process := old(state.process).(at := ToRecordRolledBack))
    {
      assert DriverActs(state, state.(process := state.process.(at := ToRecordRolledBack)));
      Step(state.(process := state.process.(at := ToRecordRolledBack)));
    }

    /** The rollback intent, then the restoration. */
    method RollBack(op: OpId, r: Receipt, w: World)
      requires At(op, r, ToRecordRollback)
      modifies this
      ensures Valid() && trace[0] == old(trace[0]) && state.process.Idle? && OnlyMoved(old(state), op)
      ensures var refused, n := old(state.process.restarted) && Crosses(old(state), r), state.files.receipts[op];
              && state.selector == (if refused then old(state.selector) else Some(r.prior))
              && n.phase == (if w.restored && !refused then RolledBack else RollbackPending)
              && n.intent.Some? && n.settlement == r.settlement
              && (n.phase == RolledBack ==> n.restoration == Some(Restoration(Proof(r.prior, true), Proof(r.prior, true))))
    {
      Write();
      RestoreOwned(op, Patched(ToRecordRollback, r), w);
    }

    /** Intent, selector, `selected`. */
    method Promote(op: OpId, r: Receipt)
      requires At(op, r, ToIntend) && r.phase == Prepared
      modifies this
      ensures Valid() && trace[0] == old(trace[0]) && OnlyMoved(old(state), op)
      ensures state.selector == Some(r.candidate)
      ensures var n := Patched(ToRecordSelected, Patched(ToIntend, r));
              state.process == Driving(op, n, ToRestart, old(state.process.restarted)) && state.files.receipts[op] == n
    {
      Write();
      Step(state.(selector := Some(r.candidate), process := state.process.(at := ToRecordSelected)));
      Write();
    }

    /**
     * From `selected` or `candidate_ready` to `ingress_applied`; false on an error, with the process in
     * its catch clause, which knows whether this call asked for a restart.
     */
    method BringUp(op: OpId, r: Receipt, w: World) returns (ok: bool, n: Receipt)
      requires Valid() && Synced(state, op, r) && ActivationPoint(r.phase).Some? && r.phase != Prepared
      requires state.process == Driving(op, r, ActivationPoint(r.phase).value, false)
      modifies this
      ensures Valid() && trace[0] == old(trace[0]) && OnlyMoved(old(state), op) && state.selector == old(state.selector)
      ensures state.files.receipts[op] == n && n.candidate == r.candidate && n.prior == r.prior
      ensures state.process == Driving(op, n, if ok then ToRecordProof else ToRecordRollback, Restarts(r, w))
      ensures ok <==> Applies(r, w)
      ensures n.phase in if ok then {IngressApplied} else {Selected, CandidateReady}
    {
      ok, n := true, r;
      if n.phase == Selected { ok, n := Restart(op, n, w); }
      if ok && n.phase == CandidateReady { ok, n := Reload(op, n, w); }
    }

    /** daemon-reload, restart and readiness. */
    method Restart(op: OpId, r: Receipt, w: World) returns (ok: bool, n: Receipt)
      requires At(op, r, ToRestart) && r.phase == Selected && !state.process.restarted
      modifies this
      ensures Valid() && trace[0] == old(trace[0]) && OnlyMoved(old(state), op) && state.selector == old(state.selector)
      ensures ok <==> w.reloaded && w.ready
      ensures n == (if ok then Patched(ToRecordReady, r) else r) && state.files.receipts[op] == n
      ensures state.process == Driving(op, n, if ok then ToReload else ToRecordRollback, w.reloaded)
    {
      ok, n := w.reloaded && w.ready, r;
      if w.reloaded { Step(state.(process := state.process.(at := ToRecordReady, restarted := true))); }
      if !ok {
        Step(state.(process := DriverCaught(state.process)));
        return;
      }
      Write();
      n := Patched(ToRecordReady, r);
    }

    /** The reload of the ingress. */
    method Reload(op: OpId, r: Receipt, w: World) returns (ok: bool, n: Receipt)
      requires At(op, r, ToReload) && r.phase == CandidateReady
      modifies this
      ensures Valid() && trace[0] == old(trace[0]) && OnlyMoved(old(state), op) && state.selector == old(state.selector)
      ensures ok <==> w.ingress
      ensures n == (if ok then Patched(ToRecordIngress, r) else r) && state.files.receipts[op] == n
      ensures state.process == Driving(op, n, if ok then ToRecordProof else ToRecordRollback, old(state.process.restarted))
    {
      ok, n := w.ingress, r;
      if !ok {
        Step(state.(process := DriverCaught(state.process)));
        return;
      }
      Step(state.(process := state.process.(at := ToRecordIngress)));
      Write();
      n := Patched(ToRecordIngress, r);
    }

    /**
     * `activate`: refused on terminal and rolling-back receipts, on a prepared one whose selector has
     * already moved, and when an outside check fails. Otherwise an error before the ingress is applied
     * turns back to the prior release, and one after it keeps the candidate and records the ambiguity.
     */
    method Activate(op: OpId, w: World) returns (refused: bool)
      requires Valid() && state.process.Idle? && op in state.files.receipts
      modifies this
      ensures Valid() && trace[0] == old(trace[0]) && state.process.Idle? && OnlyMoved(old(state), op)
      ensures var r := old(state.files.receipts[op]);
              refused <==>
                || r.phase in {Accepted, Failed, RolledBack, RollbackPending}
                || (r.phase == Prepared && old(state.selector) != Some(r.prior)) || !w.checks
      ensures refused ==> state == old(state)
      ensures !refused ==>
                var r := old(state.files.receipts[op]);
                Outcome(r, w, Crosses(old(state), r), state.selector, state.files.receipts[op])
    {
      var r := state.files.receipts[op];
      if ActivationPoint(r.phase).None? || (r.phase == Prepared && state.selector != Some(r.prior)) || !w.checks { return true; }
      refused := false;
      var n := Resume(op, r);
      Attempt(op, n, w);
    }

    /** The try block of `activate` and its catch clause. */
    method Attempt(op: OpId, r: Receipt, w: World)
      requires Valid() && Synced(state, op, r) && ActivationPoint(r.phase).Some? && r.phase != Prepared
      requires state.process == Driving(op, r, ActivationPoint(r.phase).value, false) && state.selector == Some(r.candidate)
      modifies this
      ensures Valid() && trace[0] == old(trace[0]) && state.process.Idle? && OnlyMoved(old(state), op)
      ensures Outcome(r, w, Crosses(old(state), r), state.selector, state.files.receipts[op])
    {
      var ok, n := BringUp(op, r, w);
      if ok { Conclude(op, n, w.proved); } else { RollBack(op, n, w); }
    }

    /** The candidate is selected, and the receipt says so. */
    method Resume(op: OpId, r: Receipt) returns (n: Receipt)
      requires Valid() && state.process.Idle? && Synced(state, op, r)
      requires ActivationPoint(r.phase).Some? && (r.phase == Prepared ==> state.selector == Some(r.prior))
      modifies this
      ensures Valid() && trace[0] == old(trace[0]) && OnlyMoved(old(state), op) && Synced(state, op, n)
      ensures state.selector == Some(r.candidate) && n.candidate == r.candidate && n.prior == r.prior
      ensures n.phase == if r.phase == Prepared then Selected else r.phase
      ensures state.process == Driving(op, n, ActivationPoint(n.phase).value, false)
    {
      BeginActivation(op, r);
      n := r;
      if r.phase == Prepared {
        Promote(op, r);
        n := Patched(ToRecordSelected, Patched(ToIntend, r));
      }
    }

    /** Both health proofs, or the record that the public identity is still pending. */
    method Conclude(op: OpId, r: Receipt, proved: bool)
      requires At(op, r, ToRecordProof) && r.phase == IngressApplied
      modifies this
      ensures Valid() && trace[0] == old(trace[0]) && state.process.Idle? && OnlyMoved(old(state), op) && state.selector == old(state.selector)
      ensures state.files.receipts[op] == Patched(if proved then ToRecordProof else ToRecordError, r)
    {
      if !proved { Step(state.(process := DriverCaught(state.process))); }
      Write();
    }

    /** The checks of `activate`: both releases are present and the selector is one of the two. */
    method BeginActivation(op: OpId, r: Receipt)
      requires Valid() && state.process.Idle? && Synced(state, op, r)
      requires ActivationPoint(r.phase).Some? && (r.phase == Prepared ==> state.selector == Some(r.prior))
      modifies this
      ensures Valid() && trace[0] == old(trace[0])
      ensures state == old(state).(process := Driving(op, r, ActivationPoint(r.phase).value, false))
      ensures r.phase != Prepared ==> state.selector == Some(r.candidate)
    {
      PathStaysInvariant(trace, |trace| - 1);
      OwnedSelector(state, op);
      assert DriverEnters(state, state.(process := Driving(op, r, ActivationPoint(r.phase).value, false)), op, r.prior, Prepared);
      Step(state.(process := Driving(op, r, ActivationPoint(r.phase).value, false)));
    }

    /**
     * `restore`: refused once accepted or failed, nothing more to do once rolled back. It counts as a
     * restart, so a fallback across codecs leaves the selector where it is and the rollback pending.
     */
    method Restore(op: OpId, w: World) returns (refused: bool)
      requires Valid() && state.process.Idle? && op in state.files.receipts
      modifies this
      ensures Valid() && trace[0] == old(trace[0]) && state.process.Idle? && OnlyMoved(old(state), op)
      ensures refused <==> old(state.files.receipts[op]).phase in {Accepted, Failed}
      ensures refused || old(state.files.receipts[op]).phase == RolledBack ==> state == old(state)
      ensures !refused && old(state.files.receipts[op]).phase != RolledBack ==>
                var r, n := old(state.files.receipts[op]), state.files.receipts[op];
                && n.intent.Some? && n.settlement == r.settlement
                && if Crosses(old(state), r) then state.selector == old(state.selector) && n.phase == RollbackPending
                   else
                     && state.selector == Some(r.prior) && n.phase == (if w.restored then RolledBack else RollbackPending)
                     && (w.restored ==> n.restoration == Some(Restoration(Proof(r.prior, true), Proof(r.prior, true))))
    {
      var r := state.files.receipts[op];
      if r.phase in {Accepted, Failed} { return true; }
      refused := false;
      if r.phase == RolledBack { return; }
      BeginRestoration(op, r);
      if r.phase == RollbackPending { RestoreOwned(op, r, w); } else { RollBack(op, r, w); }
    }

    method BeginRestoration(op: OpId, r: Receipt)
      requires Valid() && state.process.Idle? && Synced(state, op, r) && r.phase !in {Accepted, Failed, RolledBack}
      modifies this
      ensures Valid() && trace[0] == old(trace[0])
      ensures state == old(state).(process := Driving(op, r, if r.phase == RollbackPending then ToReselect else ToRecordRollback, true))
      ensures r.phase == RollbackPending ==> r.intent.Some?
    {
      PathStaysInvariant(trace, |trace| - 1);
      OwnedSelector(state, op);
      var t := state.(process := Driving(op, r, if r.phase == RollbackPending then ToReselect else ToRecordRollback, true));
      assert DriverEnters(state, t, op, r.prior, Prepared);
      Step(t);
    }

    /**
     * `settle`: records the disposition and releases the pin, or only releases it when a crash came
     * between the two. It is refused when the settlement is not verified, when the receipt does not
     * support the disposition, and when an acceptance cannot be proved once more.
     */
    method Settle(op: OpId, d: Phase, verified: bool, proved: bool) returns (refused: bool)
      requires Valid() && state.process.Idle? && op in state.files.receipts
      modifies this
      ensures Valid() && trace[0] == old(trace[0]) && state.process.Idle? && state.selector == old(state.selector)
      ensures var r := old(state.files.receipts[op]);
              refused <==>
                || !verified || (r.settlement.Some? && r.phase != d)
                || (r.settlement.None? && (
                      || d !in {Accepted, RolledBack, Failed}
                      || (d == Accepted && !(r.phase == IngressApplied && proved && r.loopback == r.public == Some(Proof(r.candidate, true))))
                      || (d == RolledBack && r.phase != RolledBack)
                      || (d == Failed && r.intent.None? && !(r.phase == Prepared && r.sequence == 1 && !r.error && r.loopback.None? && r.public.None? && r.restoration.None?))))
      ensures refused ==> state == old(state)
      ensures !refused ==> op in state.files.receipts && Settled(state.files.receipts[op]) && state.files.receipts[op].phase == d
      ensures !refused ==>
                var r := old(state.files.receipts[op]);
                state.files.receipts[op] ==
                if r.settlement.Some? then r
                else r.(phase := d, settlement := Some(d), sequence := r.sequence + 1, error := r.error || d == Failed)
      ensures !refused ==> state.files.pins == Without(old(state.files.pins), op) && !Owns(state.files.pins, op)
      ensures state.deploy == old(state.deploy)
    {
      var r := state.files.receipts[op];
      if r.settlement.Some? {
        if r.phase != d || !verified { return true; }
        BeginRelease(op, r);
        Release(op, r);
      } else {
        if !MaySettle(r, d) || !verified || (d == Accepted && !proved) { return true; }
        BeginSettlement(op, r, d);
        Write();
        Release(op, Patched(ToSettle(d), r));
      }
      refused := false;
    }

    /** A settled receipt, read again by a second call. */
    method BeginRelease(op: OpId, r: Receipt)
      requires Valid() && state.process.Idle? && Synced(state, op, r) && r.settlement.Some?
      modifies this
      ensures Valid() && trace[0] == old(trace[0])
      ensures state == old(state).(process := Driving(op, r, ToRelease, false)) && Settled(r)
    {
      PathStaysInvariant(trace, |trace| - 1);
      assert Parses(op, r);
      assert DriverEnters(state, state.(process := Driving(op, r, ToRelease, false)), op, r.prior, r.phase);
      Step(state.(process := Driving(op, r, ToRelease, false)));
    }

    method BeginSettlement(op: OpId, r: Receipt, d: Phase)
      requires Valid() && state.process.Idle? && Synced(state, op, r) && r.settlement.None? && MaySettle(r, d)
      modifies this
      ensures Valid() && trace[0] == old(trace[0])
      ensures state == old(state).(process := Driving(op, r, ToSettle(d), false)) && state.files.pins == [PinOf(op, r)]
    {
      PathStaysInvariant(trace, |trace| - 1);
      OwnedSelector(state, op);
      assert DriverEnters(state, state.(process := Driving(op, r, ToSettle(d), false)), op, r.prior, d);
      Step(state.(process := Driving(op, r, ToSettle(d), false)));
    }

    /** `releasePin`: the pin that is left, if any, is never found to be another's. */
    method Release(op: OpId, r: Receipt)
      requires At(op, r, ToRelease)
      modifies this
      ensures Valid() && trace[0] == old(trace[0])
      ensures state == old(state).(process := Idle, files := old(state.files).(pins := Without(old(state.files.pins), op)))
      ensures !Owns(state.files.pins, op)
    {
      assert Settled(r) && forall p | p in state.files.pins && p.op == op :: p == PinOf(op, r) by {
        PathStaysInvariant(trace, |trace| - 1);
        OwnPin(state);
      }
      var t := state.(files := state.files.(pins := Without(state.files.pins, op)), process := Idle);
      assert DriverActs(state, t);
      Step(t);
      assert forall i | 0 <= i < |state.files.pins| :: state.files.pins[i] in state.files.pins;
    }

    /**
     * No pin of a bound operation is stuck: from every reachable state between calls it can be
     * released, a bare pin after its receipt was written, and the selector is not moved.
     */
    method ReleaseAnyPin(p: Pin)
      requires Valid() && state.process.Idle? && state.files.pins == [p] && p.op.Bound?
      modifies this
      ensures Valid() && trace[0] == old(trace[0]) && state.process.Idle?
      ensures state.files.pins == [] && state.selector == old(state.selector) && state.deploy.None?
    {
      PathStaysInvariant(trace, |trace| - 1);
      assert state.files.pins[0] == p;
      if p.op !in state.files.receipts {
        var refused := Prepare(p.op, p.prior, true);
        assert !refused;
      }
      ReleaseReceipted(p.op);
    }

    method ReleaseReceipted(op: OpId)
      requires Valid() && state.process.Idle? && |state.files.pins| == 1 && state.files.pins[0].op == op && op in state.files.receipts
      modifies this
      ensures Valid() && trace[0] == old(trace[0]) && state.process.Idle?
      ensures state.files.pins == [] && state.selector == old(state.selector) && state.deploy == old(state.deploy)
    {
      PathStaysInvariant(trace, |trace| - 1);
      var r := state.files.receipts[op];
      var refused := Settle(op, if r.settlement.Some? then r.phase else Failed, true, true);
      assert !refused;
    }

    /** And where the prior release can be proved healthy, it can be selected again first. */
    method RestoreAndRelease(op: OpId, w: World)
      requires Valid() && state.process.Idle? && op in state.files.receipts && state.files.receipts[op].settlement.None?
      requires !Crosses(state, state.files.receipts[op]) && w.restored
      modifies this
      ensures Valid() && trace[0] == old(trace[0]) && state.process.Idle?
      ensures state.files.pins == [] && state.selector == Some(old(state.files.receipts[op].prior))
    {
      PathStaysInvariant(trace, |trace| - 1);
      OwnedSelector(state, op);
      var refused := Restore(op, w);
      refused := Settle(op, RolledBack, true, true);
      assert !refused;
    }

    // -------------------------------------------------------------- the ordinary deploy

    /** The recovery receipt, changed in memory and saved. */
    method Save()
      requires Valid() && state.process.Deploying? && Saves(state.process.point)
      modifies this
      ensures Valid() && trace[0] == old(trace[0])
      ensures var v := old(state.process).(recovery := Marked(old(state.process)));
              state == old(state).(deploy := Some(v.recovery), process := AfterSave(v))
    {
      var v := state.process.(recovery := Marked(state.process));
      assert DeploySaves(state, state.(deploy := Some(v.recovery), process := AfterSave(v)));
      Step(state.(deploy := Some(v.recovery), process := AfterSave(v)));
    }

    /** An error of the outside world. */
    method Fail()
      requires Valid() && state.process.Deploying?
      modifies this
      ensures Valid() && trace[0] == old(trace[0])
      ensures state == old(state).(process := DeployCaught(old(state.process)))
    {
      var t := state.(process := DeployCaught(state.process));
      assert if Saves(state.process.point) then DeploySaves(state, t) else DeployActs(state, t);
      Step(t);
    }

    /** An effect of the deploy that succeeds. */
    method Proceed(t: State)
      requires Valid() && DeployActs(state, t)
      modifies this
      ensures Valid() && trace[0] == old(trace[0]) && state == t
    {
      Step(t);
    }

    /** `prepared`, the selector, `selected`. */
    method SelectCandidate()
      requires Valid() && state.process.Deploying? && state.process.point == ToRecordPrepared
      requires state.process.ingressApplied ==> state.process.recovery.phase == IngressApplied
      modifies this
      ensures Valid() && trace[0] == old(trace[0])
      ensures var v := old(state.process);
              var r := StartedReceipt(v, false, false);
              state == old(state).(selector := Some(v.recovery.candidate), deploy := Some(r), process := v.(point := ToIssue, recovery := r))
    {
      Save();
      Proceed(state.(selector := Some(state.process.recovery.candidate), process := state.process.(point := ToMarkSelected)));
      Save();
    }

    /** `startCandidate`: an ingress applied before keeps its phase and its candidate through a failed restart. */
    method StartCandidate(reloaded: bool, ready: bool) returns (ok: bool)
      requires Valid() && state.process.Deploying? && state.process.point == ToRecordPrepared
      requires state.process.ingressApplied ==> state.process.recovery.phase == IngressApplied
      modifies this
      ensures Valid() && trace[0] == old(trace[0])
      ensures ok <==> reloaded && ready
      ensures state.deploy == Some(StartedReceipt(old(state.process), reloaded, ok))
      ensures !ok && old(state.process).ingressApplied ==> state.process.Idle?
      ensures ok || !old(state.process).ingressApplied ==>
                state.process == Deploying(if ok then ToReloadIngress else ToRestore, StartedReceipt(old(state.process), reloaded, ok),
                                           old(state.process).started, old(state.process).restartAttempted || reloaded,
                                           old(state.process).ingressApplied)
      ensures state.selector == Some(old(state.process.recovery.candidate))
    {
      SelectCandidate();
      ok := RestartCandidate(reloaded, ready);
    }

    /** The restart flag on disk, the restart and readiness. */
    method RestartCandidate(reloaded: bool, ready: bool) returns (ok: bool)
      requires Valid() && state.process.Deploying? && state.process.point == ToIssue && state.deploy == Some(state.process.recovery)
      modifies this
      ensures Valid() && trace[0] == old(trace[0])
      ensures ok <==> reloaded && ready
      ensures state.selector == old(state.selector)
      ensures var v := old(state.process);
              var r := v.recovery.(restartIssued := v.recovery.restartIssued || reloaded,
                                   phase := if ok && !v.ingressApplied then CandidateReady else v.recovery.phase);
              && state.deploy == Some(r)
              && state.process == if !ok && v.ingressApplied then Idle
                                  else v.(point := if ok then ToReloadIngress else ToRestore, recovery := r,
                                          restartAttempted := v.restartAttempted || reloaded)
    {
      if !reloaded {
        Fail();
        return false;
      }
      Save();
      Proceed(state.(issued := true, process := state.process.(point := ToMarkReady)));
      if !ready {
        Fail();
        return false;
      }
      Save();
      ok := true;
    }

    /**
     * `restorePrevious`: without a previous release, only a candidate that was never restarted is
     * deselected; a legacy previous release is not selected again once the candidate was restarted.
     * Only after a restart does the rollback wait for a proof of the previous release.
     */
    method RestorePrevious(restored: bool)
      requires Valid() && state.process.Deploying? && state.process.point == ToRestore && !state.process.ingressApplied
      requires state.deploy == Some(state.process.recovery)
      modifies this
      ensures Valid() && trace[0] == old(trace[0]) && state.process.Idle? && state.deploy.Some?
      ensures var r, attempted := old(state.process.recovery), old(state.process.restartAttempted);
              if attempted && (r.previous.None? || r.previous.value in state.legacy)
              then state.selector == old(state.selector) && state.deploy == Some(r)
              else state.selector == r.previous && state.deploy == Some(if attempted && !restored then r else r.(phase := RolledBack))
      ensures state.legacy == old(state.legacy)
    {
      var v := state.process;
      if v.recovery.previous.None? {
        if v.restartAttempted { Fail(); return; }
        Proceed(state.(selector := None, process := v.(point := ToMarkRolledBack)));
      } else {
        if v.restartAttempted && v.recovery.previous.value in state.legacy { Fail(); return; }
        Proceed(state.(selector := v.recovery.previous, process := v.(point := ToProvePrevious)));
        if v.restartAttempted && !restored { Fail(); return; }
        Proceed(state.(process := state.process.(point := ToMarkRolledBack)));
      }
      Save();
    }

    /** From the reload of the ingress to acceptance. */
    method ApplyIngress(public: bool)
      requires Valid() && state.process.Deploying? && state.process.point == ToReloadIngress
      modifies this
      ensures Valid() && trace[0] == old(trace[0]) && state.selector == old(state.selector) && state.process == if public then Pruning else Idle
      ensures if public then state.deploy.None? else state.deploy == Some(old(state.process.recovery).(phase := IngressApplied))
    {
      var v := state.process;
      Proceed(state.(process := v.(point := ToMarkIngress, ingressApplied := true, recovery := v.recovery.(phase := IngressApplied))));
      Save();
      if public { Proceed(state.(deploy := None, issued := false, process := Pruning)); } else { Fail(); }
    }

    /** The activation, from a start of the candidate or from its ingress, to acceptance or to what an error leaves. */
    method RunActivation(start: bool, w: DeployWorld)
      requires Valid() && state.process.Deploying? && state.deploy == Some(state.process.recovery)
      requires state.process.point == if start then ToRecordPrepared else ToReloadIngress
      requires state.process.ingressApplied <==> state.process.recovery.phase == IngressApplied
      requires !start ==>
                 state.selector == Some(state.process.recovery.candidate) && state.process.restartAttempted && state.process.recovery.phase != RolledBack
      modifies this
      ensures Valid() && trace[0] == old(trace[0])
      ensures DeployEnds(old(state.process.recovery), old(state.process.restartAttempted) || (start && w.reloaded),
                         !start || (w.reloaded && w.ready), w, state)
    {
      var up := true;
      if start { up := StartCandidate(w.reloaded, w.ready); }
      if up && w.ingress { ApplyIngress(w.public); return; }
      if up { Fail(); }
      if state.process.Deploying? { RestorePrevious(w.restored); }
    }

    /**
     * `deploy` under the lock. It is refused while another operation owns promotion, for the receipt
     * of another candidate, and for a release or a recovery whose state is not explained; a selected
     * release without a receipt is only verified. Otherwise it is activated, if the checks pass, those
     * before anything is written and, with a previous release, the one after it: when that one fails,
     * a fresh deploy has left its release and its receipt behind.
     */
    method Deploy(sha: Release, w: DeployWorld) returns (activated: bool)
      requires Valid() && state.process.Idle?
      modifies this
      ensures Valid() && trace[0] == old(trace[0])
      ensures activated <==> Begins(old(state), sha, w) && (Worked(old(state), sha).previous.None? || w.probe)
      ensures !activated ==> state.selector == old(state.selector) && (state.process.Idle? || state.process.Pruning?)
      ensures !activated && !(Begins(old(state), sha, w) && old(state.deploy).None?) ==>
                state.deploy == old(state.deploy) && state.releases == old(state.releases)
      ensures !activated && Begins(old(state), sha, w) && old(state.deploy).None? ==>
                && state.deploy == Some(Recovery(sha, old(state.selector), Prepared, false)) && old(state.selector).Some?
                && state.releases == old(state.releases) + {sha} && state.process.Idle? && Stuck(state)
      ensures activated ==>
                var r := Worked(old(state), sha);
                var selected := old(state.selector) == Some(sha);
                var start := !(selected && w.serves);
                DeployEnds(r, selected || (start && w.reloaded), !start || (w.reloaded && w.ready), w, state)
    {
      activated := false;
      if !Begins(state, sha, w) {
        if w.checks && state.files.pins == [] && state.deploy.None? && sha in state.releases && state.selector == Some(sha) && w.serves {
          assert DeployEnters(state, state.(process := Pruning), sha);
          Step(state.(process := Pruning));
        }
        return;
      }
      var start := !(state.selector == Some(sha) && w.serves);
      activated := Open(sha, w);
      if activated { RunActivation(start, w); }
    }

    /** The first writes, the check of the previous release, and the decision where to begin. */
    method Open(sha: Release, w: DeployWorld) returns (ok: bool)
      requires Valid() && state.process.Idle? && Begins(state, sha, w)
      modifies this
      ensures Valid() && trace[0] == old(trace[0])
      ensures var s, r := old(state), Worked(old(state), sha);
              var saved := s.(releases := s.releases + {sha}, deploy := Some(r));
              && (ok <==> r.previous.None? || w.probe)
              && if ok then
                   state == saved.(process := Deploying(if s.selector == Some(sha) && w.serves then ToReloadIngress else ToRecordPrepared, r,
                                                        s.deploy.None?, s.selector == Some(sha), r.phase == IngressApplied))
                 else state == saved.(process := Idle)
      ensures if old(state.deploy).Some? then old(state.releases) + {sha} == old(state.releases) else old(state.selector) != Some(sha)
    {
      var r := Worked(state, sha);
      if state.deploy.None? { Begin(sha); } else { TakeUp(sha); }
      ok := r.previous.None? || w.probe;
      if ok { Decide(w.serves); } else { Fail(); }
    }

    /** Publish the release and save its receipt. */
    method Begin(sha: Release)
      requires Valid() && state.process.Idle? && state.files.pins == [] && state.deploy.None? && sha !in state.releases
      modifies this
      ensures Valid() && trace[0] == old(trace[0])
      ensures var r := Recovery(sha, old(state.selector), Prepared, false);
              state == old(state).(releases := old(state.releases) + {sha}, deploy := Some(r), process := Deploying(ToDecide, r, true, false, false))
      ensures state.selector != Some(sha)
      ensures state.selector.Some? ==> state.selector.value in state.releases
    {
      PathStaysInvariant(trace, |trace| - 1);
      var r := Recovery(sha, state.selector, Prepared, false);
      assert DeployEnters(state, state.(releases := state.releases + {sha}, process := Deploying(ToSave, r, true, false, false)), sha);
      Step(state.(releases := state.releases + {sha}, process := Deploying(ToSave, r, true, false, false)));
      Save();
    }

    /** Take up the recovery receipt of an earlier run. */
    method TakeUp(sha: Release)
      requires Valid() && state.process.Idle? && state.files.pins == [] && state.deploy.Some?
      requires state.deploy.value.candidate == sha && sha in state.releases
      modifies this
      ensures Valid() && trace[0] == old(trace[0])
      ensures state == old(state).(process := Deploying(ToDecide, old(state.deploy.value), false, false, false))
    {
      assert DeployEnters(state, state.(process := Deploying(ToDecide, state.deploy.value, false, false, false)), sha);
      Step(state.(process := Deploying(ToDecide, state.deploy.value, false, false, false)));
    }

    /** Where the activation begins. */
    method Decide(serves: bool)
      requires Valid() && state.process.Deploying? && state.process.point == ToDecide
      requires MayActivate(state, state.process.recovery, state.process.started, serves)
      modifies this
      ensures Valid() && trace[0] == old(trace[0])
      ensures var v := old(state.process);
              var selected := old(state.selector) == Some(v.recovery.candidate);
              state == old(state).(process := v.(point := if selected && serves then ToReloadIngress else ToRecordPrepared,
                                                 restartAttempted := selected, ingressApplied := v.recovery.phase == IngressApplied))
    {
      var v := state.process;
      var selected := state.selector == Some(v.recovery.candidate);
      var t := state.(process := v.(point := if selected && serves then ToReloadIngress else ToRecordPrepared,
                                    restartAttempted := selected, ingressApplied := v.recovery.phase == IngressApplied));
      assert DeployDecides(state, t);
      Proceed(t);
    }
  }

  /** The receipt that a start of the candidate leaves. */
  function StartedReceipt(v: Process, issued: bool, ready: bool): Recovery
    requires v.Deploying?
  {
    var phase := if v.ingressApplied then IngressApplied else if ready then CandidateReady else Selected;
    v.recovery.(restartIssued := v.recovery.restartIssued || issued, phase := phase)
  }

  /**
   * What the outside world answers a deploy: its checks before anything is written; whether the
   * selected candidate serves; the check of the previous release once the receipt is there;
   * daemon-reload, readiness, ingress reload and public identity; and whether the previous release is
   * proved to be restored.
   */
  datatype DeployWorld = DeployWorld(
    checks: bool, serves: bool, probe: bool, reloaded: bool, ready: bool, ingress: bool, public: bool, restored: bool)

  /** The receipt that a deploy of `sha` works on. */
  function Worked(s: State, sha: Release): Recovery {
    if s.deploy.Some? then s.deploy.value else Recovery(sha, s.selector, Prepared, false)
  }

  /** What the activation demands of the receipt, the selector and the store. */
  predicate MayActivate(s: State, d: Recovery, started: bool, serves: bool) {
    if s.selector == Some(d.candidate) then
      d.phase != RolledBack && if serves then d.previous.None? || d.previous.value in s.releases else d.previous.None?
    else UnselectedMayStart(s, d, started)
  }

  /** When a deploy of `sha` that nothing else owns goes on to activate it. */
  predicate Activates(s: State, sha: Release, serves: bool) {
    if s.deploy.None? then sha !in s.releases
    else s.deploy.value.candidate == sha && sha in s.releases && MayActivate(s, s.deploy.value, false, serves)
  }

  /**
   * What no deploy can take up again: the pending candidate is gone; or it is selected and its previous release is gone; or it is not
   * selected, was not recorded as rolled back, and is not a first deployment that was never restarted.
   */
  predicate Stuck(s: State) {
    && s.deploy.Some?
    && var d := s.deploy.value;
       || d.candidate !in s.releases
       || (if s.selector == Some(d.candidate) then d.previous.Some? && d.previous.value !in s.releases
           else d.phase != RolledBack && !(d.previous.None? && !d.restartIssued && d.phase in {Prepared, Selected}))
  }

  /** The deploy gets past everything that is checked before its first write. */
  predicate Begins(s: State, sha: Release, w: DeployWorld) {
    w.checks && s.files.pins == [] && Activates(s, sha, w.serves)
  }

  /**
   * What an activation leaves. Accepted exactly when the candidate came up and both ingress and public
   * identity were proved. Once the ingress was applied, by this run or before it, the candidate stays.
   * Otherwise the previous selector comes back, unless a restart was attempted and there is no previous
   * release or only a legacy one: then the candidate stays selected, with its receipt.
   */
  predicate DeployEnds(r: Recovery, attempted: bool, up: bool, w: DeployWorld, t: State) {
    if up && w.ingress && w.public then t.process.Pruning? && t.deploy.None? && t.selector == Some(r.candidate)
    else
      && t.process.Idle? && t.deploy.Some? && t.deploy.value.candidate == r.candidate && t.deploy.value.previous == r.previous
      && if r.phase == IngressApplied || (up && w.ingress) then t.deploy.value.phase == IngressApplied && t.selector == Some(r.candidate)
         else if attempted && (r.previous.None? || r.previous.value in t.legacy) then t.selector == Some(r.candidate) && t.deploy.value.phase != RolledBack
         else t.selector == r.previous && (t.deploy.value.phase == RolledBack <==> !attempted || w.restored)
  }

  /** A receipt whose pin is about to be released is settled, and the pin is its own. */
  lemma OwnPin(s: State)
    requires Inv(s) && s.process.Driving? && s.process.at == ToRelease
    ensures Settled(s.process.receipt)
    ensures forall p | p in s.files.pins && p.op == s.process.op :: p == PinOf(s.process.op, s.process.receipt)
  {
    assert Synced(s, s.process.op, s.process.receipt);
    forall p | p in s.files.pins && p.op == s.process.op ensures p == PinOf(s.process.op, s.process.receipt) {
      assert p == s.files.pins[0];
    }
  }

  /** A pinned, unsettled operation owns its releases and the selector. */
  lemma OwnedSelector(s: State, op: OpId)
    requires Inv(s) && op in s.files.receipts && !Settled(s.files.receipts[op])
    ensures var r := s.files.receipts[op];
            SelectorMatches(s.selector, r) && r.candidate in s.releases && r.prior in s.releases && s.files.pins == [PinOf(op, r)] && op.Bound?
  {
    assert Owns(s.files.pins, op) && Parses(op, s.files.receipts[op]);
  }
}
