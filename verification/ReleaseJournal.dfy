/**
 * Receipts and pins of bound VPS release operations: which receipts are well formed, which may
 * follow which, and the journal whose two files (the pins and the receipt) are written one after
 * the other, so that a crash may fall in between.
 */
module ReleaseJournal {
  import opened Wrappers

  /** A full Git revision; its release directory and its selector target carry the same name. */
  type Release = nat

  /** A bound operation is identified by its binding, which fixes the revision; a cutover by its request. */
  datatype OpId = Bound(id: nat, revision: Release) | FirstCutover(id: nat)

  datatype Pin = Pin(op: OpId, candidate: Release, prior: Release)

  datatype Phase =
    | Prepared | Selected | CandidateReady | IngressApplied | Accepted | RollbackPending | RolledBack | Failed

  datatype Intent = Promote | Rollback

  /** A health observation: which release was expected, and whether it answered as itself. */
  datatype Proof = Proof(release: Release, healthy: bool)

  datatype Restoration = Restoration(loopback: Proof, public: Proof)

  datatype Receipt = Receipt(
    candidate: Release, prior: Release, phase: Phase, sequence: nat, intent: Option<Intent>,
    loopback: Option<Proof>, public: Option<Proof>, restoration: Option<Restoration>,
    settlement: Option<Phase>, error: bool)

  // ---------------------------------------------------------------- what may be written

  predicate FailedBeforePromotion(r: Receipt) {
    && r.phase == Failed && r.sequence == 2 && r.settlement == Some(Failed) && r.error
    && r.loopback.None? && r.public.None? && r.restoration.None?
  }

  /** A receipt that parses. */
  predicate Parses(op: OpId, r: Receipt) {
    && op.Bound? && r.candidate == op.revision && r.candidate != r.prior && r.sequence >= 1
    && (r.loopback.Some? ==> r.loopback.value.release == r.candidate)
    && (r.public.Some? ==> r.public.value.release == r.candidate)
    && (r.restoration.Some? ==> r.restoration.value == Restoration(Proof(r.prior, true), Proof(r.prior, true)))
    && (r.settlement.Some? ==> r.settlement.value in {Accepted, RolledBack, Failed})
    && (r.phase != Prepared && r.intent.None? ==> FailedBeforePromotion(r))
    && (r.phase == Accepted ==>
          && r.loopback == Some(Proof(r.candidate, true)) && r.public == Some(Proof(r.candidate, true))
          && r.settlement == Some(Accepted))
    && (r.phase == RolledBack ==> r.restoration.Some?)
    && (r.phase == Failed ==> r.error)
  }

  predicate Terminal(r: Receipt) {
    r.phase == Accepted || r.phase == Failed || (r.phase == RolledBack && r.settlement.Some?)
  }

  /** Settled: the only receipts whose pin may be released. */
  predicate Settled(r: Receipt) {
    r.settlement.Some? && r.phase in {Accepted, RolledBack, Failed}
  }

  predicate ValidSuccessor(previous: Receipt, r: Receipt) {
    && r.sequence == previous.sequence + 1
    && r.candidate == previous.candidate && r.prior == previous.prior
    && !Terminal(previous)
    && (previous.intent.Some? ==> r.intent.Some?)
    && (r.phase == Failed && r.intent.None? ==>
          && previous.phase == Prepared && previous.sequence == 1 && previous.intent.None?
          && previous.loopback.None? && previous.public.None? && previous.restoration.None?
          && previous.settlement.None? && !previous.error)
  }

  // ---------------------------------------------------------------- the two files

  /** The pins file and the receipt files. */
  datatype Files = Files(pins: seq<Pin>, receipts: map<OpId, Receipt>)

  predicate Owns(pins: seq<Pin>, op: OpId) {
    exists i | 0 <= i < |pins| :: pins[i].op == op
  }

  /** The journal refuses anything but a first receipt or a valid successor, and a second owner. */
  predicate Admits(f: Files, op: OpId, r: Receipt) {
    && Parses(op, r)
    && (if op in f.receipts then ValidSuccessor(f.receipts[op], r) else r.sequence == 1 && r.phase == Prepared)
    && (Owns(f.pins, op) || f.pins == [])
  }

  function PinOf(op: OpId, r: Receipt): Pin {
    Pin(op, r.candidate, r.prior)
  }

  /** The files after the pin, the first of the two writes. */
  function WithPin(f: Files, op: OpId, r: Receipt): Files {
    if Owns(f.pins, op) then f else f.(pins := f.pins + [PinOf(op, r)])
  }

  function WithReceipt(f: Files, op: OpId, r: Receipt): Files {
    f.(receipts := f.receipts[op := r])
  }

  function Without(pins: seq<Pin>, op: OpId): (rest: seq<Pin>)
    ensures forall p | p in rest :: p in pins && p.op != op
    ensures forall p | p in pins && p.op != op :: p in rest
    ensures |rest| <= |pins|
  {
    if pins == [] then []
    else if pins[0].op == op then Without(pins[1..], op)
    else [pins[0]] + Without(pins[1..], op)
  }

  /** At most one pin, and every receipt that is not settled has its own. */
  ghost predicate SingleOwner(f: Files) {
    && |f.pins| <= 1
    && (forall op | op in f.receipts :: Parses(op, f.receipts[op]))
    && (forall op | op in f.receipts && !Settled(f.receipts[op]) :: Owns(f.pins, op))
  }

  /** Both files after each of their writes. */
  lemma WritingKeepsSingleOwner(f: Files, op: OpId, r: Receipt)
    requires SingleOwner(f) && Admits(f, op, r)
    ensures SingleOwner(WithPin(f, op, r)) && Owns(WithPin(f, op, r).pins, op)
    ensures SingleOwner(WithReceipt(WithPin(f, op, r), op, r))
  {
    var g := WithPin(f, op, r);
    if f.pins == [] { assert g.pins[0].op == op; }
    assert forall o | o in f.receipts && !Settled(f.receipts[o]) :: Owns(g.pins, o);
  }

  lemma ReleasingKeepsSingleOwner(f: Files, op: OpId)
    requires SingleOwner(f) && op in f.receipts && Settled(f.receipts[op])
    ensures SingleOwner(f.(pins := Without(f.pins, op)))
  {
    var rest := Without(f.pins, op);
    forall o | o in f.receipts && !Settled(f.receipts[o]) ensures Owns(rest, o) {
      var i :| 0 <= i < |f.pins| && f.pins[i].op == o;
      assert f.pins[i] in rest;
    }
  }

  /** One pin means one operation at a time: two unsettled receipts are the same one. */
  lemma OneUnsettledOperation(f: Files, a: OpId, b: OpId)
    requires SingleOwner(f) && a in f.receipts && b in f.receipts && !Settled(f.receipts[a]) && !Settled(f.receipts[b])
    ensures a == b
  {
    assert Owns(f.pins, a) && Owns(f.pins, b);
  }

  /** A settled receipt is terminal: no later write can reopen an operation whose pin is gone. */
  lemma SettledIsNeverReopened(f: Files, op: OpId, r: Receipt)
    requires op in f.receipts && Settled(f.receipts[op])
    ensures !Admits(f, op, r)
  {}

  /** What a receipt in the journal vouches for, whoever wrote it. */
  lemma JournaledMeans(f: Files, op: OpId)
    requires SingleOwner(f) && op in f.receipts
    ensures var r := f.receipts[op];
            && op.Bound? && r.candidate == op.revision && r.candidate != r.prior && r.sequence >= 1
            && (forall p | p in {r.loopback, r.public} && p.Some? :: p.value.release == r.candidate)
            && (r.phase == Accepted ==> r.loopback == r.public == Some(Proof(r.candidate, true)) && r.settlement == Some(Accepted))
            && (r.phase == RolledBack ==> r.restoration == Some(Restoration(Proof(r.prior, true), Proof(r.prior, true))))
            && (r.restoration.Some? ==> r.restoration.value == Restoration(Proof(r.prior, true), Proof(r.prior, true)))
            && (r.settlement.Some? ==> r.settlement.value in {Accepted, RolledBack, Failed})
            && (r.phase == Failed ==> r.error)
            && (r.phase in {Selected, CandidateReady, IngressApplied, Accepted, RollbackPending, RolledBack} ==> r.intent.Some?)
  {
    assert Parses(op, f.receipts[op]);
  }

  /** A failure without an intent stands only on the very first receipt, to which nothing was added. */
  lemma FailureWithoutIntent(f: Files, op: OpId, r: Receipt)
    requires SingleOwner(f) && Admits(f, op, r) && r.phase == Failed && r.intent.None?
    ensures op in f.receipts && f.receipts[op] == Receipt(op.revision, r.prior, Prepared, 1, None, None, None, None, None, false)
    ensures r.sequence == 2 && r.settlement == Some(Failed) && r.error && r.loopback.None? && r.public.None? && r.restoration.None?
  {
    assert Parses(op, f.receipts[op]);
  }

  // ---------------------------------------------------------------- the journal

  /** How a write can end: done, or an error before the pin, between the files, or after the receipt. */
  datatype Failure = Never | BeforePin | BetweenFiles | AfterReceipt

  class VpsOperationJournal {
    var pins: seq<Pin>
    var receipts: map<OpId, Receipt>
    /** Every state of the two files that a crash could have exposed. */
    ghost var exposed: seq<Files>

    ghost function Now(): Files reads this { Files(pins, receipts) }

    ghost predicate Valid() reads this {
      && exposed != [] && exposed[|exposed| - 1] == Now()
      && forall i | 0 <= i < |exposed| :: SingleOwner(exposed[i])
    }

    constructor ()
      ensures Valid() && pins == [] && receipts == map[]
    {
      pins, receipts := [], map[];
      exposed := [Files([], map[])];
    }

    method Write(op: OpId, r: Receipt, failure: Failure) returns (ok: bool)
      requires Valid()
      modifies this
      ensures Valid()
      ensures ok <==> Admits(old(Now()), op, r) && failure == Never
      ensures Admits(old(Now()), op, r) && failure in {Never, AfterReceipt} ==>
                Now() == WithReceipt(WithPin(old(Now()), op, r), op, r)
      ensures Admits(old(Now()), op, r) && failure == BetweenFiles ==> Now() == WithPin(old(Now()), op, r)
      ensures !Admits(old(Now()), op, r) || failure == BeforePin ==> Now() == old(Now())
    {
      if !Parses(op, r) { return false; }
      if op in receipts {
        if !ValidSuccessor(receipts[op], r) { return false; }
      } else if r.sequence != 1 || r.phase != Prepared { return false; }
      var owned := FindPin(op);
      if !owned && |pins| > 0 { return false; }
      if failure == BeforePin { return false; }
      WritingKeepsSingleOwner(Now(), op, r);
      if !owned {
        pins := pins + [PinOf(op, r)];
        exposed := exposed + [Now()];
      }
      if failure == BetweenFiles { return false; }
      receipts := receipts[op := r];
      exposed := exposed + [Now()];
      ok := failure == Never;
    }

    method FindPin(op: OpId) returns (found: bool)
      ensures found <==> Owns(pins, op)
    {
      for i := 0 to |pins|
        invariant forall k | 0 <= k < i :: pins[k].op != op
      {
        if pins[i].op == op { return true; }
      }
      return false;
    }

    /** Refused unless the receipt is settled and the pin is the receipt's own. */
    method ReleasePin(op: OpId) returns (ok: bool)
      requires Valid() && op in receipts
      modifies this
      ensures Valid() && receipts == old(receipts)
      ensures ok <==> Settled(receipts[op]) && forall p | p in old(pins) && p.op == op :: p == PinOf(op, receipts[op])
      ensures pins == if ok then Without(old(pins), op) else old(pins)
      ensures ok ==> !Owns(pins, op)
    {
      if receipts[op].settlement.None? || receipts[op].phase !in {Accepted, RolledBack, Failed} { return false; }
      for i := 0 to |pins|
        invariant forall k | 0 <= k < i :: pins[k].op == op ==> pins[k] == PinOf(op, receipts[op])
      {
        if pins[i].op == op && pins[i] != PinOf(op, receipts[op]) { return false; }
      }
      ReleasingKeepsSingleOwner(Now(), op);
      pins := Without(pins, op);
      exposed := exposed + [Now()];
      assert forall i | 0 <= i < |pins| :: pins[i] in pins;
      ok := true;
    }
  }
}
