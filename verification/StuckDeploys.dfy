/**
 * Ordinary deploys that no retry can take up again: which states those are, that they last, and how
 * a crash or a pruning run leads there.
 */
module StuckDeploys {
  import opened Wrappers
  import opened ReleaseJournal
  import opened Retention
  import opened ReleaseOps
  import opened ReleasePrograms
  import opened Runs

  /** No deploy of any revision would be activated, whatever the candidate answers. */
  ghost predicate NeverActivates(s: State) {
    forall sha, serves :: !Activates(s, sha, serves)
  }

  /** Exactly those states are stuck. */
  lemma StuckExactly(s: State)
    requires Inv(s) && s.deploy.Some?
    ensures NeverActivates(s) <==> Stuck(s)
  {
    var d := s.deploy.value;
    if !Stuck(s) {
      assert Activates(s, d.candidate, true);
    }
  }

  /**
   * Which deploy is activated: without a pending one, that of a revision with no release yet; with one,
   * that of its candidate, unless it is stuck, and if the candidate is selected over a previous release
   * only while it serves.
   */
  lemma ActivatesExactly(s: State, sha: Release, serves: bool)
    requires Inv(s)
    ensures Activates(s, sha, serves) <==>
            if s.deploy.None? then sha !in s.releases
            else
              var d := s.deploy.value;
              && sha == d.candidate && !Stuck(s)
              && (s.selector == Some(sha) && d.previous.Some? ==> serves)
  {}

  /** Stuck between runs of the deploy, or in a run that has only just read the receipt. */
  predicate StuckWith(s: State, d: Recovery, selector: Option<Release>) {
    && s.deploy == Some(d) && s.selector == selector && Stuck(s)
    && (s.process.Deploying? ==> s.process.point == ToDecide && !s.process.started && s.process.recovery == d)
  }

  lemma StuckStep(s: State, t: State, d: Recovery, selector: Option<Release>)
    requires Inv(s) && Next(s, t) && StuckWith(s, d, selector)
    ensures StuckWith(t, d, selector)
  {
    if s.process.Deploying? {
      assert !DeployDecides(s, t);
    } else {
      OthersLeaveDeployAlone(s, t);
      StuckEntries(s, t, d, selector);
    }
  }

  lemma OnlyDeployEnters(s: State, t: State)
    requires Next(s, t) && !s.process.Deploying? && t.process.Deploying?
    ensures exists sha :: DeployEnters(s, t, sha)
  {}

  lemma ReleasesOnlyShrink(s: State, t: State)
    requires Next(s, t) && s.deploy.Some? && !s.process.Claiming?
    ensures t.releases <= s.releases
  {}

  lemma RetryOnly(s: State, t: State, sha: Release)
    requires DeployEnters(s, t, sha) && s.deploy.Some?
    ensures t.process == Deploying(ToDecide, s.deploy.value, false, false, false)
  {}

  lemma StuckEntries(s: State, t: State, d: Recovery, selector: Option<Release>)
    requires Inv(s) && Next(s, t) && StuckWith(s, d, selector) && !s.process.Deploying?
    ensures t.releases <= s.releases
    ensures t.process.Deploying? ==> t.process.point == ToDecide && !t.process.started && t.process.recovery == d
  {
    assert !s.process.Claiming? && s.deploy == Some(d);
    hide *;
    ReleasesOnlyShrink(s, t);
    if t.process.Deploying? {
      OnlyDeployEnters(s, t);
      var sha :| DeployEnters(s, t, sha);
      RetryOnly(s, t, sha);
    }
  }

  lemma StuckRunStep(run: seq<State>, n: nat, d: Recovery, selector: Option<Release>)
    requires Reachable(run) && n + 1 < |run| && StuckWith(run[n], d, selector)
    ensures StuckWith(run[n + 1], d, selector)
  {
    RunKeeps(run, n);
    assert StepAt(Next, run, n);
    StuckStep(run[n], run[n + 1], d, selector);
  }

  /** A stuck deploy stays stuck in every later state, and its receipt keeps every other owner out. */
  lemma {:induction false} StuckForGood(run: seq<State>, n: nat, k: nat)
    requires Reachable(run) && n <= k < |run| && Stuck(run[n]) && !run[n].process.Deploying?
    ensures StuckWith(run[k], run[n].deploy.value, run[n].selector) && run[k].files.pins == []
  {
    if n < k {
      StuckForGood(run, n, k - 1);
      StuckRunStep(run, k - 1, run[n].deploy.value, run[n].selector);
    }
    OwnersExclude(run, k);
  }

  // ---------------------------------------------------------------- how a deploy gets stuck

  /** A crash right after the first receipt was saved, with a previous release selected, is one way. */
  lemma CrashAfterReceiptIsStuck(s: State, sha: Release) returns (run: seq<State>)
    requires Init(s) && s.selector.Some? && sha !in s.releases
    ensures Reachable(run) && run[0] == s && Stuck(run[|run| - 1]) && run[|run| - 1].process.Idle?
  {
    run := Opening(s, sha);
    var t := run[|run| - 1].(process := Idle);
    assert Next(run[|run| - 1], t);
    PathGrows(Next, run, t);
    run := run + [t];
  }

  /** So is a health check of the previous release that fails once the receipt is saved, with no crash at all. */
  lemma FailedProbeIsStuck(s: State, sha: Release) returns (run: seq<State>)
    requires Init(s) && s.selector.Some? && sha !in s.releases
    ensures Reachable(run) && run[0] == s && Stuck(run[|run| - 1]) && run[|run| - 1].process.Idle?
    ensures forall i | 0 <= i < |run| - 1 :: DeployEnters(run[i], run[i + 1], sha) || DeploySaves(run[i], run[i + 1]) || DeployActs(run[i], run[i + 1])
  {
    run := Opening(s, sha);
    var t := run[|run| - 1].(process := DeployCaught(run[|run| - 1].process));
    assert DeployActs(run[|run| - 1], t);
    PathGrows(Next, run, t);
    run := run + [t];
  }

  /** A fresh deploy up to its saved receipt. */
  lemma Opening(s: State, sha: Release) returns (run: seq<State>)
    requires Init(s) && sha !in s.releases
    ensures Reachable(run) && run[0] == s
    ensures forall i | 0 <= i < |run| - 1 :: DeployEnters(run[i], run[i + 1], sha) || DeploySaves(run[i], run[i + 1])
    ensures var r := Recovery(sha, s.selector, Prepared, false);
            run[|run| - 1] == s.(releases := s.releases + {sha}, deploy := Some(r), process := Deploying(ToDecide, r, true, false, false))
  {
    var r := Recovery(sha, s.selector, Prepared, false);
    var a := s.(releases := s.releases + {sha}, process := Deploying(ToSave, r, true, false, false));
    assert DeployEnters(s, a, sha);
    PathGrows(Next, [s], a);
    var b := a.(deploy := Some(r), process := Deploying(ToDecide, r, true, false, false));
    assert DeploySaves(a, b);
    PathGrows(Next, [s] + [a], b);
    run := [s] + [a] + [b];
  }

  /** The same deploy up to its selected candidate. */
  lemma Selecting(s: State, sha: Release) returns (run: seq<State>)
    requires Init(s) && s.selector.Some? && sha !in s.releases
    ensures Reachable(run) && run[0] == s
    ensures var r := Recovery(sha, s.selector, Prepared, false);
            run[|run| - 1] == s.(releases := s.releases + {sha}, deploy := Some(r), selector := Some(sha),
                                 process := Deploying(ToMarkSelected, r, true, false, false))
  {
    run := Opening(s, sha);
    var r := Recovery(sha, s.selector, Prepared, false);
    var b := run[|run| - 1];
    var c := b.(process := Deploying(ToRecordPrepared, r, true, false, false));
    assert DeployDecides(b, c);
    PathGrows(Next, run, c);
    run := run + [c];
    var d := c.(process := Deploying(ToSelectCandidate, r, true, false, false));
    assert DeploySaves(c, d);
    PathGrows(Next, run, d);
    run := run + [d];
    var e := d.(selector := Some(sha), process := Deploying(ToMarkSelected, r, true, false, false));
    assert DeployActs(d, e);
    PathGrows(Next, run, e);
    run := run + [e];
  }

  /** With a deploy pending, a pruning run may delete its previous release exactly when the candidate is selected. */
  lemma PruneTakesPrevious(s: State)
    requires Inv(s) && s.process.Pruning? && s.deploy.Some? && s.deploy.value.previous.Some?
    ensures var p := s.deploy.value.previous.value;
            PruneStep(s, s.(releases := s.releases - {p}), p) <==> s.selector == Some(s.deploy.value.candidate)
  {}

  /** In terms of the store: its previous release is deleted exactly when enough directories are newer. */
  lemma PreviousIsPrunable(s: State, entries: seq<Entry>, e: Entry, keep: nat)
    requires Inv(s) && s.deploy.Some? && s.deploy.value.previous == Some(e.name) && e in entries
    ensures Prunable(entries, e, s.selector, s.files.pins, keep) <==>
            s.selector == Some(s.deploy.value.candidate) && |Newer(All(entries), e)| >= keep
  {}

  /** Whatever a pruning run deletes, the transition system may delete. */
  lemma PrunableIsAStep(s: State, entries: seq<Entry>, e: Entry, keep: nat)
    requires s.process.Pruning? && Prunable(entries, e, s.selector, s.files.pins, keep)
    ensures PruneStep(s, s.(releases := s.releases - {e.name}), e.name)
  {}

  /** A pending deploy whose previous release was deleted is stuck. */
  lemma PrunedPreviousIsStuck(s: State)
    requires Inv(s) && s.deploy.Some? && s.deploy.value.previous.Some? && s.deploy.value.previous.value !in s.releases
    ensures Stuck(s) && NeverActivates(s)
  {
    StuckExactly(s);
  }

  /** Such a state is reached from every first state with a release selected. */
  lemma PendingPreviousIsPruned(s: State, sha: Release) returns (run: seq<State>)
    requires Init(s) && s.selector.Some? && sha !in s.releases
    ensures Reachable(run) && run[0] == s
    ensures var t := run[|run| - 1];
            t.deploy.Some? && t.deploy.value.previous == s.selector && s.selector.value !in t.releases && t.selector == Some(sha)
  {
    run := Selecting(s, sha);
    var a := run[|run| - 1].(process := Idle);
    assert Next(run[|run| - 1], a);
    PathGrows(Next, run, a);
    run := run + [a];
    var b := a.(process := Pruning);
    assert PruneStep(a, b, 0);
    PathGrows(Next, run, b);
    run := run + [b];
    var c := b.(releases := b.releases - {s.selector.value});
    assert PruneStep(b, c, s.selector.value);
    PathGrows(Next, run, c);
    run := run + [c];
  }
}
