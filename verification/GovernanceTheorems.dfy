/** What follows for a reader of the log, for a worker with a claim, and for an administrator. */
module GovernanceTheorems {
  import opened Common
  import opened Governance
  import opened GovernanceSafety
  import opened GovernanceLog

  // ----- The log -----

  /** Replaying the log from the base model at version 0 always reconstructs the deployment, and every
      event continues exactly where the one before it ended. */
  lemma ReplayReconstructsPointer(actions: seq<Action>)
    ensures var s := Run(actions);
            Replay(s.events) == Some(View(Deployed(s.pointer), DeploymentVersion(s.pointer)))
  {
    RunKeepsRecord(actions);
    hide Run, OnceInv, HistoryInv, Inv;
  }

  function OnlySuccesses(events: seq<Event>): seq<Event>
  {
    if events == [] then []
    else
      var e := events[|events| - 1];
      OnlySuccesses(events[..|events| - 1]) + (if e.kind.Success? then [e] else [])
  }

  /** Release events leave the replayed state alone: a log without them replays to the same view. */
  lemma {:induction false} ReleasesDoNotMatter(events: seq<Event>)
    requires Replay(events).Some?
    ensures Replay(OnlySuccesses(events)) == Replay(events)
  {
    if events != [] {
      var earlier, e := events[..|events| - 1], events[|events| - 1];
      ReleasesDoNotMatter(earlier);
      if e.kind.Success? {
        ReplayAppend(OnlySuccesses(earlier), e);
      } else {
        assert OnlySuccesses(events) == OnlySuccesses(earlier);
      }
    }
  }

  /** The success events of a log that replays are numbered 0 to 1, 1 to 2, and so on. */
  lemma {:induction false} SuccessesAreConsecutive(events: seq<Event>)
    requires Replay(events).Some?
    ensures var successes := OnlySuccesses(events);
            && |successes| == Replay(events).value.version
            && forall i | 0 <= i < |successes| :: successes[i].before == i && successes[i].after == i + 1
  {
    if events != [] {
      SuccessesAreConsecutive(events[..|events| - 1]);
    }
  }

  // ----- Retentions -----

  function ActiveRetentions(retentions: seq<Retention>, k: Key): nat
  {
    if retentions == [] then 0
    else ActiveRetentions(retentions[..|retentions| - 1], k) + (if Holds(retentions[|retentions| - 1], k) then 1 else 0)
  }

  lemma {:induction false} OneRetention(retentions: seq<Retention>, k: Key)
    requires forall i, j | 0 <= i < j < |retentions| ::
               retentions[i].status == Retained && retentions[j].status == Retained ==>
                 retentions[i].target.key != retentions[j].target.key
    ensures ActiveRetentions(retentions, k) == (if RetentionOf(retentions, k).Some? then 1 else 0)
  {
    if retentions != [] {
      OneRetention(retentions[..|retentions| - 1], k);
    }
  }

  predicate Left(events: seq<Event>, k: Key)
  {
    exists j | 0 <= j < |events| :: events[j].kind.Success? && events[j].from == Some(k)
  }

  predicate Release(e: Event, retentions: seq<Retention>, k: Key)
  {
    e.kind.RetentionRelease? && e.retention.Some? && e.retention.value < |retentions|
    && retentions[e.retention.value].target.key == k
  }

  /** Event `j` released the retention of `k`, and no later event left `k` again. */
  predicate LastReleased(events: seq<Event>, retentions: seq<Retention>, k: Key, j: nat)
  {
    j < |events| && Release(events[j], retentions, k)
    && forall m | j < m < |events| :: !(events[m].kind.Success? && events[m].from == Some(k))
  }

  lemma {:induction false} TrackMeans(events: seq<Event>, retentions: seq<Retention>, k: Key)
    ensures var t := Track(events, retentions, k);
            && (t == NeverLeft ==> !Left(events, k))
            && (t == LetGo ==> exists j :: LastReleased(events, retentions, k, j))
  {
    if events != [] {
      var n := |events| - 1;
      TrackMeans(events[..n], retentions, k);
      var before := Track(events[..n], retentions, k);
      assert forall j | 0 <= j < n :: events[..n][j] == events[j];
      if Track(events, retentions, k) == LetGo {
        if Release(events[n], retentions, k) {
          assert LastReleased(events, retentions, k, n);
        } else {
          var j :| LastReleased(events[..n], retentions, k, j);
          assert LastReleased(events, retentions, k, j);
        }
      }
    }
  }

  /** Retention history: no adapter version ever has two active retentions; one that some event moved
      away from and that is not deployed has exactly one, unless it was released by hand since it was
      last left. */
  lemma RetentionHistory(actions: seq<Action>, k: Key)
    ensures var s := Run(actions);
            && ActiveRetentions(s.retentions, k) <= 1
            && (Left(s.events, k) && DeployedKey(s.pointer) != Some(k) ==>
                  || ActiveRetentions(s.retentions, k) == 1
                  || exists j :: LastReleased(s.events, s.retentions, k, j))
  {
    var s := Run(actions);
    RunKeepsRecord(actions);
    assert RetentionsInv(s.retentions, s.reviews, s.adapters);
    OneRetention(s.retentions, k);
    TrackMeans(s.events, s.retentions, k);
    hide Run, Track, LastReleased, Inv, LogInv, OnceInv, Left;
  }

  // ----- Exactly once -----

  /** An operation has one success event and one success audit if it has succeeded, and none otherwise;
      the deployment version counts the operations that have succeeded. */
  lemma ExactlyOnce(actions: seq<Action>, i: nat)
    ensures var s := Run(actions);
            && Successes(s.events, i) == Audits(s.audits, i) == (if HasSucceeded(s.operations, i) then 1 else 0)
            && DeploymentVersion(s.pointer) == SucceededIn(s.operations)
  {
    RunKeepsRecord(actions);
    hide Run, Inv, LogInv, HistoryInv;
  }

  /** A token that is not live changes nothing, through any of the three worker transactions. */
  lemma StaleTokenIsInert(s: State, i: nat, claim: Claim, found: Findings, seconds: nat, cancelled: bool)
    requires i < |s.operations| ==> !LiveClaim(s.operations[i], claim, s.clock)
    ensures Heartbeat(s, i, claim, seconds) == (s, Raised(ClaimLost))
    ensures Finalize(s, i, claim, found).0 == s
    ensures Fail(s, i, claim, cancelled) == (s, Nothing)
  {
  }

  /** The token was issued, and is live nowhere any more. */
  predicate Stale(s: State, claim: Claim)
  {
    claim.token < s.tokens && forall op | op in s.operations :: !LiveClaim(op, claim, s.clock)
  }

  /** A superseded or expired token never becomes live again. */
  lemma StaleStaysStale(s: State, a: Action, claim: Claim)
    requires Stale(s, claim)
    ensures Stale(Act(s, a), claim)
  {
    hide PurgeFenced, SnapshotMatches, Approvable, Reviewable, RetentionOf, AnyActive, ActiveEvaluation, PendingReview,
         ApprovedTarget, FinalizeRefusal, Leave, Reactivate, CurrentAuthorityStands, LiveCurrent, SuccessEvent,
         CreateAdapter, ValidateAdapter, ReleaseUpstream, EnqueueEvaluation, UpdateEvaluation, RegisterPurge,
         FinalizePurge, StartReview, TransitionReview, ReleaseRetention;
    if a.DoCreate? || a.DoValidate? || a.DoReleaseUpstream? || a.DoEvaluate? || a.DoUpdateEvaluation?
       || a.DoRegisterPurge?
       || a.DoFinalizePurge? || a.DoStartReview? || a.DoTransition? || a.DoReleaseRetention? {
      RowActionsKeepClaims(s, a);
    } else {
      var next := Act(s, a);
      forall op | op in next.operations ensures !LiveClaim(op, claim, next.clock) {
        var i :| 0 <= i < |next.operations| && next.operations[i] == op;
        assert i < |s.operations| ==> s.operations[i] in s.operations;
      }
    }
  }

  lemma RowActionsKeepClaims(s: State, a: Action)
    requires || a.DoCreate? || a.DoValidate? || a.DoReleaseUpstream? || a.DoEvaluate? || a.DoUpdateEvaluation?
             || a.DoRegisterPurge?
             || a.DoFinalizePurge? || a.DoStartReview? || a.DoTransition? || a.DoReleaseRetention?
    ensures var next := Act(s, a); next.operations == s.operations && next.tokens == s.tokens && next.clock == s.clock
  {
    hide PurgeFenced, SnapshotMatches, Approvable, Reviewable, RetentionOf, AnyActive, ActiveEvaluation, PendingReview,
         CurrentAuthorityStands, LiveCurrent;
  }

  predicate Finished(op: Operation) { op.status == Succeeded || op.status == Failed || op.status == Cancelled }

  /** A finished operation is final: no transaction rewrites it. */
  lemma FinishedStays(s: State, a: Action, i: nat)
    requires i < |s.operations| && Finished(s.operations[i])
    ensures i < |Act(s, a).operations| && Act(s, a).operations[i] == s.operations[i]
  {
    hide PurgeFenced, SnapshotMatches, Approvable, Reviewable, RetentionOf, AnyActive, ActiveEvaluation, PendingReview,
         ApprovedTarget, FinalizeRefusal, Leave, Reactivate, CurrentAuthorityStands, LiveCurrent, SuccessEvent,
         CreateAdapter, ValidateAdapter, ReleaseUpstream, EnqueueEvaluation, UpdateEvaluation, RegisterPurge,
         FinalizePurge, StartReview, TransitionReview, ReleaseRetention, Finalize;
    if a.DoFinalize? {
      FinishedIsNotFinalized(s, a.operation, a.claim, a.found, i);
    } else if a.DoCreate? || a.DoValidate? || a.DoReleaseUpstream? || a.DoEvaluate? || a.DoUpdateEvaluation?
              || a.DoRegisterPurge?
       || a.DoFinalizePurge? || a.DoStartReview? || a.DoTransition? || a.DoReleaseRetention? {
      RowActionsKeepClaims(s, a);
    }
  }

  lemma FinishedIsNotFinalized(s: State, j: nat, claim: Claim, found: Findings, i: nat)
    requires i < |s.operations| && Finished(s.operations[i])
    ensures var next := Finalize(s, j, claim, found).0;
            i < |next.operations| && next.operations[i] == s.operations[i]
  {
    hide Leave, Reactivate, SuccessEvent, ApprovedTarget;
  }

  /** The operation has been asked to stop, and has not succeeded. */
  predicate Withdrawn(op: Operation) { op.cancelRequested && op.status != Succeeded }

  lemma WithdrawnStays(s: State, a: Action, i: nat)
    requires i < |s.operations| && Withdrawn(s.operations[i])
    ensures i < |Act(s, a).operations| && Withdrawn(Act(s, a).operations[i])
  {
    hide PurgeFenced, SnapshotMatches, Approvable, Reviewable, RetentionOf, AnyActive, ActiveEvaluation, PendingReview,
         ApprovedTarget, Leave, Reactivate, CurrentAuthorityStands, LiveCurrent, SuccessEvent, CreateAdapter,
         ValidateAdapter, ReleaseUpstream, EnqueueEvaluation, UpdateEvaluation, RegisterPurge, FinalizePurge,
         StartReview, TransitionReview, ReleaseRetention, Finalize;
    if a.DoFinalize? {
      WithdrawnIsNotFinalized(s, a.operation, a.claim, a.found, i);
    } else if a.DoCreate? || a.DoValidate? || a.DoReleaseUpstream? || a.DoEvaluate? || a.DoUpdateEvaluation?
              || a.DoRegisterPurge?
       || a.DoFinalizePurge? || a.DoStartReview? || a.DoTransition? || a.DoReleaseRetention? {
      RowActionsKeepClaims(s, a);
    }
  }

  lemma WithdrawnIsNotFinalized(s: State, j: nat, claim: Claim, found: Findings, i: nat)
    requires i < |s.operations| && Withdrawn(s.operations[i])
    ensures var next := Finalize(s, j, claim, found).0;
            i < |next.operations| && next.operations[i] == s.operations[i]
  {
    hide Leave, Reactivate, SuccessEvent, ApprovedTarget;
  }

  /** Cancellation is final: once a cancellation is accepted, no run whatever deploys the operation. */
  lemma {:induction false} CancelledNeverDeploys(actions: seq<Action>, i: nat, expected: nat, more: seq<Action>)
    requires CancelOperation(Run(actions), i, expected).1 == Done
    ensures var s := Run(actions + [DoCancel(i, expected)] + more);
            i < |s.operations| && Withdrawn(s.operations[i]) && Successes(s.events, i) == 0
  {
    var all := actions + [DoCancel(i, expected)] + more;
    RunKeepsRecord(all);
    hide Act, Successes;
    if more == [] {
      assert all[..|all| - 1] == actions && all[|all| - 1] == DoCancel(i, expected);
      CancelWithdraws(Run(actions), i, expected);
    } else {
      var k := |more| - 1;
      assert all[..|all| - 1] == actions + [DoCancel(i, expected)] + more[..k] && all[|all| - 1] == more[k];
      CancelledNeverDeploys(actions, i, expected, more[..k]);
      WithdrawnStays(Run(actions + [DoCancel(i, expected)] + more[..k]), more[k], i);
    }
    hide Run, Inv, LogInv, HistoryInv, Audits, SucceededIn;
  }

  lemma CancelWithdraws(s: State, i: nat, expected: nat)
    requires CancelOperation(s, i, expected).1 == Done
    ensures var next := Act(s, DoCancel(i, expected));
            i < |next.operations| && Withdrawn(next.operations[i])
  {
  }

  // ----- Stable targets -----

  /** Another review already retains the deployed adapter version. */
  predicate Trapped(s: State)
  {
    && Deployed(s.pointer).Some?
    && var t := Deployed(s.pointer).value;
       var r := RetentionOf(s.retentions, t.key);
       r.Some? && s.retentions[r.value].target != t
  }

  lemma StandingIsApproved(s: State, t: Target, authority: bool)
    requires Inv(s) && Stands(t, s.reviews) && Live(s.adapters, t.key)
    ensures ApprovedTarget(s, t.key, t.review, t.reviewVersion, authority) == if authority then Some(t) else None
  {
    hide RetentionsInv, OperationsInv, PointerInv;
  }

  lemma LeaveSucceeds(s: State, outgoingAuthority: bool)
    requires Inv(s)
    ensures Leave(s, outgoingAuthority).0.None?
            <==> Deployed(s.pointer).None? || (outgoingAuthority && !Trapped(s))
  {
    var out := Deployed(s.pointer);
    if out.Some? {
      StandingIsApproved(s, out.value, outgoingAuthority);
    }
    hide Inv, ApprovedTarget;
  }

  /** A live, uncancelled operation finalizes if and only if the rows outside the model allow it and the
      department is not trapped: neither the deployment version nor the target, its review or its
      retention can have changed since it was queued. */
  lemma LiveFinalizeSucceedsExactly(actions: seq<Action>, i: nat, claim: Claim, found: Findings)
    requires var s := Run(actions);
             i < |s.operations| && LiveClaim(s.operations[i], claim, s.clock) && !s.operations[i].cancelRequested
    ensures var s := Run(actions);
            var reply := Finalize(s, i, claim, found).1;
            && reply != Raised(DeploymentVersionConflict) && reply != Raised(RollbackTargetUnavailable)
            && (reply == Done <==>
                  && found.departmentActive && !found.shutdown && found.requester
                  && (s.operations[i].kind != RollbackBase ==> found.artifacts && found.targetAuthority)
                  && (Deployed(s.pointer).Some? ==> found.outgoingAuthority && !Trapped(s)))
  {
    var s := Run(actions);
    RunKeepsInv(actions);
    ActiveIsStable(s, i);
    var op := s.operations[i];
    if op.target.Some? { StandingIsApproved(s, op.target.value, found.targetAuthority); }
    LeaveSucceeds(s, found.outgoingAuthority);
    hide Run, Inv, Leave, Trapped, ApprovedTarget, Stands;
  }

  // ----- The trap -----

  /** The trap is reachable whenever an adapter version that one review retains can be promoted under
      another: queue it, claim it, finalize it. */
  lemma PromotionUnderAnotherReviewTraps(s: State, key: Key, r: nat, er: nat, worker: nat, seconds: nat)
    requires Inv(s) && RetentionOf(s.retentions, key).Some? && seconds > 0
    requires s.retentions[RetentionOf(s.retentions, key).value].target.review != r
    requires EnqueuePromotion(s, key, r, er, DeploymentVersion(s.pointer), true).1 == Done
    requires Deployed(s.pointer).Some? ==> !Trapped(s)
    ensures var queued := EnqueuePromotion(s, key, r, er, DeploymentVersion(s.pointer), true).0;
            var (claimed, claim) := ClaimNext(queued, worker, seconds);
            claim.Some? && claim.value.0 == |s.operations| &&
            var (next, reply) := Finalize(claimed, claim.value.0, claim.value.1,
                                          Findings(true, false, true, true, true, true));
            reply == Done && Trapped(next)
  {
    var t := ApprovedTarget(s, key, r, er, true);
    ApprovedStands(s, key, r, er, true);
    PromotionKeepsInv(s, key, r, er, DeploymentVersion(s.pointer), true);
    var queued := EnqueuePromotion(s, key, r, er, DeploymentVersion(s.pointer), true).0;
    var op := NewOperation(s, Promote, t, None);
    assert queued == Enqueued(s, op);
    OnlyClaimable(s, op);
    ClaimKeepsInv(queued, worker, seconds);
    var (claimed, claim) := ClaimNext(queued, worker, seconds);
    var found := Findings(true, false, true, true, true, true);
    var i := |s.operations|;
    ActiveIsStable(claimed, i);
    StandingIsApproved(claimed, t.value, true);
    LeaveSucceeds(claimed, true);
    LeaveKeepsInv(claimed, true);
    TrapCloses(claimed, i, claim.value.1, found, key, t.value);
  }

  lemma OnlyClaimable(s: State, op: Operation)
    requires !AnyActive(s.operations) && op.status == Queued
    ensures OldestClaimable(s.operations + [op], s.clock) == Some(|s.operations|)
  {
    assert (s.operations + [op])[|s.operations|] == op;
    assert forall j | 0 <= j < |s.operations| ::
        (s.operations + [op])[j] == s.operations[j] && !IsActive(s.operations[j]);
  }

  lemma TrapCloses(s: State, i: nat, claim: Claim, found: Findings, key: Key, t: Target)
    requires Inv(s) && i < |s.operations| && LiveClaim(s.operations[i], claim, s.clock)
             && !s.operations[i].cancelRequested
    requires s.operations[i].kind == Promote && s.operations[i].target == Some(t) && t.key == key
    requires found == Findings(true, false, true, true, true, true)
    requires RetentionOf(s.retentions, key).Some? && s.retentions[RetentionOf(s.retentions, key).value].target != t
    requires Deployed(s.pointer).Some? ==> !Trapped(s)
    ensures var (next, reply) := Finalize(s, i, claim, found); reply == Done && Trapped(next)
  {
    ActiveIsStable(s, i);
    StandingIsApproved(s, t, true);
    LeaveSucceeds(s, true);
    LeaveKeepsInv(s, true);
    var left := Leave(s, true);
    hide Leave, Inv, ApprovedTarget, Stands, RetentionOf;
    assert FinalizeRefusal(s, s.operations[i], claim, found).None?;
    assert Finalize(s, i, claim, found).0 == Committed(s, i, s.operations[i], left.1, left.2);
  }

  /** The trap has no exit: no transaction whatever moves the deployment or ends the other retention. */
  lemma TrapHolds(s: State, a: Action)
    requires Inv(s) && Trapped(s)
    ensures Trapped(Act(s, a)) && Deployed(Act(s, a).pointer) == Deployed(s.pointer)
  {
    if a.DoFinalize? {
      LeaveSucceeds(s, a.found.outgoingAuthority);
      hide Leave, FinalizeRefusal, Trapped;
    } else if a.DoReleaseRetention? {
      ReleaseKeepsTrap(s, a.adapter, a.retention, a.expected);
    } else {
      OthersKeepDeployment(s, a);
      hide Act;
    }
  }

  lemma OthersKeepDeployment(s: State, a: Action)
    requires !a.DoFinalize? && !a.DoReleaseRetention?
    ensures Act(s, a).pointer == s.pointer && Act(s, a).retentions == s.retentions
  {
    hide PurgeFenced, SnapshotMatches, Approvable, Reviewable, RetentionOf, AnyActive, ActiveEvaluation, PendingReview,
         ApprovedTarget;
  }

  lemma ReleaseKeepsTrap(s: State, a: nat, retention: RetentionRef, expected: nat)
    requires Inv(s) && Trapped(s)
    ensures var next := ReleaseRetention(s, a, retention, expected).0;
            Trapped(next) && next.pointer == s.pointer
  {
    var (next, reply) := ReleaseRetention(s, a, retention, expected);
    if reply == Done {
      var k := Deployed(s.pointer).value.key;
      var held, kept := RetentionOf(s.retentions, k).value, RetentionOf(next.retentions, k);
      hide CurrentAuthorityStands, LiveCurrent, AnyActive, ActiveEvaluation, PendingReview, Stands, Grounded,
           EvaluationsInv, ReviewsInv, OperationsInv, PurgesInv;
      assert s.retentions[retention.id].target.key != k;
      assert Holds(next.retentions[held], k);
      assert Holds(s.retentions[kept.value], k);
    }
  }

  /** A trapped department stays on the adapter it is on, over every further run. */
  lemma {:induction false} TrapIsForever(actions: seq<Action>, more: seq<Action>)
    requires Trapped(Run(actions))
    ensures Trapped(Run(actions + more)) && Deployed(Run(actions + more).pointer) == Deployed(Run(actions).pointer)
  {
    hide Trapped, Act, Deployed;
    if more == [] {
      assert actions + more == actions;
    } else {
      var k, all := |more| - 1, actions + more;
      assert all[..|all| - 1] == actions + more[..k] && all[|all| - 1] == more[k];
      TrapIsForever(actions, more[..k]);
      RunKeepsInv(actions + more[..k]);
      TrapHolds(Run(actions + more[..k]), more[k]);
    }
  }
}
