/** Exactly which governance requests are accepted in a reachable department, and what each of them writes
    (adapter_governance_services.py, adapter_governance_worker.py, and the fences of adapter_purge.py). */
module GovernanceAdmission {
  import opened Common
  import opened Governance
  import opened GovernanceSafety
  import opened GovernanceTheorems

  // ----- What a caller can see -----

  predicate Quiet(s: State) { forall op | op in s.operations :: op.status != Queued && op.status != Running }

  predicate VersionIs(s: State, expected: nat)
  {
    expected == if s.pointer.None? then 0 else s.pointer.value.deploymentVersion
  }

  predicate IsDeployed(s: State, key: Key)
  {
    s.pointer.Some? && s.pointer.value.target.Some? && s.pointer.value.target.value.key == key
  }

  predicate IsRetained(s: State, key: Key)
  {
    exists r | r in s.retentions :: r.status == Retained && r.target.key == key
  }

  predicate UnderEvaluation(s: State, a: nat)
  {
    exists e | e in s.evaluations :: e.adapter == a && e.status == EvaluationActive
  }

  predicate UnderReview(s: State, key: Key)
  {
    exists r | r in s.reviews :: Key(r.adapter, r.adapterVersion) == key && r.status == Pending
  }

  predicate InOperation(s: State, a: nat)
  {
    exists op | op in s.operations ::
      (op.status == Queued || op.status == Running)
      && ((op.target.Some? && op.target.value.key.adapter == a) || (op.current.Some? && op.current.value.adapter == a))
  }

  /** The model's own words for the same. */
  lemma SameWords(s: State)
    ensures Quiet(s) <==> !AnyActive(s.operations)
    ensures forall v :: VersionIs(s, v) <==> DeploymentVersion(s.pointer) == v
    ensures forall k :: IsDeployed(s, k) <==> DeployedKey(s.pointer) == Some(k)
    ensures forall k :: IsRetained(s, k) <==> RetentionOf(s.retentions, k).Some?
    ensures forall a :: UnderEvaluation(s, a) <==> ActiveEvaluation(s.evaluations, a)
    ensures forall k :: UnderReview(s, k) <==> PendingReview(s.reviews, k)
  {
    assert forall op | op in s.operations :: exists i | 0 <= i < |s.operations| :: s.operations[i] == op;
    forall k ensures IsRetained(s, k) <==> RetentionOf(s.retentions, k).Some? {
      if RetentionOf(s.retentions, k).Some? { assert s.retentions[RetentionOf(s.retentions, k).value] in s.retentions; }
    }
  }

  lemma WordsFor(s: State, a: nat, key: Key)
    ensures Quiet(s) <==> !AnyActive(s.operations)
    ensures IsDeployed(s, key) <==> DeployedKey(s.pointer) == Some(key)
    ensures UnderEvaluation(s, a) <==> ActiveEvaluation(s.evaluations, a)
    ensures UnderReview(s, key) <==> PendingReview(s.reviews, key)
  {
    SameWords(s);
  }

  lemma EvaluationWord(s: State, a: nat)
    ensures UnderEvaluation(s, a) <==> ActiveEvaluation(s.evaluations, a)
  {
    SameWords(s);
  }

  // ----- Enqueueing -----

  /** A queued operation as it is appended. */
  function Appended(s: State, kind: OperationKind, expected: nat, target: Option<Target>,
                    retention: Option<RetentionRef>): State
  {
    var deployed := s.pointer.Some? && s.pointer.value.target.Some?;
    var current := if deployed then Some(s.pointer.value.target.value.key) else None;
    s.(operations := s.operations
                     + [Operation(kind, Queued, expected, target, retention, current, None, 0, false, false, 1, 1)])
  }

  /** A promotion is accepted if and only if the department is quiet at the expected version and the review, at
      the version that the caller saw, has approved the adapter at its present version, which is not the
      deployed one.  The target's evaluation needs no check of the caller: it stands as it was approved. */
  lemma PromotionExactly(actions: seq<Action>, key: Key, r: nat, er: nat, expected: nat, authority: bool)
    ensures var s := Run(actions);
            EnqueuePromotion(s, key, r, er, expected, authority)
            == if && VersionIs(s, expected) && Quiet(s) && authority && !IsDeployed(s, key)
                  && r < |s.reviews| && s.reviews[r].status == Approved && s.reviews[r].version == er
                  && Key(s.reviews[r].adapter, s.reviews[r].adapterVersion) == key
                  && key.adapter < |s.adapters| && s.adapters[key.adapter].version == key.version
               then
                 var v := s.reviews[r];
                 (Appended(s, Promote, expected, Some(Target(key, r, er, v.evaluation, v.evaluationVersion, v.suite)),
                           None),
                  Done)
               else (s, Conflict)
  {
    var s := Run(actions);
    RunKeepsInv(actions);
    SameWords(s);
    hide Run, Quiet, AnyActive, OperationsInv, RetentionsInv, PointerInv;
  }

  lemma RollbackToBaseExactly(s: State, expected: nat)
    ensures EnqueueRollbackToBase(s, expected)
            == if VersionIs(s, expected) && Quiet(s) && s.pointer.Some? && s.pointer.value.target.Some?
               then (Appended(s, RollbackBase, expected, None, None), Done)
               else (s, Conflict)
  {
    SameWords(s);
    hide Quiet, AnyActive;
  }

  /** A rollback to an adapter is accepted if and only if the department is quiet at the expected version and the
      named retention, at the version that the caller saw, still holds that adapter version, which is not the
      deployed one; its target is exactly what was retained. */
  lemma RollbackToAdapterExactly(actions: seq<Action>, key: Key, retention: RetentionRef, expected: nat,
                                 authority: bool)
    ensures var s := Run(actions);
            EnqueueRollbackToAdapter(s, key, retention, expected, authority)
            == if && s.pointer.Some? && VersionIs(s, expected) && Quiet(s) && authority && !IsDeployed(s, key)
                  && retention.id < |s.retentions| && s.retentions[retention.id].version == retention.version
                  && s.retentions[retention.id].status == Retained && s.retentions[retention.id].target.key == key
               then (Appended(s, RollbackAdapter, expected, Some(s.retentions[retention.id].target), Some(retention)),
                     Done)
               else (s, Conflict)
  {
    var s := Run(actions);
    RunKeepsInv(actions);
    SameWords(s);
    hide Run, Quiet, AnyActive, OperationsInv, PointerInv;
    if retention.id < |s.retentions| && s.retentions[retention.id].status == Retained {
      var t := s.retentions[retention.id].target;
      assert Stands(t, s.reviews) && Live(s.adapters, t.key);
      assert Grounded(s.reviews[t.review], s.evaluations);
    }
  }

  // ----- Reviews -----

  /** A review opens if and only if the evaluation, at the version that the caller saw, has succeeded on the
      adapter's present version, no evaluation of the adapter is active and no review of that version pending. */
  lemma StartReviewExactly(actions: seq<Action>, a: nat, e: nat, ea: nat, ee: nat, authority: bool)
    ensures var s := Run(actions);
            StartReview(s, a, e, ea, ee, authority)
            == if e >= |s.evaluations| || a >= |s.adapters| || s.evaluations[e].adapter != a then (s, NotFound)
               else if && authority && s.evaluations[e].version == ee && s.evaluations[e].adapterVersion == ea
                       && s.adapters[a].version == ea && s.evaluations[e].status.EvaluationSucceeded?
                       && !UnderEvaluation(s, a) && !UnderReview(s, Key(a, ea))
               then (s.(reviews := s.reviews + [Review(a, ea, e, ee, s.evaluations[e].suite, Pending, 1)]), Done)
               else (s, Conflict)
  {
    var s := Run(actions);
    RunKeepsInv(actions);
    SameWords(s);
    hide Run, UnderEvaluation, UnderReview, ActiveEvaluation, PendingReview, OperationsInv, RetentionsInv, PointerInv;
    if e < |s.evaluations| && s.evaluations[e].status.EvaluationSucceeded? {
      assert Known(s.adapters, Key(s.evaluations[e].adapter, s.evaluations[e].adapterVersion));
    }
  }

  /** A pending review is approved if and only if its evaluation passed, and rejected without that; it is archived
      once it is rejected, or approved while its adapter version is neither deployed nor retained and the
      department is quiet.  Every transition needs the versions that the caller saw and the adapter as it was
      reviewed. */
  lemma TransitionExactly(actions: seq<Action>, r: nat, action: ReviewAction, ea: nat, er: nat, authority: bool)
    ensures var s := Run(actions);
            TransitionReview(s, r, action, ea, er, authority)
            == if r >= |s.reviews| then (s, NotFound)
               else
                 var v := s.reviews[r];
                 var key := Key(v.adapter, v.adapterVersion);
                 var allowed :=
                   match action
                   case Approve =>
                     v.status == Pending && v.evaluation < |s.evaluations|
                     && s.evaluations[v.evaluation].status == EvaluationSucceeded(true)
                   case Reject => v.status == Pending
                   case Archive =>
                     v.status == Rejected
                     || (v.status == Approved && !IsDeployed(s, key) && !IsRetained(s, key) && Quiet(s));
                 var status := match action case Approve => Approved case Reject => Rejected case Archive => Archived;
                 if && v.version == er && v.adapterVersion == ea && authority && allowed
                    && v.adapter < |s.adapters| && s.adapters[v.adapter].version == ea
                 then (s.(reviews := s.reviews[r := v.(status := status, version := er + 1)]), Done)
                 else (s, Conflict)
  {
    var s := Run(actions);
    RunKeepsInv(actions);
    SameWords(s);
    hide Run, Quiet, AnyActive, IsRetained, OperationsInv, RetentionsInv, PointerInv;
    if r < |s.reviews| {
      var v := s.reviews[r];
      assert Grounded(v, s.evaluations) && Known(s.adapters, Key(v.adapter, v.adapterVersion));
    }
  }

  // ----- Cancelling, claiming, renewing and failing -----

  /** An active operation is cancelled at the version that the caller saw: at once if it is queued, and as a request
      if it is running. */
  lemma CancelExactly(s: State, i: nat, expected: nat)
    ensures CancelOperation(s, i, expected)
            == if i >= |s.operations| then (s, NotFound)
               else
                 var op := s.operations[i];
                 if op.version == expected && op.status in {Queued, Running} then
                   (s.(operations := s.operations[i := op.(cancelRequested := true, version := expected + 1,
                                                           status := if op.status == Queued then Cancelled
                                                                     else Running)]),
                    Done)
                 else (s, Conflict)
  {
  }

  /** In a reachable department a claim takes the one active operation, if it is queued or its lease has run out:
      under a token never drawn before, with a lease of exactly `seconds`, and as a further attempt if it was
      claimed before. */
  lemma ClaimExactly(actions: seq<Action>, worker: nat, seconds: nat, i: nat)
    requires i < |Run(actions).operations| && Run(actions).operations[i].status in {Queued, Running}
    ensures var s := Run(actions);
            var op := s.operations[i];
            ClaimNext(s, worker, seconds)
            == if op.status == Queued || op.lease <= s.clock then
                 (s.(operations := s.operations[i := op.(
                       status := Running, claim := Some(Claim(worker, s.tokens)), lease := s.clock + seconds,
                       started := true,
                       attempt := if op.started then op.attempt + 1 else op.attempt, version := op.version + 1)],
                     tokens := s.tokens + 1),
                  Some((i, Claim(worker, s.tokens))))
               else (s, None)
  {
    var s := Run(actions);
    RunKeepsInv(actions);
    hide Run, StableTarget;
    ActiveIsAlone(s, i);
  }

  lemma ActiveIsAlone(s: State, i: nat)
    requires Inv(s) && i < |s.operations| && IsActive(s.operations[i])
    ensures OldestClaimable(s.operations, s.clock) == if Claimable(s.operations[i], s.clock) then Some(i) else None
  {
    hide StableTarget;
    var candidate := OldestClaimable(s.operations, s.clock);
    if candidate.Some? { assert IsActive(s.operations[candidate.value]); }
  }

  lemma NothingToClaim(actions: seq<Action>, worker: nat, seconds: nat)
    requires Quiet(Run(actions))
    ensures ClaimNext(Run(actions), worker, seconds) == (Run(actions), None)
  {
    hide Run;
    var operations := Run(actions).operations;
    forall i | 0 <= i < |operations| ensures !Claimable(operations[i], Run(actions).clock) {
      assert operations[i] in operations;
    }
  }

  /** Whether the claim is the operation's own and its lease runs. */
  predicate Owns(s: State, i: nat, claim: Claim)
  {
    i < |s.operations| && s.operations[i].status == Running && s.operations[i].claim == Some(claim)
    && s.clock < s.operations[i].lease
  }

  lemma HeartbeatExactly(s: State, i: nat, claim: Claim, seconds: nat)
    ensures Heartbeat(s, i, claim, seconds)
            == if !Owns(s, i, claim) then (s, Raised(ClaimLost))
               else if s.operations[i].cancelRequested then (s, Raised(OperationCancelled))
               else
                 var op := s.operations[i];
                 (s.(operations := s.operations[i := op.(lease := s.clock + seconds, version := op.version + 1)]), Done)
  {
  }

  /** The owner ends its operation: cancelled if that was requested, and failed otherwise; a report of a
      cancellation that nobody requested is ignored. */
  lemma FailExactly(s: State, i: nat, claim: Claim, cancelled: bool)
    ensures Fail(s, i, claim, cancelled)
            == if !Owns(s, i, claim) || (cancelled && !s.operations[i].cancelRequested) then (s, Nothing)
               else
                 var op := s.operations[i];
                 (s.(operations := s.operations[i := op.(
                       status := if op.cancelRequested then Cancelled else Failed, claim := None, lease := 0,
                       version := op.version + 1)]),
                  Done)
  {
  }

  // ----- Leases -----

  /** The action is taken in the name of the claim. */
  predicate Uses(a: Action, claim: Claim)
  {
    (a.DoHeartbeat? || a.DoFinalize? || a.DoFail?) && a.claim == claim
  }

  lemma OthersLeaveClaim(s: State, a: Action, i: nat, claim: Claim)
    requires Inv(s) && Owns(s, i, claim) && !Uses(a, claim)
    ensures var next := Act(s, a);
            i < |next.operations| && next.operations[i].status == Running && next.operations[i].claim == Some(claim)
            && next.operations[i].lease == s.operations[i].lease && next.clock >= s.clock
  {
    hide StableTarget, Leave, ApprovedTarget, SnapshotMatches, PurgeFenced, CurrentAuthorityStands;
    ActiveIsAlone(s, i);
  }

  /** A granted lease is kept: whatever everyone else does, until the lease has run out the operation stays with its
      claim, no other claim takes it, and the lease neither grows nor shrinks. */
  lemma {:induction false} LeaseIsKept(actions: seq<Action>, more: seq<Action>, i: nat, claim: Claim)
    requires Owns(Run(actions), i, claim) && forall a | a in more :: !Uses(a, claim)
    ensures var start, now := Run(actions), Run(actions + more);
            && now.clock >= start.clock
            && (now.clock < start.operations[i].lease ==>
                  Owns(now, i, claim) && now.operations[i].lease == start.operations[i].lease)
  {
    hide Act;
    if more == [] {
      assert actions + more == actions;
    } else {
      var n, all := |more| - 1, actions + more;
      assert all[..|all| - 1] == actions + more[..n] && all[|all| - 1] == more[n] && more[n] in more;
      LeaseIsKept(actions, more[..n], i, claim);
      RunKeepsInv(actions + more[..n]);
      ClockNeverFalls(Run(actions + more[..n]), more[n]);
      if Run(all).clock < Run(actions).operations[i].lease {
        OthersLeaveClaim(Run(actions + more[..n]), more[n], i, claim);
      }
    }
  }

  lemma ClockNeverFalls(s: State, a: Action)
    ensures Act(s, a).clock >= s.clock
  {
    hide FinalizeRefusal, Leave, ApprovedTarget, SnapshotMatches, PurgeFenced, CurrentAuthorityStands;
  }

  /** Claiming grants exactly `seconds`: from then on, first claim or reclaim alike, the claim is live at every moment
      before `now + seconds`, whatever everyone else does. */
  lemma ClaimIsLive(actions: seq<Action>, worker: nat, seconds: nat, more: seq<Action>)
    requires var granted := ClaimNext(Run(actions), worker, seconds).1;
             seconds > 0 && granted.Some? && forall a | a in more :: !Uses(a, granted.value.1)
    ensures var (i, claim) := ClaimNext(Run(actions), worker, seconds).1.value;
            var now := Run(actions + [DoClaim(worker, seconds)] + more);
            now.clock < Run(actions).clock + seconds ==> Owns(now, i, claim) && !Claimable(now.operations[i], now.clock)
  {
    var all := actions + [DoClaim(worker, seconds)];
    assert all[..|all| - 1] == actions && all[|all| - 1] == DoClaim(worker, seconds);
    var (i, claim) := ClaimNext(Run(actions), worker, seconds).1.value;
    LeaseIsKept(all, more, i, claim);
  }

  /** A heartbeat of the owner does the same from its own moment. */
  lemma HeartbeatIsLive(actions: seq<Action>, i: nat, claim: Claim, seconds: nat, more: seq<Action>)
    requires Owns(Run(actions), i, claim) && !Run(actions).operations[i].cancelRequested && seconds > 0
    requires forall a | a in more :: !Uses(a, claim)
    ensures var now := Run(actions + [DoHeartbeat(i, claim, seconds)] + more);
            now.clock < Run(actions).clock + seconds ==> Owns(now, i, claim) && !Claimable(now.operations[i], now.clock)
  {
    var all := actions + [DoHeartbeat(i, claim, seconds)];
    assert all[..|all| - 1] == actions && all[|all| - 1] == DoHeartbeat(i, claim, seconds);
    LeaseIsKept(all, more, i, claim);
  }

  function Ticks(n: nat): seq<Action> { if n == 0 then [] else Ticks(n - 1) + [DoTick] }

  lemma RunLast(actions: seq<Action>, a: Action)
    ensures Run(actions + [a]) == Act(Run(actions), a)
  {
    hide Act;
    assert (actions + [a])[..|actions + [a]| - 1] == actions;
  }

  lemma TickTicks(s: State)
    ensures Act(s, DoTick) == s.(clock := s.clock + 1)
  {
  }

  lemma {:induction false} TimePasses(actions: seq<Action>, n: nat)
    ensures Run(actions + Ticks(n)) == Run(actions).(clock := Run(actions).clock + n)
  {
    hide Run, Act;
    if n == 0 {
      assert actions + Ticks(0) == actions;
    } else {
      TimePasses(actions, n - 1);
      assert actions + Ticks(n) == actions + Ticks(n - 1) + [DoTick];
      RunLast(actions + Ticks(n - 1), DoTick);
      TickTicks(Run(actions + Ticks(n - 1)));
    }
  }

  /** No lease outlives its time: left alone for that long, a running operation is taken by whoever claims next, as
      a further attempt, and the worker that had it no longer owns it even before that. */
  lemma LapsedIsTaken(actions: seq<Action>, i: nat, n: nat, worker: nat, seconds: nat)
    requires i < |Run(actions).operations| && Run(actions).operations[i].status == Running
    requires Run(actions).clock + n >= Run(actions).operations[i].lease
    ensures var s, later := Run(actions), Run(actions + Ticks(n));
            && later == s.(clock := s.clock + n) && (forall claim :: !Owns(later, i, claim))
            && ClaimNext(later, worker, seconds).1 == Some((i, Claim(worker, s.tokens)))
  {
    hide Run, ClaimNext;
    TimePasses(actions, n);
    ClaimExactly(actions + Ticks(n), worker, seconds, i);
  }

  // ----- Finalization -----

  /** The retentions once the deployed adapter is left: it keeps the retention it has, or gets one. */
  function Left(s: State): seq<Retention>
  {
    if s.pointer.None? || s.pointer.value.target.None? then s.retentions
    else
      var out := s.pointer.value.target.value;
      if IsRetained(s, out.key) then s.retentions else s.retentions + [Retention(out, |s.events|, Retained, 1)]
  }

  /** What a successful finalization writes: operation, event, retentions, deployment row and audit. */
  predicate CommittedAs(s: State, i: nat, next: State)
    requires i < |s.operations|
  {
    var op, v := s.operations[i], if s.pointer.None? then 0 else s.pointer.value.deploymentVersion;
    var from := if s.pointer.None? || s.pointer.value.target.None? then None
                else Some(s.pointer.value.target.value.key);
    && next == s.(operations := next.operations, events := next.events, retentions := next.retentions,
                  pointer := next.pointer, audits := s.audits + [i])
    && next.operations == s.operations[i := op.(status := Succeeded, claim := None, lease := 0,
                                                version := op.version + 1)]
    && next.pointer == Some(Pointer(op.target, v + 1, if s.pointer.None? then 1 else s.pointer.value.version + 1))
    && |next.events| == |s.events| + 1 && next.events[..|s.events|] == s.events
    && var e := next.events[|s.events|];
       && e == Event(Success(op.kind, i), v, v + 1, from, op.target, e.retention)
       && (from.Some? ==>
             e.retention.Some? && e.retention.value < |Left(s)| && Holds(Left(s)[e.retention.value], from.value))
       && (from.None? && op.kind != RollbackAdapter ==> e.retention.None?)
       && if op.kind != RollbackAdapter then next.retentions == Left(s)
          else
            && op.retention.Some? && op.retention.value.id < |Left(s)|
            && var id := op.retention.value.id;
               && (from.None? ==> e.retention == Some(id))
               && next.retentions == Left(s)[id := Left(s)[id].(status := Released(Reactivated, |s.events|),
                                                                version := Left(s)[id].version + 1)]
  }

  /** The answer to a finalization: the first of these that applies. */
  function Answer(s: State, i: nat, claim: Claim, found: Findings): Reply
  {
    if !found.departmentActive then Raised(RequesterUnauthorized)
    else if i >= |s.operations| then Raised(OperationConflict)
    else
      var op := s.operations[i];
      if op.status == Succeeded then AlreadySucceeded
      else if !Owns(s, i, claim) then Raised(ClaimLost)
      else if op.cancelRequested then Raised(OperationCancelled)
      else if found.shutdown then Raised(WorkerShutdown)
      else if op.kind != RollbackBase && !found.artifacts then Raised(ArtifactMismatch)
      else if op.kind != RollbackBase && !found.targetAuthority then Raised(AdapterAuthorityChanged)
      else if !found.requester then Raised(RequesterUnauthorized)
      else if s.pointer.None? || s.pointer.value.target.None? then Done
      else if !found.outgoingAuthority then Raised(AdapterAuthorityChanged)
      else if Trapped(s) then Raised(ReviewAuthorityChanged)
      else Done
  }

  /** In every reachable state a finalization gives that answer, and it commits if that is `Done` and writes nothing
      otherwise: neither the deployment version nor the target, its review or its retention can stand against
      it. */
  lemma FinalizeExactly(actions: seq<Action>, i: nat, claim: Claim, found: Findings)
    ensures var s := Run(actions);
            var (next, reply) := Finalize(s, i, claim, found);
            && reply == Answer(s, i, claim, found)
            && if reply == Done then i < |s.operations| && CommittedAs(s, i, next) else next == s
  {
    hide Run, Inv, Finalize, Answer, CommittedAs;
    RunKeepsInv(actions);
    FinalizeIs(Run(actions), i, claim, found);
  }

  lemma FinalizeIs(s: State, i: nat, claim: Claim, found: Findings)
    requires Inv(s)
    ensures var (next, reply) := Finalize(s, i, claim, found);
            && reply == Answer(s, i, claim, found)
            && if reply == Done then i < |s.operations| && CommittedAs(s, i, next) else next == s
  {
    hide Leave, Trapped, ApprovedTarget, Stands, CommittedAs, Committed, EvaluationsInv, ReviewsInv, PointerInv,
         RetentionsInv;
    if i < |s.operations| && Owns(s, i, claim) {
      ActiveIsStable(s, i);
      var op := s.operations[i];
      if op.target.Some? { StandingIsApproved(s, op.target.value, found.targetAuthority); }
      LeavesAs(s, found.outgoingAuthority);
      if Leave(s, found.outgoingAuthority).0.None? { CommitsAs(s, i, found.outgoingAuthority); }
    }
  }

  lemma LeavesAs(s: State, authority: bool)
    requires Inv(s)
    ensures var (code, retentions, held) := Leave(s, authority);
            if s.pointer.None? || s.pointer.value.target.None? then code.None? && retentions == Left(s) && held.None?
            else if !authority then code == Some(AdapterAuthorityChanged)
            else if Trapped(s) then code == Some(ReviewAuthorityChanged)
            else code.None? && retentions == Left(s) && held.Some? && held.value < |retentions|
                 && Holds(retentions[held.value], s.pointer.value.target.value.key)
  {
    hide OperationsInv, EvaluationsInv, IsRetained, ApprovedTarget;
    if Deployed(s.pointer).Some? {
      var out := Deployed(s.pointer).value;
      StandingIsApproved(s, out, authority);
      RetainedWord(s, out.key);
    }
  }

  lemma RetainedWord(s: State, key: Key)
    ensures IsRetained(s, key) <==> RetentionOf(s.retentions, key).Some?
  {
    SameWords(s);
  }

  lemma CommitsAs(s: State, i: nat, authority: bool)
    requires Inv(s) && i < |s.operations| && IsActive(s.operations[i]) && Leave(s, authority).0.None?
    ensures var (_, retentions, held) := Leave(s, authority);
            CommittedAs(s, i, Committed(s, i, s.operations[i], retentions, held))
  {
    hide Leave, Trapped, IsRetained, EvaluationsInv, ReviewsInv, PointerInv, RetentionsInv, Stands;
    LeavesAs(s, authority);
    ActiveIsStable(s, i);
    LeftGrows(s);
  }

  lemma LeftGrows(s: State)
    ensures |Left(s)| >= |s.retentions|
  {
  }

  // ----- Retentions and purges -----

  /** A retention is released by hand if and only if it still holds the adapter at its present version, which is not
      deployed, evaluated or under review, in a quiet department; the event that records it moves nothing. */
  lemma ReleaseRetentionExactly(actions: seq<Action>, a: nat, retention: RetentionRef, expected: nat)
    ensures var s := Run(actions);
            ReleaseRetention(s, a, retention, expected)
            == if || a >= |s.adapters| || retention.id >= |s.retentions|
                  || s.retentions[retention.id].target.key.adapter != a
               then (s, NotFound)
               else
                 var r := s.retentions[retention.id];
                 if && r.version == retention.version && r.status == Retained && s.adapters[a].version == expected
                    && !IsDeployed(s, Key(a, expected)) && Quiet(s) && !UnderEvaluation(s, a)
                    && !UnderReview(s, Key(a, expected))
                 then
                   var v := if s.pointer.None? then 0 else s.pointer.value.deploymentVersion;
                   var current := if s.pointer.None? then None else s.pointer.value.target;
                   (s.(events := s.events + [Event(RetentionRelease, v, v,
                                                   if current.None? then None else Some(current.value.key), current,
                                                   Some(retention.id))],
                       retentions := s.retentions[retention.id := r.(status := Released(ManualRelease, |s.events|),
                                                                     version := r.version + 1)]),
                    Done)
                 else (s, Conflict)
  {
    hide Run, Quiet, AnyActive, IsDeployed, UnderEvaluation, UnderReview, ActiveEvaluation, PendingReview,
         OperationsInv, CurrentAuthorityStands, EvaluationsInv, ReviewsInv, PointerInv, PurgesInv, LiveCurrent, Stands;
    var s := Run(actions);
    RunKeepsInv(actions);
    WordsFor(s, a, Key(a, expected));
    CurrentStands(s);
    if retention.id < |s.retentions| && s.retentions[retention.id].status == Retained {
      RetainedIsNotPurged(s, retention.id);
    }

  }

  lemma RetainedIsNotPurged(s: State, id: nat)
    requires Inv(s) && id < |s.retentions| && s.retentions[id].status == Retained
    ensures s.retentions[id].target.key.adapter !in s.purging
  {
    hide OperationsInv, EvaluationsInv, ReviewsInv, PointerInv, Stands;
    assert Live(s.adapters, s.retentions[id].target.key);
  }

  /** What is deployed stands as it was deployed. */
  lemma CurrentStands(s: State)
    requires Inv(s)
    ensures s.pointer.Some? && s.pointer.value.target.Some? ==> CurrentAuthorityStands(s, s.pointer.value.target.value)
    ensures LiveCurrent(s) == if s.pointer.None? then None else s.pointer.value.target
  {
    hide OperationsInv, RetentionsInv;
    if Deployed(s.pointer).Some? {
      var t := Deployed(s.pointer).value;
      assert Stands(t, s.reviews) && Grounded(s.reviews[t.review], s.evaluations);
    }
  }

  predicate Held(s: State, a: nat, target: nat)
    requires a < |s.adapters|
  {
    || UnderEvaluation(s, a) || UnderReview(s, Key(a, s.adapters[a].version)) || IsDeployed(s, Key(a, target))
    || IsRetained(s, Key(a, s.adapters[a].version)) || InOperation(s, a)
  }

  lemma FencedMeansHeld(s: State, a: nat, target: nat)
    requires a < |s.adapters|
    ensures PurgeFenced(s, a, target) <==> Held(s, a, target)
  {
    SameWords(s);
    hide UnderEvaluation, UnderReview, IsRetained, ActiveEvaluation, PendingReview;
    if InOperation(s, a) {
      var op :| op in s.operations && (op.status == Queued || op.status == Running)
        && ((op.target.Some? && op.target.value.key.adapter == a)
            || (op.current.Some? && op.current.value.adapter == a));
      var i :| 0 <= i < |s.operations| && s.operations[i] == op;
      assert IsActive(s.operations[i]);
    }
    if exists i | 0 <= i < |s.operations| :: IsActive(s.operations[i])
         && ((s.operations[i].target.Some? && s.operations[i].target.value.key.adapter == a)
             || (s.operations[i].current.Some? && s.operations[i].current.value.adapter == a)) {
      var i :| 0 <= i < |s.operations| && IsActive(s.operations[i])
        && ((s.operations[i].target.Some? && s.operations[i].target.value.key.adapter == a)
            || (s.operations[i].current.Some? && s.operations[i].current.value.adapter == a));
      assert s.operations[i] in s.operations;
    }
  }

  /** A purge is registered if and only if none is active, the adapter is validated or pending, and nothing of the
      governance holds it. */
  lemma RegisterPurgeExactly(s: State, a: nat, authority: bool)
    ensures RegisterPurge(s, a, authority)
            == if a >= |s.adapters| then (s, NotFound)
               else if a in s.purging || s.adapters[a].status == Purged then (s, Nothing)
               else
                 var row := s.adapters[a];
                 if row.status in {Validated, PurgePending} && authority && !Held(s, a, row.version) then
                   (s.(adapters := s.adapters[a := Adapter(row.version + 1, PurgePending)],
                       purging := s.purging[a := row.version]), Done)
                 else (s, Conflict)
  {
    if a < |s.adapters| { FencedMeansHeld(s, a, s.adapters[a].version); }
    hide PurgeFenced, Held;
  }

  /** A registered purge ends with blocks, or purges the adapter if and only if nothing of the governance holds it,
      for the version that it was registered at. */
  lemma FinalizePurgeExactly(actions: seq<Action>, a: nat, blocked: bool, authority: bool)
    requires a in Run(actions).purging
    ensures var s := Run(actions);
            a < |s.adapters|
            && FinalizePurge(s, a, blocked, authority)
               == if UnderEvaluation(s, a) then (s, Conflict)
                  else if blocked then (s.(purging := s.purging - {a}), Done)
                  else if authority && !Held(s, a, s.purging[a]) then
                    (s.(adapters := s.adapters[a := Adapter(s.adapters[a].version + 1, Purged)],
                        purging := s.purging - {a}), Done)
                  else (s, Conflict)
  {
    hide Run, PurgeFenced, Held, UnderEvaluation, ActiveEvaluation, EvaluationsInv, ReviewsInv, PointerInv,
         RetentionsInv, OperationsInv;
    var s := Run(actions);
    RunKeepsInv(actions);
    EvaluationWord(s, a);
    FencedMeansHeld(s, a, s.purging[a]);

  }

  // ----- Adapters and evaluations -----

  /** An evaluation is queued if and only if the adapter is validated at the version that the caller saw. */
  lemma EvaluateExactly(actions: seq<Action>, a: nat, suite: nat, expected: nat, authority: bool)
    ensures var s := Run(actions);
            EnqueueEvaluation(s, a, suite, expected, authority)
            == if a >= |s.adapters| then (s, NotFound)
               else if s.adapters[a] == Adapter(expected, Validated) && authority then
                 (s.(evaluations := s.evaluations + [Evaluation(a, expected, suite, EvaluationActive, 1)]), Done)
               else (s, Conflict)
  {
    RunKeepsInv(actions);
    hide Run, EvaluationsInv, ReviewsInv, PointerInv, RetentionsInv, OperationsInv;
  }

  lemma UpdateEvaluationExactly(s: State, e: nat, status: EvaluationStatus)
    ensures UpdateEvaluation(s, e, status)
            == if e >= |s.evaluations| then (s, NotFound)
               else if s.evaluations[e].status == EvaluationActive then
                 (s.(evaluations := s.evaluations[e := s.evaluations[e].(status := status,
                                                                        version := s.evaluations[e].version + 1)]),
                     Done)
               else (s, Conflict)
  {
  }

  /** An adapter appears in progress, is validated once, and after its purge only its version is written. */
  lemma AdapterExactly(s: State, a: nat)
    ensures CreateAdapter(s) == (s.(adapters := s.adapters + [Adapter(1, InProgress)]), Done)
    ensures ValidateAdapter(s, a)
            == if a >= |s.adapters| then (s, NotFound)
               else if s.adapters[a].status == InProgress then
                 (s.(adapters := s.adapters[a := Adapter(s.adapters[a].version + 1, Validated)]), Done)
               else (s, Conflict)
    ensures ReleaseUpstream(s, a)
            == if a >= |s.adapters| then (s, NotFound)
               else if s.adapters[a].status == Purged then
                 (s.(adapters := s.adapters[a := Adapter(s.adapters[a].version + 1, Purged)]), Done)
               else (s, Conflict)
  {
  }
}
