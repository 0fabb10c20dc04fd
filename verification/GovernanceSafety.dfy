/** What every run of the governance transactions keeps. */
module GovernanceSafety {
  import opened Common
  import opened Governance

  // ----- Lifecycle exclusion -----

  /** The adapter is validated at exactly this version. */
  predicate Live(adapters: seq<Adapter>, k: Key)
  {
    k.adapter < |adapters| && adapters[k.adapter] == Adapter(k.version, Validated)
  }

  /** A version that the adapter has had while it was validated. */
  predicate Known(adapters: seq<Adapter>, k: Key)
  {
    k.adapter < |adapters| && k.version <= adapters[k.adapter].version
    && (k.version == adapters[k.adapter].version ==> adapters[k.adapter].status == Validated)
  }

  predicate EvaluationsInv(evaluations: seq<Evaluation>, adapters: seq<Adapter>)
  {
    forall i | 0 <= i < |evaluations| ::
      var k := Key(evaluations[i].adapter, evaluations[i].adapterVersion);
      Known(adapters, k) && (evaluations[i].status == EvaluationActive ==> Live(adapters, k))
  }

  /** A review keeps naming its terminal evaluation. */
  predicate Grounded(r: Review, evaluations: seq<Evaluation>)
  {
    && r.evaluation < |evaluations|
    && var e := evaluations[r.evaluation];
       && e.status.EvaluationSucceeded? && (r.status == Approved ==> e.status.passed)
       && e.adapter == r.adapter && e.adapterVersion == r.adapterVersion
       && e.version == r.evaluationVersion && e.suite == r.suite
  }

  predicate ReviewsInv(reviews: seq<Review>, evaluations: seq<Evaluation>, adapters: seq<Adapter>)
  {
    forall i | 0 <= i < |reviews| ::
      var k := Key(reviews[i].adapter, reviews[i].adapterVersion);
      Known(adapters, k) && Grounded(reviews[i], evaluations) && (reviews[i].status == Pending ==> Live(adapters, k))
  }

  /** The target's review is approved, at the recorded version, with the recorded evaluation. */
  predicate Stands(t: Target, reviews: seq<Review>)
  {
    t.review < |reviews|
    && reviews[t.review]
       == Review(t.key.adapter, t.key.version, t.evaluation, t.evaluationVersion, t.suite, Approved, t.reviewVersion)
  }

  predicate PointerInv(pointer: Option<Pointer>, reviews: seq<Review>, adapters: seq<Adapter>)
  {
    Deployed(pointer).Some? ==> Stands(Deployed(pointer).value, reviews) && Live(adapters, Deployed(pointer).value.key)
  }

  predicate RetentionsInv(retentions: seq<Retention>, reviews: seq<Review>, adapters: seq<Adapter>)
  {
    && (forall i | 0 <= i < |retentions| ::
          retentions[i].status == Retained ==>
            Stands(retentions[i].target, reviews) && Live(adapters, retentions[i].target.key))
    && (forall i, j | 0 <= i < j < |retentions| ::
          retentions[i].status == Retained && retentions[j].status == Retained ==>
            retentions[i].target.key != retentions[j].target.key)
  }

  /** What holds of the one active operation: nothing it was queued for has changed since. */
  predicate StableTarget(op: Operation, pointer: Option<Pointer>, retentions: seq<Retention>, reviews: seq<Review>,
                         adapters: seq<Adapter>)
  {
    && op.expected == DeploymentVersion(pointer) && op.current == DeployedKey(pointer)
    && (op.status == Running <==> op.claim.Some?)
    && (op.kind == RollbackBase ==> op.target.None? && Deployed(pointer).Some?)
    && (op.kind != RollbackBase ==>
          && op.target.Some? && Stands(op.target.value, reviews) && Live(adapters, op.target.value.key)
          && DeployedKey(pointer) != Some(op.target.value.key))
    && (op.kind != RollbackAdapter ==> op.retention.None?)
    && (op.kind == RollbackAdapter ==>
          && op.retention.Some? && op.retention.value.id < |retentions|
          && var r := retentions[op.retention.value.id];
             r.status == Retained && r.version == op.retention.value.version && r.target == op.target.value)
  }

  predicate OperationsInv(operations: seq<Operation>, pointer: Option<Pointer>, retentions: seq<Retention>,
                          reviews: seq<Review>, adapters: seq<Adapter>)
  {
    && (forall i, j | 0 <= i < j < |operations| :: !(IsActive(operations[i]) && IsActive(operations[j])))
    && (forall i | 0 <= i < |operations| ::
          IsActive(operations[i]) ==> StableTarget(operations[i], pointer, retentions, reviews, adapters))
  }

  predicate PurgesInv(purging: map<nat, nat>, adapters: seq<Adapter>)
  {
    forall a | a in purging :: a < |adapters| && adapters[a].status == PurgePending && purging[a] < adapters[a].version
  }

  predicate Inv(s: State)
  {
    && EvaluationsInv(s.evaluations, s.adapters)
    && ReviewsInv(s.reviews, s.evaluations, s.adapters)
    && PointerInv(s.pointer, s.reviews, s.adapters)
    && RetentionsInv(s.retentions, s.reviews, s.adapters)
    && OperationsInv(s.operations, s.pointer, s.retentions, s.reviews, s.adapters)
    && PurgesInv(s.purging, s.adapters)
  }

  // ----- Adapter rows -----

  /** An adapter that no reference holds live may change, by a version step away from `Validated`. */
  lemma AdapterStepKeepsInv(s: State, a: nat, status: AdapterStatus)
    requires Inv(s) && a < |s.adapters| && a !in s.purging
    requires s.adapters[a].status == Validated ==> status != Validated
    requires forall i | 0 <= i < |s.evaluations| ::
               s.evaluations[i].adapter == a ==> s.evaluations[i].status != EvaluationActive
    requires forall i | 0 <= i < |s.reviews| ::
               s.reviews[i].status == Pending && s.reviews[i].adapter == a ==>
                 s.reviews[i].adapterVersion != s.adapters[a].version
    requires DeployedKey(s.pointer) != Some(Key(a, s.adapters[a].version))
    requires forall i | 0 <= i < |s.retentions| :: !Holds(s.retentions[i], Key(a, s.adapters[a].version))
    requires forall i | 0 <= i < |s.operations| ::
               IsActive(s.operations[i]) && s.operations[i].target.Some? ==>
                 s.operations[i].target.value.key.adapter != a
    ensures Inv(WithAdapter(s, a, status))
  {
    var next := WithAdapter(s, a, status).adapters;
    hide Stands, Grounded;
    assert forall k | Live(s.adapters, k) && k.adapter != a :: Live(next, k);
    assert forall k | Known(s.adapters, k) :: Known(next, k);
    assert RetentionsInv(s.retentions, s.reviews, next);
    assert OperationsInv(s.operations, s.pointer, s.retentions, s.reviews, next);
  }

  lemma CreateKeepsInv(s: State)
    requires Inv(s)
    ensures Inv(CreateAdapter(s).0)
  {
    var next := CreateAdapter(s).0;
    hide Stands, Grounded;
    assert forall k | Live(s.adapters, k) :: Live(next.adapters, k);
    assert forall k | Known(s.adapters, k) :: Known(next.adapters, k);
    assert RetentionsInv(s.retentions, s.reviews, next.adapters);
    assert OperationsInv(s.operations, s.pointer, s.retentions, s.reviews, next.adapters);
  }

  lemma ValidateKeepsInv(s: State, a: nat)
    requires Inv(s)
    ensures Inv(ValidateAdapter(s, a).0) && Inv(ReleaseUpstream(s, a).0)
  {
    hide Stands, Grounded;
    if a < |s.adapters| && s.adapters[a].status == InProgress { AdapterStepKeepsInv(s, a, Validated); }
    if a < |s.adapters| && s.adapters[a].status == Purged { AdapterStepKeepsInv(s, a, Purged); }
  }

  lemma RegisterPurgeKeepsInv(s: State, a: nat, authority: bool)
    requires Inv(s)
    ensures Inv(RegisterPurge(s, a, authority).0)
  {
    hide Stands, Grounded;
    if RegisterPurge(s, a, authority).1 == Done {
      assert !PurgeFenced(s, a, s.adapters[a].version);
      AdapterStepKeepsInv(s, a, PurgePending);
    }
  }

  lemma FinalizePurgeKeepsInv(s: State, a: nat, blocked: bool, authority: bool)
    requires Inv(s)
    ensures Inv(FinalizePurge(s, a, blocked, authority).0)
  {
    hide Stands, Grounded;
    if FinalizePurge(s, a, blocked, authority).1 == Done {
      var ended := s.(purging := s.purging - {a});
      assert Inv(ended);
      if !blocked { AdapterStepKeepsInv(ended, a, Purged); }
    }
  }

  // ----- Evaluations and reviews -----

  lemma EvaluationKeepsInv(s: State, a: nat, suite: nat, expected: nat, authority: bool, e: nat,
                           status: EvaluationStatus)
    requires Inv(s)
    ensures Inv(EnqueueEvaluation(s, a, suite, expected, authority).0)
    ensures Inv(UpdateEvaluation(s, e, status).0)
  {
    hide Stands;
    var queued, updated := EnqueueEvaluation(s, a, suite, expected, authority).0, UpdateEvaluation(s, e, status).0;
    assert forall i | 0 <= i < |s.reviews| :: Grounded(s.reviews[i], s.evaluations);
    assert forall i | 0 <= i < |s.reviews| ::
        Grounded(s.reviews[i], queued.evaluations) && Grounded(s.reviews[i], updated.evaluations);
  }

  lemma StartReviewKeepsInv(s: State, a: nat, e: nat, ea: nat, ee: nat, authority: bool)
    requires Inv(s)
    ensures Inv(StartReview(s, a, e, ea, ee, authority).0)
  {
    var next := StartReview(s, a, e, ea, ee, authority).0;
    assert forall t | Stands(t, s.reviews) :: Stands(t, next.reviews);
    hide Stands, PendingReview, ActiveEvaluation;
    assert RetentionsInv(s.retentions, next.reviews, s.adapters);
    assert OperationsInv(s.operations, s.pointer, s.retentions, next.reviews, s.adapters);
  }

  /** A transition leaves every target that anything stands on. */
  lemma TransitionLeavesTargets(s: State, r: nat, action: ReviewAction, ea: nat, er: nat, authority: bool, t: Target)
    requires Inv(s) && Stands(t, s.reviews)
    requires || Deployed(s.pointer) == Some(t)
             || (exists i | 0 <= i < |s.retentions| :: Holds(s.retentions[i], t.key))
             || AnyActive(s.operations)
    ensures Stands(t, TransitionReview(s, r, action, ea, er, authority).0.reviews)
  {
    hide PurgesInv, EvaluationsInv, ReviewsInv, Grounded, SnapshotMatches, Approvable, Reviewable;
  }

  lemma TransitionKeepsInv(s: State, r: nat, action: ReviewAction, ea: nat, er: nat, authority: bool)
    requires Inv(s)
    ensures Inv(TransitionReview(s, r, action, ea, er, authority).0)
  {
    var next := TransitionReview(s, r, action, ea, er, authority).0;
    forall t | Stands(t, s.reviews)
               && (|| Deployed(s.pointer) == Some(t)
                   || (exists i | 0 <= i < |s.retentions| :: Holds(s.retentions[i], t.key))
                   || AnyActive(s.operations))
      ensures Stands(t, next.reviews)
    {
      TransitionLeavesTargets(s, r, action, ea, er, authority, t);
    }
    TransitionKeepsReviews(s, r, action, ea, er, authority);
    hide Stands, TransitionReview, ReviewsInv;
    forall i | 0 <= i < |s.retentions| && s.retentions[i].status == Retained
      ensures Stands(s.retentions[i].target, next.reviews)
    {
      assert Holds(s.retentions[i], s.retentions[i].target.key);
    }
    forall i | 0 <= i < |s.operations| && IsActive(s.operations[i])
      ensures StableTarget(s.operations[i], s.pointer, s.retentions, next.reviews, s.adapters)
    {
      assert AnyActive(s.operations);
    }
  }

  lemma TransitionKeepsReviews(s: State, r: nat, action: ReviewAction, ea: nat, er: nat, authority: bool)
    requires Inv(s)
    ensures var next := TransitionReview(s, r, action, ea, er, authority).0;
            next == s.(reviews := next.reviews) && ReviewsInv(next.reviews, s.evaluations, s.adapters)
  {
    hide PurgesInv, RetentionsInv, OperationsInv, PointerInv, RetentionOf, AnyActive;
  }

  // ----- Operations -----

  lemma ApprovedStands(s: State, key: Key, r: nat, version: nat, authority: bool)
    ensures var t := ApprovedTarget(s, key, r, version, authority);
            t.Some? ==> Stands(t.value, s.reviews) && Live(s.adapters, key) && t.value.key == key
  {
  }

  lemma EnqueueKeepsInv(s: State, op: Operation)
    requires Inv(s) && !AnyActive(s.operations) && IsActive(op)
    requires StableTarget(op, s.pointer, s.retentions, s.reviews, s.adapters)
    ensures Inv(Enqueued(s, op))
  {
    hide StableTarget, Stands, Grounded;
  }

  lemma PromotionKeepsInv(s: State, key: Key, r: nat, er: nat, expected: nat, authority: bool)
    requires Inv(s)
    ensures Inv(EnqueuePromotion(s, key, r, er, expected, authority).0)
  {
    hide Inv;
    ApprovedStands(s, key, r, er, authority);
    if EnqueuePromotion(s, key, r, er, expected, authority).1 == Done {
      EnqueueKeepsInv(s, NewOperation(s, Promote, ApprovedTarget(s, key, r, er, authority), None));
    }
  }

  lemma RollbackKeepsInv(s: State, key: Key, retention: RetentionRef, expected: nat, authority: bool)
    requires Inv(s)
    ensures Inv(EnqueueRollbackToBase(s, expected).0)
    ensures Inv(EnqueueRollbackToAdapter(s, key, retention, expected, authority).0)
  {
    hide Inv, ApprovedTarget;
    if EnqueueRollbackToBase(s, expected).1 == Done {
      EnqueueKeepsInv(s, NewOperation(s, RollbackBase, None, None));
    }
    if EnqueueRollbackToAdapter(s, key, retention, expected, authority).1 == Done {
      var retained := s.retentions[retention.id].target;
      ApprovedStands(s, key, retained.review, retained.reviewVersion, authority);
      EnqueueKeepsInv(s, NewOperation(s, RollbackAdapter, Some(retained), Some(retention)));
    }
  }

  /** Rewriting the bookkeeping of an active operation, or ending it. */
  lemma OperationStepKeepsInv(s: State, i: nat, op: Operation)
    requires Inv(s) && i < |s.operations| && IsActive(s.operations[i])
    requires IsActive(op) ==>
               && op == s.operations[i].(status := op.status, claim := op.claim, lease := op.lease,
                                         started := op.started,
                                         cancelRequested := op.cancelRequested, attempt := op.attempt)
               && (op.status == Running <==> op.claim.Some?)
    ensures Inv(WithOperation(s, i, op))
  {
    hide Stands, Grounded;
  }

  lemma CancelKeepsInv(s: State, i: nat, expected: nat)
    requires Inv(s)
    ensures Inv(CancelOperation(s, i, expected).0)
  {
    hide StableTarget;
    if CancelOperation(s, i, expected).1 == Done {
      var op := s.operations[i];
      ActiveIsStable(s, i);
      OperationStepKeepsInv(s, i,
                            op.(cancelRequested := true,
                                status := if op.status == Queued then Cancelled else op.status));
    }
  }

  lemma ClaimKeepsInv(s: State, worker: nat, seconds: nat)
    requires Inv(s)
    ensures Inv(ClaimNext(s, worker, seconds).0)
  {
    hide StableTarget;
    var candidate := OldestClaimable(s.operations, s.clock);
    if candidate.Some? {
      var op := s.operations[candidate.value];
      OperationStepKeepsInv(s, candidate.value,
                            op.(status := Running, claim := Some(Claim(worker, s.tokens)), lease := s.clock + seconds,
                                started := true, attempt := op.attempt + (if op.started then 1 else 0)));
    }
  }

  lemma HeartbeatKeepsInv(s: State, i: nat, claim: Claim, seconds: nat)
    requires Inv(s)
    ensures Inv(Heartbeat(s, i, claim, seconds).0)
  {
    hide StableTarget;
    if Heartbeat(s, i, claim, seconds).1 == Done {
      OperationStepKeepsInv(s, i, s.operations[i].(lease := s.clock + seconds));
    }
  }

  lemma FailKeepsInv(s: State, i: nat, claim: Claim, cancelled: bool)
    requires Inv(s)
    ensures Inv(Fail(s, i, claim, cancelled).0)
  {
    hide StableTarget;
    if Fail(s, i, claim, cancelled).1 == Done {
      var op := s.operations[i];
      OperationStepKeepsInv(s, i,
                            op.(status := if op.cancelRequested then Cancelled else Failed, claim := None, lease := 0));
    }
  }

  lemma ActiveIsStable(s: State, i: nat)
    requires Inv(s) && i < |s.operations| && IsActive(s.operations[i])
    ensures StableTarget(s.operations[i], s.pointer, s.retentions, s.reviews, s.adapters)
    ensures s.operations[i].status == Running <==> s.operations[i].claim.Some?
    ensures forall j | 0 <= j < |s.operations| && j != i :: !IsActive(s.operations[j])
  {
  }

  // ----- Finalization and retentions -----

  lemma RetainKeepsInv(s: State, out: Target, event: nat)
    requires Inv(s) && Stands(out, s.reviews) && Live(s.adapters, out.key)
    ensures var r := RetainOutgoing(s.retentions, out, event);
            r.Some? ==>
              && RetentionsInv(r.value.0, s.reviews, s.adapters)
              && r.value.1 < |r.value.0| && Holds(r.value.0[r.value.1], out.key)
              && s.retentions <= r.value.0
              && (forall k | k != out.key :: RetentionOf(r.value.0, k) == RetentionOf(s.retentions, k))
  {
    var r := RetainOutgoing(s.retentions, out, event);
    if r.Some? && r.value.0 != s.retentions {
      assert r.value.0[..|r.value.0| - 1] == s.retentions;
    }
    hide Stands, Grounded;
  }

  lemma LeaveKeepsInv(s: State, outgoingAuthority: bool)
    requires Inv(s)
    ensures var (code, retentions, held) := Leave(s, outgoingAuthority);
            && RetentionsInv(retentions, s.reviews, s.adapters) && s.retentions <= retentions
            && (code.None? && Deployed(s.pointer).Some? ==>
                  held.Some? && held.value < |retentions|
                    && Holds(retentions[held.value], Deployed(s.pointer).value.key))
            && (Deployed(s.pointer).None? ==> held.None?)
            && forall k | Some(k) != DeployedKey(s.pointer) ::
               RetentionOf(retentions, k) == RetentionOf(s.retentions, k)
  {
    var out := Deployed(s.pointer);
    if out.Some? {
      ApprovedStands(s, out.value.key, out.value.review, out.value.reviewVersion, outgoingAuthority);
      var live := OutgoingTarget(s, out.value, outgoingAuthority);
      if live.Some? {
        RetainKeepsInv(s, live.value, |s.events|);
      }
    }
    hide RetainOutgoing, Inv, ApprovedTarget, Stands, RetentionsInv, RetentionOf;
  }

  lemma ReactivateKeepsInv(retentions: seq<Retention>, op: Operation, event: nat, reviews: seq<Review>,
                           adapters: seq<Adapter>)
    requires RetentionsInv(retentions, reviews, adapters)
    ensures RetentionsInv(Reactivate(retentions, op, event), reviews, adapters)
  {
    hide Stands, Live;
  }

  lemma FinalizeKeepsInv(s: State, i: nat, claim: Claim, found: Findings)
    requires Inv(s)
    ensures Inv(Finalize(s, i, claim, found).0)
  {
    var (next, reply) := Finalize(s, i, claim, found);
    if reply == Done {
      var op := s.operations[i];
      var (code, retentions, held) := Leave(s, found.outgoingAuthority);
      assert FinalizeRefusal(s, op, claim, found).None?;
      ActiveIsStable(s, i);
      LeaveKeepsInv(s, found.outgoingAuthority);
      ReactivateKeepsInv(retentions, op, |s.events|, s.reviews, s.adapters);
      hide FinalizeRefusal, Leave, Reactivate, Stands, Grounded, RetentionsInv, RetentionStands, ApprovedTarget;
      assert next == Committed(s, i, op, retentions, held);
      assert forall j | 0 <= j < |next.operations| :: !IsActive(next.operations[j]);
    }
  }

  lemma ReleaseKeepsInv(s: State, a: nat, retention: RetentionRef, expected: nat)
    requires Inv(s)
    ensures Inv(ReleaseRetention(s, a, retention, expected).0)
  {
    hide Stands, Grounded, CurrentAuthorityStands, LiveCurrent, StableTarget;
    var (next, reply) := ReleaseRetention(s, a, retention, expected);
    if reply == Done {
      assert forall i | 0 <= i < |s.operations| :: !IsActive(s.operations[i]);
      assert RetentionsInv(next.retentions, s.reviews, s.adapters);
    }
  }

  // ----- Runs -----

  lemma ActKeepsInv(s: State, a: Action)
    requires Inv(s)
    ensures Inv(Act(s, a))
  {
    hide Inv, CreateAdapter, ValidateAdapter, ReleaseUpstream, EnqueueEvaluation, UpdateEvaluation, RegisterPurge,
         FinalizePurge, StartReview, TransitionReview, EnqueuePromotion, EnqueueRollbackToBase,
         EnqueueRollbackToAdapter, CancelOperation, ClaimNext, Heartbeat, Finalize, Fail, ReleaseRetention;
    match a
    case DoCreate => CreateKeepsInv(s);
    case DoValidate(i) => ValidateKeepsInv(s, i);
    case DoReleaseUpstream(i) => ValidateKeepsInv(s, i);
    case DoEvaluate(i, suite, expected, ok) => EvaluationKeepsInv(s, i, suite, expected, ok, 0, EvaluationEnded);
    case DoUpdateEvaluation(e, status) => EvaluationKeepsInv(s, 0, 0, 0, true, e, status);
    case DoRegisterPurge(i, ok) => RegisterPurgeKeepsInv(s, i, ok);
    case DoFinalizePurge(i, blocked, ok) => FinalizePurgeKeepsInv(s, i, blocked, ok);
    case DoStartReview(i, e, ea, ee, ok) => StartReviewKeepsInv(s, i, e, ea, ee, ok);
    case DoTransition(r, action, ea, er, ok) => TransitionKeepsInv(s, r, action, ea, er, ok);
    case DoPromote(key, r, er, expected, ok) => PromotionKeepsInv(s, key, r, er, expected, ok);
    case DoRollbackToBase(expected) => RollbackKeepsInv(s, Key(0, 0), RetentionRef(0, 0), expected, true);
    case DoRollbackToAdapter(key, retention, expected, ok) => RollbackKeepsInv(s, key, retention, expected, ok);
    case DoCancel(i, expected) => CancelKeepsInv(s, i, expected);
    case DoClaim(worker, seconds) => ClaimKeepsInv(s, worker, seconds);
    case DoHeartbeat(i, claim, seconds) => HeartbeatKeepsInv(s, i, claim, seconds);
    case DoFinalize(i, claim, found) => FinalizeKeepsInv(s, i, claim, found);
    case DoFail(i, claim, cancelled) => FailKeepsInv(s, i, claim, cancelled);
    case DoReleaseRetention(i, retention, expected) => ReleaseKeepsInv(s, i, retention, expected);
    case DoTick => TickKeepsInv(s);
  }

  lemma TickKeepsInv(s: State)
    requires Inv(s)
    ensures Inv(s.(clock := s.clock + 1))
  {
  }

  lemma {:induction false} RunKeepsInv(actions: seq<Action>)
    ensures Inv(Run(actions))
  {
    if actions != [] {
      RunKeepsInv(actions[..|actions| - 1]);
      ActKeepsInv(Run(actions[..|actions| - 1]), actions[|actions| - 1]);
      hide Inv, Act;
    }
  }

  /** Lifecycle exclusion: in every run, whatever governance currently refers to is an adapter that is
      validated at exactly the version referred to, and no purge of it is under way. */
  lemma LifecycleExclusion(actions: seq<Action>, k: Key)
    ensures var s := Run(actions);
            (|| DeployedKey(s.pointer) == Some(k)
             || RetentionOf(s.retentions, k).Some?
             || PendingReview(s.reviews, k)
             || (exists e | e in s.evaluations :: e.status == EvaluationActive && Key(e.adapter, e.adapterVersion) == k)
             || (exists op | op in s.operations ::
                   IsActive(op) && (op.current == Some(k) || (op.target.Some? && op.target.value.key == k))))
            ==> Live(s.adapters, k) && k.adapter !in s.purging
  {
    RunKeepsInv(actions);
    hide Run, Stands, Grounded;
  }
}
