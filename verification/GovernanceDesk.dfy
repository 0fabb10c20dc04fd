/** Deployment governance as it runs: rows rewritten in place by the worker and the services.  Every
    method is one transaction, and is proved equal to its specification. */
module GovernanceDesk {
  import opened Common
  import opened Governance

  class Department {
    var adapters: seq<Adapter>
    var evaluations: seq<Evaluation>
    var reviews: seq<Review>
    var pointer: Option<Pointer>
    var operations: seq<Operation>
    var retentions: seq<Retention>
    var events: seq<Event>
    var audits: seq<nat>
    var purging: map<nat, nat>
    var tokens: nat
    var clock: nat

    constructor ()
      ensures Now() == EMPTY
    {
      adapters, evaluations, reviews, pointer, operations := [], [], [], None, [];
      retentions, events, audits, purging, tokens, clock := [], [], [], map[], 0, 0;
    }

    function Now(): State
      reads this
    {
      State(adapters, evaluations, reviews, pointer, operations, retentions, events, audits, purging, tokens, clock)
    }

    // ----- Reads -----

    method HasActiveOperation() returns (found: bool)
      ensures found == AnyActive(operations)
    {
      for i := 0 to |operations|
        invariant forall j | 0 <= j < i :: !IsActive(operations[j])
      {
        if IsActive(operations[i]) { return true; }
      }
      return false;
    }

    method HasActiveEvaluation(a: nat) returns (found: bool)
      ensures found == ActiveEvaluation(evaluations, a)
    {
      for i := 0 to |evaluations|
        invariant forall j | 0 <= j < i :: !(evaluations[j].adapter == a && evaluations[j].status == EvaluationActive)
      {
        if evaluations[i].adapter == a && evaluations[i].status == EvaluationActive { return true; }
      }
      return false;
    }

    method HasPendingReview(key: Key) returns (found: bool)
      ensures found == PendingReview(reviews, key)
    {
      for i := 0 to |reviews|
        invariant forall j | 0 <= j < i ::
                    !(reviews[j].adapter == key.adapter && reviews[j].adapterVersion == key.version
                      && reviews[j].status == Pending)
      {
        var r := reviews[i];
        if r.adapter == key.adapter && r.adapterVersion == key.version && r.status == Pending { return true; }
      }
      return false;
    }

    method FindRetention(key: Key) returns (r: Option<nat>)
      ensures r == RetentionOf(retentions, key)
    {
      var i := |retentions|;
      assert retentions[..i] == retentions;
      while i > 0
        invariant 0 <= i <= |retentions|
        invariant RetentionOf(retentions, key) == RetentionOf(retentions[..i], key)
      {
        assert retentions[..i][..i - 1] == retentions[..i - 1];
        i := i - 1;
        if Holds(retentions[i], key) { return Some(i); }
      }
      return None;
    }

    // ----- Reviews -----

    method StartReview(a: nat, e: nat, expectedAdapter: nat, expectedEvaluation: nat, authority: bool)
      returns (reply: Reply)
      modifies this
      ensures (Now(), reply) == Governance.StartReview(old(Now()), a, e, expectedAdapter, expectedEvaluation, authority)
    {
      if e >= |evaluations| || a >= |adapters| || evaluations[e].adapter != a { return NotFound; }
      var run, adapter := evaluations[e], adapters[a];
      if run.version != expectedEvaluation || run.adapterVersion != expectedAdapter { return Conflict; }
      if adapter.version != expectedAdapter || !authority || !Reviewable(Now(), a, e) { return Conflict; }
      if a in purging { return Conflict; }
      var evaluating := HasActiveEvaluation(a);
      if evaluating { return Conflict; }
      var pending := HasPendingReview(Key(a, adapter.version));
      if pending { return Conflict; }
      reviews := reviews + [Review(a, adapter.version, e, run.version, run.suite, Pending, 1)];
      return Done;
    }

    method TransitionReview(r: nat, action: ReviewAction, expectedAdapter: nat, expectedReview: nat, authority: bool)
      returns (reply: Reply)
      modifies this
      ensures (Now(), reply)
              == Governance.TransitionReview(old(Now()), r, action, expectedAdapter, expectedReview, authority)
    {
      if r >= |reviews| { return NotFound; }
      var review := reviews[r];
      if review.version != expectedReview || review.adapterVersion != expectedAdapter { return Conflict; }
      if !SnapshotMatches(Now(), review, authority) { return Conflict; }
      match action {
        case Approve =>
          if review.status != Pending || !Approvable(Now(), review.adapter, review.evaluation) {
            return Conflict;
          }
          review := review.(status := Approved);
        case Reject =>
          if review.status != Pending || !Reviewable(Now(), review.adapter, review.evaluation) {
            return Conflict;
          }
          review := review.(status := Rejected);
        case Archive =>
          if review.status != Approved && review.status != Rejected { return Conflict; }
          if review.status == Approved {
            var key := Key(review.adapter, review.adapterVersion);
            var retained := FindRetention(key);
            var active := HasActiveOperation();
            if DeployedKey(pointer) == Some(key) || retained.Some? || active { return Conflict; }
          }
          review := review.(status := Archived);
      }
      reviews := reviews[r := review.(version := review.version + 1)];
      return Done;
    }

    // ----- Operations -----

    method EnqueuePromotion(key: Key, r: nat, expectedReview: nat, expected: nat, authority: bool)
      returns (reply: Reply)
      modifies this
      ensures (Now(), reply) == Governance.EnqueuePromotion(old(Now()), key, r, expectedReview, expected, authority)
    {
      if DeploymentVersion(pointer) != expected { return Conflict; }
      var active := HasActiveOperation();
      if active { return Conflict; }
      var target := ApprovedTarget(Now(), key, r, expectedReview, authority);
      if target.None? || DeployedKey(pointer) == Some(key) { return Conflict; }
      operations := operations + [NewOperation(Now(), Promote, target, None)];
      return Done;
    }

    method EnqueueRollbackToBase(expected: nat) returns (reply: Reply)
      modifies this
      ensures (Now(), reply) == Governance.EnqueueRollbackToBase(old(Now()), expected)
    {
      if pointer.None? || pointer.value.deploymentVersion != expected { return Conflict; }
      var active := HasActiveOperation();
      if active || pointer.value.target.None? { return Conflict; }
      operations := operations + [NewOperation(Now(), RollbackBase, None, None)];
      return Done;
    }

    method EnqueueRollbackToAdapter(key: Key, retention: RetentionRef, expected: nat, authority: bool)
      returns (reply: Reply)
      modifies this
      ensures (Now(), reply) == Governance.EnqueueRollbackToAdapter(old(Now()), key, retention, expected, authority)
    {
      if pointer.None? || pointer.value.deploymentVersion != expected { return Conflict; }
      var active := HasActiveOperation();
      if active { return Conflict; }
      if retention.id >= |retentions| { return Conflict; }
      var row := retentions[retention.id];
      if row.version != retention.version || !Holds(row, key) { return Conflict; }
      if DeployedKey(pointer) == Some(key) { return Conflict; }
      var target := ApprovedTarget(Now(), key, row.target.review, row.target.reviewVersion, authority);
      if target != Some(row.target) { return Conflict; }
      operations := operations + [NewOperation(Now(), RollbackAdapter, target, Some(retention))];
      return Done;
    }

    method CancelOperation(i: nat, expectedVersion: nat) returns (reply: Reply)
      modifies this
      ensures (Now(), reply) == Governance.CancelOperation(old(Now()), i, expectedVersion)
    {
      if i >= |operations| { return NotFound; }
      var row := operations[i];
      if row.version != expectedVersion || !IsActive(row) { return Conflict; }
      row := row.(cancelRequested := true, version := row.version + 1);
      if row.status == Queued { row := row.(status := Cancelled); }
      operations := operations[i := row];
      return Done;
    }

    /** `claim_next_operation`: the oldest queued operation, or running one whose lease has run out. */
    method ClaimNext(worker: nat, seconds: nat) returns (claimed: Option<(nat, Claim)>)
      modifies this
      ensures (Now(), claimed) == Governance.ClaimNext(old(Now()), worker, seconds)
    {
      var i := 0;
      while i < |operations| && !Claimable(operations[i], clock)
        invariant 0 <= i <= |operations|
        invariant forall j | 0 <= j < i :: !Claimable(operations[j], clock)
      {
        i := i + 1;
      }
      if i == |operations| { return None; }
      var row, claim := operations[i], Claim(worker, tokens);
      var wasStarted := row.started;
      row := row.(status := Running, claim := Some(claim), lease := clock + seconds, started := true);
      if wasStarted { row := row.(attempt := row.attempt + 1); }
      operations := operations[i := row.(version := row.version + 1)];
      tokens := tokens + 1;
      return Some((i, claim));
    }

    method Heartbeat(i: nat, claim: Claim, seconds: nat) returns (reply: Reply)
      modifies this
      ensures (Now(), reply) == Governance.Heartbeat(old(Now()), i, claim, seconds)
    {
      if i >= |operations| || !LiveClaim(operations[i], claim, clock) { return Raised(ClaimLost); }
      var row := operations[i];
      if row.cancelRequested { return Raised(OperationCancelled); }
      operations := operations[i := row.(lease := clock + seconds, version := row.version + 1)];
      return Done;
    }

    /** `_retention_for_outgoing`: reuse the active retention of the same authority, or add one. */
    method RetainOutgoing(out: Target, event: nat) returns (held: Option<nat>)
      modifies this
      ensures Now() == old(Now()).(retentions := retentions)
      ensures var r := Governance.RetainOutgoing(old(retentions), out, event);
              && (held.None? <==> r.None?)
              && (r.None? ==> retentions == old(retentions))
              && (r.Some? ==> r.value == (retentions, held.value))
    {
      var existing := FindRetention(out.key);
      if existing.Some? {
        return if retentions[existing.value].target == out then existing else None;
      }
      held := Some(|retentions|);
      retentions := retentions + [Retention(out, event, Retained, 1)];
    }

    /** Leave the deployed adapter, if there is one: its review must stand, and it must be retained. */
    method LeaveCurrent(outgoingAuthority: bool) returns (code: Option<WorkerCode>, held: Option<nat>)
      modifies this
      ensures Now() == old(Now()).(retentions := retentions)
      ensures (code, retentions, held) == Leave(old(Now()), outgoingAuthority)
    {
      var current := Deployed(pointer);
      if current.None? { return None, None; }
      if !OutgoingReviewStands(Now(), current.value) { return Some(ReviewAuthorityChanged), None; }
      var live := OutgoingTarget(Now(), current.value, outgoingAuthority);
      if live.None? { return Some(AdapterAuthorityChanged), None; }
      held := RetainOutgoing(live.value, |events|);
      code := if held.None? then Some(ReviewAuthorityChanged) else None;
    }

    /** The retention of a rollback's target ends, because the target is deployed again. */
    method ReleaseReactivated(row: Operation, event: nat)
      modifies this`retentions
      ensures retentions == Reactivate(old(retentions), row, event)
    {
      if row.kind == RollbackAdapter && row.retention.Some? && row.retention.value.id < |retentions| {
        var target := retentions[row.retention.value.id];
        target := target.(status := Released(Reactivated, event), version := target.version + 1);
        retentions := retentions[row.retention.value.id := target];
      }
    }

    method MovePointer(target: Option<Target>)
      modifies this`pointer
      ensures pointer == Some(Pointer(target, DeploymentVersion(old(pointer)) + 1,
                                      if old(pointer).Some? then old(pointer).value.version + 1 else 1))
    {
      if pointer.None? {
        pointer := Some(Pointer(target, 1, 1));
      } else {
        var p := pointer.value;
        pointer := Some(p.(target := target, deploymentVersion := p.deploymentVersion + 1, version := p.version + 1));
      }
    }

    /** The writes: event, reactivated retention, pointer, operation, audit. */
    method Commit(i: nat, held: Option<nat>, ghost before: State)
      requires i < |operations| && Now() == before.(retentions := retentions)
      modifies this
      ensures Now() == Committed(before, i, before.operations[i], old(retentions), held)
    {
      var row, event := operations[i], |events|;
      assert SuccessEvent(Now(), i, row, held) == SuccessEvent(before, i, row, held);
      hide SuccessEvent, Reactivate;
      events := events + [SuccessEvent(Now(), i, row, held)];
      ReleaseReactivated(row, event);
      MovePointer(row.target);
      operations := operations[i := row.(status := Succeeded, claim := None, lease := 0, version := row.version + 1)];
      audits := audits + [i];
    }

    /** The committing transaction of `finalize_owned_operation`. */
    method Finalize(i: nat, claim: Claim, found: Findings) returns (reply: Reply)
      modifies this
      ensures (Now(), reply) == Governance.Finalize(old(Now()), i, claim, found)
    {
      hide FinalizeRefusal, Leave, Committed;
      if !found.departmentActive { return Raised(RequesterUnauthorized); }
      if i >= |operations| { return Raised(OperationConflict); }
      if operations[i].status == Succeeded { return AlreadySucceeded; }
      var refusal := FinalizeRefusal(Now(), operations[i], claim, found);
      if refusal.Some? { return Raised(refusal.value); }
      ghost var before := Now();
      var code, held := LeaveCurrent(found.outgoingAuthority);
      if code.Some? {
        assert retentions == before.retentions by { Refused(before, found.outgoingAuthority); }
        return Raised(code.value);
      }
      Commit(i, held, before);
      return Done;
    }

    /** A refused departure has changed no retention. */
    static lemma Refused(s: State, outgoingAuthority: bool)
      requires Leave(s, outgoingAuthority).0.Some?
      ensures Leave(s, outgoingAuthority).1 == s.retentions
    {
    }

    method Fail(i: nat, claim: Claim, cancelled: bool) returns (reply: Reply)
      modifies this
      ensures (Now(), reply) == Governance.Fail(old(Now()), i, claim, cancelled)
    {
      if i >= |operations| || !LiveClaim(operations[i], claim, clock) { return Nothing; }
      var row := operations[i];
      if !row.cancelRequested && cancelled { return Nothing; }
      row := row.(status := if row.cancelRequested then Cancelled else Failed);
      operations := operations[i := row.(claim := None, lease := 0, version := row.version + 1)];
      return Done;
    }

    method ReleaseRetention(a: nat, retention: RetentionRef, expectedAdapter: nat) returns (reply: Reply)
      modifies this
      ensures (Now(), reply) == Governance.ReleaseRetention(old(Now()), a, retention, expectedAdapter)
    {
      if a >= |adapters| || retention.id >= |retentions| || retentions[retention.id].target.key.adapter != a {
        return NotFound;
      }
      var row, key := retentions[retention.id], Key(a, expectedAdapter);
      if row.version != retention.version || adapters[a].version != expectedAdapter { return Conflict; }
      if row.status != Retained || DeployedKey(pointer) == Some(key) { return Conflict; }
      var active := HasActiveOperation();
      var evaluating := HasActiveEvaluation(a);
      if active || a in purging || evaluating { return Conflict; }
      var pending := HasPendingReview(key);
      if pending { return Conflict; }
      var current := Deployed(pointer);
      if current.Some? && !CurrentAuthorityStands(Now(), current.value) { return Conflict; }
      var before, event := DeploymentVersion(pointer), |events|;
      events := events + [Event(RetentionRelease, before, before, DeployedKey(pointer),
                                           LiveCurrent(Now()), Some(retention.id))];
      row := row.(status := Released(ManualRelease, event));
      retentions := retentions[retention.id := row.(version := row.version + 1)];
      return Done;
    }
  }
}
