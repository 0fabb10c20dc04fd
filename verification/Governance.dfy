/** Deployment governance of one department (adapter_governance_worker.py,
    adapter_governance_services.py) together with the evaluation and purge transactions that it and
    they fence against each other.

    Every function below is one transaction.  Rows live in sequences, and a row's identifier is its
    index, so that creation order is index order. */
module Governance {
  import opened Common

  // ----- Rows -----

  datatype AdapterStatus = InProgress | Validated | PurgePending | Purged

  datatype Adapter = Adapter(version: nat, status: AdapterStatus)

  datatype EvaluationStatus = EvaluationActive | EvaluationSucceeded(passed: bool) | EvaluationEnded

  datatype Evaluation = Evaluation(
    adapter: nat, adapterVersion: nat, suite: nat, status: EvaluationStatus, version: nat)

  datatype ReviewStatus = Pending | Approved | Rejected | Archived

  datatype Review = Review(
    adapter: nat, adapterVersion: nat, evaluation: nat, evaluationVersion: nat, suite: nat,
    status: ReviewStatus, version: nat)

  /** An adapter at one version. */
  datatype Key = Key(adapter: nat, version: nat)

  /** An adapter version under one review, evaluation and suite. */
  datatype Target = Target(
    key: Key, review: nat, reviewVersion: nat, evaluation: nat, evaluationVersion: nat, suite: nat)

  /** The deployment pointer; no target is the base model. */
  datatype Pointer = Pointer(target: Option<Target>, deploymentVersion: nat, version: nat)

  datatype OperationKind = Promote | RollbackBase | RollbackAdapter

  datatype OperationStatus = Queued | Running | Succeeded | Failed | Cancelled

  datatype Claim = Claim(worker: nat, token: nat)

  datatype RetentionRef = RetentionRef(id: nat, version: nat)

  datatype Operation = Operation(
    kind: OperationKind, status: OperationStatus, expected: nat,
    target: Option<Target>, retention: Option<RetentionRef>, current: Option<Key>,
    claim: Option<Claim>, lease: nat, started: bool, cancelRequested: bool, attempt: nat, version: nat)

  datatype ReleaseReason = Reactivated | ManualRelease

  datatype RetentionStatus = Retained | Released(reason: ReleaseReason, event: nat)

  datatype Retention = Retention(target: Target, creationEvent: nat, status: RetentionStatus, version: nat)

  datatype EventKind = Success(kind: OperationKind, operation: nat) | RetentionRelease

  datatype Event = Event(
    kind: EventKind, before: nat, after: nat, from: Option<Key>, to: Option<Target>, retention: Option<nat>)

  /** `purging` maps the adapters with an active purge operation to the version that it was registered
      for; `audits` the operations of the
      success audits; `tokens` counts the claim tokens ever drawn. */
  datatype State = State(
    adapters: seq<Adapter>, evaluations: seq<Evaluation>, reviews: seq<Review>,
    pointer: Option<Pointer>, operations: seq<Operation>, retentions: seq<Retention>,
    events: seq<Event>, audits: seq<nat>, purging: map<nat, nat>, tokens: nat, clock: nat)

  /** `Conflict` is a 409; the worker's codes are the closed error enumeration it persists. */
  datatype Reply = Done | NotFound | Conflict | AlreadySucceeded | Nothing | Raised(code: WorkerCode)

  datatype WorkerCode =
    | RequesterUnauthorized
    | OperationConflict
    | OperationCancelled
    | ClaimLost
    | WorkerShutdown
    | ArtifactMismatch
    | DeploymentVersionConflict
    | AdapterAuthorityChanged
    | RollbackTargetUnavailable
    | ReviewAuthorityChanged

  // ----- Reading rows -----

  predicate IsActive(op: Operation) { op.status == Queued || op.status == Running }

  predicate AnyActive(operations: seq<Operation>)
  {
    exists i | 0 <= i < |operations| :: IsActive(operations[i])
  }

  predicate ActiveEvaluation(evaluations: seq<Evaluation>, adapter: nat)
  {
    exists i | 0 <= i < |evaluations| :: evaluations[i].adapter == adapter && evaluations[i].status == EvaluationActive
  }

  predicate PendingReview(reviews: seq<Review>, key: Key)
  {
    exists i | 0 <= i < |reviews| ::
      reviews[i].adapter == key.adapter && reviews[i].adapterVersion == key.version && reviews[i].status == Pending
  }

  predicate Holds(r: Retention, key: Key) { r.status == Retained && r.target.key == key }

  /** The active retention of an adapter version. */
  function RetentionOf(retentions: seq<Retention>, key: Key): (r: Option<nat>)
    ensures r.Some? ==> r.value < |retentions| && Holds(retentions[r.value], key)
    ensures r.None? ==> forall i | 0 <= i < |retentions| :: !Holds(retentions[i], key)
  {
    if retentions == [] then None
    else if Holds(retentions[|retentions| - 1], key) then Some(|retentions| - 1)
    else RetentionOf(retentions[..|retentions| - 1], key)
  }

  function DeploymentVersion(pointer: Option<Pointer>): nat
  {
    if pointer.Some? then pointer.value.deploymentVersion else 0
  }

  function Deployed(pointer: Option<Pointer>): Option<Target>
  {
    if pointer.Some? then pointer.value.target else None
  }

  function DeployedKey(pointer: Option<Pointer>): Option<Key>
  {
    if Deployed(pointer).Some? then Some(Deployed(pointer).value.key) else None
  }

  /** A live worker token; a requested cancellation is not a lost claim. */
  predicate LiveClaim(op: Operation, claim: Claim, now: nat)
  {
    op.status == Running && op.claim == Some(claim) && op.lease > now
  }

  // ----- Adapters, evaluations and purges -----

  function CreateAdapter(s: State): (State, Reply)
  {
    (s.(adapters := s.adapters + [Adapter(1, InProgress)]), Done)
  }

  function WithAdapter(s: State, a: nat, status: AdapterStatus): State
    requires a < |s.adapters|
  {
    s.(adapters := s.adapters[a := Adapter(s.adapters[a].version + 1, status)])
  }

  function ValidateAdapter(s: State, a: nat): (State, Reply)
  {
    if a >= |s.adapters| then (s, NotFound)
    else if s.adapters[a].status != InProgress then (s, Conflict)
    else (WithAdapter(s, a, Validated), Done)
  }

  /** The upstream release is the last transaction that rewrites a purged adapter. */
  function ReleaseUpstream(s: State, a: nat): (State, Reply)
  {
    if a >= |s.adapters| then (s, NotFound)
    else if s.adapters[a].status != Purged then (s, Conflict)
    else (WithAdapter(s, a, Purged), Done)
  }

  function EnqueueEvaluation(s: State, a: nat, suite: nat, expectedAdapter: nat, authority: bool): (State, Reply)
  {
    if a >= |s.adapters| then (s, NotFound)
    else if a in s.purging || s.adapters[a].status != Validated || s.adapters[a].version != expectedAdapter
            || !authority
    then (s, Conflict)
    else (s.(evaluations := s.evaluations + [Evaluation(a, expectedAdapter, suite, EvaluationActive, 1)]), Done)
  }

  /** A claim, renewal or end of an active evaluation; terminal evaluations never change. */
  function UpdateEvaluation(s: State, e: nat, status: EvaluationStatus): (State, Reply)
  {
    if e >= |s.evaluations| then (s, NotFound)
    else if s.evaluations[e].status != EvaluationActive then (s, Conflict)
    else
      var next := s.evaluations[e].(status := status, version := s.evaluations[e].version + 1);
      (s.(evaluations := s.evaluations[e := next]), Done)
  }

  /** `_assert_governance_fences` of the purge; `target` is the version it was registered for. */
  predicate PurgeFenced(s: State, a: nat, target: nat)
    requires a < |s.adapters|
  {
    var key := Key(a, s.adapters[a].version);
    || ActiveEvaluation(s.evaluations, a)
    || PendingReview(s.reviews, key)
    || DeployedKey(s.pointer) == Some(Key(a, target))
    || RetentionOf(s.retentions, key).Some?
    || exists i | 0 <= i < |s.operations| ::
         IsActive(s.operations[i])
         && ((s.operations[i].target.Some? && s.operations[i].target.value.key.adapter == a)
             || (s.operations[i].current.Some? && s.operations[i].current.value.adapter == a))
  }

  function RegisterPurge(s: State, a: nat, authority: bool): (State, Reply)
  {
    if a >= |s.adapters| then (s, NotFound)
    else if a in s.purging || s.adapters[a].status == Purged then (s, Nothing)
    else if
      || (s.adapters[a].status != Validated && s.adapters[a].status != PurgePending)
      || !authority
      || PurgeFenced(s, a, s.adapters[a].version)
    then (s, Conflict)
    else (WithAdapter(s, a, PurgePending).(purging := s.purging[a := s.adapters[a].version]), Done)
  }

  /** A blocked purge ends its operation and leaves the adapter pending; a completed one purges it. */
  function FinalizePurge(s: State, a: nat, blocked: bool, authority: bool): (State, Reply)
  {
    if a >= |s.adapters| || a !in s.purging then (s, Nothing)
    else if ActiveEvaluation(s.evaluations, a) then (s, Conflict)
    else if blocked then (s.(purging := s.purging - {a}), Done)
    else if s.adapters[a].status != PurgePending || !authority || PurgeFenced(s, a, s.purging[a]) then (s, Conflict)
    else (WithAdapter(s, a, Purged).(purging := s.purging - {a}), Done)
  }

  // ----- Reviews -----

  /** The review and evaluation snapshot checks; `authority` stands for the suite, registry attempt,
      dependency and evidence rows that no modelled transaction rewrites. */
  predicate SnapshotMatches(s: State, r: Review, authority: bool)
  {
    && authority
    && r.adapter < |s.adapters| && r.evaluation < |s.evaluations|
    && var e := s.evaluations[r.evaluation];
       && e.adapter == r.adapter
       && r.adapterVersion == s.adapters[r.adapter].version == e.adapterVersion
       && r.evaluationVersion == e.version && r.suite == e.suite
  }

  /** `_validate_review_start`, apart from the opaque rows. */
  predicate Reviewable(s: State, a: nat, e: nat)
    requires a < |s.adapters| && e < |s.evaluations|
  {
    && s.evaluations[e].status.EvaluationSucceeded?
    && s.adapters[a].version == s.evaluations[e].adapterVersion
    && s.adapters[a].status != PurgePending && s.adapters[a].status != Purged
  }

  /** `_validate_approval`. */
  predicate Approvable(s: State, a: nat, e: nat)
    requires a < |s.adapters| && e < |s.evaluations|
  {
    Reviewable(s, a, e) && s.adapters[a].status == Validated && s.evaluations[e].status.passed
  }

  function StartReview(s: State, a: nat, e: nat, expectedAdapter: nat, expectedEvaluation: nat, authority: bool)
    : (State, Reply)
  {
    if e >= |s.evaluations| || a >= |s.adapters| || s.evaluations[e].adapter != a then (s, NotFound)
    else
      var run := s.evaluations[e];
      if || run.version != expectedEvaluation
         || run.adapterVersion != expectedAdapter
         || s.adapters[a].version != expectedAdapter
         || !authority
         || !Reviewable(s, a, e)
         || a in s.purging
         || ActiveEvaluation(s.evaluations, a)
         || PendingReview(s.reviews, Key(a, s.adapters[a].version))
      then (s, Conflict)
      else
        (s.(reviews := s.reviews + [Review(a, s.adapters[a].version, e, run.version, run.suite, Pending, 1)]), Done)
  }

  datatype ReviewAction = Approve | Reject | Archive

  function TransitionReview(s: State, r: nat, action: ReviewAction, expectedAdapter: nat, expectedReview: nat,
                            authority: bool)
    : (State, Reply)
  {
    if r >= |s.reviews| then (s, NotFound)
    else
      var review := s.reviews[r];
      if || review.version != expectedReview
         || review.adapterVersion != expectedAdapter
         || !SnapshotMatches(s, review, authority)
      then (s, Conflict)
      else
        var key := Key(review.adapter, review.adapterVersion);
        var allowed :=
          match action
          case Approve => review.status == Pending && Approvable(s, review.adapter, review.evaluation)
          case Reject => review.status == Pending && Reviewable(s, review.adapter, review.evaluation)
          case Archive =>
            || review.status == Rejected
            || (review.status == Approved && DeployedKey(s.pointer) != Some(key)
                && RetentionOf(s.retentions, key).None? && !AnyActive(s.operations));
        if !allowed then (s, Conflict)
        else
          var status := match action case Approve => Approved case Reject => Rejected case Archive => Archived;
          (s.(reviews := s.reviews[r := review.(status := status, version := review.version + 1)]), Done)
  }

  // ----- Operations -----

  /** `_validate_approved_target`: the target that the live rows describe, if it may be deployed. */
  function ApprovedTarget(s: State, key: Key, r: nat, reviewVersion: nat, authority: bool): Option<Target>
  {
    if r >= |s.reviews| || key.adapter >= |s.adapters| || s.reviews[r].adapter != key.adapter then None
    else
      var review := s.reviews[r];
      if || review.version != reviewVersion
         || s.adapters[key.adapter].version != key.version
         || review.status != Approved
         || !SnapshotMatches(s, review, authority)
         || !Approvable(s, key.adapter, review.evaluation)
         || key.adapter in s.purging
      then None
      else
        Some(Target(key, r, review.version, review.evaluation, review.evaluationVersion, review.suite))
  }

  function NewOperation(s: State, kind: OperationKind, target: Option<Target>,
                        retention: Option<RetentionRef>): Operation
  {
    Operation(kind, Queued, DeploymentVersion(s.pointer), target, retention, DeployedKey(s.pointer),
              None, 0, false, false, 1, 1)
  }

  function Enqueued(s: State, op: Operation): State
  {
    s.(operations := s.operations + [op])
  }

  function EnqueuePromotion(s: State, key: Key, r: nat, expectedReview: nat, expected: nat,
                            authority: bool): (State, Reply)
  {
    if DeploymentVersion(s.pointer) != expected || AnyActive(s.operations) then (s, Conflict)
    else
      var target := ApprovedTarget(s, key, r, expectedReview, authority);
      if target.None? || DeployedKey(s.pointer) == Some(key) then (s, Conflict)
      else (Enqueued(s, NewOperation(s, Promote, target, None)), Done)
  }

  function EnqueueRollbackToBase(s: State, expected: nat): (State, Reply)
  {
    if s.pointer.None? || DeploymentVersion(s.pointer) != expected || AnyActive(s.operations) then (s, Conflict)
    else if Deployed(s.pointer).None? then (s, Conflict)
    else (Enqueued(s, NewOperation(s, RollbackBase, None, None)), Done)
  }

  function EnqueueRollbackToAdapter(s: State, key: Key, retention: RetentionRef, expected: nat,
                                    authority: bool): (State, Reply)
  {
    if s.pointer.None? || DeploymentVersion(s.pointer) != expected || AnyActive(s.operations) then (s, Conflict)
    else if
      || retention.id >= |s.retentions|
      || s.retentions[retention.id].version != retention.version
      || !Holds(s.retentions[retention.id], key)
    then (s, Conflict)
    else if DeployedKey(s.pointer) == Some(key) then (s, Conflict)
    else
      var retained := s.retentions[retention.id].target;
      var target := ApprovedTarget(s, key, retained.review, retained.reviewVersion, authority);
      if target != Some(retained) then (s, Conflict)
      else (Enqueued(s, NewOperation(s, RollbackAdapter, target, Some(retention))), Done)
  }

  function WithOperation(s: State, i: nat, op: Operation): State
    requires i < |s.operations|
  {
    s.(operations := s.operations[i := op.(version := op.version + 1)])
  }

  function CancelOperation(s: State, i: nat, expectedVersion: nat): (State, Reply)
  {
    if i >= |s.operations| then (s, NotFound)
    else
      var op := s.operations[i];
      if op.version != expectedVersion || !IsActive(op) then (s, Conflict)
      else
        (WithOperation(s, i, op.(cancelRequested := true,
                                 status := if op.status == Queued then Cancelled else op.status)), Done)
  }

  predicate Claimable(op: Operation, now: nat)
  {
    op.status == Queued || (op.status == Running && op.lease <= now)
  }

  /** The oldest claimable operation. */
  function OldestClaimable(operations: seq<Operation>, now: nat): (r: Option<nat>)
    ensures r.Some? ==> r.value < |operations| && Claimable(operations[r.value], now)
                        && forall j | 0 <= j < r.value :: !Claimable(operations[j], now)
    ensures r.None? ==> forall j | 0 <= j < |operations| :: !Claimable(operations[j], now)
  {
    if operations == [] then None
    else
      var k := |operations| - 1;
      var earlier := OldestClaimable(operations[..k], now);
      if earlier.Some? then earlier else if Claimable(operations[k], now) then Some(k) else None
  }

  function ClaimNext(s: State, worker: nat, seconds: nat): (State, Option<(nat, Claim)>)
  {
    var candidate := OldestClaimable(s.operations, s.clock);
    if candidate.None? then (s, None)
    else
      var op, claim := s.operations[candidate.value], Claim(worker, s.tokens);
      var claimed := op.(status := Running, claim := Some(claim), lease := s.clock + seconds, started := true,
                         attempt := op.attempt + (if op.started then 1 else 0));
      (WithOperation(s, candidate.value, claimed).(tokens := s.tokens + 1), Some((candidate.value, claim)))
  }

  function Heartbeat(s: State, i: nat, claim: Claim, seconds: nat): (State, Reply)
  {
    if i >= |s.operations| || !LiveClaim(s.operations[i], claim, s.clock) then (s, Raised(ClaimLost))
    else if s.operations[i].cancelRequested then (s, Raised(OperationCancelled))
    else (WithOperation(s, i, s.operations[i].(lease := s.clock + seconds)), Done)
  }

  /** What the finalizing transaction finds in rows that are not modelled. */
  datatype Findings = Findings(
    departmentActive: bool, shutdown: bool, artifacts: bool, targetAuthority: bool,
    requester: bool, outgoingAuthority: bool)

  /** Everything `finalize_owned_operation` checks before it writes, in its order. */
  function FinalizeRefusal(s: State, op: Operation, claim: Claim, found: Findings): Option<WorkerCode>
  {
    if op.cancelRequested && LiveClaim(op, claim, s.clock) then Some(OperationCancelled)
    else if !LiveClaim(op, claim, s.clock) then Some(ClaimLost)
    else if found.shutdown then Some(WorkerShutdown)
    else if op.target.Some? && !found.artifacts then Some(ArtifactMismatch)
    else if DeploymentVersion(s.pointer) != op.expected then Some(DeploymentVersionConflict)
    else if op.kind != RollbackBase && op.target.None? then Some(AdapterAuthorityChanged)
    else if
      && op.kind != RollbackBase
      && ApprovedTarget(s, op.target.value.key, op.target.value.review, op.target.value.reviewVersion,
                        found.targetAuthority) != op.target
    then Some(AdapterAuthorityChanged)
    else if op.kind == RollbackAdapter && !RetentionStands(s, op) then Some(RollbackTargetUnavailable)
    else if !found.requester then Some(RequesterUnauthorized)
    else None
  }

  predicate RetentionStands(s: State, op: Operation)
  {
    && op.retention.Some? && op.target.Some? && op.retention.value.id < |s.retentions|
    && var r := s.retentions[op.retention.value.id];
       && r.status == Retained && r.version == op.retention.value.version
       && r.target.key.adapter == op.target.value.key.adapter
       && r.target == op.target.value.(key := r.target.key)
  }

  /** The outgoing adapter, as its approved review and the live rows describe it. */
  function OutgoingTarget(s: State, out: Target, authority: bool): Option<Target>
  {
    ApprovedTarget(s, out.key, out.review, out.reviewVersion, authority)
  }

  predicate OutgoingReviewStands(s: State, out: Target)
  {
    && out.review < |s.reviews|
    && var r := s.reviews[out.review];
       r.adapter == out.key.adapter && r.adapterVersion == out.key.version && r.version == out.reviewVersion
       && r.status == Approved
  }

  /** `_retention_for_outgoing`: the retentions afterwards and the one that holds `out`. */
  function RetainOutgoing(retentions: seq<Retention>, out: Target, event: nat): Option<(seq<Retention>, nat)>
  {
    var existing := RetentionOf(retentions, out.key);
    if existing.None? then Some((retentions + [Retention(out, event, Retained, 1)], |retentions|))
    else if retentions[existing.value].target != out then None
    else Some((retentions, existing.value))
  }

  /** Leaving the deployed adapter, if there is one: the retentions afterwards and the retention that
      the event names. */
  function Leave(s: State, outgoingAuthority: bool): (Option<WorkerCode>, seq<Retention>, Option<nat>)
  {
    var out := Deployed(s.pointer);
    if out.None? then (None, s.retentions, None)
    else if !OutgoingReviewStands(s, out.value) then (Some(ReviewAuthorityChanged), s.retentions, None)
    else
      var live := OutgoingTarget(s, out.value, outgoingAuthority);
      if live.None? then (Some(AdapterAuthorityChanged), s.retentions, None)
      else
        var retained := RetainOutgoing(s.retentions, live.value, |s.events|);
        if retained.None? then (Some(ReviewAuthorityChanged), s.retentions, None)
        else (None, retained.value.0, Some(retained.value.1))
  }

  /** The retention of the adapter that a rollback makes current again ends. */
  function Reactivate(retentions: seq<Retention>, op: Operation, event: nat): seq<Retention>
  {
    if op.kind != RollbackAdapter || op.retention.None? || op.retention.value.id >= |retentions| then retentions
    else
      var id := op.retention.value.id;
      retentions[id := retentions[id].(status := Released(Reactivated, event), version := retentions[id].version + 1)]
  }

  /** The committing transaction of `finalize_owned_operation`. */
  function Finalize(s: State, i: nat, claim: Claim, found: Findings): (State, Reply)
  {
    if !found.departmentActive then (s, Raised(RequesterUnauthorized))
    else if i >= |s.operations| then (s, Raised(OperationConflict))
    else
      var op := s.operations[i];
      if op.status == Succeeded then (s, AlreadySucceeded)
      else
        var refusal := FinalizeRefusal(s, op, claim, found);
        if refusal.Some? then (s, Raised(refusal.value))
        else
          var (code, retentions, held) := Leave(s, found.outgoingAuthority);
          if code.Some? then (s, Raised(code.value))
          else (Committed(s, i, op, retentions, held), Done)
  }

  function SuccessEvent(s: State, i: nat, op: Operation, held: Option<nat>): Event
  {
    Event(Success(op.kind, i), DeploymentVersion(s.pointer), DeploymentVersion(s.pointer) + 1,
          DeployedKey(s.pointer), op.target,
          if held.Some? then held
          else if op.kind == RollbackAdapter && op.retention.Some? then Some(op.retention.value.id) else None)
  }

  function Committed(s: State, i: nat, op: Operation, retentions: seq<Retention>, held: Option<nat>): State
    requires i < |s.operations|
  {
    var rowVersion := if s.pointer.Some? then s.pointer.value.version + 1 else 1;
    WithOperation(s, i, op.(status := Succeeded, claim := None, lease := 0)).(
    events := s.events + [SuccessEvent(s, i, op, held)],
    retentions := Reactivate(retentions, op, |s.events|),
    pointer := Some(Pointer(op.target, DeploymentVersion(s.pointer) + 1, rowVersion)),
    audits := s.audits + [i])
  }

  /** `fail_owned_operation`; `cancelled` says that the reported code is "cancelled". */
  function Fail(s: State, i: nat, claim: Claim, cancelled: bool): (State, Reply)
  {
    if i >= |s.operations| || !LiveClaim(s.operations[i], claim, s.clock) then (s, Nothing)
    else
      var op := s.operations[i];
      if !op.cancelRequested && cancelled then (s, Nothing)
      else
        (WithOperation(s, i, op.(status := if op.cancelRequested then Cancelled else Failed, claim := None,
                                 lease := 0)), Done)
  }

  // ----- Retentions -----

  function ReleaseRetention(s: State, a: nat, retention: RetentionRef, expectedAdapter: nat): (State, Reply)
  {
    if || a >= |s.adapters|
       || retention.id >= |s.retentions|
       || s.retentions[retention.id].target.key.adapter != a
    then (s, NotFound)
    else
      var r, key, current := s.retentions[retention.id], Key(a, expectedAdapter), Deployed(s.pointer);
      if || r.version != retention.version
         || s.adapters[a].version != expectedAdapter
         || r.status != Retained
         || DeployedKey(s.pointer) == Some(key)
         || AnyActive(s.operations)
         || a in s.purging
         || ActiveEvaluation(s.evaluations, a)
         || PendingReview(s.reviews, key)
         || (current.Some? && !CurrentAuthorityStands(s, current.value))
      then (s, Conflict)
      else
        var before := DeploymentVersion(s.pointer);
        var event := Event(RetentionRelease, before, before, DeployedKey(s.pointer), LiveCurrent(s),
                           Some(retention.id));
        (s.(events := s.events + [event],
            retentions := s.retentions[retention.id := r.(status := Released(ManualRelease, |s.events|),
                                                          version := r.version + 1)]),
         Done)
  }

  /** The current deployment's evaluation and approved review, found by everything but their versions. */
  predicate CurrentAuthorityStands(s: State, current: Target)
  {
    && current.evaluation < |s.evaluations| && current.review < |s.reviews|
    && var e, r := s.evaluations[current.evaluation], s.reviews[current.review];
       && e.adapter == current.key.adapter && e.adapterVersion == current.key.version && e.suite == current.suite
       && r.adapter == current.key.adapter && r.adapterVersion == current.key.version
       && r.evaluation == current.evaluation && r.evaluationVersion == current.evaluationVersion
       && r.suite == current.suite && r.status == Approved
  }

  /** What the release event records of the current deployment: the versions are the live ones. */
  function LiveCurrent(s: State): Option<Target>
  {
    var current := Deployed(s.pointer);
    if current.None? || !CurrentAuthorityStands(s, current.value) then None
    else Some(current.value.(reviewVersion := s.reviews[current.value.review].version,
                             evaluationVersion := s.evaluations[current.value.evaluation].version))
  }

  // ----- Runs -----

  datatype Action =
    | DoCreate
    | DoValidate(adapter: nat)
    | DoReleaseUpstream(adapter: nat)
    | DoEvaluate(adapter: nat, suite: nat, expected: nat, authority: bool)
    | DoUpdateEvaluation(evaluation: nat, status: EvaluationStatus)
    | DoRegisterPurge(adapter: nat, authority: bool)
    | DoFinalizePurge(adapter: nat, blocked: bool, authority: bool)
    | DoStartReview(adapter: nat, evaluation: nat, expectedAdapter: nat, expectedEvaluation: nat, authority: bool)
    | DoTransition(review: nat, action: ReviewAction, expectedAdapter: nat, expectedReview: nat, authority: bool)
    | DoPromote(key: Key, review: nat, expectedReview: nat, expected: nat, authority: bool)
    | DoRollbackToBase(expected: nat)
    | DoRollbackToAdapter(key: Key, retention: RetentionRef, expected: nat, authority: bool)
    | DoCancel(operation: nat, expected: nat)
    | DoClaim(worker: nat, seconds: nat)
    | DoHeartbeat(operation: nat, claim: Claim, seconds: nat)
    | DoFinalize(operation: nat, claim: Claim, found: Findings)
    | DoFail(operation: nat, claim: Claim, cancelled: bool)
    | DoReleaseRetention(adapter: nat, retention: RetentionRef, expected: nat)
    | DoTick

  /** Any transaction, by anyone, with any arguments. */
  function Act(s: State, a: Action): State
  {
    match a
    case DoCreate => CreateAdapter(s).0
    case DoValidate(i) => ValidateAdapter(s, i).0
    case DoReleaseUpstream(i) => ReleaseUpstream(s, i).0
    case DoEvaluate(i, suite, expected, ok) => EnqueueEvaluation(s, i, suite, expected, ok).0
    case DoUpdateEvaluation(e, status) => UpdateEvaluation(s, e, status).0
    case DoRegisterPurge(i, ok) => RegisterPurge(s, i, ok).0
    case DoFinalizePurge(i, blocked, ok) => FinalizePurge(s, i, blocked, ok).0
    case DoStartReview(i, e, ea, ee, ok) => StartReview(s, i, e, ea, ee, ok).0
    case DoTransition(r, action, ea, er, ok) => TransitionReview(s, r, action, ea, er, ok).0
    case DoPromote(key, r, er, expected, ok) => EnqueuePromotion(s, key, r, er, expected, ok).0
    case DoRollbackToBase(expected) => EnqueueRollbackToBase(s, expected).0
    case DoRollbackToAdapter(key, retention, expected, ok) =>
      EnqueueRollbackToAdapter(s, key, retention, expected, ok).0
    case DoCancel(i, expected) => CancelOperation(s, i, expected).0
    case DoClaim(worker, seconds) => ClaimNext(s, worker, seconds).0
    case DoHeartbeat(i, claim, seconds) => Heartbeat(s, i, claim, seconds).0
    case DoFinalize(i, claim, found) => Finalize(s, i, claim, found).0
    case DoFail(i, claim, cancelled) => Fail(s, i, claim, cancelled).0
    case DoReleaseRetention(i, retention, expected) => ReleaseRetention(s, i, retention, expected).0
    case DoTick => s.(clock := s.clock + 1)
  }

  const EMPTY := State([], [], [], None, [], [], [], [], map[], 0, 0)

  function Run(actions: seq<Action>): State
  {
    if actions == [] then EMPTY else Act(Run(actions[..|actions| - 1]), actions[|actions| - 1])
  }
}
