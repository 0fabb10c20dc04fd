/** The event log of deployment governance: what it says about the deployment, the retentions and the
    operations. */
module GovernanceLog {
  import opened Common
  import opened Governance
  import opened GovernanceSafety

  // ----- Replay -----

  /** What a reader of the log knows: the deployed target and the deployment version. */
  datatype View = View(target: Option<Target>, version: nat)

  function KeyOfTarget(t: Option<Target>): Option<Key>
  {
    if t.Some? then Some(t.value.key) else None
  }

  /** A reader that accepts only an event that continues what it has read: a success steps the version
      by one, a release repeats the deployment as it is. */
  function Read(v: View, e: Event): Option<View>
  {
    if e.before != v.version || e.from != KeyOfTarget(v.target) then None
    else
      match e.kind
      case Success(_, _) => if e.after == v.version + 1 then Some(View(e.to, e.after)) else None
      case RetentionRelease => if e.after == v.version && e.to == v.target then Some(v) else None
  }

  function Replay(events: seq<Event>): Option<View>
  {
    if events == [] then Some(View(None, 0))
    else
      var v := Replay(events[..|events| - 1]);
      if v.None? then None else Read(v.value, events[|events| - 1])
  }

  function ViewOf(s: State): View
  {
    View(Deployed(s.pointer), DeploymentVersion(s.pointer))
  }

  predicate LogInv(s: State)
  {
    Replay(s.events) == Some(ViewOf(s))
  }

  lemma ReplayAppend(events: seq<Event>, e: Event)
    ensures Replay(events + [e])
            == if Replay(events).None? then None else Read(Replay(events).value, e)
  {
    assert (events + [e])[..|events + [e]| - 1] == events;
  }

  // ----- Exactly once -----

  function Successes(events: seq<Event>, i: nat): nat
  {
    if events == [] then 0
    else Successes(events[..|events| - 1], i)
         + (var k := events[|events| - 1].kind; if k.Success? && k.operation == i then 1 else 0)
  }

  function Audits(audits: seq<nat>, i: nat): nat
  {
    if audits == [] then 0
    else Audits(audits[..|audits| - 1], i) + (if audits[|audits| - 1] == i then 1 else 0)
  }

  function SucceededIn(operations: seq<Operation>): nat
  {
    if operations == [] then 0
    else
      var last := |operations| - 1;
      SucceededIn(operations[..last]) + (if operations[last].status == Succeeded then 1 else 0)
  }

  predicate HasSucceeded(operations: seq<Operation>, i: nat)
  {
    i < |operations| && operations[i].status == Succeeded
  }

  ghost predicate OnceInv(s: State)
  {
    && (forall i: nat :: Successes(s.events, i) == (if HasSucceeded(s.operations, i) then 1 else 0))
    && (forall i: nat :: Audits(s.audits, i) == (if HasSucceeded(s.operations, i) then 1 else 0))
    && DeploymentVersion(s.pointer) == SucceededIn(s.operations)
  }

  lemma {:induction false} SucceededUpdate(operations: seq<Operation>, i: nat, op: Operation)
    requires i < |operations|
    ensures SucceededIn(operations[i := op]) + (if operations[i].status == Succeeded then 1 else 0)
            == SucceededIn(operations) + (if op.status == Succeeded then 1 else 0)
  {
    var k := |operations| - 1;
    if i < k {
      assert operations[i := op][..k] == operations[..k][i := op];
      SucceededUpdate(operations[..k], i, op);
    } else {
      assert operations[i := op][..k] == operations[..k];
    }
  }

  lemma SucceededAppend(operations: seq<Operation>, op: Operation)
    ensures SucceededIn(operations + [op]) == SucceededIn(operations) + (if op.status == Succeeded then 1 else 0)
  {
    assert (operations + [op])[..|operations + [op]| - 1] == operations;
  }

  // ----- Retention history -----

  /** What the log says about one adapter version: never left, left and kept, deployed again by a
      rollback, or let go by a manual release. */
  datatype Standing = NeverLeft | Kept | Resumed | LetGo

  function Track(events: seq<Event>, retentions: seq<Retention>, k: Key): Standing
  {
    if events == [] then NeverLeft
    else Tracked(Track(events[..|events| - 1], retentions, k), events[|events| - 1], retentions, k)
  }

  function Tracked(before: Standing, e: Event, retentions: seq<Retention>, k: Key): Standing
  {
    match e.kind
    case Success(kind, _) =>
      if e.from == Some(k) then Kept
      else if kind == RollbackAdapter && KeyOfTarget(e.to) == Some(k) then Resumed
      else before
    case RetentionRelease =>
      if e.retention.Some? && e.retention.value < |retentions| && retentions[e.retention.value].target.key == k
      then LetGo else before
  }

  /** The events name only retentions that exist. */
  predicate NamesRetentions(events: seq<Event>, retentions: seq<Retention>)
  {
    forall j | 0 <= j < |events| :: events[j].retention.Some? ==> events[j].retention.value < |retentions|
  }

  ghost predicate HistoryInv(s: State)
  {
    && NamesRetentions(s.events, s.retentions)
    && forall k ::
         var t := Track(s.events, s.retentions, k);
         && (t == Kept <==> RetentionOf(s.retentions, k).Some?)
         && (t == Resumed ==> DeployedKey(s.pointer) == Some(k))
  }

  /** Retentions are appended to and change their status, but never their target. */
  predicate SameTargets(before: seq<Retention>, after: seq<Retention>)
  {
    |before| <= |after| && forall i | 0 <= i < |before| :: after[i].target == before[i].target
  }

  lemma {:induction false} TrackStable(events: seq<Event>, before: seq<Retention>, after: seq<Retention>, k: Key)
    requires SameTargets(before, after) && NamesRetentions(events, before)
    ensures Track(events, after, k) == Track(events, before, k)
  {
    if events != [] {
      var n := |events| - 1;
      assert forall j | 0 <= j < n :: events[..n][j] == events[j];
      TrackStable(events[..n], before, after, k);
    }
  }

  lemma TrackAppend(events: seq<Event>, e: Event, retentions: seq<Retention>, k: Key)
    ensures Track(events + [e], retentions, k) == Tracked(Track(events, retentions, k), e, retentions, k)
  {
    assert (events + [e])[..|events + [e]| - 1] == events;
  }

  // ----- Transactions that write no event -----

  ghost predicate Quiet(s: State, next: State)
  {
    && next.events == s.events && next.audits == s.audits && next.pointer == s.pointer
       && next.retentions == s.retentions
    && |s.operations| <= |next.operations|
    && SucceededIn(next.operations) == SucceededIn(s.operations)
    && forall i: nat :: HasSucceeded(next.operations, i) <==> HasSucceeded(s.operations, i)
  }

  lemma EnqueuedIsQuiet(s: State, op: Operation)
    requires op.status == Queued
    ensures Quiet(s, Enqueued(s, op))
  {
    SucceededAppend(s.operations, op);
  }

  lemma UpdatedIsQuiet(s: State, i: nat, op: Operation)
    requires i < |s.operations| && s.operations[i].status != Succeeded && op.status != Succeeded
    ensures Quiet(s, WithOperation(s, i, op))
  {
    SucceededUpdate(s.operations, i, op.(version := op.version + 1));
  }

  lemma EnqueuesAreQuiet(s: State, a: Action)
    requires a.DoPromote? || a.DoRollbackToBase? || a.DoRollbackToAdapter?
    ensures Quiet(s, Act(s, a))
  {
    hide ApprovedTarget, AnyActive, Quiet, SucceededIn;
    match a
    case DoPromote(key, r, er, expected, ok) =>
      EnqueuedIsQuiet(s, NewOperation(s, Promote, ApprovedTarget(s, key, r, er, ok), None));
      SelfIsQuiet(s);
    case DoRollbackToBase(expected) =>
      EnqueuedIsQuiet(s, NewOperation(s, RollbackBase, None, None));
      SelfIsQuiet(s);
    case DoRollbackToAdapter(key, retention, expected, ok) =>
      SelfIsQuiet(s);
      if retention.id < |s.retentions| {
        var retained := s.retentions[retention.id].target;
        EnqueuedIsQuiet(s, NewOperation(s, RollbackAdapter,
                                        ApprovedTarget(s, key, retained.review, retained.reviewVersion, ok),
                                          Some(retention)));
      }
  }

  lemma SelfIsQuiet(s: State)
    ensures Quiet(s, s)
  {
  }

  lemma UpdatesAreQuiet(s: State, a: Action)
    requires a.DoCancel? || a.DoClaim? || a.DoHeartbeat? || a.DoFail?
    ensures Quiet(s, Act(s, a))
  {
    hide Quiet, SucceededIn;
    SelfIsQuiet(s);
    match a
    case DoCancel(i, expected) =>
      if CancelOperation(s, i, expected).1 == Done {
        var op := s.operations[i];
        UpdatedIsQuiet(s, i, op.(cancelRequested := true,
                                 status := if op.status == Queued then Cancelled else op.status));
      }
    case DoClaim(worker, seconds) =>
      var candidate := OldestClaimable(s.operations, s.clock);
      if candidate.Some? {
        var op := s.operations[candidate.value];
        var claimed := op.(status := Running, claim := Some(Claim(worker, s.tokens)), lease := s.clock + seconds,
                           started := true, attempt := op.attempt + (if op.started then 1 else 0));
        UpdatedIsQuiet(s, candidate.value, claimed);
        TokensAreQuiet(s, WithOperation(s, candidate.value, claimed), s.tokens + 1);
      }
    case DoHeartbeat(i, claim, seconds) =>
      if Heartbeat(s, i, claim, seconds).1 == Done {
        UpdatedIsQuiet(s, i, s.operations[i].(lease := s.clock + seconds));
      }
    case DoFail(i, claim, cancelled) =>
      if Fail(s, i, claim, cancelled).1 == Done {
        var op := s.operations[i];
        UpdatedIsQuiet(s, i, op.(status := if op.cancelRequested then Cancelled else Failed, claim := None,
                                 lease := 0));
      }
  }

  lemma TokensAreQuiet(s: State, next: State, tokens: nat)
    requires Quiet(s, next)
    ensures Quiet(s, next.(tokens := tokens))
  {
  }

  lemma RowsAreQuiet(s: State, a: Action)
    requires !a.DoPromote? && !a.DoRollbackToBase? && !a.DoRollbackToAdapter? && !a.DoCancel? && !a.DoClaim?
    requires !a.DoHeartbeat? && !a.DoFail? && !a.DoFinalize? && !a.DoReleaseRetention?
    ensures Quiet(s, Act(s, a))
  {
    hide SucceededIn, HasSucceeded, PurgeFenced, SnapshotMatches, Approvable, Reviewable, RetentionOf, AnyActive,
         ActiveEvaluation, PendingReview;
  }

  ghost predicate Recorded(s: State) { LogInv(s) && OnceInv(s) && HistoryInv(s) }

  lemma QuietKeepsRecord(s: State, next: State)
    requires Recorded(s) && Quiet(s, next)
    ensures Recorded(next)
  {
    hide Track, Successes, Audits, SucceededIn, Replay;
  }

  // ----- The two transactions that write an event -----

  lemma CommittedKeepsLog(s: State, i: nat, op: Operation, retentions: seq<Retention>, held: Option<nat>)
    requires i < |s.operations| && LogInv(s)
    ensures LogInv(Committed(s, i, op, retentions, held))
  {
    ReplayAppend(s.events, SuccessEvent(s, i, op, held));
  }

  lemma CommittedKeepsOnce(s: State, i: nat, op: Operation, retentions: seq<Retention>, held: Option<nat>)
    requires i < |s.operations| && s.operations[i] == op && op.status != Succeeded && OnceInv(s)
    ensures OnceInv(Committed(s, i, op, retentions, held))
  {
    var next := Committed(s, i, op, retentions, held);
    SucceededUpdate(s.operations, i, next.operations[i]);
    var n, m := |next.events| - 1, |next.audits| - 1;
    assert next.events[..n] == s.events && next.audits[..m] == s.audits;
    hide SucceededIn;
    forall j: nat
      ensures Successes(next.events, j) == (if HasSucceeded(next.operations, j) then 1 else 0)
      ensures Audits(next.audits, j) == (if HasSucceeded(next.operations, j) then 1 else 0)
    {
      assert Successes(s.events, j) == (if HasSucceeded(s.operations, j) then 1 else 0);
      assert Audits(s.audits, j) == (if HasSucceeded(s.operations, j) then 1 else 0);
      assert j != i ==> (HasSucceeded(next.operations, j) <==> HasSucceeded(s.operations, j));
    }
  }

  /** The retentions after a finalization, seen from one adapter version. */
  lemma ReactivatedRetention(retentions: seq<Retention>, op: Operation, event: nat, k: Key, reviews: seq<Review>,
                             adapters: seq<Adapter>)
    requires RetentionsInv(retentions, reviews, adapters)
    requires op.kind == RollbackAdapter ==>
               op.retention.Some? && op.target.Some? && op.retention.value.id < |retentions|
               && Holds(retentions[op.retention.value.id], op.target.value.key)
    ensures SameTargets(retentions, Reactivate(retentions, op, event))
    ensures RetentionOf(Reactivate(retentions, op, event), k).Some?
            <==> RetentionOf(retentions, k).Some? && !(op.kind == RollbackAdapter && op.target.value.key == k)
  {
    hide Stands, Live;
    var after := Reactivate(retentions, op, event);
    var held, kept := RetentionOf(after, k), RetentionOf(retentions, k);
    if held.Some? { assert Holds(retentions[held.value], k); }
    if kept.Some? && !(op.kind == RollbackAdapter && op.target.value.key == k) { assert Holds(after[kept.value], k); }
  }

  /** One adapter version across a finalization. */
  lemma CommittedKeepsStanding(s: State, op: Operation, e: Event, retentions: seq<Retention>, held: Option<nat>, k: Key)
    requires HistoryInv(s) && RetentionsInv(retentions, s.reviews, s.adapters) && SameTargets(s.retentions, retentions)
    requires op.kind == RollbackAdapter ==>
               op.retention.Some? && op.target.Some? && op.retention.value.id < |retentions|
               && Holds(retentions[op.retention.value.id], op.target.value.key)
    requires op.target.Some? ==> DeployedKey(s.pointer) != Some(op.target.value.key)
    requires e.kind.Success? && e.kind.kind == op.kind && e.from == DeployedKey(s.pointer) && e.to == op.target
    requires DeployedKey(s.pointer) == Some(k) ==> RetentionOf(retentions, k).Some?
    requires DeployedKey(s.pointer) != Some(k) ==> RetentionOf(retentions, k) == RetentionOf(s.retentions, k)
    ensures var after := Reactivate(retentions, op, |s.events|);
            var t := Track(s.events + [e], after, k);
            (t == Kept <==> RetentionOf(after, k).Some?) && (t == Resumed ==> KeyOfTarget(op.target) == Some(k))
  {
    var after := Reactivate(retentions, op, |s.events|);
    ReactivatedRetention(retentions, op, |s.events|, k, s.reviews, s.adapters);
    TrackStable(s.events, s.retentions, after, k);
    TrackAppend(s.events, e, after, k);
    hide Reactivate, Track, RetentionsInv;
  }

  lemma CommittedKeepsHistory(s: State, i: nat, claim: Claim, found: Findings)
    requires Inv(s) && HistoryInv(s) && Finalize(s, i, claim, found).1 == Done
    ensures HistoryInv(Finalize(s, i, claim, found).0)
  {
    hide RetentionsInv, Live, Track, Reactivate;
    var op, next := s.operations[i], Finalize(s, i, claim, found).0;
    assert FinalizeRefusal(s, op, claim, found).None?;
    ActiveIsStable(s, i);
    var (code, retentions, held) := Leave(s, found.outgoingAuthority);
    LeaveKeepsInv(s, found.outgoingAuthority);
    hide FinalizeRefusal, Leave, Stands, Grounded, Live, RetentionsInv, Finalize, Inv, Reactivate, Track;
    FinalizeCommits(s, i, claim, found);
    assert op.kind == RollbackAdapter ==> Holds(retentions[op.retention.value.id], op.target.value.key);
    forall k
      ensures var t := Track(next.events, next.retentions, k);
              (t == Kept <==> RetentionOf(next.retentions, k).Some?)
                && (t == Resumed ==> DeployedKey(next.pointer) == Some(k))
    {
      CommittedKeepsStanding(s, op, SuccessEvent(s, i, op, held), retentions, held, k);
    }
    assert |next.retentions| >= |retentions| by { ReactivateLength(retentions, op, |s.events|); }
  }

  lemma ReactivateLength(retentions: seq<Retention>, op: Operation, event: nat)
    ensures |Reactivate(retentions, op, event)| == |retentions|
  {
  }

  lemma FinalizeCommits(s: State, i: nat, claim: Claim, found: Findings)
    requires Finalize(s, i, claim, found).1 == Done
    ensures i < |s.operations|
    ensures var (code, retentions, held) := Leave(s, found.outgoingAuthority);
            code.None? && Finalize(s, i, claim, found).0 == Committed(s, i, s.operations[i], retentions, held)
  {
    hide Leave, FinalizeRefusal;
    var left := Leave(s, found.outgoingAuthority);
    assert left.0.None?;
    assert Finalize(s, i, claim, found).0 == Committed(s, i, s.operations[i], left.1, left.2);
  }

  lemma FinalizeKeepsRecord(s: State, i: nat, claim: Claim, found: Findings)
    requires Inv(s) && Recorded(s)
    ensures Recorded(Finalize(s, i, claim, found).0)
  {
    if Finalize(s, i, claim, found).1 == Done {
      CommittedKeepsHistory(s, i, claim, found);
      FinalizeCommits(s, i, claim, found);
      var (code, retentions, held) := Leave(s, found.outgoingAuthority);
      assert s.operations[i].status != Succeeded;
      hide Leave, FinalizeRefusal, LogInv, OnceInv, HistoryInv, Committed, Finalize;
      CommittedKeepsLog(s, i, s.operations[i], retentions, held);
      CommittedKeepsOnce(s, i, s.operations[i], retentions, held);
    } else {
      FinalizeRefuses(s, i, claim, found);
    }
  }

  lemma FinalizeRefuses(s: State, i: nat, claim: Claim, found: Findings)
    requires Finalize(s, i, claim, found).1 != Done
    ensures Finalize(s, i, claim, found).0 == s
  {
  }

  /** The release event repeats the deployment exactly: the live review version is the deployed one,
      because an approved review changes only when it is archived. */
  lemma ReleaseRepeatsDeployment(s: State)
    requires Inv(s) && (Deployed(s.pointer).Some? ==> CurrentAuthorityStands(s, Deployed(s.pointer).value))
    ensures LiveCurrent(s) == Deployed(s.pointer)
  {
  }

  lemma ReleaseKeepsHistory(s: State, a: nat, retention: RetentionRef, expected: nat)
    requires Inv(s) && HistoryInv(s) && ReleaseRetention(s, a, retention, expected).1 == Done
    ensures HistoryInv(ReleaseRetention(s, a, retention, expected).0)
  {
    var next := ReleaseRetention(s, a, retention, expected).0;
    var e := next.events[|s.events|];
    hide CurrentAuthorityStands, LiveCurrent, Stands, Grounded, Live, AnyActive, ActiveEvaluation, PendingReview,
         EvaluationsInv, ReviewsInv, OperationsInv, PurgesInv, PointerInv;
    forall k
      ensures var t := Track(next.events, next.retentions, k);
              (t == Kept <==> RetentionOf(next.retentions, k).Some?)
                && (t == Resumed ==> DeployedKey(next.pointer) == Some(k))
    {
      TrackStable(s.events, s.retentions, next.retentions, k);
      TrackAppend(s.events, e, next.retentions, k);
      var held, kept := RetentionOf(next.retentions, k), RetentionOf(s.retentions, k);
      if held.Some? { assert Holds(s.retentions[held.value], k); }
      if kept.Some? && s.retentions[retention.id].target.key != k { assert Holds(next.retentions[kept.value], k); }
      hide Track;
    }
  }

  lemma ReleaseKeepsRecord(s: State, a: nat, retention: RetentionRef, expected: nat)
    requires Inv(s) && Recorded(s)
    ensures Recorded(ReleaseRetention(s, a, retention, expected).0)
  {
    if ReleaseRetention(s, a, retention, expected).1 == Done {
      ReleaseKeepsHistory(s, a, retention, expected);
      ReleaseKeepsLog(s, a, retention, expected);
    } else {
      assert ReleaseRetention(s, a, retention, expected).0 == s;
    }
    hide ReleaseRetention, LogInv, OnceInv, HistoryInv, Inv;
  }

  lemma ReleaseKeepsLog(s: State, a: nat, retention: RetentionRef, expected: nat)
    requires Inv(s) && Recorded(s) && ReleaseRetention(s, a, retention, expected).1 == Done
    ensures var next := ReleaseRetention(s, a, retention, expected).0; LogInv(next) && OnceInv(next)
  {
    var next := ReleaseRetention(s, a, retention, expected).0;
    var e := next.events[|s.events|];
    ReleaseRepeatsDeployment(s);
    ReplayAppend(s.events, e);
    assert next.events == s.events + [e] && next.events[..|s.events|] == s.events;
    hide Inv, HistoryInv, CurrentAuthorityStands, LiveCurrent, AnyActive, ActiveEvaluation, PendingReview, SucceededIn;
    assert Read(ViewOf(s), e) == Some(ViewOf(s));
    assert forall j: nat :: Successes(next.events, j) == Successes(s.events, j);
  }

  lemma ActKeepsRecord(s: State, a: Action)
    requires Inv(s) && Recorded(s)
    ensures Recorded(Act(s, a))
  {
    hide Inv, Recorded, Quiet;
    if a.DoFinalize? {
      FinalizeKeepsRecord(s, a.operation, a.claim, a.found);
    } else if a.DoReleaseRetention? {
      ReleaseKeepsRecord(s, a.adapter, a.retention, a.expected);
    } else {
      if a.DoPromote? || a.DoRollbackToBase? || a.DoRollbackToAdapter? { EnqueuesAreQuiet(s, a); }
      else if a.DoCancel? || a.DoClaim? || a.DoHeartbeat? || a.DoFail? { UpdatesAreQuiet(s, a); }
      else { RowsAreQuiet(s, a); }
      hide Act;
      QuietKeepsRecord(s, Act(s, a));
    }
  }

  lemma {:induction false} RunKeepsRecord(actions: seq<Action>)
    ensures Inv(Run(actions)) && Recorded(Run(actions))
  {
    if actions != [] {
      RunKeepsRecord(actions[..|actions| - 1]);
      var s, a := Run(actions[..|actions| - 1]), actions[|actions| - 1];
      ActKeepsInv(s, a);
      ActKeepsRecord(s, a);
      hide Inv, Recorded, Act;
    }
  }
}
