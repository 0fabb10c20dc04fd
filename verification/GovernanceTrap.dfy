/** A run that traps a department on an adapter: nothing that it needs is out of the ordinary. */
module GovernanceTrap {
  import opened Common
  import opened Governance
  import opened GovernanceTheorems

  const ALL_CLEAR := Findings(true, false, true, true, true, true)

  /** One adapter is deployed under its review, rolled back, reviewed again with the same evaluation, and
      deployed under the second review. */
  const TRAPPING_RUN := [
    DoCreate,
    DoValidate(0),
    DoEvaluate(0, 0, 2, true),
    DoUpdateEvaluation(0, EvaluationSucceeded(true)),
    DoStartReview(0, 0, 2, 2, true),
    DoTransition(0, Approve, 2, 1, true),
    DoPromote(Key(0, 2), 0, 2, 0, true),
    DoClaim(0, 60),
    DoFinalize(0, Claim(0, 0), ALL_CLEAR),
    DoRollbackToBase(1),
    DoClaim(0, 60),
    DoFinalize(1, Claim(0, 1), ALL_CLEAR),
    DoStartReview(0, 0, 2, 2, true),
    DoTransition(1, Approve, 2, 1, true),
    DoPromote(Key(0, 2), 1, 2, 2, true),
    DoClaim(0, 60),
    DoFinalize(2, Claim(0, 2), ALL_CLEAR)]

  const FIRST := Target(Key(0, 2), 0, 2, 0, 2, 0)
  const SECOND := Target(Key(0, 2), 1, 2, 0, 2, 0)

  // ----- The states on the way -----

  const EVALUATED :=
    EMPTY.(adapters := [Adapter(2, Validated)], evaluations := [Evaluation(0, 2, 0, EvaluationSucceeded(true), 2)])

  function ReviewRow(status: ReviewStatus, version: nat): Review { Review(0, 2, 0, 2, 0, status, version) }

  const APPROVED := EVALUATED.(reviews := [ReviewRow(Approved, 2)])

  /** An operation as it is enqueued. */
  function Asked(kind: OperationKind, expected: nat, target: Option<Target>, current: Option<Key>): Operation
  {
    Operation(kind, Queued, expected, target, None, current, None, 0, false, false, 1, 1)
  }

  function Claimed(op: Operation, token: nat): Operation
  {
    op.(status := Running, claim := Some(Claim(0, token)), lease := 60, started := true, version := 2)
  }

  function Carried(op: Operation): Operation
  {
    op.(status := Succeeded, claim := None, lease := 0, started := true, version := 3)
  }

  const PROMOTION := Asked(Promote, 0, Some(FIRST), None)
  const ROLLBACK := Asked(RollbackBase, 1, None, Some(Key(0, 2)))
  const AGAIN := Asked(Promote, 2, Some(SECOND), None)

  const DEPLOYED := APPROVED.(
    operations := [Carried(PROMOTION)], tokens := 1, pointer := Some(Pointer(Some(FIRST), 1, 1)),
    events := [Event(Success(Promote, 0), 0, 1, None, Some(FIRST), None)], audits := [0])

  const ROLLED_BACK := DEPLOYED.(
    operations := [Carried(PROMOTION), Carried(ROLLBACK)], tokens := 2, pointer := Some(Pointer(None, 2, 2)),
    retentions := [Retention(FIRST, 1, Retained, 1)],
    events := DEPLOYED.events
      + [Event(Success(RollbackBase, 1), 1, 2, Some(Key(0, 2)), None, Some(0))], audits := [0, 1])

  const REVIEWED_AGAIN := ROLLED_BACK.(reviews := [ReviewRow(Approved, 2), ReviewRow(Approved, 2)])

  const TRAPPED := REVIEWED_AGAIN.(
    operations := ROLLED_BACK.operations + [Carried(AGAIN)], tokens := 3, pointer := Some(Pointer(Some(SECOND), 3, 3)),
    events := ROLLED_BACK.events + [Event(Success(Promote, 2), 2, 3, None, Some(SECOND), None)], audits := [0, 1, 2])

  /** The state after the first `k` actions. */
  function StateAfter(k: nat): State
    requires k <= 17
  {
    match k
    case 0 => EMPTY
    case 1 => EMPTY.(adapters := [Adapter(1, InProgress)])
    case 2 => EMPTY.(adapters := [Adapter(2, Validated)])
    case 3 => EVALUATED.(evaluations := [Evaluation(0, 2, 0, EvaluationActive, 1)])
    case 4 => EVALUATED
    case 5 => EVALUATED.(reviews := [ReviewRow(Pending, 1)])
    case 6 => APPROVED
    case 7 => APPROVED.(operations := [PROMOTION])
    case 8 => APPROVED.(operations := [Claimed(PROMOTION, 0)], tokens := 1)
    case 9 => DEPLOYED
    case 10 => DEPLOYED.(operations := DEPLOYED.operations + [ROLLBACK])
    case 11 => DEPLOYED.(operations := DEPLOYED.operations + [Claimed(ROLLBACK, 1)], tokens := 2)
    case 12 => ROLLED_BACK
    case 13 => ROLLED_BACK.(reviews := [ReviewRow(Approved, 2), ReviewRow(Pending, 1)])
    case 14 => REVIEWED_AGAIN
    case 15 => REVIEWED_AGAIN.(operations := ROLLED_BACK.operations + [AGAIN])
    case 16 => REVIEWED_AGAIN.(operations := ROLLED_BACK.operations + [Claimed(AGAIN, 2)], tokens := 3)
    case _ => TRAPPED
  }

  lemma Evaluating(k: nat)
    requires k < 4
    ensures Act(StateAfter(k), TRAPPING_RUN[k]) == StateAfter(k + 1)
  {
  }

  lemma Reviewing(k: nat)
    requires k == 4 || k == 5 || k == 12 || k == 13
    ensures Act(StateAfter(k), TRAPPING_RUN[k]) == StateAfter(k + 1)
  {
  }

  lemma Enqueueing(k: nat)
    requires k == 6 || k == 9 || k == 14
    ensures Act(StateAfter(k), TRAPPING_RUN[k]) == StateAfter(k + 1)
  {
  }

  lemma Claiming(k: nat)
    requires k == 7 || k == 10 || k == 15
    ensures Act(StateAfter(k), TRAPPING_RUN[k]) == StateAfter(k + 1)
  {
  }

  lemma FirstPromoted()
    ensures Act(StateAfter(8), TRAPPING_RUN[8]) == StateAfter(9)
  {
  }

  lemma RolledBack()
    ensures Act(StateAfter(11), TRAPPING_RUN[11]) == StateAfter(12)
  {
  }

  lemma SecondPromoted()
    ensures Act(StateAfter(16), TRAPPING_RUN[16]) == StateAfter(17)
  {
  }

  lemma {:induction false} RunReaches(k: nat)
    requires k <= 17
    ensures Run(TRAPPING_RUN[..k]) == StateAfter(k)
  {
    hide Act, StateAfter;
    if k == 0 {
      assert StateAfter(0) == EMPTY by { Beginning(); }
    } else {
      RunReaches(k - 1);
      assert TRAPPING_RUN[..k][..k - 1] == TRAPPING_RUN[..k - 1];
      if k < 5 { Evaluating(k - 1); }
      else if k < 7 || k == 13 || k == 14 { Reviewing(k - 1); }
      else if k == 7 || k == 10 || k == 15 { Enqueueing(k - 1); }
      else if k == 8 || k == 11 || k == 16 { Claiming(k - 1); }
      else if k == 9 { FirstPromoted(); }
      else if k == 12 { RolledBack(); }
      else { SecondPromoted(); }
    }
  }

  lemma Beginning()
    ensures StateAfter(0) == EMPTY
  {
  }

  /** The trap is reached, and from there no run leaves the adapter. */
  lemma TheTrapIsReached(more: seq<Action>)
    ensures Trapped(Run(TRAPPING_RUN))
    ensures Deployed(Run(TRAPPING_RUN + more).pointer) == Some(SECOND)
  {
    RunReaches(17);
    assert TRAPPING_RUN[..17] == TRAPPING_RUN;
    assert StateAfter(17) == TRAPPED;
    hide Run;
    assert RetentionOf(TRAPPED.retentions, Key(0, 2)) == Some(0);
    TrapIsForever(TRAPPING_RUN, more);
  }
}
