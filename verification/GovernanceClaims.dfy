/** What becomes of a claim token once its operation is claimed again. */
module GovernanceClaims {
  import opened Common
  import opened Governance
  import opened GovernanceTheorems

  /** The transactions that leave every operation as it is. */
  predicate RowAction(a: Action)
  {
    || a.DoCreate? || a.DoValidate? || a.DoReleaseUpstream? || a.DoEvaluate? || a.DoUpdateEvaluation?
       || a.DoRegisterPurge?
    || a.DoFinalizePurge? || a.DoStartReview? || a.DoTransition? || a.DoReleaseRetention? || a.DoTick?
  }

  /** Where the claim of operation `i` comes from: it was there, it is gone, or it has just been drawn. */
  lemma ClaimsAreKeptOrDrawn(s: State, a: Action, i: nat)
    ensures var next := Act(s, a);
            && s.tokens <= next.tokens && |s.operations| <= |next.operations|
            && (i < |next.operations| ==>
                  || next.operations[i].claim.None?
                  || (i < |s.operations| && next.operations[i].claim == s.operations[i].claim)
                  || (a.DoClaim? && OldestClaimable(s.operations, s.clock) == Some(i)
                      && next.operations[i].claim == Some(Claim(a.worker, s.tokens)) && next.tokens == s.tokens + 1))
  {
    hide PurgeFenced, SnapshotMatches, Approvable, Reviewable, RetentionOf, AnyActive, ActiveEvaluation, PendingReview,
         ApprovedTarget, FinalizeRefusal, Leave, Reactivate, CurrentAuthorityStands, LiveCurrent, SuccessEvent,
         CreateAdapter, ValidateAdapter, ReleaseUpstream, EnqueueEvaluation, UpdateEvaluation, RegisterPurge,
         FinalizePurge, StartReview, TransitionReview, ReleaseRetention, OldestClaimable;
    if RowAction(a) && !a.DoTick? {
      RowActionsKeepClaims(s, a);
      hide Act;
    }
  }

  /** Tokens in use have been drawn, and no two operations hold the same one. */
  predicate TokensInv(s: State)
  {
    && (forall i | 0 <= i < |s.operations| ::
          s.operations[i].claim.Some? ==> s.operations[i].claim.value.token < s.tokens)
    && (forall i, j | 0 <= i < j < |s.operations| ::
          s.operations[i].claim.Some? && s.operations[j].claim.Some? ==>
            s.operations[i].claim.value.token != s.operations[j].claim.value.token)
  }

  lemma ActKeepsTokens(s: State, a: Action)
    requires TokensInv(s)
    ensures TokensInv(Act(s, a))
  {
    hide Act;
    forall i: nat ensures i < |Act(s, a).operations| ==>
        || Act(s, a).operations[i].claim.None?
        || (i < |s.operations| && Act(s, a).operations[i].claim == s.operations[i].claim)
        || (a.DoClaim? && OldestClaimable(s.operations, s.clock) == Some(i)
            && Act(s, a).operations[i].claim == Some(Claim(a.worker, s.tokens)) && Act(s, a).tokens == s.tokens + 1)
    {
      ClaimsAreKeptOrDrawn(s, a, i);
    }
    ClaimsAreKeptOrDrawn(s, a, 0);
  }

  lemma {:induction false} RunKeepsTokens(actions: seq<Action>)
    ensures TokensInv(Run(actions))
  {
    if actions != [] {
      RunKeepsTokens(actions[..|actions| - 1]);
      ActKeepsTokens(Run(actions[..|actions| - 1]), actions[|actions| - 1]);
      hide Act, TokensInv;
    }
  }

  /** No operation but `i` holds the claim, and its token has been drawn. */
  predicate OnlyAt(s: State, claim: Claim, i: nat)
  {
    claim.token < s.tokens && forall j | 0 <= j < |s.operations| && j != i :: s.operations[j].claim != Some(claim)
  }

  lemma ActKeepsOnlyAt(s: State, a: Action, claim: Claim, i: nat)
    requires OnlyAt(s, claim, i)
    ensures OnlyAt(Act(s, a), claim, i)
  {
    hide Act;
    ClaimsAreKeptOrDrawn(s, a, 0);
    forall j | 0 <= j < |Act(s, a).operations| && j != i ensures Act(s, a).operations[j].claim != Some(claim) {
      ClaimsAreKeptOrDrawn(s, a, j);
    }
  }

  lemma {:induction false} OnlyAtStays(actions: seq<Action>, more: seq<Action>, claim: Claim, i: nat)
    requires OnlyAt(Run(actions), claim, i)
    ensures OnlyAt(Run(actions + more), claim, i)
  {
    hide OnlyAt, Act;
    if more == [] {
      assert actions + more == actions;
    } else {
      var k, all := |more| - 1, actions + more;
      assert all[..|all| - 1] == actions + more[..k] && all[|all| - 1] == more[k];
      OnlyAtStays(actions, more[..k], claim, i);
      ActKeepsOnlyAt(Run(actions + more[..k]), more[k], claim, i);
    }
  }

  lemma {:induction false} StaleOverRuns(actions: seq<Action>, more: seq<Action>, claim: Claim)
    requires Stale(Run(actions), claim)
    ensures Stale(Run(actions + more), claim)
  {
    hide Stale, Act;
    if more == [] {
      assert actions + more == actions;
    } else {
      var k, all := |more| - 1, actions + more;
      assert all[..|all| - 1] == actions + more[..k] && all[|all| - 1] == more[k];
      StaleOverRuns(actions, more[..k], claim);
      StaleStaysStale(Run(actions + more[..k]), more[k], claim);
    }
  }

  /** Claiming an operation again makes the claim that it had stale. */
  lemma ReclaimMakesStale(s: State, claim: Claim, i: nat, worker: nat, seconds: nat)
    requires OnlyAt(s, claim, i) && OldestClaimable(s.operations, s.clock) == Some(i)
    ensures Stale(Act(s, DoClaim(worker, seconds)), claim)
  {
    hide OldestClaimable;
    var next := Act(s, DoClaim(worker, seconds));
    forall op | op in next.operations ensures op.claim != Some(claim) {
      var j :| 0 <= j < |next.operations| && next.operations[j] == op;
      assert j != i ==> next.operations[j] == s.operations[j];
    }
  }

  /** A superseded claim is dead: take any run in which operation `i` is claimed, and later claimed again,
      by whomever.  In every state of every further run, the earlier claim changes nothing, whichever
      operation and whichever of the three worker transactions it is presented to. */
  lemma SupersededClaimIsInert(actions: seq<Action>, more: seq<Action>, rest: seq<Action>, i: nat, claim: Claim,
                               worker: nat, seconds: nat)
    requires i < |Run(actions).operations| && Run(actions).operations[i].claim == Some(claim)
    requires OldestClaimable(Run(actions + more).operations, Run(actions + more).clock) == Some(i)
    ensures var s := Run(actions + more + [DoClaim(worker, seconds)] + rest);
            && (forall j, found :: Finalize(s, j, claim, found).0 == s)
            && (forall j, lease :: Heartbeat(s, j, claim, lease) == (s, Raised(ClaimLost)))
            && (forall j, cancelled :: Fail(s, j, claim, cancelled) == (s, Nothing))
  {
    var before := actions + more;
    var again := before + [DoClaim(worker, seconds)];
    RunKeepsTokens(actions);
    assert OnlyAt(Run(actions), claim, i) by { hide Run; }
    hide Run, Act, OnlyAt, Stale, OldestClaimable, Heartbeat, Finalize, Fail;
    OnlyAtStays(actions, more, claim, i);
    ReclaimMakesStale(Run(before), claim, i, worker, seconds);
    ClaimRuns(before, worker, seconds);
    StaleOverRuns(again, rest, claim);
    var s := Run(again + rest);
    StaleEverywhere(s, claim);
    forall j, found, lease, cancelled
      ensures Finalize(s, j, claim, found).0 == s
      ensures Heartbeat(s, j, claim, lease) == (s, Raised(ClaimLost))
      ensures Fail(s, j, claim, cancelled) == (s, Nothing)
    {
      StaleTokenIsInert(s, j, claim, found, lease, cancelled);
    }
  }

  lemma ClaimRuns(actions: seq<Action>, worker: nat, seconds: nat)
    ensures Run(actions + [DoClaim(worker, seconds)]) == Act(Run(actions), DoClaim(worker, seconds))
  {
    var all := actions + [DoClaim(worker, seconds)];
    assert all[..|all| - 1] == actions && all[|all| - 1] == DoClaim(worker, seconds);
    hide Act;
  }

  lemma StaleEverywhere(s: State, claim: Claim)
    requires Stale(s, claim)
    ensures forall j | 0 <= j < |s.operations| :: !LiveClaim(s.operations[j], claim, s.clock)
  {
    forall j | 0 <= j < |s.operations| ensures !LiveClaim(s.operations[j], claim, s.clock) {
      assert s.operations[j] in s.operations;
    }
  }
}
