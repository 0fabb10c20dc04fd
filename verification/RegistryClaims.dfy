/** What a worker can still do once another claim has taken its adapter. */
module RegistryClaims {
  import opened Common
  import opened Registry
  import opened RegistrySafety
  import opened RegistryTheorems

  /** The adapter has another token than the process, or none. */
  predicate Lost(w: World, k: nat)
  {
    k < |w.processes| && w.processes[k].claim.token < w.serial
      && w.rows.adapter.token != Some(w.processes[k].claim.token)
  }

  /** Past its last check of the claim before the rename. */
  predicate AboutToPublish(p: Process) { p.at == Unmarking || p.at == Renaming }

  predicate Own(a: Action, k: nat)
  {
    || (a.Heartbeat? && a.process == k) || (a.Advance? && a.process == k) || (a.GiveUp? && a.process == k)
  }

  lemma LostIsNotLive(w: World, k: nat, authority: bool)
    requires Lost(w, k)
    ensures LiveClaim(w.rows, w.processes[k].claim, w.clock, authority).Some?
  {
  }

  /** Its own next operation leaves every row as it is, and can only lead away from the rename. */
  lemma LostActs(w: World, k: nat, a: Action)
    requires Lost(w, k) && Own(a, k)
    ensures Act(w, a).rows == w.rows && k < |Act(w, a).processes|
    ensures Act(w, a).processes[k].claim == w.processes[k].claim
    ensures !AboutToPublish(w.processes[k]) ==> Act(w, a).final == w.final && !AboutToPublish(Act(w, a).processes[k])
  {
    LostIsNotLive(w, k, a.authority);
    StaleWorkerIsInert(w.rows, w.processes[k].claim, w.processes[k].manifest, 0, ClaimLost, false, w.clock,
                       a.authority);
    if a.Heartbeat? {
      StaleWorkerIsInert(w.rows, w.processes[k].claim, 0, a.seconds, ClaimLost, false, w.clock, a.authority);
    } else if a.GiveUp? {
      StaleWorkerIsInert(w.rows, w.processes[k].claim, 0, 0, a.code, a.validation, w.clock, a.authority);
    }
    hide LiveClaim, StageInPlace, FinalIsOwn;
  }

  lemma TokenStaysOrGoes(w: World, a: Action)
    requires !a.Claim?
    ensures var next := Act(w, a);
            && (next.rows.adapter.token == w.rows.adapter.token || next.rows.adapter.token.None?)
            && w.serial <= next.serial && |next.processes| == |w.processes|
  {
    hide LiveClaim, StageInPlace, FinalIsOwn;
  }

  lemma OtherProcessesStay(w: World, k: nat, a: Action)
    requires k < |w.processes| && !Own(a, k)
    ensures k < |Act(w, a).processes| && Act(w, a).processes[k] == w.processes[k]
  {
    hide ClaimNext, Renew, RecordFailure, MarkStaged, MarkPublished, FinishSuccess, StageInPlace, FinalIsOwn;
  }

  /** No one gives the token back. */
  lemma OthersKeepLost(w: World, k: nat, a: Action)
    requires Inv(w) && Lost(w, k) && !Own(a, k)
    ensures Lost(Act(w, a), k) && Act(w, a).processes[k] == w.processes[k]
  {
    OtherProcessesStay(w, k, a);
    if a.Claim? {
      ClaimFacts(w.rows, a.worker, a.seconds, w.clock, w.serial, a.found);
      hide ClaimNext, Inv;
    } else {
      TokenStaysOrGoes(w, a);
      hide Act, Inv;
    }
  }

  lemma {:induction false} LostOverRuns(w: World, actions: seq<Action>, more: seq<Action>, k: nat)
    requires Enqueued(w) && Lost(Run(w, actions), k)
    ensures var start, now := Run(w, actions), Run(w, actions + more);
            && Lost(now, k) && (!AboutToPublish(start.processes[k]) ==> !AboutToPublish(now.processes[k]))
  {
    hide Act, Enqueued, AboutToPublish;
    if more == [] {
      assert actions + more == actions;
    } else {
      var n, all := |more| - 1, actions + more;
      assert all[..|all| - 1] == actions + more[..n] && all[|all| - 1] == more[n];
      LostOverRuns(w, actions, more[..n], k);
      var before := Run(w, actions + more[..n]);
      RunKeepsInv(w, actions + more[..n]);
      hide Inv;
      if Own(more[n], k) {
        LostActs(before, k, more[n]);
        SerialsGrow(before, more[n]);
      } else {
        OthersKeepLost(before, k, more[n]);
      }
    }
  }

  lemma SerialsGrow(w: World, a: Action)
    ensures w.serial <= Act(w, a).serial
  {
    hide ClaimNext, Renew, RecordFailure, MarkStaged, MarkPublished, FinishSuccess, StageInPlace, FinalIsOwn;
  }

  lemma TokensAreDrawn(w: World, k: nat)
    requires Inv(w) && k < |w.processes|
    ensures w.processes[k].claim.token < w.serial
  {
    hide AttemptInv, StorageInv, Drawn, Tracks;
  }

  /** A superseded worker is inert: once the adapter's token is not its own, no operation of its own, in
      any state of any further run, changes a row; and unless it had passed its last check before the
      rename by then, none creates the final directory. */
  lemma SupersededWorkerIsInert(w: World, actions: seq<Action>, more: seq<Action>, k: nat, a: Action)
    requires Enqueued(w) && k < |Run(w, actions).processes| && Own(a, k)
    requires Run(w, actions).rows.adapter.token != Some(Run(w, actions).processes[k].claim.token)
    ensures var start, now := Run(w, actions), Run(w, actions + more);
            && Act(now, a).rows == now.rows
            && (!AboutToPublish(start.processes[k]) ==> Act(now, a).final == now.final)
  {
    RunKeepsInv(w, actions);
    TokensAreDrawn(Run(w, actions), k);
    LostOverRuns(w, actions, more, k);
    LostActs(Run(w, actions + more), k, a);
    hide Run, Act;
  }
}
