/** What every run of the registry queue guarantees. */
module RegistryTheorems {
  import opened Common
  import opened Registry
  import opened RegistrySafety

  // ----- Whole runs -----

  lemma AdvanceGrows(w: World, k: nat, manifest: nat, authority: bool)
    requires Inv(w) && k < |w.processes|
    ensures Grows(w.rows, AdvanceProcess(w, k, manifest, authority).rows)
  {
    ProcessTracks(w, k);
    assert AttemptInv(w.rows);
    var p := w.processes[k];
    SelfGrows(w.rows);
    hide Inv, AttemptInv, Tracks, MarkStaged, MarkPublished, FinishSuccess, StageInPlace, FinalIsOwn, Grows;
    match p.at
    case Marking => MarkStagedSteps(w.rows, p, w.clock, authority);
    case Publishing => MarkPublishedSteps(w.rows, p, w.clock, authority);
    case Finishing => FinishSteps(w.rows, p, w.clock, authority);
    case _ =>
  }

  lemma SelfGrows(rows: Rows)
    ensures Grows(rows, rows)
  {
  }

  lemma ActGrows(w: World, a: Action)
    requires Inv(w)
    ensures Grows(w.rows, Act(w, a).rows)
  {
    SelfGrows(w.rows);
    match a
    case Claim(worker, seconds, found) => ClaimKeepsRows(w.rows, worker, seconds, w.clock, w.serial, found);
    case Heartbeat(k, seconds, authority) =>
      if k < |w.processes| { ProcessTracks(w, k); RenewSteps(w.rows, w.processes[k], seconds, w.clock, authority); }
    case Advance(k, manifest, authority) => if k < |w.processes| { AdvanceGrows(w, k, manifest, authority); }
    case GiveUp(k, code, validation, authority) =>
      if k < |w.processes| { ProcessTracks(w, k); FailureSteps(w.rows, w.processes[k], code, validation, w.clock,
                                                               authority); }
    case Tick =>
    hide Inv, Grows, ClaimNext, AdvanceProcess, Renew, RecordFailure;
  }

  /** Versions only grow, terminal attempts never become active again, and a finished adapter keeps
      every row as it is, over any further run. */
  lemma {:induction false} RowsOnlyGrow(w: World, actions: seq<Action>, more: seq<Action>)
    requires Enqueued(w)
    ensures Grows(Run(w, actions).rows, Run(w, actions + more).rows)
  {
    hide Grows, Act, Enqueued;
    if more == [] {
      assert actions + more == actions;
      SelfGrows(Run(w, actions).rows);
    } else {
      var n, all := |more| - 1, actions + more;
      assert all[..|all| - 1] == actions + more[..n] && all[|all| - 1] == more[n];
      RowsOnlyGrow(w, actions, more[..n]);
      RunKeepsInv(w, actions + more[..n]);
      ActGrows(Run(w, actions + more[..n]), more[n]);
      GrowsOn(Run(w, actions).rows, Run(w, actions + more[..n]).rows, Run(w, all).rows);
    }
  }

  predicate OneActive(rows: Rows)
  {
    var active := ActiveIndices(rows.attempts);
    if rows.adapter.status == Queued || rows.adapter.status == Running then
      && |active| == 1 && active[0] < |rows.attempts|
      && var t := rows.attempts[active[0]];
         && t.identity == rows.adapter.identity && t.worker == rows.adapter.worker
         && t.version == ExpectedVersion(t.status) && (t.status == Registered <==> rows.adapter.status == Queued)
    else active == []
  }

  lemma LastIsOneActive(rows: Rows)
    requires AttemptInv(rows)
    ensures OneActive(rows)
  {
    hide ActiveIndices;
    OnlyLastActive(rows.attempts);
  }

  /** An unfinished adapter has exactly one active attempt: the latest, with the adapter's publication,
      scope, number and worker, and with version 1, 2, 3 or 4 as it is registered, running, staged or
      published.  A finished adapter has none. */
  lemma OneMatchingAttempt(w: World, actions: seq<Action>)
    requires Enqueued(w)
    ensures OneActive(Run(w, actions).rows)
  {
    hide Run, Inv, OneActive;
    RunKeepsInv(w, actions);
    InvRows(Run(w, actions));
    LastIsOneActive(Run(w, actions).rows);
  }

  /** Total terminalization, over every run: a claim either finds nothing, or takes the adapter, or ends
      it; it never raises, and so never leaves an adapter that no one can claim or end. */
  lemma ClaimsNeverRaise(w: World, actions: seq<Action>, worker: nat, seconds: nat, found: Findings)
    requires Enqueued(w)
    ensures var now := Run(w, actions);
            var (rows, outcome) := ClaimNext(now.rows, worker, seconds, now.clock, now.serial, found);
            && !outcome.ClaimRaised?
            && (Claimable(now.rows.adapter, now.clock) ==>
                  if found == Findings(true, true, true, true) then outcome.Claimed? && rows.adapter.status == Running
                  else outcome.Terminated? && rows.adapter.status == Failed
                       && rows.attempts != [] && rows.attempts[|rows.attempts| - 1].status == AttemptFailed)
  {
    RunKeepsInv(w, actions);
    var now := Run(w, actions);
    ClaimIsTotal(now.rows, worker, seconds, now.clock, now.serial, found);
    assert now.rows.attempts != [];
    hide Run, ProcessesInv, StorageInv, ClaimNext;
  }

  /** A process whose token is the adapter's, in time, always finds its rows as it left them: no owned
      transaction of a live worker fails on a version, a status or a manifest. */
  lemma LiveProcessProceeds(w: World, actions: seq<Action>, k: nat)
    requires Enqueued(w) && k < |Run(w, actions).processes|
    requires var now := Run(w, actions);
             && now.rows.adapter.token == Some(now.processes[k].claim.token)
             && now.rows.adapter.lease.Some? && now.rows.adapter.lease.value > now.clock
    ensures var now := Run(w, actions);
            var p := now.processes[k];
            && LiveClaim(now.rows, p.claim, now.clock, true).None?
            && (p.at == Finishing
                ==> FinalIsOwn(now, p) && FinishSuccess(now.rows, p.claim, p.manifest, now.clock, true).1.None?)
  {
    RunKeepsInv(w, actions);
    ProcessTracks(Run(w, actions), k);
    hide Run, Inv;
    assert AttemptInv(Run(w, actions).rows) by { InvRows(Run(w, actions)); }
  }

  lemma InvRows(w: World)
    requires Inv(w)
    ensures AttemptInv(w.rows)
  {
  }

  /** A worker without a live claim changes no row, by any of its transactions. */
  lemma StaleWorkerIsInert(rows: Rows, c: ClaimedAdapter, manifest: nat, seconds: nat, code: Code, validation: bool,
                           now: nat, authority: bool)
    requires LiveClaim(rows, c, now, authority).Some?
    ensures Renew(rows, c, seconds, now, authority).0 == rows
    ensures MarkStaged(rows, c, manifest, now, authority).0 == rows
    ensures MarkPublished(rows, c, now, authority).0 == rows
    ensures FinishSuccess(rows, c, manifest, now, authority).0 == rows
    ensures RecordFailure(rows, c, code, validation, now, authority) == rows
  {
  }

  // ----- The final directory -----

  lemma FinalStays(w: World, a: Action)
    requires w.final.Some?
    ensures Act(w, a).final == w.final
  {
    hide ClaimNext, Renew, RecordFailure, MarkStaged, MarkPublished, FinishSuccess;
  }

  lemma {:induction false} FinalIsForever(w: World, actions: seq<Action>, more: seq<Action>)
    requires Run(w, actions).final.Some?
    ensures Run(w, actions + more).final == Run(w, actions).final
  {
    if more == [] {
      assert actions + more == actions;
    } else {
      var n, all := |more| - 1, actions + more;
      assert all[..|all| - 1] == actions + more[..n] && all[|all| - 1] == more[n];
      FinalIsForever(w, actions, more[..n]);
      hide Act;
      FinalStays(Run(w, actions + more[..n]), more[n]);
    }
  }

  /** Single owner: the final directory is the stage of exactly one process, whole and without its
      marker; if the adapter is validated, that process ran the adapter's current attempt. */
  lemma SingleOwner(w: World, actions: seq<Action>)
    requires Enqueued(w)
    ensures var now := Run(w, actions);
            && (now.final.Some? ==>
                  && now.final.value.names == FINAL_FILES
                  && (exists k :: 0 <= k < |now.processes| && Created(now, now.processes[k]))
                  && forall k, j | 0 <= k < |now.processes| && 0 <= j < |now.processes|
                                   && Created(now, now.processes[k]) && Created(now, now.processes[j]) :: k == j)
            && (now.rows.adapter.status == Validated ==>
                  exists k :: 0 <= k < |now.processes| && Created(now, now.processes[k])
                              && now.processes[k].claim.identity == now.rows.adapter.identity)
  {
    RunKeepsInv(w, actions);
    hide Run, AttemptInv, ProcessesInv, Drawn;
  }
}
