/** What a claim of the registry queue grants (adapter_registry_queue.py): the rows it writes, the lease for as long
    as it says, and, to an undisturbed worker, the publication. */
module RegistryLeases {
  import opened Common
  import opened Registry
  import opened RegistrySafety
  import opened RegistryTheorems

  // ----- What a claim writes -----

  function ClaimedAs(a: Adapter, id: Identity, worker: nat, token: nat, seconds: nat, now: nat): Adapter
  {
    Adapter(Running, id, Some(worker), Some(token), Some(now + seconds), Some(now), None, None, None, a.version + 1)
  }

  function RunningUnder(id: Identity, worker: nat, now: nat): Attempt
  {
    Attempt(AttemptRunning, id, Some(worker), Some(now), None, None, None, None, None, None, 2)
  }

  function FailedWith(a: Adapter, code: Code, now: nat): Adapter
  {
    Adapter(Failed, a.identity, None, None, None, a.startedAt, Some(now), a.validatedAt, Some(code), a.version + 1)
  }

  const ALL_IN_ORDER := Findings(true, true, true, true)

  lemma FirstClaimWrites(rows: Rows, worker: nat, seconds: nat, now: nat, serial: nat)
    requires AttemptInv(rows) && rows.adapter.status == Queued
    ensures var a, last := rows.adapter, |rows.attempts| - 1;
            SimpleClaim(rows, worker, seconds, now, serial, ALL_IN_ORDER)
            == (Rows(ClaimedAs(a, a.identity, worker, serial + 2, seconds, now),
                     rows.attempts[last := RunningUnder(a.identity, worker, now)]),
                Claimed(ClaimedAdapter(worker, serial + 2, a.identity, a.version + 1, last, 2, AttemptRunning)))
  {
    var last := |rows.attempts| - 1;
    RegisteredIsNew(rows);
    assert RunningAttempt(rows.attempts[last], worker, now) == RunningUnder(rows.adapter.identity, worker, now);
  }

  lemma RegisteredIsNew(rows: Rows)
    requires AttemptInv(rows) && rows.adapter.status == Queued
    ensures rows.attempts[|rows.attempts| - 1] == NewAttempt(rows.adapter.identity)
  {
  }

  lemma ReclaimWrites(rows: Rows, worker: nat, seconds: nat, now: nat, serial: nat)
    requires AttemptInv(rows) && rows.adapter.status == Running && Claimable(rows.adapter, now)
    ensures var a, last := rows.adapter, |rows.attempts| - 1;
            var id, t := Identity(serial, serial + 1, a.identity.number + 1), rows.attempts[last];
            SimpleClaim(rows, worker, seconds, now, serial, ALL_IN_ORDER)
            == (Rows(ClaimedAs(a, id, worker, serial + 2, seconds, now),
                     rows.attempts[last := t.(status := Reclaimed, error := Some(ClaimLost), finishedAt := Some(now),
                                              version := t.version + 1)]
                     + [RunningUnder(id, worker, now)]),
                Claimed(ClaimedAdapter(worker, serial + 2, id, a.version + 1, last + 1, 2, AttemptRunning)))
  {
    hide AttemptLifecycle, AdapterLifecycle;
    var last := |rows.attempts| - 1;
    var id := Identity(serial, serial + 1, rows.adapter.identity.number + 1);
    var p := Prepared(rows, serial, now);
    assert p.attempts[last + 1] == NewAttempt(id);
    var taken := Taken(p, last + 1, worker, serial + 2, seconds, now);
    assert taken.attempts == p.attempts[..last + 1] + [RunningUnder(id, worker, now)];
  }

  /** In every reachable state, a claim of a claimable adapter that finds everything in order writes this: a first
      claim takes the registered attempt; a reclaim ends the expired attempt and takes a new one, under a new
      identity.  Either way the lease ends `seconds` from now. */
  lemma ClaimExactly(w: World, actions: seq<Action>, worker: nat, seconds: nat)
    requires Enqueued(w) && Claimable(Run(w, actions).rows.adapter, Run(w, actions).clock)
    ensures var s := Run(w, actions);
            var a, last := s.rows.adapter, |s.rows.attempts| - 1;
            var (rows, outcome) := ClaimNext(s.rows, worker, seconds, s.clock, s.serial, ALL_IN_ORDER);
            && last >= 0
            && if a.status == Queued then
                 && rows == Rows(ClaimedAs(a, a.identity, worker, s.serial + 2, seconds, s.clock),
                                 s.rows.attempts[last := RunningUnder(a.identity, worker, s.clock)])
                 && outcome == Claimed(ClaimedAdapter(worker, s.serial + 2, a.identity, a.version + 1, last, 2,
                                                      AttemptRunning))
               else
                 var id, t := Identity(s.serial, s.serial + 1, a.identity.number + 1), s.rows.attempts[last];
                 && rows == Rows(ClaimedAs(a, id, worker, s.serial + 2, seconds, s.clock),
                                 s.rows.attempts[last := t.(status := Reclaimed, error := Some(ClaimLost),
                                                            finishedAt := Some(s.clock), version := t.version + 1)]
                                 + [RunningUnder(id, worker, s.clock)])
                 && outcome == Claimed(ClaimedAdapter(worker, s.serial + 2, id, a.version + 1, last + 1, 2,
                                                      AttemptRunning))
  {
    hide Run, ProcessesInv, StorageInv, ClaimNext, AttemptInv, Drawn, SimpleClaim;
    RunKeepsInv(w, actions);
    var s := Run(w, actions);
    NeverEmpty(s.rows);
    ClaimIsTotal(s.rows, worker, seconds, s.clock, s.serial, ALL_IN_ORDER);
    if s.rows.adapter.status == Queued {
      FirstClaimWrites(s.rows, worker, seconds, s.clock, s.serial);
    } else {
      ReclaimWrites(s.rows, worker, seconds, s.clock, s.serial);
    }
  }

  lemma NeverEmpty(rows: Rows)
    requires AttemptInv(rows)
    ensures rows.attempts != []
  {
  }

  /** Adapter and last attempt failed together: what is not yet on the disk is forgotten, and what may be there keeps
      its owner for the cleanup. */
  function BothFailed(rows: Rows, code: Code, now: nat): Rows
    requires rows.attempts != []
  {
    var last := |rows.attempts| - 1;
    var t := rows.attempts[last];
    var failed := t.(status := AttemptFailed, error := Some(code), finishedAt := Some(now), version := t.version + 1);
    Rows(FailedWith(rows.adapter, code, now),
         rows.attempts[last := if t.status in {Staged, Published} then failed
                               else failed.(worker := None, claimedAt := None, manifest := None)])
  }

  /** A claim that finds something out of order ends the adapter, with the first code that applies: before anything is
      claimed if department or source is gone, and as claimed if the dependency or the upstream is. */
  lemma RefusedClaimExactly(w: World, actions: seq<Action>, worker: nat, seconds: nat, found: Findings)
    requires Enqueued(w) && Claimable(Run(w, actions).rows.adapter, Run(w, actions).clock) && found != ALL_IN_ORDER
    ensures var s := Run(w, actions);
            var claimed := ClaimNext(s.rows, worker, seconds, s.clock, s.serial, ALL_IN_ORDER).0;
            s.rows.attempts != [] && claimed.attempts != []
            && ClaimNext(s.rows, worker, seconds, s.clock, s.serial, found)
               == if !found.department then
                    (BothFailed(s.rows, DepartmentUnavailable, s.clock), Terminated(DepartmentUnavailable))
                  else if !found.source then
                    (BothFailed(s.rows, SourceUnavailable, s.clock), Terminated(SourceUnavailable))
                  else (BothFailed(claimed, ClaimLost, s.clock), Terminated(ClaimLost))
  {
    hide Run, ProcessesInv, StorageInv, ClaimNext, AttemptInv, Drawn, Supersede, ClaimedRow, RunningAttempt;
    RunKeepsInv(w, actions);
    var s := Run(w, actions);
    NeverEmpty(s.rows);
    ClaimIsTotal(s.rows, worker, seconds, s.clock, s.serial, ALL_IN_ORDER);
    ClaimIsTotal(s.rows, worker, seconds, s.clock, s.serial, found);
    ClaimableIsActive(s.rows, s.clock);
    EndIsBothFailed(s.rows, DepartmentUnavailable, s.clock);
    EndIsBothFailed(s.rows, SourceUnavailable, s.clock);
    ClaimExactly(w, actions, worker, seconds);
    EndIsBothFailed(ClaimNext(s.rows, worker, seconds, s.clock, s.serial, ALL_IN_ORDER).0, ClaimLost, s.clock);
  }

  lemma ClaimableIsActive(rows: Rows, now: nat)
    requires AttemptInv(rows) && Claimable(rows.adapter, now)
    ensures rows.attempts[|rows.attempts| - 1].status in {Registered, AttemptRunning, Staged, Published}
  {
  }

  lemma EndIsBothFailed(rows: Rows, code: Code, now: nat)
    requires rows.attempts != []
    ensures var t := rows.attempts[|rows.attempts| - 1];
            t.status in {Registered, AttemptRunning, Staged, Published} ==>
              EndLast(rows, now, code) == BothFailed(rows, code, now)
  {
  }

  // ----- What a worker writes -----

  /** The worker's claim holds: its token is the adapter's, the lease has time left, and the other rows agree. */
  predicate Holds(w: World, k: nat, authority: bool)
    requires k < |w.processes|
  {
    && authority && w.rows.adapter.token == Some(w.processes[k].claim.token)
    && w.rows.adapter.lease.Some? && w.clock < w.rows.adapter.lease.value
  }

  /** The worker of an action, if a worker acts at all. */
  predicate Acts(a: Action, k: nat) { (a.Heartbeat? || a.Advance? || a.GiveUp?) && a.process == k }

  /** What an action of worker `k` writes into adapter and last attempt while its claim holds. */
  function Written(w: World, k: nat, a: Action): Rows
    requires Acts(a, k) && k < |w.processes| && w.rows.attempts != []
  {
    var p, adapter, last := w.processes[k], w.rows.adapter, |w.rows.attempts| - 1;
    var t, later := w.rows.attempts[last], adapter.(version := adapter.version + 1);
    if a.GiveUp? then
      var failed := BothFailed(w.rows, a.code, w.clock);
      if !a.validation then failed
      else Rows(failed.adapter.(status := ValidationFailed),
                failed.attempts[last := failed.attempts[last].(status := AttemptValidationFailed)])
    else if p.at == Ended then w.rows
    else if a.Heartbeat? then w.rows.(adapter := later.(lease := Some(w.clock + a.seconds)))
    else if p.at == Marking then
      Rows(later, w.rows.attempts[last := t.(status := Staged, manifest := Some(p.manifest), stagedAt := Some(w.clock),
                                             version := 3)])
    else if p.at == Publishing then
      Rows(later, w.rows.attempts[last := t.(status := Registry.Published, publishedAt := Some(w.clock), version := 4)])
    else if p.at == Finishing then
      Rows(Adapter(Validated, adapter.identity, None, None, None, adapter.startedAt, Some(w.clock), Some(w.clock), None,
                   adapter.version + 1),
           w.rows.attempts[last := t.(status := Succeeded, finishedAt := Some(w.clock), version := 5)])
    else w.rows
  }

  lemma HoldsIsLive(w: World, k: nat, authority: bool)
    requires Inv(w) && k < |w.processes|
    ensures Holds(w, k, authority) <==> LiveClaim(w.rows, w.processes[k].claim, w.clock, authority).None?
  {
    ProcessTracks(w, k);
    hide ProcessesInv, StorageInv, Drawn;
  }

  lemma LiveWorkerWrites(w: World, k: nat, a: Action)
    requires Inv(w) && k < |w.processes| && Acts(a, k) && w.rows.attempts != []
    requires LiveClaim(w.rows, w.processes[k].claim, w.clock, a.authority).None?
    ensures Act(w, a).rows == Written(w, k, a)
  {
    hide LiveClaim, Holds, Inv, AdvanceProcess, FinalIsOwn, AttemptInv;
    InvRows(w);
    ProcessTracks(w, k);
    HoldsTracks(w, k, a.authority);
    if a.Advance? {
      if w.processes[k].at == Finishing { OwnFinal(w, k); }
      AdvanceLive(w, k, a);
      hide Written;
    } else if a.GiveUp? {
      GivesUpLive(w, k, a);
      hide Written, Act;
    }
  }

  lemma GivesUpLive(w: World, k: nat, a: Action)
    requires AttemptInv(w.rows) && k < |w.processes| && Tracks(w.processes[k], w.rows) && w.rows.attempts != []
    requires a.GiveUp? && a.process == k && w.rows.adapter.token == Some(w.processes[k].claim.token)
    requires LiveClaim(w.rows, w.processes[k].claim, w.clock, a.authority).None?
    ensures Act(w, a).rows == Written(w, k, a)
  {
    hide LiveClaim;
  }

  lemma AdvanceLive(w: World, k: nat, a: Action)
    requires AttemptInv(w.rows) && k < |w.processes| && Tracks(w.processes[k], w.rows) && w.rows.attempts != []
    requires a.Advance? && LiveClaim(w.rows, w.processes[k].claim, w.clock, a.authority).None?
    requires a.process == k && (w.processes[k].at == Finishing ==> FinalIsOwn(w, w.processes[k]))
    ensures AdvanceProcess(w, k, a.manifest, a.authority).rows == Written(w, k, a)
  {
    hide FinalIsOwn, StageInPlace;
  }

  lemma HoldsTracks(w: World, k: nat, authority: bool)
    requires k < |w.processes| && LiveClaim(w.rows, w.processes[k].claim, w.clock, authority).None?
    ensures w.rows.adapter.token == Some(w.processes[k].claim.token)
  {
  }

  /** In every reachable state an action of a worker writes rows exactly while its claim holds, and then exactly this:
      a worker without the token, behind its lease or without authority writes nothing, and stops at its next mark. */
  lemma WorkerWritesExactly(w: World, actions: seq<Action>, k: nat, a: Action)
    requires Enqueued(w) && k < |Run(w, actions).processes| && Acts(a, k)
    ensures var s := Run(w, actions);
            && s.rows.attempts != []
            && Act(s, a).rows == (if Holds(s, k, a.authority) then Written(s, k, a) else s.rows)
            && k < |Act(s, a).processes|
            && (a.Advance? && s.processes[k].at in {Marking, Publishing} ==>
                  (Act(s, a).processes[k].at == Ended <==> !Holds(s, k, a.authority)))
            && (a.GiveUp? || (a.Advance? && s.processes[k].at == Finishing) ==> Act(s, a).processes[k].at == Ended)
  {
    hide Run, Inv, Enqueued, Holds, LiveClaim, Written;
    RunKeepsInv(w, actions);
    var s := Run(w, actions);
    InvRows(s);
    HoldsIsLive(s, k, a.authority);
    NeverEmpty(s.rows);
    NextPlace(s, k, a);
    if Holds(s, k, a.authority) {
      LiveWorkerWrites(s, k, a);
    } else {
      IdleWorker(s, k, a);
    }
  }

  lemma NextPlace(w: World, k: nat, a: Action)
    requires k < |w.processes| && Acts(a, k)
    ensures k < |Act(w, a).processes|
    ensures var live := LiveClaim(w.rows, w.processes[k].claim, w.clock, a.authority).None?;
            var place := Act(w, a).processes[k].at;
            && (a.Advance? && w.processes[k].at in {Marking, Publishing} ==> (place == Ended <==> !live))
            && (a.GiveUp? || (a.Advance? && w.processes[k].at == Finishing) ==> place == Ended)
  {
    hide LiveClaim, StageInPlace, FinalIsOwn;
  }

  lemma IdleWorker(w: World, k: nat, a: Action)
    requires k < |w.processes| && Acts(a, k)
    requires LiveClaim(w.rows, w.processes[k].claim, w.clock, a.authority).Some?
    ensures Act(w, a).rows == w.rows
  {
    hide LiveClaim, StageInPlace, FinalIsOwn;
  }

  lemma OwnFinal(w: World, k: nat)
    requires Inv(w) && k < |w.processes| && w.processes[k].at == Finishing
    ensures FinalIsOwn(w, w.processes[k])
  {
    hide AttemptInv, ProcessesInv, Drawn;
  }

  // ----- Leases -----

  /** Process `k` has the adapter, until `lease`. */
  predicate Has(w: World, k: nat, lease: nat)
  {
    && k < |w.processes| && w.rows.adapter.status == Running
    && w.rows.adapter.token == Some(w.processes[k].claim.token) && w.rows.adapter.lease == Some(lease)
  }

  /** The adapter has been validated, by its own worker. */
  predicate Finished(w: World) { w.rows.adapter.status == Validated }

  predicate Renews(a: Action, k: nat) { (a.Heartbeat? || a.GiveUp?) && a.process == k }

  lemma OthersAreNotLive(w: World, k: nat, lease: nat, j: nat, authority: bool)
    requires Inv(w) && Has(w, k, lease) && j < |w.processes| && j != k
    ensures LiveClaim(w.rows, w.processes[j].claim, w.clock, authority).Some?
  {
    hide AttemptInv, StorageInv, Tracks;
  }

  lemma OwnAdvanceKeeps(w: World, k: nat, lease: nat, manifest: nat, authority: bool)
    requires Has(w, k, lease)
    ensures var next := AdvanceProcess(w, k, manifest, authority);
            (Has(next, k, lease) || Finished(next)) && next.clock == w.clock
  {
    hide LiveClaim, StageInPlace, FinalIsOwn;
  }

  lemma OthersLeaveIt(w: World, k: nat, lease: nat, a: Action)
    requires Inv(w) && Has(w, k, lease) && w.clock < lease && !Renews(a, k) && !(a.Advance? && a.process == k)
    ensures Has(Act(w, a), k, lease) && Act(w, a).clock >= w.clock
  {
    hide Inv, LiveClaim, StageInPlace, FinalIsOwn;
    ClockNeverFalls(w, a);
    if !a.Claim? && !a.Tick? && a.process < |w.processes| {
      OthersAreNotLive(w, k, lease, a.process, a.authority);
      IdleWorker(w, a.process, a);
      WorkersStay(w, k, a);
      hide Act;
    }
  }

  lemma WorkersStay(w: World, k: nat, a: Action)
    requires k < |w.processes| && !a.Claim? && !a.Tick? && a.process != k
    ensures k < |Act(w, a).processes| && Act(w, a).processes[k] == w.processes[k]
  {
    hide StageInPlace, FinalIsOwn, Renew, RecordFailure, MarkStaged, MarkPublished, FinishSuccess;
  }

  lemma FinishedStays(w: World, a: Action)
    requires Finished(w)
    ensures Finished(Act(w, a)) && Act(w, a).clock >= w.clock
  {
    hide StageInPlace, FinalIsOwn;
  }

  /** A granted lease is kept: whatever everyone does, the worker's own steps included, until the lease has run out it
      neither moves nor passes to another claim, unless the worker itself renews, gives up or finishes. */
  lemma {:induction false} LeaseIsKept(w: World, actions: seq<Action>, more: seq<Action>, k: nat, lease: nat)
    requires Enqueued(w) && Has(Run(w, actions), k, lease) && forall a | a in more :: !Renews(a, k)
    ensures var now := Run(w, actions + more);
            now.clock >= Run(w, actions).clock && (now.clock < lease ==> Has(now, k, lease) || Finished(now))
  {
    hide Act, Enqueued, Has, Finished;
    if more == [] {
      assert actions + more == actions;
    } else {
      var n, all := |more| - 1, actions + more;
      assert all[..|all| - 1] == actions + more[..n] && all[|all| - 1] == more[n] && more[n] in more;
      LeaseIsKept(w, actions, more[..n], k, lease);
      RunKeepsInv(w, actions + more[..n]);
      StepKeepsLease(Run(w, actions + more[..n]), more[n], k, lease);
    }
  }

  lemma StepKeepsLease(w: World, a: Action, k: nat, lease: nat)
    requires Inv(w) && !Renews(a, k) && (w.clock < lease ==> Has(w, k, lease) || Finished(w))
    ensures Act(w, a).clock >= w.clock && (Act(w, a).clock < lease ==> Has(Act(w, a), k, lease) || Finished(Act(w, a)))
  {
    ClockNeverFalls(w, a);
    hide Inv;
    if w.clock < lease {
      if Finished(w) {
        FinishedStays(w, a);
      } else if a.Advance? && a.process == k {
        OwnAdvanceKeeps(w, k, lease, a.manifest, a.authority);
      } else {
        OthersLeaveIt(w, k, lease, a);
      }
    }
    hide Act;
  }

  lemma ClockNeverFalls(w: World, a: Action)
    ensures Act(w, a).clock >= w.clock
  {
    hide ClaimNext, Renew, RecordFailure, MarkStaged, MarkPublished, FinishSuccess, StageInPlace, FinalIsOwn;
  }

  lemma HolderIsLive(w: World, actions: seq<Action>, k: nat, lease: nat)
    requires Enqueued(w) && Has(Run(w, actions), k, lease) && Run(w, actions).clock < lease
    ensures var now := Run(w, actions);
            && LiveClaim(now.rows, now.processes[k].claim, now.clock, true).None?
            && forall worker, seconds, found ::
                 ClaimNext(now.rows, worker, seconds, now.clock, now.serial, found) == (now.rows, NothingToClaim)
  {
    LiveProcessProceeds(w, actions, k);
    hide Run, LiveClaim, RegisteredFor, Superseded, TerminalClaimFailure;
  }

  /** Claiming grants exactly `seconds`: from then on, first claim or reclaim alike, at every moment before `now +
      seconds` the new worker's claim is live and nobody else can claim, whatever everyone else does and whatever
      steps the worker takes, until it renews, gives up or has finished. */
  lemma ClaimIsLive(w: World, actions: seq<Action>, worker: nat, seconds: nat, more: seq<Action>)
    requires Enqueued(w) && Claimable(Run(w, actions).rows.adapter, Run(w, actions).clock) && seconds > 0
    requires forall a | a in more :: !Renews(a, |Run(w, actions).processes|)
    ensures var k := |Run(w, actions).processes|;
            var now := Run(w, actions + [Claim(worker, seconds, ALL_IN_ORDER)] + more);
            now.clock < Run(w, actions).clock + seconds && !Finished(now) ==>
              && k < |now.processes| && LiveClaim(now.rows, now.processes[k].claim, now.clock, true).None?
              && forall other, time, found ::
                   ClaimNext(now.rows, other, time, now.clock, now.serial, found) == (now.rows, NothingToClaim)
  {
    hide Claimable, Enqueued, LiveClaim, ClaimNext;
    var s, all := Run(w, actions), actions + [Claim(worker, seconds, ALL_IN_ORDER)];
    assert all[..|all| - 1] == actions && all[|all| - 1] == Claim(worker, seconds, ALL_IN_ORDER);
    ClaimExactly(w, actions, worker, seconds);
    var k, lease := |s.processes|, s.clock + seconds;
    assert Has(Run(w, all), k, lease);
    LeaseIsKept(w, all, more, k, lease);
    if Run(w, all + more).clock < lease && !Finished(Run(w, all + more)) {
      HolderIsLive(w, all + more, k, lease);
    }
    hide Run;
  }

  function Ticks(n: nat): seq<Action> { if n == 0 then [] else Ticks(n - 1) + [Tick] }

  lemma RunLast(w: World, actions: seq<Action>, a: Action)
    ensures Run(w, actions + [a]) == Act(Run(w, actions), a)
  {
    hide Act;
    assert (actions + [a])[..|actions + [a]| - 1] == actions;
  }

  lemma TickTicks(w: World)
    ensures Act(w, Tick) == w.(clock := w.clock + 1)
  {
  }

  lemma {:induction false} TimePasses(w: World, actions: seq<Action>, n: nat)
    ensures Run(w, actions + Ticks(n)) == Run(w, actions).(clock := Run(w, actions).clock + n)
  {
    hide Run, Act;
    if n == 0 {
      assert actions + Ticks(0) == actions;
    } else {
      TimePasses(w, actions, n - 1);
      assert actions + Ticks(n) == actions + Ticks(n - 1) + [Tick];
      RunLast(w, actions + Ticks(n - 1), Tick);
      TickTicks(Run(w, actions + Ticks(n - 1)));
    }
  }

  /** No lease outlives its time: left alone for that long, a worker's claim no longer holds, and the adapter is taken
      by whoever claims next. */
  lemma LapsedIsTaken(w: World, actions: seq<Action>, k: nat, lease: nat, n: nat, worker: nat, seconds: nat)
    requires Enqueued(w) && Has(Run(w, actions), k, lease) && Run(w, actions).clock + n >= lease
    ensures var s, later := Run(w, actions), Run(w, actions + Ticks(n));
            && later == s.(clock := s.clock + n)
            && LiveClaim(later.rows, later.processes[k].claim, later.clock, true).Some?
            && var outcome := ClaimNext(later.rows, worker, seconds, later.clock, later.serial, ALL_IN_ORDER).1;
               outcome.Claimed? && outcome.claim.token != s.processes[k].claim.token
  {
    hide Run, ClaimNext, Enqueued;
    TimePasses(w, actions, n);
    ClaimExactly(w, actions + Ticks(n), worker, seconds);
    RunKeepsInv(w, actions);
    TokensAreOld(Run(w, actions), k);
  }

  lemma TokensAreOld(w: World, k: nat)
    requires Inv(w) && k < |w.processes|
    ensures w.processes[k].claim.token < w.serial
  {
    hide AttemptInv, StorageInv, Drawn, Tracks;
  }

  /** A renewal by the live worker does the same from its own moment. */
  lemma RenewalIsLive(w: World, actions: seq<Action>, k: nat, lease: nat, seconds: nat, more: seq<Action>)
    requires Enqueued(w) && Has(Run(w, actions), k, lease) && Run(w, actions).clock < lease && seconds > 0
    requires Run(w, actions).processes[k].at != Ended && forall a | a in more :: !Renews(a, k)
    ensures var now := Run(w, actions + [Heartbeat(k, seconds, true)] + more);
            now.clock < Run(w, actions).clock + seconds && !Finished(now) ==>
              && k < |now.processes| && LiveClaim(now.rows, now.processes[k].claim, now.clock, true).None?
              && forall other, time, found ::
                   ClaimNext(now.rows, other, time, now.clock, now.serial, found) == (now.rows, NothingToClaim)
  {
    hide Claimable, Enqueued, LiveClaim, ClaimNext;
    var s, all := Run(w, actions), actions + [Heartbeat(k, seconds, true)];
    assert all[..|all| - 1] == actions && all[|all| - 1] == Heartbeat(k, seconds, true);
    HolderIsLive(w, actions, k, lease);
    var until := s.clock + seconds;
    assert Has(Run(w, all), k, until);
    LeaseIsKept(w, all, more, k, until);
    if Run(w, all + more).clock < until && !Finished(Run(w, all + more)) {
      HolderIsLive(w, all + more, k, until);
    }
    hide Run;
  }
}
