/** What every run of the registry queue keeps. */
module RegistrySafety {
  import opened Common
  import opened Registry

  // ----- The attempt invariant -----

  predicate Terminal(a: Attempt) { !ActiveAttempt(a) }

  /** A queued or running adapter has exactly one active attempt: the last, exactly as its own status
      demands and with the adapter's identity.  A finished adapter has none. */
  predicate AttemptInv(rows: Rows)
  {
    && rows.attempts != []
    && (forall i | 0 <= i < |rows.attempts| - 1 :: Terminal(rows.attempts[i]))
    && (forall i, j | 0 <= i < j < |rows.attempts| :: rows.attempts[i].identity != rows.attempts[j].identity)
    && var last := rows.attempts[|rows.attempts| - 1];
       && last.identity == rows.adapter.identity
       && match rows.adapter.status
          case Queued => AdapterLifecycle(rows.adapter) && last.status == Registered
            && AttemptLifecycle(last, rows.adapter)
          case Running => AdapterLifecycle(rows.adapter) && last.status != Registered
            && AttemptLifecycle(last, rows.adapter)
          case Validated => last.status == Succeeded && rows.adapter.token.None?
          case _ => Terminal(last) && last.status != Succeeded && rows.adapter.token.None?
  }

  /** Identifiers already drawn lie below `serial`. */
  predicate Drawn(rows: Rows, serial: nat)
  {
    && (forall i | 0 <= i < |rows.attempts| :: rows.attempts[i].identity.publication < serial)
    && (rows.adapter.token.Some? ==> rows.adapter.token.value < serial)
  }

  lemma {:induction false} OnlyLastActive(attempts: seq<Attempt>)
    requires attempts != [] && forall i | 0 <= i < |attempts| - 1 :: Terminal(attempts[i])
    ensures ActiveIndices(attempts) == if ActiveAttempt(attempts[|attempts| - 1]) then [|attempts| - 1] else []
  {
    NoneActive(attempts[..|attempts| - 1]);
  }

  lemma {:induction false} NoneActive(attempts: seq<Attempt>)
    requires forall i | 0 <= i < |attempts| :: Terminal(attempts[i])
    ensures ActiveIndices(attempts) == []
  {
    if attempts != [] { NoneActive(attempts[..|attempts| - 1]); }
  }

  lemma {:induction false} NoneMatches(attempts: seq<Attempt>, id: Identity)
    requires forall i | 0 <= i < |attempts| :: attempts[i].identity != id
    ensures MatchingAttempts(attempts, id) == []
  {
    if attempts != [] { NoneMatches(attempts[..|attempts| - 1], id); }
  }

  lemma OnlyLastMatches(attempts: seq<Attempt>, id: Identity)
    requires attempts != [] && attempts[|attempts| - 1].identity == id
    requires forall i | 0 <= i < |attempts| - 1 :: attempts[i].identity != id
    ensures MatchingAttempts(attempts, id) == [|attempts| - 1]
  {
    NoneMatches(attempts[..|attempts| - 1], id);
  }

  // ----- Total terminalization -----

  /** The state that the claim is in while it changes the rows: the invariant of an unfinished adapter,
      except that the attempt of a reclaim may still be registered. */
  predicate ClaimSurface(rows: Rows)
  {
    && rows.attempts != []
    && (forall i | 0 <= i < |rows.attempts| - 1 :: Terminal(rows.attempts[i]))
    && AdapterLifecycle(rows.adapter)
    && var last := rows.attempts[|rows.attempts| - 1];
       last.identity == rows.adapter.identity && AttemptLifecycle(last, rows.adapter)
  }

  /** Adapter and last attempt failed together. */
  function EndLast(rows: Rows, now: nat, code: Code): Rows
    requires rows.attempts != []
  {
    var k := |rows.attempts| - 1;
    Rows(FailedAdapter(rows.adapter, Failed, now, code),
         rows.attempts[k := FailedAttempt(rows.attempts[k], AttemptFailed, now, code)])
  }

  /** On exactly these states, among all whose earlier attempts are terminal, terminalization succeeds,
      and then it ends adapter and attempt together. */
  lemma TerminalizationIsTotal(rows: Rows, now: nat, code: Code, attempt: Option<nat>)
    requires rows.attempts != [] && forall i | 0 <= i < |rows.attempts| - 1 :: Terminal(rows.attempts[i])
    requires attempt.Some? ==> attempt.value == |rows.attempts| - 1
    ensures TerminalClaimFailure(rows, now, code, attempt)
            == if ClaimSurface(rows) then Some(EndLast(rows, now, code)) else None
  {
    OnlyLastActive(rows.attempts);
  }

  lemma UnfinishedIsClaimSurface(rows: Rows)
    requires AttemptInv(rows) && (rows.adapter.status == Queued || rows.adapter.status == Running)
    ensures ClaimSurface(rows)
  {
  }

  lemma SupersededIsLast(rows: Rows)
    requires AttemptInv(rows) && rows.adapter.status == Running
    ensures Superseded(rows) == Some(|rows.attempts| - 1)
  {
    OnlyLastMatches(rows.attempts, rows.adapter.identity);
  }

  /** The rows from which the claim takes its attempt. */
  function Prepared(rows: Rows, serial: nat, now: nat): Rows
    requires rows.attempts != []
  {
    if rows.adapter.status == Running then Supersede(rows, |rows.attempts| - 1, serial, now) else rows
  }

  lemma PreparedHasOneRegistered(rows: Rows, serial: nat, now: nat)
    requires AttemptInv(rows) && Drawn(rows, serial)
             && (rows.adapter.status == Queued || rows.adapter.status == Running)
    ensures var p := Prepared(rows, serial, now);
            && p.attempts != []
            && RegisteredFor(p) == Some(|p.attempts| - 1)
            && (forall i | 0 <= i < |p.attempts| - 1 :: Terminal(p.attempts[i]))
            && (forall i, j | 0 <= i < j < |p.attempts| :: p.attempts[i].identity != p.attempts[j].identity)
            && p.adapter.version == rows.adapter.version && |rows.attempts| <= |p.attempts|
            && var last := p.attempts[|p.attempts| - 1];
               last == NewAttempt(p.adapter.identity)
  {
    var p := Prepared(rows, serial, now);
    OnlyLastMatches(p.attempts, p.adapter.identity);
  }

  lemma TakenKeepsInv(p: Rows, worker: nat, token: nat, seconds: nat, now: nat)
    requires p.attempts != [] && (forall i | 0 <= i < |p.attempts| - 1 :: Terminal(p.attempts[i]))
    requires forall i, j | 0 <= i < j < |p.attempts| :: p.attempts[i].identity != p.attempts[j].identity
    requires var last := p.attempts[|p.attempts| - 1];
             last.identity == p.adapter.identity && last == NewAttempt(last.identity)
    ensures AttemptInv(Taken(p, |p.attempts| - 1, worker, token, seconds, now))
  {
  }

  /** The claim, without any of the checks that the invariant makes redundant. */
  function SimpleClaim(rows: Rows, worker: nat, seconds: nat, now: nat, serial: nat, found: Findings): (Rows,
                                                                                                        ClaimOutcome)
    requires rows.attempts != []
  {
    var p := Prepared(rows, serial, now);
    var i := |p.attempts| - 1;
    var taken := Taken(p, i, worker, serial + 2, seconds, now);
    if !Claimable(rows.adapter, now) then (rows, NothingToClaim)
    else if !found.department then (EndLast(rows, now, DepartmentUnavailable), Terminated(DepartmentUnavailable))
    else if !found.source then (EndLast(rows, now, SourceUnavailable), Terminated(SourceUnavailable))
    else if !found.dependency || !found.upstream then (EndLast(taken, now, ClaimLost), Terminated(ClaimLost))
    else (taken, Claimed(ClaimedAdapter(worker, serial + 2, p.adapter.identity, rows.adapter.version + 1, i, 2,
                                        AttemptRunning)))
  }

  lemma TakenTerminates(rows: Rows, worker: nat, seconds: nat, now: nat, serial: nat)
    requires AttemptInv(rows) && Drawn(rows, serial) && Claimable(rows.adapter, now)
    ensures var p := Prepared(rows, serial, now);
            var i := |p.attempts| - 1;
            var taken := Taken(p, i, worker, serial + 2, seconds, now);
            AttemptInv(taken) && TerminalClaimFailure(taken, now, ClaimLost, Some(i))
              == Some(EndLast(taken, now, ClaimLost))
            && taken.attempts[i].version == 2 && taken.adapter.status == Running && taken.attempts != []
  {
    PreparedHasOneRegistered(rows, serial, now);
    var p := Prepared(rows, serial, now);
    var i := |p.attempts| - 1;
    hide Prepared, TerminalClaimFailure, EndLast;
    TakenKeepsInv(p, worker, serial + 2, seconds, now);
    var taken := Taken(p, i, worker, serial + 2, seconds, now);
    UnfinishedIsClaimSurface(taken);
    TerminalizationIsTotal(taken, now, ClaimLost, Some(i));
  }

  /** Total terminalization: on rows that satisfy the invariant a claim never raises, none of its
      `claim_lost` exits for missing, duplicate or malformed attempts is taken, and every failure it
      finds in the middle of the claim ends adapter and attempt together. */
  lemma ClaimIsTotal(rows: Rows, worker: nat, seconds: nat, now: nat, serial: nat, found: Findings)
    requires AttemptInv(rows) && Drawn(rows, serial)
    ensures ClaimNext(rows, worker, seconds, now, serial, found)
            == SimpleClaim(rows, worker, seconds, now, serial, found)
  {
    hide AttemptInv, TerminalClaimFailure, Superseded, RegisteredFor, ClaimSurface, Drawn, Supersede, EndLast;
    if Claimable(rows.adapter, now) {
      UnfinishedIsClaimSurface(rows);
      TerminalizationIsTotal(rows, now, DepartmentUnavailable, None);
      TerminalizationIsTotal(rows, now, SourceUnavailable, None);
      if rows.adapter.status == Running { SupersededIsLast(rows); }
      PreparedHasOneRegistered(rows, serial, now);
      TakenTerminates(rows, worker, seconds, now, serial);
    }
  }

  // ----- Rows only grow -----

  /** Versions never fall, terminal attempts never change, and a finished adapter never changes. */
  predicate Grows(before: Rows, after: Rows)
  {
    && before.adapter.version <= after.adapter.version
    && |before.attempts| <= |after.attempts|
    && (forall i | 0 <= i < |before.attempts| ::
          && before.attempts[i].version <= after.attempts[i].version
          && before.attempts[i].identity == after.attempts[i].identity
          && (Terminal(before.attempts[i]) ==> after.attempts[i] == before.attempts[i]))
    && (before.adapter.status != Queued && before.adapter.status != Running ==> after == before)
  }

  lemma EndLastKeeps(rows: Rows, now: nat, code: Code)
    requires AttemptInv(rows) && (rows.adapter.status == Queued || rows.adapter.status == Running)
    ensures AttemptInv(EndLast(rows, now, code)) && Grows(rows, EndLast(rows, now, code))
  {
  }

  lemma TakenGrows(rows: Rows, worker: nat, seconds: nat, now: nat, serial: nat)
    requires AttemptInv(rows) && Drawn(rows, serial) && Claimable(rows.adapter, now)
    ensures var p := Prepared(rows, serial, now);
            var taken := Taken(p, |p.attempts| - 1, worker, serial + 2, seconds, now);
            KeptBy(rows, taken, serial) && taken.adapter.status == Running
  {
    TakenTerminates(rows, worker, seconds, now, serial);
  }

  lemma GrowsOn(before: Rows, between: Rows, after: Rows)
    requires Grows(before, between) && Grows(between, after)
    ensures Grows(before, after)
  {
  }

  predicate KeptBy(rows: Rows, next: Rows, serial: nat)
  {
    AttemptInv(next) && Grows(rows, next) && Drawn(next, serial + 3)
  }

  lemma EndLastIsKept(rows: Rows, next: Rows, now: nat, code: Code, serial: nat)
    requires AttemptInv(rows) && KeptBy(rows, next, serial)
    requires next.adapter.status == Queued || next.adapter.status == Running
    ensures next.attempts != [] && KeptBy(rows, EndLast(next, now, code), serial)
  {
    EndLastKeeps(next, now, code);
    EndLastDraws(next, now, code, serial + 3);
    GrowsOn(rows, next, EndLast(next, now, code));
    hide AttemptInv, Grows, Drawn, EndLast;
  }

  lemma SelfIsKept(rows: Rows, serial: nat)
    requires AttemptInv(rows) && Drawn(rows, serial)
    ensures KeptBy(rows, rows, serial)
  {
  }

  lemma SimpleClaimKeepsRows(rows: Rows, worker: nat, seconds: nat, now: nat, serial: nat, found: Findings)
    requires AttemptInv(rows) && Drawn(rows, serial) && Claimable(rows.adapter, now)
    ensures rows.attempts != [] && KeptBy(rows, SimpleClaim(rows, worker, seconds, now, serial, found).0, serial)
  {
    hide AttemptInv, Prepared, Taken, KeptBy, Drawn, EndLast, TerminalClaimFailure;
    SelfIsKept(rows, serial);
    EndLastIsKept(rows, rows, now, DepartmentUnavailable, serial);
    EndLastIsKept(rows, rows, now, SourceUnavailable, serial);
    PreparedHasOneRegistered(rows, serial, now);
    TakenGrows(rows, worker, seconds, now, serial);
    var p := Prepared(rows, serial, now);
    EndLastIsKept(rows, Taken(p, |p.attempts| - 1, worker, serial + 2, seconds, now), now, ClaimLost, serial);
  }

  lemma ClaimKeepsRows(rows: Rows, worker: nat, seconds: nat, now: nat, serial: nat, found: Findings)
    requires AttemptInv(rows) && Drawn(rows, serial)
    ensures var next := ClaimNext(rows, worker, seconds, now, serial, found).0;
            AttemptInv(next) && Grows(rows, next) && Drawn(next, serial + 3)
  {
    if Claimable(rows.adapter, now) {
      ClaimIsTotal(rows, worker, seconds, now, serial, found);
      SimpleClaimKeepsRows(rows, worker, seconds, now, serial, found);
      hide ClaimNext, SimpleClaim, AttemptInv, Grows, Drawn;
    }
  }

  lemma EndLastDraws(rows: Rows, now: nat, code: Code, serial: nat)
    requires rows.attempts != [] && (Drawn(rows, serial) || (serial >= 3 && Drawn(rows, serial - 3)))
    ensures Drawn(EndLast(rows, now, code), serial)
  {
  }

  // ----- The claim in memory -----

  predicate AtStatus(at: Place, status: AttemptStatus)
  {
    match at
    case Preparing => status == AttemptRunning
    case Filling => status == AttemptRunning
    case Marking => status == AttemptRunning
    case Finishing => status == Published
    case Ended => true
    case _ => status == Staged
  }

  /** While its token is the adapter's, a process knows both rows exactly. */
  predicate Tracks(p: Process, rows: Rows)
  {
    var c := p.claim;
    && c.attempt < |rows.attempts| && rows.attempts[c.attempt].identity == c.identity
    && (rows.adapter.token == Some(c.token) ==>
          && rows.adapter.worker == Some(c.worker) && c.identity == rows.adapter.identity
          && c.adapterVersion == rows.adapter.version && c.attempt == |rows.attempts| - 1
          && c.attemptVersion == rows.attempts[c.attempt].version
          && c.attemptStatus == rows.attempts[c.attempt].status
          && AtStatus(p.at, c.attemptStatus)
          && (p.at == Unmarking || p.at == Renaming || p.at == Verifying || p.at == Publishing || p.at == Finishing ==>
                rows.attempts[c.attempt].manifest == Some(p.manifest)))
  }

  /** The processes, each with its own token and publication. */
  predicate ProcessesInv(w: World)
  {
    && (w.rows.adapter.status == Queued ==> w.processes == [])
    && (w.rows.adapter.token.Some? ==>
          exists k :: 0 <= k < |w.processes| && w.rows.adapter.token == Some(w.processes[k].claim.token))
    && (forall k | 0 <= k < |w.processes| ::
          && Tracks(w.processes[k], w.rows)
          && w.processes[k].claim.token < w.serial && w.processes[k].claim.identity.publication < w.serial)
    && (forall k, j | 0 <= k < j < |w.processes| ::
          w.processes[k].claim.token != w.processes[j].claim.token
          && w.processes[k].claim.identity.publication != w.processes[j].claim.identity.publication)
  }

  // ----- Storage -----

  /** This process's own stage became the final directory. */
  predicate Created(w: World, p: Process)
  {
    w.final.Some? && p.stage == Some(Stage(w.final.value.inode, true))
  }

  predicate StorageInv(w: World)
  {
    && (forall publication | publication in w.stages :: w.stages[publication].inode < w.serial)
    && (forall k | 0 <= k < |w.processes| ::
          var p := w.processes[k];
          && (p.stage.Some? ==> p.stage.value.inode < w.serial && (p.stage.value.renamed ==> Created(w, p)))
          && (p.at == Preparing ==> p.stage.None?)
          && (p.at == Verifying || p.at == Publishing || p.at == Finishing ==> Created(w, p)))
    && (forall k, j | 0 <= k < j < |w.processes| ::
          w.processes[k].stage.Some? && w.processes[j].stage.Some? ==>
            w.processes[k].stage.value.inode != w.processes[j].stage.value.inode)
    && (w.final.Some? ==>
          w.final.value.names == FINAL_FILES && exists k :: 0 <= k < |w.processes| && Created(w, w.processes[k]))
    && (w.rows.adapter.status == Validated ==>
          exists k :: 0 <= k < |w.processes| && Created(w, w.processes[k])
                      && w.processes[k].claim.identity == w.rows.adapter.identity)
  }

  predicate Inv(w: World)
  {
    AttemptInv(w.rows) && Drawn(w.rows, w.serial) && ProcessesInv(w) && StorageInv(w)
  }

  // ----- Steps on rows -----

  /** A transition of the live process: adapter and last attempt move, everything else stays. */
  predicate OwnStep(rows: Rows, next: Rows, c: ClaimedAdapter, claim: ClaimedAdapter)
  {
    && AttemptInv(next) && Grows(rows, next) && next.adapter.identity == rows.adapter.identity
    && |next.attempts| == |rows.attempts|
    && claim == c.(adapterVersion := claim.adapterVersion, attemptVersion := claim.attemptVersion,
                   attemptStatus := claim.attemptStatus)
  }

  lemma MarkStagedSteps(rows: Rows, p: Process, now: nat, authority: bool)
    requires AttemptInv(rows) && Tracks(p, rows) && p.at == Marking
    ensures var (next, claim, code) := MarkStaged(rows, p.claim, p.manifest, now, authority);
            && (code.Some? ==> next == rows && claim == p.claim)
            && (code.None? ==> OwnStep(rows, next, p.claim, claim) && Tracks(p.(claim := claim, at := Unmarking), next)
                               && next.adapter.token == rows.adapter.token == Some(p.claim.token))
  {
  }

  lemma MarkPublishedSteps(rows: Rows, p: Process, now: nat, authority: bool)
    requires AttemptInv(rows) && Tracks(p, rows) && p.at == Publishing
    ensures var (next, claim, code) := MarkPublished(rows, p.claim, now, authority);
            && (code.Some? ==> next == rows && claim == p.claim)
            && (code.None? ==> OwnStep(rows, next, p.claim, claim) && Tracks(p.(claim := claim, at := Finishing), next)
                               && next.adapter.token == rows.adapter.token == Some(p.claim.token))
  {
  }

  lemma RenewSteps(rows: Rows, p: Process, seconds: nat, now: nat, authority: bool)
    requires AttemptInv(rows) && Tracks(p, rows)
    ensures var (next, claim, code) := Renew(rows, p.claim, seconds, now, authority);
            && (code.Some? ==> next == rows && claim == p.claim)
            && (code.None? ==> OwnStep(rows, next, p.claim, claim) && Tracks(p.(claim := claim), next)
                               && next.adapter.token == rows.adapter.token == Some(p.claim.token)
                               && next.attempts == rows.attempts)
  {
  }

  lemma FinishSteps(rows: Rows, p: Process, now: nat, authority: bool)
    requires AttemptInv(rows) && Tracks(p, rows)
    ensures var (next, code) := FinishSuccess(rows, p.claim, p.manifest, now, authority);
            && (code.Some? ==> next == rows)
            && (code.None? ==> OwnStep(rows, next, p.claim, p.claim) && next.adapter.token.None?
                               && next.adapter.status == Validated && p.claim.identity == next.adapter.identity)
  {
  }

  lemma FailureSteps(rows: Rows, p: Process, code: Code, validation: bool, now: nat, authority: bool)
    requires AttemptInv(rows) && Tracks(p, rows)
    ensures var next := RecordFailure(rows, p.claim, code, validation, now, authority);
            next == rows || (OwnStep(rows, next, p.claim, p.claim) && next.adapter.token.None?
                             && next.adapter.status != Validated)
  {
  }

  /** A process other than the owner keeps its place whatever the owner does. */
  lemma OthersTrack(rows: Rows, next: Rows, p: Process)
    requires Tracks(p, rows) && Grows(rows, next)
    requires next.adapter.token == rows.adapter.token || next.adapter.token.None?
             || next.adapter.token.value > p.claim.token
    requires rows.adapter.token != Some(p.claim.token) || next == rows || next.adapter.token != rows.adapter.token
    ensures Tracks(p, next)
  {
  }

  // ----- Every action keeps the invariant -----

  /** What a claim does to the owner: nothing, no owner any more, or a new one with fresh identifiers. */
  lemma ClaimFacts(rows: Rows, worker: nat, seconds: nat, now: nat, serial: nat, found: Findings)
    requires AttemptInv(rows) && Drawn(rows, serial)
    ensures var (next, outcome) := ClaimNext(rows, worker, seconds, now, serial, found);
            match outcome
            case NothingToClaim => next == rows
            case Terminated(_) => next.adapter.token.None? && next.adapter.status == Failed
            case Claimed(claim) =>
              && next.adapter.token == Some(serial + 2) && claim.token == serial + 2 && next.adapter.status == Running
              && Tracks(Process(claim, None, 0, Preparing), next)
              && (rows.adapter.status != Queued ==> claim.identity.publication == serial)
              && claim.identity.publication < serial + 3
            case ClaimRaised => false
  {
    ClaimIsTotal(rows, worker, seconds, now, serial, found);
    if Claimable(rows.adapter, now) {
      TakenTerminates(rows, worker, seconds, now, serial);
    }
    hide ClaimNext, TerminalClaimFailure;
  }

  lemma ClaimKeepsProcesses(w: World, worker: nat, seconds: nat, found: Findings)
    requires Inv(w)
    ensures ProcessesInv(Act(w, Claim(worker, seconds, found)))
  {
    hide ClaimNext, AttemptInv, Grows, Drawn, StorageInv, Tracks;
    ClaimKeepsRows(w.rows, worker, seconds, w.clock, w.serial, found);
    ClaimFacts(w.rows, worker, seconds, w.clock, w.serial, found);
    var (rows, outcome) := ClaimNext(w.rows, worker, seconds, w.clock, w.serial, found);
    forall k | 0 <= k < |w.processes| ensures Tracks(w.processes[k], rows) {
      OthersTrack(w.rows, rows, w.processes[k]);
    }
    var next := Act(w, Claim(worker, seconds, found));
    if outcome.Claimed? {
      assert next.processes[|w.processes|].claim == outcome.claim;
    } else {
      assert next.processes == w.processes;
    }
  }

  /** Storage and rows change apart: with the same directories, what is stored stays accounted for. */
  lemma RowsKeepStorage(w: World, next: World)
    requires StorageInv(w) && next.stages == w.stages && next.final == w.final && next.serial >= w.serial
    requires |next.processes| >= |w.processes|
    requires forall k | 0 <= k < |w.processes| ::
               next.processes[k].stage == w.processes[k].stage
               && next.processes[k].claim.identity == w.processes[k].claim.identity
    requires forall k | 0 <= k < |next.processes| ::
               var at := next.processes[k].at;
               (at == Verifying || at == Publishing || at == Finishing) ==> Created(next, next.processes[k])
    requires forall k | 0 <= k < |next.processes| ::
               k >= |w.processes| || next.processes[k].at == Preparing ==> next.processes[k].stage.None?
    requires next.rows.adapter.status == Validated ==>
               || next.rows == w.rows
               || exists k :: 0 <= k < |next.processes| && Created(next, next.processes[k])
                              && next.processes[k].claim.identity == next.rows.adapter.identity
    ensures StorageInv(next)
  {
    if w.final.Some? {
      var k :| 0 <= k < |w.processes| && Created(w, w.processes[k]);
      assert Created(next, next.processes[k]);
    }
    if next.rows.adapter.status == Validated && next.rows == w.rows {
      var k :| 0 <= k < |w.processes| && Created(w, w.processes[k])
        && w.processes[k].claim.identity == w.rows.adapter.identity;
      assert Created(next, next.processes[k]);
    }
  }

  lemma ClaimKeepsInv(w: World, worker: nat, seconds: nat, found: Findings)
    requires Inv(w)
    ensures Inv(Act(w, Claim(worker, seconds, found)))
  {
    hide AttemptInv, ClaimNext, Tracks, Grows, Drawn;
    ClaimKeepsRows(w.rows, worker, seconds, w.clock, w.serial, found);
    ClaimFacts(w.rows, worker, seconds, w.clock, w.serial, found);
    ClaimKeepsProcesses(w, worker, seconds, found);
    hide ProcessesInv;
    var next := Act(w, Claim(worker, seconds, found));
    forall k | 0 <= k < |next.processes|
      ensures var at := next.processes[k].at;
              (at == Verifying || at == Publishing || at == Finishing) ==> Created(next, next.processes[k])
    {
      if k < |w.processes| { assert next.processes[k] == w.processes[k]; }
    }
    hide StorageInv;
    RowsKeepStorage(w, next);
  }

  /** A step of process `k` on the rows, which leaves the directories alone. */
  lemma OwnedStepKeepsInv(w: World, k: nat, p: Process, rows: Rows)
    requires Inv(w) && k < |w.processes|
    requires p.stage == w.processes[k].stage
    requires p.at == Verifying || p.at == Publishing || p.at == Finishing ==> Created(w, w.processes[k])
    requires p.at == Preparing ==> w.processes[k].at == Preparing
    requires if rows == w.rows then p.claim == w.processes[k].claim && Tracks(p, rows)
             else
               && OwnStep(w.rows, rows, w.processes[k].claim, p.claim) && Tracks(p, rows)
               && (rows.adapter.token.None? || rows.adapter.token == w.rows.adapter.token == Some(p.claim.token))
               && (rows.adapter.status == Validated
                   ==> Created(w, w.processes[k]) && p.claim.identity == rows.adapter.identity)
    ensures Inv(Proceed(w, k, p).(rows := rows))
  {
    hide Grows, AttemptInv;
    var next := Proceed(w, k, p).(rows := rows);
    if rows != w.rows {
      forall j | 0 <= j < |w.processes| && j != k ensures Tracks(w.processes[j], rows) {
        OthersTrack(w.rows, rows, w.processes[j]);
      }
      assert Drawn(rows, w.serial)
             && next.rows.adapter.status != Queued by { OwnStepKeepsDrawn(w, rows, w.processes[k].claim, p.claim); }
    }
    if rows.adapter.token.Some? && rows == w.rows {
      var j :| 0 <= j < |w.processes| && rows.adapter.token == Some(w.processes[j].claim.token);
      assert rows.adapter.token == Some(next.processes[j].claim.token);
    } else if rows.adapter.token.Some? {
      assert rows.adapter.token == Some(next.processes[k].claim.token);
    }
    hide Tracks, Drawn;
    assert ProcessesInv(next);
    assert Created(w, w.processes[k]) ==> Created(next, next.processes[k]);
    forall j | 0 <= j < |next.processes|
      ensures var at := next.processes[j].at;
              (at == Verifying || at == Publishing || at == Finishing) ==> Created(next, next.processes[j])
    {
      if j != k { assert next.processes[j] == w.processes[j]; }
    }
    hide StorageInv, ProcessesInv;
    RowsKeepStorage(w, next);
  }

  lemma OwnStepKeepsDrawn(w: World, rows: Rows, c: ClaimedAdapter, claim: ClaimedAdapter)
    requires Inv(w) && OwnStep(w.rows, rows, c, claim) && w.processes != []
    requires rows.adapter.token.None? || rows.adapter.token == w.rows.adapter.token
    ensures Drawn(rows, w.serial) && (rows != w.rows ==> rows.adapter.status != Queued)
  {
  }

  // ----- Steps on the directories -----

  /** A step of process `k` on the directories: its claim stays, and so does its place on the rows. */
  lemma StorageStepKeepsProcesses(w: World, next: World, k: nat)
    requires Inv(w) && k < |w.processes|
    requires next.rows == w.rows && next.serial >= w.serial && |next.processes| == |w.processes|
    requires forall j | 0 <= j < |w.processes| && j != k :: next.processes[j] == w.processes[j]
    requires next.processes[k].claim == w.processes[k].claim && Tracks(next.processes[k], w.rows)
    ensures AttemptInv(next.rows) && Drawn(next.rows, next.serial) && ProcessesInv(next)
  {
    hide AttemptInv, StorageInv, Tracks;
    assert forall j | 0 <= j < |w.processes| :: next.processes[j].claim == w.processes[j].claim;
    if w.rows.adapter.token.Some? {
      var j :| 0 <= j < |w.processes| && w.rows.adapter.token == Some(w.processes[j].claim.token);
      assert next.rows.adapter.token == Some(next.processes[j].claim.token);
    }
  }

  /** The final directory, once there, is still the same one; no one else's stage became it. */
  predicate SameFinal(w: World, next: World, k: nat)
    requires k < |w.processes|
  {
    && next.final == w.final && next.rows == w.rows && next.serial >= w.serial && |next.processes| == |w.processes|
    && (forall j | 0 <= j < |w.processes| && j != k :: next.processes[j] == w.processes[j])
    && next.processes[k].claim == w.processes[k].claim
    && (forall publication | publication in next.stages :: next.stages[publication].inode < next.serial)
    && var before, after := w.processes[k].stage, next.processes[k].stage;
       || after == before
       || (before.None? && after.Some? && !after.value.renamed && w.serial <= after.value.inode < next.serial)
  }

  lemma SameFinalKeepsStorage(w: World, next: World, k: nat)
    requires StorageInv(w) && k < |w.processes| && SameFinal(w, next, k)
    requires var at := next.processes[k].at;
             at != Preparing && (at == Verifying || at == Publishing || at == Finishing
                                 ==> Created(next, next.processes[k]))
    ensures StorageInv(next)
  {
    if w.final.Some? {
      var j :| 0 <= j < |w.processes| && Created(w, w.processes[j]);
      assert Created(next, next.processes[j]);
    }
    if w.rows.adapter.status == Validated {
      var j :| 0 <= j < |w.processes| && Created(w, w.processes[j])
        && w.processes[j].claim.identity == w.rows.adapter.identity;
      assert Created(next, next.processes[j]) && next.processes[j].claim == w.processes[j].claim;
    }
  }

  lemma QuietStepKeepsInv(w: World, next: World, k: nat)
    requires Inv(w) && k < |w.processes| && SameFinal(w, next, k) && Tracks(next.processes[k], w.rows)
    requires var at := next.processes[k].at;
             at != Preparing && (at == Verifying || at == Publishing || at == Finishing
                                 ==> Created(next, next.processes[k]))
    ensures Inv(next)
  {
    StorageStepKeepsProcesses(w, next, k);
    SameFinalKeepsStorage(w, next, k);
    hide AttemptInv, Drawn, ProcessesInv, StorageInv, Tracks;
  }

  lemma ProcessTracks(w: World, k: nat)
    requires Inv(w) && k < |w.processes|
    ensures Tracks(w.processes[k], w.rows)
    ensures w.processes[k].at == Preparing ==> w.processes[k].stage.None?
    ensures var at := w.processes[k].at;
            at == Verifying || at == Publishing || at == Finishing ==> Created(w, w.processes[k])
  {
  }

  /** A process that fails goes nowhere any more. */
  lemma EndKeepsInv(w: World, k: nat)
    requires Inv(w) && k < |w.processes|
    ensures Inv(Proceed(w, k, w.processes[k].(at := Ended)))
  {
    ProcessTracks(w, k);
    OwnedStepKeepsInv(w, k, w.processes[k].(at := Ended), w.rows);
    assert Proceed(w, k, w.processes[k].(at := Ended)).(rows := w.rows) == Proceed(w, k, w.processes[k].(at := Ended));
  }

  lemma PrepareKeepsInv(w: World, k: nat)
    requires Inv(w) && k < |w.processes| && w.processes[k].at == Preparing
    ensures Inv(Prepare(w, k))
  {
    EndKeepsInv(w, k);
    ProcessTracks(w, k);
    var next := Prepare(w, k);
    if w.processes[k].claim.identity.publication !in w.stages {
      assert Tracks(next.processes[k], w.rows);
      assert SameFinal(w, next, k) by { StagesDrawn(w); }
      hide Inv, Tracks, SameFinal, Created;
      QuietStepKeepsInv(w, next, k);
    }
  }

  lemma StagesDrawn(w: World)
    requires Inv(w)
    ensures forall publication | publication in w.stages :: w.stages[publication].inode < w.serial
    ensures forall k | 0 <= k < |w.processes|
            && w.processes[k].stage.Some? :: w.processes[k].stage.value.inode < w.serial
  {
  }

  lemma FillKeepsInv(w: World, k: nat, manifest: nat)
    requires Inv(w) && k < |w.processes| && w.processes[k].at == Filling
    ensures Inv(Fill(w, k, manifest))
  {
    EndKeepsInv(w, k);
    ProcessTracks(w, k);
    StagesDrawn(w);
    var next := Fill(w, k, manifest);
    if StageInPlace(w, w.processes[k]) {
      assert Tracks(next.processes[k], w.rows);
      hide Inv, Tracks, Created;
      QuietStepKeepsInv(w, next, k);
    }
  }

  lemma UnmarkKeepsInv(w: World, k: nat)
    requires Inv(w) && k < |w.processes| && w.processes[k].at == Unmarking
    ensures Inv(Unmark(w, k))
  {
    EndKeepsInv(w, k);
    ProcessTracks(w, k);
    StagesDrawn(w);
    var next := Unmark(w, k);
    if next.processes[k].at == Renaming {
      assert Tracks(next.processes[k], w.rows);
      hide Inv, Tracks, Created;
      QuietStepKeepsInv(w, next, k);
    }
  }

  lemma VerifyKeepsInv(w: World, k: nat)
    requires Inv(w) && k < |w.processes| && w.processes[k].at == Verifying
    ensures Inv(Verify(w, k))
  {
    ProcessTracks(w, k);
    StagesDrawn(w);
    var next := Verify(w, k);
    assert Tracks(next.processes[k], w.rows);
    hide Inv, Tracks;
    QuietStepKeepsInv(w, next, k);
  }

  lemma RenameKeepsInv(w: World, k: nat)
    requires Inv(w) && k < |w.processes| && w.processes[k].at == Renaming
    ensures Inv(Rename(w, k))
  {
    EndKeepsInv(w, k);
    ProcessTracks(w, k);
    var next := Rename(w, k);
    if next.processes[k].at == Verifying {
      assert Tracks(next.processes[k], w.rows);
      StorageStepKeepsProcesses(w, next, k);
      hide AttemptInv, Drawn, ProcessesInv, Tracks;
      assert Created(next, next.processes[k]);
      assert StorageInv(next);
    }
  }

  lemma AdvanceKeepsInv(w: World, k: nat, manifest: nat, authority: bool)
    requires Inv(w) && k < |w.processes|
    ensures Inv(AdvanceProcess(w, k, manifest, authority))
  {
    ProcessTracks(w, k);
    assert AttemptInv(w.rows);
    var p := w.processes[k];
    hide Inv, AttemptInv, Tracks, Created, MarkStaged, MarkPublished, FinishSuccess, Prepare, Fill, Unmark, Rename,
         Verify, OwnStep;
    match p.at
    case Preparing => PrepareKeepsInv(w, k);
    case Filling => FillKeepsInv(w, k, manifest);
    case Marking =>
      MarkStagedSteps(w.rows, p, w.clock, authority);
      var (rows, claim, code) := MarkStaged(w.rows, p.claim, p.manifest, w.clock, authority);
      MarkingKeepsInv(w, k, rows, claim, code, Unmarking);
    case Unmarking => UnmarkKeepsInv(w, k);
    case Renaming => RenameKeepsInv(w, k);
    case Verifying => VerifyKeepsInv(w, k);
    case Publishing =>
      MarkPublishedSteps(w.rows, p, w.clock, authority);
      var (rows, claim, code) := MarkPublished(w.rows, p.claim, w.clock, authority);
      MarkingKeepsInv(w, k, rows, claim, code, Finishing);
    case Finishing =>
      EndKeepsInv(w, k);
      FinishSteps(w.rows, p, w.clock, authority);
      var (rows, code) := FinishSuccess(w.rows, p.claim, p.manifest, w.clock, authority);
      FinishingKeepsInv(w, k, rows, code);
    case Ended =>
  }

  lemma MarkingKeepsInv(w: World, k: nat, rows: Rows, claim: ClaimedAdapter, code: Option<Code>, at: Place)
    requires Inv(w) && k < |w.processes| && (at == Unmarking || (at == Finishing && w.processes[k].at == Publishing))
    requires var p := w.processes[k];
             if code.Some? then rows == w.rows && claim == p.claim
             else OwnStep(w.rows, rows, p.claim, claim) && Tracks(p.(claim := claim, at := at), rows)
                  && rows.adapter.token == w.rows.adapter.token == Some(p.claim.token)
    ensures Inv(Proceed(w, k, w.processes[k].(claim := claim, at := if code.Some? then Ended else at)).(rows := rows))
  {
    var p := w.processes[k];
    ProcessTracks(w, k);
    if code.Some? {
      OwnedStepKeepsInv(w, k, p.(at := Ended), w.rows);
      assert p.(claim := claim, at := Ended) == p.(at := Ended);
    } else {
      assert rows.adapter.status == Running;
      OwnedStepKeepsInv(w, k, p.(claim := claim, at := at), rows);
    }
    hide Inv, Proceed;
  }

  lemma FinishingKeepsInv(w: World, k: nat, rows: Rows, code: Option<Code>)
    requires Inv(w) && k < |w.processes| && w.processes[k].at == Finishing
    requires var p := w.processes[k];
             if code.Some? then rows == w.rows
             else OwnStep(w.rows, rows, p.claim, p.claim) && rows.adapter.token.None?
                  && rows.adapter.status == Validated && p.claim.identity == rows.adapter.identity
    ensures Inv(Proceed(w, k, w.processes[k].(at := Ended)).(rows := rows))
  {
    ProcessTracks(w, k);
    OwnedStepKeepsInv(w, k, w.processes[k].(at := Ended), rows);
  }

  lemma GiveUpKeepsInv(w: World, k: nat, code: Code, validation: bool, authority: bool)
    requires Inv(w)
    ensures Inv(Act(w, GiveUp(k, code, validation, authority)))
  {
    if k < |w.processes| {
      var p := w.processes[k];
      ProcessTracks(w, k);
      FailureSteps(w.rows, p, code, validation, w.clock, authority);
      var rows := RecordFailure(w.rows, p.claim, code, validation, w.clock, authority);
      OwnedStepKeepsInv(w, k, p.(at := Ended), rows);
    }
  }

  lemma HeartbeatKeepsInv(w: World, k: nat, seconds: nat, authority: bool)
    requires Inv(w)
    ensures Inv(Act(w, Heartbeat(k, seconds, authority)))
  {
    if k < |w.processes| {
      var p := w.processes[k];
      ProcessTracks(w, k);
      RenewSteps(w.rows, p, seconds, w.clock, authority);
      var (rows, claim, code) := Renew(w.rows, p.claim, seconds, w.clock, authority);
      assert rows.adapter.status != Validated || rows == w.rows;
      hide RecordFailure, Renew;
      OwnedStepKeepsInv(w, k, p.(claim := claim), rows);
    }
    hide Inv, Renew;
  }

  lemma ActKeepsInv(w: World, a: Action)
    requires Inv(w)
    ensures Inv(Act(w, a))
  {
    hide Inv, RecordFailure, Renew, ClaimNext, AdvanceProcess;
    match a
    case Claim(worker, seconds, found) => ClaimKeepsInv(w, worker, seconds, found);
    case Heartbeat(k, seconds, authority) => HeartbeatKeepsInv(w, k, seconds, authority);
    case Advance(k, manifest, authority) =>
      if k < |w.processes| { AdvanceKeepsInv(w, k, manifest, authority); }
    case GiveUp(k, code, validation, authority) => GiveUpKeepsInv(w, k, code, validation, authority);
    case Tick => TickKeepsInv(w);
  }

  lemma TickKeepsInv(w: World)
    requires Inv(w)
    ensures Inv(w.(clock := w.clock + 1))
  {
    hide AttemptInv, Tracks, Drawn;
    assert forall p :: Created(w, p) <==> Created(w.(clock := w.clock + 1), p);
  }

  lemma {:induction false} RunKeepsInv(w: World, actions: seq<Action>)
    requires Enqueued(w)
    ensures Inv(Run(w, actions))
  {
    if actions != [] {
      RunKeepsInv(w, actions[..|actions| - 1]);
      ActKeepsInv(Run(w, actions[..|actions| - 1]), actions[|actions| - 1]);
      hide Inv, Act;
    }
  }
}
