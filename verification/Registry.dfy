/** The registry queue of one adapter (adapter_registry_queue.py) and the stages and final directory that
    its workers publish (adapter_registry_artifacts.py). */
module Registry {
  import opened Common

  // ----- Rows -----

  datatype AdapterStatus = Queued | Running | Validated | ValidationFailed | Failed

  datatype AttemptStatus =
    | Registered | AttemptRunning | Staged | Published
    | Succeeded | AttemptFailed | AttemptValidationFailed | Reclaimed

  /** What ties an adapter to its current attempt. */
  datatype Identity = Identity(publication: nat, scope: nat, number: nat)

  datatype Adapter = Adapter(
    status: AdapterStatus, identity: Identity,
    worker: Option<nat>, token: Option<nat>, lease: Option<nat>,
    startedAt: Option<nat>, finishedAt: Option<nat>, validatedAt: Option<nat>, error: Option<Code>,
    version: nat)

  datatype Attempt = Attempt(
    status: AttemptStatus, identity: Identity,
    worker: Option<nat>, claimedAt: Option<nat>, stagedAt: Option<nat>, publishedAt: Option<nat>,
    finishedAt: Option<nat>, cleanupConfirmedAt: Option<nat>, manifest: Option<nat>, error: Option<Code>,
    version: nat)

  datatype Code =
    | DepartmentUnavailable | SourceUnavailable | ClaimLost | AuthorityChanged | RequesterUnauthorized
    | ManifestInvalid | PublicationFailed | OtherCode(tag: nat)

  datatype Rows = Rows(adapter: Adapter, attempts: seq<Attempt>)

  /** The claim a worker holds in memory; `attempt` is the index of its attempt row. */
  datatype ClaimedAdapter = ClaimedAdapter(
    worker: nat, token: nat, identity: Identity, adapterVersion: nat,
    attempt: nat, attemptVersion: nat, attemptStatus: AttemptStatus)

  predicate ActiveAttempt(a: Attempt)
  {
    a.status == Registered || a.status == AttemptRunning || a.status == Staged || a.status == Published
  }

  function ExpectedVersion(status: AttemptStatus): nat
  {
    match status
    case Registered => 1
    case AttemptRunning => 2
    case Staged => 3
    case Published => 4
    case _ => 0
  }

  // ----- Terminalization of a failed claim -----

  /** The indices of the active attempts. */
  function ActiveIndices(attempts: seq<Attempt>): seq<nat>
  {
    if attempts == [] then []
    else
      var k := |attempts| - 1;
      ActiveIndices(attempts[..k]) + (if ActiveAttempt(attempts[k]) then [k] else [])
  }

  predicate AdapterLifecycle(a: Adapter)
  {
    && (a.status == Queued || a.status == Running)
    && a.finishedAt.None? && a.validatedAt.None? && a.error.None?
    && (if a.status == Queued then a.worker.None? && a.token.None? && a.lease.None? && a.startedAt.None?
        else a.worker.Some? && a.token.Some? && a.lease.Some? && a.startedAt.Some?)
  }

  /** The exact nullable fields of each active status, and the exact version. */
  predicate AttemptLifecycle(t: Attempt, adapter: Adapter)
  {
    && ActiveAttempt(t) && t.version == ExpectedVersion(t.status)
    && t.finishedAt.None? && t.error.None? && t.cleanupConfirmedAt.None?
    && (if t.status == Registered then t.worker.None? else t.worker.Some? && t.worker == adapter.worker)
    && (t.claimedAt.Some? <==> t.status != Registered)
    && (t.stagedAt.Some? <==> t.status == Staged || t.status == Published)
    && (t.publishedAt.Some? <==> t.status == Published)
    && (t.manifest.Some? <==> t.status == Staged || t.status == Published)
  }

  function FailedAdapter(a: Adapter, status: AdapterStatus, now: nat, code: Code): Adapter
  {
    a.(status := status, error := Some(code), worker := None, token := None, lease := None,
       finishedAt := Some(now), version := a.version + 1)
  }

  /** Registered and running attempts have no external surface; the others keep their ownership. */
  function FailedAttempt(t: Attempt, status: AttemptStatus, now: nat, code: Code): Attempt
  {
    var cleared := if t.status == Registered || t.status == AttemptRunning
                   then t.(worker := None, claimedAt := None, manifest := None) else t;
    cleared.(status := status, error := Some(code), finishedAt := Some(now), version := t.version + 1)
  }

  /** `_terminal_claim_failure`: no value is the `claim_lost` exception, which rolls everything back.
      `attempt` is the row the caller already holds, if it does. */
  function TerminalClaimFailure(rows: Rows, now: nat, code: Code, attempt: Option<nat>): Option<Rows>
  {
    var targets := ActiveIndices(rows.attempts);
    if !AdapterLifecycle(rows.adapter) || |targets| != 1 || targets[0] >= |rows.attempts| then None
    else if attempt.Some? && attempt.value != targets[0] then None
    else
      var target := rows.attempts[targets[0]];
      if target.identity != rows.adapter.identity || !AttemptLifecycle(target, rows.adapter) then None
      else
        Some(Rows(FailedAdapter(rows.adapter, Failed, now, code),
                  rows.attempts[targets[0] := FailedAttempt(target, AttemptFailed, now, code)]))
  }

  // ----- Claims -----

  predicate Claimable(a: Adapter, now: nat)
  {
    a.status == Queued || (a.status == Running && a.lease.Some? && a.lease.value <= now)
  }

  /** What the claim finds in rows that are not modelled. */
  datatype Findings = Findings(department: bool, source: bool, dependency: bool, upstream: bool)

  datatype ClaimOutcome =
    | NothingToClaim
    | Terminated(code: Code)
    | Claimed(claim: ClaimedAdapter)
    | ClaimRaised

  function MatchingAttempts(attempts: seq<Attempt>, id: Identity): seq<nat>
  {
    if attempts == [] then []
    else
      var k := |attempts| - 1;
      MatchingAttempts(attempts[..k], id) + (if attempts[k].identity == id then [k] else [])
  }

  /** The one attempt of the expired worker that a reclaim may supersede. */
  function Superseded(rows: Rows): Option<nat>
  {
    var matches := MatchingAttempts(rows.attempts, rows.adapter.identity);
    if |matches| != 1 || matches[0] >= |rows.attempts| then None
    else
      var t := rows.attempts[matches[0]];
      if || t.worker != rows.adapter.worker
         || (t.status != AttemptRunning && t.status != Staged && t.status != Published)
         || t.version != ExpectedVersion(t.status)
         || t.finishedAt.Some? || t.error.Some?
         || ((t.status == Staged || t.status == Published) && t.manifest.None?)
      then None
      else Some(matches[0])
  }

  function NewAttempt(id: Identity): Attempt
  {
    Attempt(Registered, id, None, None, None, None, None, None, None, None, 1)
  }

  function ReclaimedAttempt(t: Attempt, now: nat): Attempt
  {
    t.(status := Reclaimed, error := Some(ClaimLost), finishedAt := Some(now), version := t.version + 1)
  }

  function ClaimedRow(a: Adapter, worker: nat, token: nat, seconds: nat, now: nat): Adapter
  {
    a.(status := Running, worker := Some(worker), token := Some(token), lease := Some(now + seconds),
       startedAt := Some(now), finishedAt := None, validatedAt := None, error := None, version := a.version + 1)
  }

  function RunningAttempt(t: Attempt, worker: nat, now: nat): Attempt
  {
    t.(status := AttemptRunning, worker := Some(worker), claimedAt := Some(now), version := t.version + 1)
  }

  /** A reclaim: the expired attempt ends, and the adapter gets a new identity and a new attempt. */
  function Supersede(rows: Rows, expired: nat, serial: nat, now: nat): Rows
    requires expired < |rows.attempts|
  {
    var id := Identity(serial, serial + 1, rows.adapter.identity.number + 1);
    Rows(rows.adapter.(identity := id),
         rows.attempts[expired := ReclaimedAttempt(rows.attempts[expired], now)] + [NewAttempt(id)])
  }

  /** The rows in the middle of the claim: adapter claimed, its one registered attempt running. */
  function Taken(rows: Rows, i: nat, worker: nat, token: nat, seconds: nat, now: nat): Rows
    requires i < |rows.attempts|
  {
    Rows(ClaimedRow(rows.adapter, worker, token, seconds, now),
         rows.attempts[i := RunningAttempt(rows.attempts[i], worker, now)])
  }

  function Terminated0(rows: Rows, failed: Option<Rows>, code: Code): (Rows, ClaimOutcome)
  {
    if failed.None? then (rows, ClaimRaised) else (failed.value, Terminated(code))
  }

  function RegisteredFor(rows: Rows): Option<nat>
  {
    var matches := MatchingAttempts(rows.attempts, rows.adapter.identity);
    if |matches| != 1 || matches[0] >= |rows.attempts| || rows.attempts[matches[0]].status != Registered then None
    else Some(matches[0])
  }

  /** `claim_next_adapter` for this adapter.  `serial` is where fresh identifiers begin. */
  function ClaimNext(rows: Rows, worker: nat, seconds: nat, now: nat, serial: nat, found: Findings): (Rows,
                                                                                                      ClaimOutcome)
  {
    var a := rows.adapter;
    if !Claimable(a, now) then (rows, NothingToClaim)
    else if !found.department then
      Terminated0(rows, TerminalClaimFailure(rows, now, DepartmentUnavailable, None), DepartmentUnavailable)
    else if !found.source then
      Terminated0(rows, TerminalClaimFailure(rows, now, SourceUnavailable, None), SourceUnavailable)
    else
      var expired := Superseded(rows);
      if a.status == Running && expired.None? then
        Terminated0(rows, TerminalClaimFailure(rows, now, ClaimLost, None), ClaimLost)
      else
        var prepared := if a.status == Running then Supersede(rows, expired.value, serial, now) else rows;
        var registered := RegisteredFor(prepared);
        var claimed := prepared.(adapter := ClaimedRow(prepared.adapter, worker, serial + 2, seconds, now));
        if registered.None? then
          Terminated0(rows, TerminalClaimFailure(claimed, now, ClaimLost, None), ClaimLost)
        else
          var taken := Taken(prepared, registered.value, worker, serial + 2, seconds, now);
          if !found.dependency || !found.upstream then
            Terminated0(rows, TerminalClaimFailure(taken, now, ClaimLost, registered), ClaimLost)
          else
            (taken, Claimed(ClaimedAdapter(worker, serial + 2, taken.adapter.identity, taken.adapter.version,
                                           registered.value, taken.attempts[registered.value].version, AttemptRunning)))
  }

  // ----- Owned transactions -----

  /** `_live_claim`, with `authority` for the rows that are not modelled. */
  function LiveClaim(rows: Rows, c: ClaimedAdapter, now: nat, authority: bool): Option<Code>
  {
    var a := rows.adapter;
    if || a.status != Running || a.worker != Some(c.worker) || a.token != Some(c.token)
       || a.identity != c.identity || a.version != c.adapterVersion
       || a.lease.None? || a.lease.value <= now
    then Some(ClaimLost)
    else if
      || !authority || c.attempt >= |rows.attempts|
      || rows.attempts[c.attempt].identity != c.identity
      || rows.attempts[c.attempt].status != c.attemptStatus
      || rows.attempts[c.attempt].version != c.attemptVersion
    then Some(AuthorityChanged)
    else None
  }

  /** One owned transition of both rows; the claim in memory follows them. */
  function Owned(rows: Rows, c: ClaimedAdapter, adapter: Adapter, attempt: Attempt): (Rows, ClaimedAdapter)
    requires c.attempt < |rows.attempts|
  {
    (Rows(adapter.(version := rows.adapter.version + 1),
          rows.attempts[c.attempt := attempt]),
     c.(adapterVersion := rows.adapter.version + 1, attemptVersion := attempt.version, attemptStatus := attempt.status))
  }

  function Renew(rows: Rows, c: ClaimedAdapter, seconds: nat, now: nat, authority: bool): (Rows, ClaimedAdapter,
                                                                                           Option<Code>)
  {
    var lost := LiveClaim(rows, c, now, authority);
    if lost.Some? then (rows, c, lost)
    else
      (rows.(adapter := rows.adapter.(lease := Some(now + seconds), version := rows.adapter.version + 1)),
       c.(adapterVersion := rows.adapter.version + 1), None)
  }

  function MarkStaged(rows: Rows, c: ClaimedAdapter, manifest: nat, now: nat, authority: bool)
    : (Rows, ClaimedAdapter, Option<Code>)
  {
    var lost := LiveClaim(rows, c, now, authority);
    if lost.Some? then (rows, c, lost)
    else
      var t := rows.attempts[c.attempt];
      var (next, claim) := Owned(rows, c, rows.adapter,
                                 t.(status := Staged, manifest := Some(manifest), stagedAt := Some(now),
                                    version := t.version + 1));
      (next, claim, None)
  }

  function MarkPublished(rows: Rows, c: ClaimedAdapter, now: nat, authority: bool): (Rows, ClaimedAdapter, Option<Code>)
  {
    var lost := LiveClaim(rows, c, now, authority);
    if lost.Some? then (rows, c, lost)
    else
      var t := rows.attempts[c.attempt];
      var (next, claim) := Owned(rows, c, rows.adapter,
                                 t.(status := Published, publishedAt := Some(now), version := t.version + 1));
      (next, claim, None)
  }

  function FinishSuccess(rows: Rows, c: ClaimedAdapter, manifest: nat, now: nat, authority: bool): (Rows, Option<Code>)
  {
    var lost := LiveClaim(rows, c, now, authority);
    if lost.Some? then (rows, lost)
    else
      var a, t := rows.adapter, rows.attempts[c.attempt];
      if t.status != Published || t.manifest != Some(manifest) then (rows, Some(AuthorityChanged))
      else
        (Rows(a.(status := Validated, worker := None, token := None, lease := None, validatedAt := Some(now),
                 finishedAt := Some(now), version := a.version + 1),
              rows.attempts[c.attempt := t.(status := Succeeded, finishedAt := Some(now), version := t.version + 1)]),
         None)
  }

  /** `_record_failure`: a lost or expired claim mutates nothing. */
  function RecordFailure(rows: Rows, c: ClaimedAdapter, code: Code, validation: bool, now: nat, authority: bool): Rows
  {
    if LiveClaim(rows, c, now, authority).Some? || !ActiveAttempt(rows.attempts[c.attempt]) then rows
    else
      Rows(FailedAdapter(rows.adapter, if validation then ValidationFailed else Failed, now, code),
           rows.attempts[c.attempt := FailedAttempt(rows.attempts[c.attempt],
                                                    if validation then AttemptValidationFailed
                                                       else AttemptFailed, now, code)])
  }

  // ----- Storage and processes -----

  datatype FileName = Marker | Manifest | Config | Model

  const FINAL_FILES := {Manifest, Config, Model}

  /** A stage or final directory: its inode and the names in it. */
  datatype Directory = Directory(inode: nat, names: set<FileName>)

  /** `RegistryStage`: what a process remembers of the stage that it created. */
  datatype Stage = Stage(inode: nat, renamed: bool)

  datatype Place = Preparing | Filling | Marking | Unmarking | Renaming | Verifying | Publishing | Finishing | Ended

  /** One run of `process_adapter_registry`, at its next operation. */
  datatype Process = Process(claim: ClaimedAdapter, stage: Option<Stage>, manifest: nat, at: Place)

  /** `stages` is keyed by publication; `serial` is the next fresh identifier. */
  datatype World = World(
    rows: Rows, stages: map<nat, Directory>, final: Option<Directory>, processes: seq<Process>, serial: nat, clock: nat)

  function Proceed(w: World, k: nat, p: Process): World
    requires k < |w.processes|
  {
    w.(processes := w.processes[k := p])
  }

  /** `prepare_registry_stage`: an attempt's stage is created exclusively, with its marker. */
  function Prepare(w: World, k: nat): World
    requires k < |w.processes|
  {
    var p := w.processes[k];
    var publication := p.claim.identity.publication;
    if publication in w.stages then Proceed(w, k, p.(at := Ended))
    else
      Proceed(w, k, p.(stage := Some(Stage(w.serial, false)), at := Filling)).(
      stages := w.stages[publication := Directory(w.serial, {Marker})], serial := w.serial + 1)
  }

  /** The process's own stage, if it is still where the process left it. */
  predicate StageInPlace(w: World, p: Process)
  {
    && p.stage.Some? && !p.stage.value.renamed
    && p.claim.identity.publication in w.stages
    && w.stages[p.claim.identity.publication].inode == p.stage.value.inode
  }

  /** `recheck` once the stage is renamed: the final directory is the one this process created. */
  predicate FinalIsOwn(w: World, p: Process)
  {
    && p.stage.Some? && p.stage.value.renamed
    && w.final.Some? && w.final.value.inode == p.stage.value.inode
  }

  function WithStage(w: World, p: Process, names: set<FileName>): World
    requires p.stage.Some?
  {
    w.(stages := w.stages[p.claim.identity.publication := Directory(p.stage.value.inode, names)])
  }

  /** The child writes the three files of the final, and a manifest for them. */
  function Fill(w: World, k: nat, manifest: nat): World
    requires k < |w.processes|
  {
    var p := w.processes[k];
    if !StageInPlace(w, p) then Proceed(w, k, p.(at := Ended))
    else
      var filled := WithStage(w, p, FINAL_FILES + {Marker});
      Proceed(filled, k, p.(manifest := manifest, at := Marking))
  }

  /** `publish_registry` up to the unlink of the marker. */
  function Unmark(w: World, k: nat): World
    requires k < |w.processes|
  {
    var p := w.processes[k];
    if !StageInPlace(w, p) || w.stages[p.claim.identity.publication].names != FINAL_FILES + {Marker} then
      Proceed(w, k, p.(at := Ended))
    else
      Proceed(WithStage(w, p, FINAL_FILES), k, p.(at := Renaming))
  }

  /** `publish_registry`: the rename replaces nothing. */
  function Rename(w: World, k: nat): World
    requires k < |w.processes|
  {
    var p := w.processes[k];
    var publication := p.claim.identity.publication;
    if !StageInPlace(w, p) || w.stages[publication].names != FINAL_FILES || w.final.Some? then
      Proceed(w, k, p.(at := Ended))
    else
      Proceed(w, k, p.(stage := Some(p.stage.value.(renamed := true)), at := Verifying)).(
      stages := w.stages - {publication}, final := Some(w.stages[publication]))
  }

  /** `verify_registry_final`. */
  function Verify(w: World, k: nat): World
    requires k < |w.processes|
  {
    var p := w.processes[k];
    Proceed(w, k, p.(at := if FinalIsOwn(w, p) && w.final.value.names == FINAL_FILES then Publishing else Ended))
  }

  datatype Action =
    | Claim(worker: nat, seconds: nat, found: Findings)
    | Heartbeat(process: nat, seconds: nat, authority: bool)
    | Advance(process: nat, manifest: nat, authority: bool)
    | GiveUp(process: nat, code: Code, validation: bool, authority: bool)
    | Tick

  /** The next operation of a process, in the order of `process_adapter_registry`. */
  function AdvanceProcess(w: World, k: nat, manifest: nat, authority: bool): World
    requires k < |w.processes|
  {
    var p := w.processes[k];
    match p.at
    case Preparing => Prepare(w, k)
    case Filling => Fill(w, k, manifest)
    case Marking =>
      var (rows, claim, code) := MarkStaged(w.rows, p.claim, p.manifest, w.clock, authority);
      Proceed(w, k, p.(claim := claim, at := if code.Some? then Ended else Unmarking)).(rows := rows)
    case Unmarking => Unmark(w, k)
    case Renaming => Rename(w, k)
    case Verifying => Verify(w, k)
    case Publishing =>
      var (rows, claim, code) := MarkPublished(w.rows, p.claim, w.clock, authority);
      Proceed(w, k, p.(claim := claim, at := if code.Some? then Ended else Finishing)).(rows := rows)
    case Finishing =>
      if !FinalIsOwn(w, p) then Proceed(w, k, p.(at := Ended))
      else
        var (rows, code) := FinishSuccess(w.rows, p.claim, p.manifest, w.clock, authority);
        Proceed(w, k, p.(at := Ended)).(rows := rows)
    case Ended => w
  }

  function Act(w: World, a: Action): World
  {
    match a
    case Claim(worker, seconds, found) =>
      var (rows, outcome) := ClaimNext(w.rows, worker, seconds, w.clock, w.serial, found);
      var next := w.(rows := rows, serial := w.serial + 3);
      if outcome.Claimed? then next.(processes := w.processes + [Process(outcome.claim, None, 0, Preparing)]) else next
    case Heartbeat(k, seconds, authority) =>
      if k >= |w.processes| || w.processes[k].at == Ended then w
      else
        var p := w.processes[k];
        var (rows, claim, code) := Renew(w.rows, p.claim, seconds, w.clock, authority);
        Proceed(w, k, p.(claim := claim)).(rows := rows)
    case Advance(k, manifest, authority) =>
      if k >= |w.processes| then w else AdvanceProcess(w, k, manifest, authority)
    case GiveUp(k, code, validation, authority) =>
      if k >= |w.processes| then w
      else
        var p := w.processes[k];
        Proceed(w, k, p.(at := Ended)).(rows := RecordFailure(w.rows, p.claim, code, validation, w.clock, authority))
    case Tick => w.(clock := w.clock + 1)
  }

  /** A queued adapter with its one registered attempt, as enqueueing leaves them. */
  predicate Enqueued(w: World)
  {
    && w.rows.adapter == Adapter(Queued, w.rows.adapter.identity, None, None, None, None, None, None, None,
                                 w.rows.adapter.version)
    && w.rows.attempts == [NewAttempt(w.rows.adapter.identity)]
    && w.rows.adapter.identity.publication < w.serial
    && w.stages == map[] && w.final.None? && w.processes == []
  }

  function Run(w: World, actions: seq<Action>): World
  {
    if actions == [] then w else Act(Run(w, actions[..|actions| - 1]), actions[|actions| - 1])
  }
}
