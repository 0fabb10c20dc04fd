/** The registry queue and its artifact store as they run: rows, claims and directories rewritten in
    place.  Each method of `Queue` is one transaction and is proved equal to its specification. */
module RegistryQueue {
  import opened Common
  import opened Registry

  /** The rows of one adapter. */
  class Queue {
    var adapter: Adapter
    var attempts: seq<Attempt>

    constructor (rows: Rows)
      ensures Now() == rows
    {
      adapter, attempts := rows.adapter, rows.attempts;
    }

    function Now(): Rows
      reads this
    {
      Rows(adapter, attempts)
    }

    /** A transaction that raises leaves the rows as they were. */
    method RollBack(rows: Rows)
      modifies this
      ensures Now() == rows
    {
      adapter, attempts := rows.adapter, rows.attempts;
    }

    method FindActive() returns (found: seq<nat>)
      ensures found == ActiveIndices(attempts)
    {
      found := [];
      for i := 0 to |attempts|
        invariant found == ActiveIndices(attempts[..i])
      {
        assert attempts[..i + 1][..i] == attempts[..i];
        if ActiveAttempt(attempts[i]) { found := found + [i]; }
      }
      assert attempts[..|attempts|] == attempts;
    }

    method FindMatching(id: Identity) returns (found: seq<nat>)
      ensures found == MatchingAttempts(attempts, id)
    {
      found := [];
      for i := 0 to |attempts|
        invariant found == MatchingAttempts(attempts[..i], id)
      {
        assert attempts[..i + 1][..i] == attempts[..i];
        if attempts[i].identity == id { found := found + [i]; }
      }
      assert attempts[..|attempts|] == attempts;
    }

    /** `_terminal_claim_failure`: every check comes before the first assignment. */
    method TerminalClaimFailure(now: nat, code: Code, attempt: Option<nat>) returns (ok: bool)
      modifies this
      ensures var failed := Registry.TerminalClaimFailure(old(Now()), now, code, attempt);
              ok == failed.Some? && Now() == if ok then failed.value else old(Now())
    {
      if !AdapterLifecycle(adapter) { return false; }
      var targets := FindActive();
      if |targets| != 1 || targets[0] >= |attempts| { return false; }
      if attempt.Some? && attempt.value != targets[0] { return false; }
      var target := attempts[targets[0]];
      if target.identity != adapter.identity || !AttemptLifecycle(target, adapter) { return false; }
      if target.status == Registered || target.status == AttemptRunning {
        target := target.(worker := None, claimedAt := None, manifest := None);
      }
      target := target.(status := AttemptFailed, error := Some(code), finishedAt := Some(now),
                        version := target.version + 1);
      attempts := attempts[targets[0] := target];
      adapter := adapter.(status := Failed, error := Some(code), worker := None, token := None, lease := None);
      adapter := adapter.(finishedAt := Some(now), version := adapter.version + 1);
      return true;
    }

    /** End the claim with a failure, or roll the whole claim back if that raises. */
    method Terminate(start: Rows, now: nat, code: Code, attempt: Option<nat>) returns (outcome: ClaimOutcome)
      modifies this
      ensures (Now(), outcome)
              == Terminated0(start, Registry.TerminalClaimFailure(old(Now()), now, code, attempt), code)
    {
      var ok := TerminalClaimFailure(now, code, attempt);
      if !ok {
        RollBack(start);
        return ClaimRaised;
      }
      return Terminated(code);
    }

    method FindSuperseded() returns (expired: Option<nat>)
      ensures expired == Superseded(Now()) && (expired.Some? ==> expired.value < |attempts|)
    {
      var matches := FindMatching(adapter.identity);
      if |matches| != 1 || matches[0] >= |attempts| { return None; }
      var t := attempts[matches[0]];
      if t.worker != adapter.worker || t.finishedAt.Some? || t.error.Some? { return None; }
      if t.status != AttemptRunning && t.status != Staged && t.status != Published { return None; }
      if t.version != ExpectedVersion(t.status) || (t.status != AttemptRunning && t.manifest.None?) { return None; }
      return Some(matches[0]);
    }

    /** `claim_next_adapter`: reclaim if the lease has run out, then take the one registered attempt. */
    method ClaimNext(worker: nat, seconds: nat, now: nat, serial: nat, found: Findings) returns (outcome: ClaimOutcome)
      modifies this
      ensures (Now(), outcome) == Registry.ClaimNext(old(Now()), worker, seconds, now, serial, found)
    {
      hide Registry.TerminalClaimFailure, Superseded, MatchingAttempts, RunningAttempt, ReclaimedAttempt, NewAttempt;
      if !Claimable(adapter, now) { return NothingToClaim; }
      var start := Now();
      if !found.department { outcome := Terminate(start, now, DepartmentUnavailable, None); return; }
      if !found.source { outcome := Terminate(start, now, SourceUnavailable, None); return; }
      if adapter.status == Running {
        var expired := FindSuperseded();
        if expired.None? { outcome := Terminate(start, now, ClaimLost, None); return; }
        var id := Identity(serial, serial + 1, adapter.identity.number + 1);
        attempts := attempts[expired.value := ReclaimedAttempt(attempts[expired.value], now)];
        adapter := adapter.(identity := id);
        attempts := attempts + [NewAttempt(id)];
      }
      ghost var prepared := Now();
      adapter := ClaimedRow(adapter, worker, serial + 2, seconds, now);
      var matches := FindMatching(adapter.identity);
      if |matches| != 1 || matches[0] >= |attempts| || attempts[matches[0]].status != Registered {
        assert RegisteredFor(prepared).None?;
        outcome := Terminate(start, now, ClaimLost, None);
        return;
      }
      var i := matches[0];
      assert RegisteredFor(prepared) == Some(i);
      attempts := attempts[i := RunningAttempt(attempts[i], worker, now)];
      assert Now() == Taken(prepared, i, worker, serial + 2, seconds, now);
      if !found.dependency || !found.upstream {
        outcome := Terminate(start, now, ClaimLost, Some(i));
        return;
      }
      return Claimed(ClaimedAdapter(worker, serial + 2, adapter.identity, adapter.version, i, attempts[i].version,
                                    AttemptRunning));
    }

    method Renew(c: ClaimedAdapter, seconds: nat, now: nat, authority: bool)
      returns (claim: ClaimedAdapter, code: Option<Code>)
      modifies this
      ensures (Now(), claim, code) == Registry.Renew(old(Now()), c, seconds, now, authority)
    {
      claim, code := c, LiveClaim(Now(), c, now, authority);
      if code.None? {
        adapter := adapter.(lease := Some(now + seconds), version := adapter.version + 1);
        claim := claim.(adapterVersion := adapter.version);
      }
    }

    method MarkStaged(c: ClaimedAdapter, manifest: nat, now: nat, authority: bool)
      returns (claim: ClaimedAdapter, code: Option<Code>)
      modifies this
      ensures (Now(), claim, code) == Registry.MarkStaged(old(Now()), c, manifest, now, authority)
    {
      claim, code := c, LiveClaim(Now(), c, now, authority);
      if code.None? {
        var t := attempts[c.attempt].(status := Staged, manifest := Some(manifest), stagedAt := Some(now));
        attempts := attempts[c.attempt := t.(version := t.version + 1)];
        adapter := adapter.(version := adapter.version + 1);
        claim := claim.(adapterVersion := adapter.version, attemptVersion := t.version + 1, attemptStatus := Staged);
      }
    }

    method MarkPublished(c: ClaimedAdapter, now: nat, authority: bool)
      returns (claim: ClaimedAdapter, code: Option<Code>)
      modifies this
      ensures (Now(), claim, code) == Registry.MarkPublished(old(Now()), c, now, authority)
    {
      claim, code := c, LiveClaim(Now(), c, now, authority);
      if code.None? {
        var t := attempts[c.attempt].(status := Published, publishedAt := Some(now));
        attempts := attempts[c.attempt := t.(version := t.version + 1)];
        adapter := adapter.(version := adapter.version + 1);
        claim := claim.(adapterVersion := adapter.version, attemptVersion := t.version + 1, attemptStatus := Published);
      }
    }

    method FinishSuccess(c: ClaimedAdapter, manifest: nat, now: nat, authority: bool) returns (code: Option<Code>)
      modifies this
      ensures (Now(), code) == Registry.FinishSuccess(old(Now()), c, manifest, now, authority)
    {
      code := LiveClaim(Now(), c, now, authority);
      if code.Some? { return; }
      var t := attempts[c.attempt];
      if t.status != Published || t.manifest != Some(manifest) { return Some(AuthorityChanged); }
      adapter := adapter.(status := Validated, worker := None, token := None, lease := None);
      adapter := adapter.(validatedAt := Some(now), finishedAt := Some(now), version := adapter.version + 1);
      attempts := attempts[c.attempt := t.(status := Succeeded, finishedAt := Some(now), version := t.version + 1)];
    }

    method RecordFailure(c: ClaimedAdapter, code: Code, validation: bool, now: nat, authority: bool)
      modifies this
      ensures Now() == Registry.RecordFailure(old(Now()), c, code, validation, now, authority)
    {
      var lost := LiveClaim(Now(), c, now, authority);
      if lost.Some? { return; }
      var t := attempts[c.attempt];
      if !ActiveAttempt(t) { return; }
      adapter := FailedAdapter(adapter, if validation then ValidationFailed else Failed, now, code);
      if t.status == Registered || t.status == AttemptRunning {
        t := t.(worker := None, claimedAt := None, manifest := None);
      }
      t := t.(status := if validation then AttemptValidationFailed else AttemptFailed, error := Some(code));
      attempts := attempts[c.attempt := t.(finishedAt := Some(now), version := t.version + 1)];
    }
  }

  // ----- Storage -----

  /** `RegistryStage`: one process's handle on the stage that it created. */
  class RegistryStage {
    const publication: nat
    const inode: nat
    var renamed: bool

    constructor (publication: nat, inode: nat)
      ensures this.publication == publication && this.inode == inode && !renamed
    {
      this.publication, this.inode, renamed := publication, inode, false;
    }
  }

  /** `AdapterRegistryArtifactStore`, for one adapter. */
  class Store {
    var stages: map<nat, Directory>
    var final: Option<Directory>
    var nextInode: nat

    constructor ()
      ensures stages == map[] && final.None?
    {
      stages, final, nextInode := map[], None, 0;
    }

    /** Every directory has an inode of its own. */
    ghost predicate Valid()
      reads this
    {
      && (forall p | p in stages :: stages[p].inode < nextInode)
      && (forall p, q | p in stages && q in stages && p != q :: stages[p].inode != stages[q].inode)
      && (final.Some? ==>
            final.value.inode < nextInode && forall p | p in stages :: stages[p].inode != final.value.inode)
    }

    method PrepareRegistryStage(publication: nat) returns (stage: RegistryStage?)
      requires Valid()
      modifies this
      ensures Valid() && final == old(final)
      ensures stage == null <==> publication in old(stages)
      ensures stage == null ==> stages == old(stages)
      ensures stage != null ==>
                && fresh(stage) && stage.publication == publication && !stage.renamed
                && stages == old(stages)[publication := Directory(stage.inode, {Marker})]
                && (forall p | p in old(stages) :: old(stages)[p].inode != stage.inode)
                && (final.Some? ==> final.value.inode != stage.inode)
    {
      if publication in stages { return null; }
      stage := new RegistryStage(publication, nextInode);
      stages := stages[publication := Directory(nextInode, {Marker})];
      nextInode := nextInode + 1;
    }

    /** The directory behind the handle is where the handle says, before and after the rename. */
    method Recheck(stage: RegistryStage) returns (ok: bool)
      ensures ok <==> if stage.renamed then final.Some? && final.value.inode == stage.inode
                      else stage.publication in stages && stages[stage.publication].inode == stage.inode
    {
      if stage.renamed { return final.Some? && final.value.inode == stage.inode; }
      return stage.publication in stages && stages[stage.publication].inode == stage.inode;
    }

    /** Marker unlink and rename.  It succeeds exactly when the stage is in place and complete and there
        is no final yet; an existing final is never replaced, and no other stage is touched. */
    method PublishRegistry(stage: RegistryStage) returns (ok: bool)
      requires Valid()
      modifies this, stage
      ensures Valid()
      ensures ok <==>
                && !old(stage.renamed) && stage.publication in old(stages)
                && old(stages)[stage.publication] == Directory(stage.inode, FINAL_FILES + {Marker})
                && old(final).None?
      ensures ok ==> final == Some(Directory(stage.inode, FINAL_FILES)) && stage.renamed
                     && stages == old(stages) - {stage.publication}
      ensures !ok ==> final == old(final) && stage.renamed == old(stage.renamed) && stages.Keys == old(stages).Keys
      ensures forall p | p in old(stages) && p != stage.publication :: p in stages && stages[p] == old(stages)[p]
      ensures old(final).Some? ==> final == old(final)
    {
      var inPlace := Recheck(stage);
      if !inPlace || stage.renamed || stages[stage.publication].names != FINAL_FILES + {Marker} { return false; }
      stages := stages[stage.publication := Directory(stage.inode, stages[stage.publication].names - {Marker})];
      if stages[stage.publication].names != FINAL_FILES || final.Some? { return false; }
      final := Some(stages[stage.publication]);
      stages := stages - {stage.publication};
      stage.renamed := true;
      return true;
    }

    method VerifyRegistryFinal(stage: RegistryStage) returns (ok: bool)
      ensures ok <==> stage.renamed && final == Some(Directory(stage.inode, FINAL_FILES))
    {
      if !stage.renamed { return false; }
      ok := Recheck(stage);
      return ok && final.value.names == FINAL_FILES;
    }
  }
}
