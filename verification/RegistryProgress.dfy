/** An undisturbed worker publishes (adapter_registry_queue.py, adapter_registry_artifacts.py): from its claim on, eight
    operations lead to a validated adapter and its final directory. */
module RegistryProgress {
  import opened Common
  import opened Registry
  import opened RegistrySafety
  import opened RegistryLeases

  // ----- Stages belong to workers that have begun -----

  predicate StagesOwned(w: World)
  {
    forall publication | publication in w.stages ::
      exists k | 0 <= k < |w.processes| ::
        w.processes[k].claim.identity.publication == publication && w.processes[k].at != Preparing
  }

  lemma AdvancingStays(w: World, k: nat, manifest: nat, authority: bool)
    requires k < |w.processes|
    ensures var next := AdvanceProcess(w, k, manifest, authority);
            && |next.processes| == |w.processes|
            && next.processes[k].claim.identity == w.processes[k].claim.identity
            && (w.processes[k].at != Preparing ==> next.processes[k].at != Preparing)
            && forall j | 0 <= j < |w.processes| && j != k :: next.processes[j] == w.processes[j]
  {
    hide LiveClaim, StageInPlace, FinalIsOwn;
  }

  lemma ProcessesStay(w: World, a: Action, k: nat)
    requires k < |w.processes|
    ensures var next := Act(w, a);
            k < |next.processes| && next.processes[k].claim.identity == w.processes[k].claim.identity
            && (w.processes[k].at != Preparing ==> next.processes[k].at != Preparing)
  {
    hide LiveClaim, ClaimNext, AdvanceProcess, RecordFailure;
    if a.Advance? && a.process < |w.processes| { AdvancingStays(w, a.process, a.manifest, a.authority); }
  }

  lemma StagesAppear(w: World, a: Action, publication: nat)
    requires publication in Act(w, a).stages && publication !in w.stages
    ensures a.Advance? && a.process < |w.processes| && w.processes[a.process].claim.identity.publication == publication
    ensures a.process < |Act(w, a).processes| && Act(w, a).processes[a.process].at != Preparing
    ensures Act(w, a).processes[a.process].claim.identity.publication == publication
  {
    hide LiveClaim, ClaimNext, RecordFailure, MarkStaged, MarkPublished, FinishSuccess, Renew;
  }

  lemma {:induction false} RunKeepsStagesOwned(w: World, actions: seq<Action>)
    requires Enqueued(w)
    ensures StagesOwned(Run(w, actions))
  {
    hide Act;
    if actions != [] {
      var before, a := Run(w, actions[..|actions| - 1]), actions[|actions| - 1];
      RunKeepsStagesOwned(w, actions[..|actions| - 1]);
      forall publication | publication in Act(before, a).stages
        ensures exists k | 0 <= k < |Act(before, a).processes| ::
                  Act(before, a).processes[k].claim.identity.publication == publication
                  && Act(before, a).processes[k].at != Preparing
      {
        if publication in before.stages {
          var k :| 0 <= k < |before.processes| && before.processes[k].claim.identity.publication == publication
                   && before.processes[k].at != Preparing;
          ProcessesStay(before, a, k);
        } else {
          StagesAppear(before, a, publication);
        }
      }
    }
  }

  // ----- One operation after the other -----

  function Next(at: Place): Place
  {
    match at
    case Preparing => Filling
    case Filling => Marking
    case Marking => Unmarking
    case Unmarking => Renaming
    case Renaming => Verifying
    case Verifying => Publishing
    case Publishing => Finishing
    case Finishing => Ended
    case Ended => Ended
  }

  /** The live worker `k` has come this far, with manifest `m`. */
  predicate Reached(w: World, k: nat, at: Place, m: nat)
  {
    && k < |w.processes| && w.processes[k].at == at && at != Ended
    && LiveClaim(w.rows, w.processes[k].claim, w.clock, true).None?
    && var p, t := w.processes[k], w.rows.attempts[w.processes[k].claim.attempt];
       && t.status == (if at in {Preparing, Filling, Marking} then AttemptRunning
                       else if at == Finishing then Registry.Published else Staged)
       && (at !in {Preparing, Filling} ==> p.manifest == m)
       && (at !in {Preparing, Filling, Marking} ==> t.manifest == Some(m))
       && if at == Preparing then w.final.None? && p.claim.identity.publication !in w.stages
          else if at in {Filling, Marking, Unmarking, Renaming} then
            && w.final.None? && StageInPlace(w, p)
            && var names := w.stages[p.claim.identity.publication].names;
               (at in {Marking, Unmarking} ==> names == FINAL_FILES + {Marker})
                 && (at == Renaming ==> names == FINAL_FILES)
          else FinalIsOwn(w, p) && w.final.value.names == FINAL_FILES && p.claim.identity.publication !in w.stages
  }

  lemma StorageStepGoes(w: World, k: nat, at: Place, m: nat)
    requires Reached(w, k, at, m) && at in {Preparing, Filling, Unmarking, Renaming, Verifying}
    ensures var next := AdvanceProcess(w, k, m, true);
            Reached(next, k, Next(at), m) && next.clock == w.clock
  {
    hide LiveClaim;
  }

  lemma RowStepGoes(w: World, k: nat, at: Place, m: nat)
    requires Reached(w, k, at, m) && at in {Marking, Publishing}
    ensures var next := AdvanceProcess(w, k, m, true);
            Reached(next, k, Next(at), m) && next.clock == w.clock
  {
  }

  lemma FinishGoes(w: World, k: nat, m: nat)
    requires Reached(w, k, Finishing, m)
    ensures Finale(AdvanceProcess(w, k, m, true), k, m, w.rows, w.clock)
            && AdvanceProcess(w, k, m, true).final == w.final
            && AdvanceProcess(w, k, m, true).stages == w.stages
            && AdvanceProcess(w, k, m, true).processes[k].claim.identity == w.processes[k].claim.identity
  {
  }

  /** Adapter and attempt have succeeded together, now. */
  predicate Finale(w: World, k: nat, m: nat, before: Rows, now: nat)
  {
    && k < |w.processes| && w.processes[k].claim.attempt < |before.attempts|
    && var i, a := w.processes[k].claim.attempt, before.adapter;
       && w.rows.adapter == Adapter(Validated, a.identity, None, None, None, a.startedAt, Some(now), Some(now), a.error,
                                    a.version + 1)
       && w.rows.attempts == before.attempts[i := before.attempts[i].(status := Succeeded, finishedAt := Some(now),
                                                                      version := before.attempts[i].version + 1)]
       && before.attempts[i].manifest == Some(m)
  }

  /** The world after `n` operations of worker `k`. */
  function Advanced(w: World, k: nat, m: nat, n: nat): World
    decreases n
  {
    if n == 0 then w else Advanced(Act(w, Advance(k, m, true)), k, m, n - 1)
  }

  function Distance(at: Place): nat
  {
    match at
    case Preparing => 8
    case Filling => 7
    case Marking => 6
    case Unmarking => 5
    case Renaming => 4
    case Verifying => 3
    case Publishing => 2
    case Finishing => 1
    case Ended => 0
  }

  lemma {:induction false} ReachedFinishes(w: World, k: nat, at: Place, m: nat)
    requires Reached(w, k, at, m)
    ensures var end := Advanced(w, k, m, Distance(at));
            && end.rows.adapter.status == Validated && end.rows.adapter.validatedAt == Some(w.clock)
            && k < |end.processes| && end.processes[k].claim.attempt < |end.rows.attempts|
            && end.rows.attempts[end.processes[k].claim.attempt].status == Succeeded
            && end.rows.attempts[end.processes[k].claim.attempt].manifest == Some(m)
            && end.final.Some? && end.final.value.names == FINAL_FILES
            && end.processes[k].claim.identity.publication !in end.stages
    decreases Distance(at)
  {
    hide Reached, AdvanceProcess, Advanced;
    assert k < |w.processes| && at != Ended by { StandsThere(w, k, at, m); }
    var next := AdvanceProcess(w, k, m, true);
    assert Act(w, Advance(k, m, true)) == next;
    OneMore(w, k, m, Distance(at));
    if at == Finishing {
      FinishGoes(w, k, m);
      FinalThere(w, k, m);
      NoMore(next, k, m);
    } else {
      if at == Marking || at == Publishing { RowStepGoes(w, k, at, m); } else { StorageStepGoes(w, k, at, m); }
      ReachedFinishes(next, k, Next(at), m);
    }
  }

  lemma StandsThere(w: World, k: nat, at: Place, m: nat)
    requires Reached(w, k, at, m)
    ensures k < |w.processes| && at != Ended
  {
  }

  lemma FinalThere(w: World, k: nat, m: nat)
    requires Reached(w, k, Finishing, m)
    ensures w.final.Some? && w.final.value.names == FINAL_FILES
    ensures w.processes[k].claim.identity.publication !in w.stages
  {
  }

  lemma OneMore(w: World, k: nat, m: nat, n: nat)
    requires n > 0
    ensures Advanced(w, k, m, n) == Advanced(Act(w, Advance(k, m, true)), k, m, n - 1)
  {
  }

  lemma NoMore(w: World, k: nat, m: nat)
    ensures Advanced(w, k, m, 0) == w
  {
  }

  // ----- From the claim -----

  lemma ClaimActs(w: World, worker: nat, seconds: nat)
    ensures var (rows, outcome) := ClaimNext(w.rows, worker, seconds, w.clock, w.serial, ALL_IN_ORDER);
            outcome.Claimed? ==>
              Act(w, Claim(worker, seconds, ALL_IN_ORDER))
              == w.(rows := rows, serial := w.serial + 3,
                    processes := w.processes + [Process(outcome.claim, None, 0, Preparing)])
  {
    hide ClaimNext;
  }

  lemma NewWorkerIsReady(w: World, actions: seq<Action>, worker: nat, seconds: nat, m: nat)
    requires Enqueued(w) && Claimable(Run(w, actions).rows.adapter, Run(w, actions).clock) && seconds > 0
    requires Run(w, actions).final.None?
    ensures Reached(Act(Run(w, actions), Claim(worker, seconds, ALL_IN_ORDER)), |Run(w, actions).processes|, Preparing,
                    m)
  {
    hide Claimable, Enqueued, ClaimNext, Inv, StagesOwned, Run, Act, LiveClaim;
    var s, claim := Run(w, actions), Claim(worker, seconds, ALL_IN_ORDER);
    var next := Act(s, claim);
    RunLast(w, actions, claim);
    ClaimExactly(w, actions, worker, seconds);
    ClaimActs(s, worker, seconds);
    HolderIsLive(w, actions + [claim], |s.processes|, s.clock + seconds);
    RunKeepsStagesOwned(w, actions);
    RunKeepsInv(w, actions + [claim]);
    NewPublicationIsFree(s, next);
  }

  lemma NewPublicationIsFree(w: World, next: World)
    requires StagesOwned(w) && Inv(next) && next.stages == w.stages && |next.processes| == |w.processes| + 1
    requires next.processes[..|w.processes|] == w.processes
    ensures next.processes[|w.processes|].claim.identity.publication !in w.stages
  {
    hide AttemptInv, StorageInv, Tracks;
    var n := |w.processes|;
    forall k | 0 <= k < n
      ensures w.processes[k].claim.identity.publication != next.processes[n].claim.identity.publication
    {
      assert next.processes[k] == w.processes[k];
    }

  }

  /** Progress: in every reachable state in which the adapter can be claimed and no final directory exists, a claim that
      finds everything in order and eight operations of its worker, undisturbed and in time, validate the adapter and
      its attempt, with the worker's manifest and a complete final directory. */
  lemma UndisturbedWorkerPublishes(w: World, actions: seq<Action>, worker: nat, seconds: nat, m: nat)
    requires Enqueued(w) && Claimable(Run(w, actions).rows.adapter, Run(w, actions).clock) && seconds > 0
    requires Run(w, actions).final.None?
    ensures var s := Run(w, actions);
            var k := |s.processes|;
            var end := Advanced(Act(s, Claim(worker, seconds, ALL_IN_ORDER)), k, m, 8);
            && end.rows.adapter.status == Validated && end.rows.adapter.validatedAt == Some(s.clock)
            && k < |end.processes| && end.processes[k].claim.attempt < |end.rows.attempts|
            && end.rows.attempts[end.processes[k].claim.attempt].status == Succeeded
            && end.rows.attempts[end.processes[k].claim.attempt].manifest == Some(m)
            && end.final.Some? && end.final.value.names == FINAL_FILES
            && end.processes[k].claim.identity.publication !in end.stages
  {
    hide Claimable, Enqueued, Run, Reached, Advanced;
    NewWorkerIsReady(w, actions, worker, seconds, m);
    ReachedFinishes(Act(Run(w, actions), Claim(worker, seconds, ALL_IN_ORDER)), |Run(w, actions).processes|, Preparing,
                    m);
  }

  // ----- What each storage step does -----

  /** The stage of a worker, as far as the worker has come. */
  predicate Stands(w: World, p: Process)
  {
    var publication := p.claim.identity.publication;
    match p.at
    case Preparing => publication !in w.stages
    case Filling => StageInPlace(w, p)
    case Marking => StageInPlace(w, p) && w.stages[publication].names == FINAL_FILES + {Marker}
    case Unmarking => StageInPlace(w, p) && w.stages[publication].names == FINAL_FILES + {Marker}
    case Renaming => StageInPlace(w, p) && w.stages[publication].names == FINAL_FILES
    case Ended => true
    case _ => publication !in w.stages
  }

  predicate StagesStand(w: World) { forall k | 0 <= k < |w.processes| :: Stands(w, w.processes[k]) }

  lemma OwnStageStands(w: World, k: nat, manifest: nat, authority: bool)
    requires k < |w.processes| && Stands(w, w.processes[k])
    ensures var next := AdvanceProcess(w, k, manifest, authority);
            && |next.processes| == |w.processes| && Stands(next, next.processes[k])
            && (forall j | 0 <= j < |w.processes| && j != k :: next.processes[j] == w.processes[j])
            && forall publication | publication != w.processes[k].claim.identity.publication ::
                 && (publication in next.stages <==> publication in w.stages)
                 && (publication in w.stages ==> next.stages[publication] == w.stages[publication])
  {
    hide LiveClaim, FinalIsOwn;
  }

  lemma DistinctPublications(w: World, j: nat, k: nat)
    requires Inv(w) && j < |w.processes| && k < |w.processes| && j != k
    ensures w.processes[j].claim.identity.publication != w.processes[k].claim.identity.publication
  {
    hide AttemptInv, StorageInv, Tracks, Drawn;
  }

  lemma AdvanceKeepsStands(w: World, k: nat, manifest: nat, authority: bool)
    requires Inv(w) && StagesStand(w) && k < |w.processes|
    ensures StagesStand(AdvanceProcess(w, k, manifest, authority))
  {
    hide Inv, AdvanceProcess;
    OwnStageStands(w, k, manifest, authority);
    var next := AdvanceProcess(w, k, manifest, authority);
    forall j | 0 <= j < |w.processes| && j != k ensures Stands(next, next.processes[j]) {
      DistinctPublications(w, j, k);
      assert Stands(w, w.processes[j]);
    }
  }

  lemma QuietKeepsStands(w: World, a: Action)
    requires StagesStand(w) && (a.Heartbeat? || a.GiveUp? || a.Tick?)
    ensures StagesStand(Act(w, a))
  {
    hide LiveClaim, RecordFailure, FinalIsOwn;
    var next := Act(w, a);
    assert next.stages == w.stages && |next.processes| == |w.processes|;
    forall j | 0 <= j < |w.processes| ensures Stands(next, next.processes[j]) {
      assert Stands(w, w.processes[j]);
    }
  }

  lemma ClaimKeepsStands(w: World, a: Action)
    requires StagesOwned(w) && StagesStand(w) && Inv(Act(w, a)) && a.Claim?
    ensures StagesStand(Act(w, a))
  {
    hide ClaimNext, Inv, StagesOwned;
    var next := Act(w, a);
    if |next.processes| > |w.processes| { NewPublicationIsFree(w, next); }
    forall j | 0 <= j < |next.processes| ensures Stands(next, next.processes[j]) {
      if j < |w.processes| { assert Stands(w, w.processes[j]); }
    }
  }

  lemma {:induction false} RunKeepsStagesStand(w: World, actions: seq<Action>)
    requires Enqueued(w)
    ensures StagesStand(Run(w, actions))
  {
    hide Act, Inv, StagesOwned;
    if actions != [] {
      var before, a := Run(w, actions[..|actions| - 1]), actions[|actions| - 1];
      RunKeepsStagesStand(w, actions[..|actions| - 1]);
      RunKeepsStagesOwned(w, actions[..|actions| - 1]);
      RunKeepsInv(w, actions[..|actions| - 1]);
      RunKeepsInv(w, actions);
      hide StagesStand;
      if a.Claim? {
        ClaimKeepsStands(before, a);
      } else if a.Advance? {
        if a.process < |before.processes| { AdvanceKeepsStands(before, a.process, a.manifest, a.authority); }
        assert Act(before, a) == if a.process < |before.processes|
          then AdvanceProcess(before, a.process, a.manifest, a.authority) else before by { AdvanceIs(before, a); }
      } else {
        QuietKeepsStands(before, a);
      }
    }
  }

  lemma AdvanceIs(w: World, a: Action)
    requires a.Advance?
    ensures Act(w, a) == if a.process < |w.processes| then AdvanceProcess(w, a.process, a.manifest, a.authority) else w
  {
  }

  /** What the storage step of worker `p` leaves: its stage and the final directory, and where it goes on. */
  function Stored(w: World, k: nat, manifest: nat): World
    requires k < |w.processes| && Stands(w, w.processes[k])
  {
    var p := w.processes[k];
    var publication := p.claim.identity.publication;
    match p.at
    case Preparing =>
      w.(stages := w.stages[publication := Directory(w.serial, {Marker})], serial := w.serial + 1,
         processes := w.processes[k := p.(stage := Some(Stage(w.serial, false)), at := Filling)])
    case Filling =>
      w.(stages := w.stages[publication := Directory(p.stage.value.inode, FINAL_FILES + {Marker})],
         processes := w.processes[k := p.(manifest := manifest, at := Marking)])
    case Unmarking =>
      w.(stages := w.stages[publication := Directory(p.stage.value.inode, FINAL_FILES)],
         processes := w.processes[k := p.(at := Renaming)])
    case Renaming =>
      if w.final.Some? then w.(processes := w.processes[k := p.(at := Ended)])
      else w.(stages := w.stages - {publication}, final := Some(Directory(p.stage.value.inode, FINAL_FILES)),
              processes := w.processes[k := p.(stage := Some(Stage(p.stage.value.inode, true)), at := Verifying)])
    case Verifying => w.(processes := w.processes[k := p.(at := Publishing)])
    case _ => w
  }

  /** In every reachable state a storage step of a worker, live or superseded, does exactly this: it creates, fills and
      unmarks the worker's own stage, makes it the final directory if there is none, and stops if there is one. */
  lemma StorageStepsExactly(w: World, actions: seq<Action>, k: nat, manifest: nat, authority: bool)
    requires Enqueued(w) && k < |Run(w, actions).processes|
    requires Run(w, actions).processes[k].at in {Preparing, Filling, Unmarking, Renaming, Verifying}
    ensures var s := Run(w, actions);
            Stands(s, s.processes[k]) && Act(s, Advance(k, manifest, authority)) == Stored(s, k, manifest)
  {
    RunKeepsStagesStand(w, actions);
    RunKeepsInv(w, actions);
    var s := Run(w, actions);
    hide Run, Inv;
    assert Stands(s, s.processes[k]);
    if s.processes[k].at == Verifying { RenamedIsFinal(s, k); }
  }

  lemma RenamedIsFinal(w: World, k: nat)
    requires Inv(w) && k < |w.processes| && w.processes[k].at == Verifying
    ensures FinalIsOwn(w, w.processes[k]) && w.final.value.names == FINAL_FILES
  {
    hide AttemptInv, ProcessesInv, Drawn;
  }
}
