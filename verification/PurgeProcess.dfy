/** The purge as it runs: a store and rows that are rewritten in place, an exception-free rendering of
    `purge_adapter_artifacts`, and the proof that one call is one run of the step machine. */
module PurgeProcess {
  import opened Common
  import opened ArtifactStore
  import opened Purge
  import opened PurgeSafety

  /** `AdapterPurgeArtifactStore`: the directories it renames, unlinks and removes. */
  class PurgeStore {
    var finals: map<Address, Directory>
    var tombstones: map<TombstoneKey, Directory>
    var malformed: set<Address>

    constructor (disk: Disk)
      ensures Now() == disk
    {
      finals, tombstones, malformed := disk.finals, disk.tombstones, disk.malformed;
    }

    function Now(): Disk
      reads this
    {
      Disk(finals, tombstones, malformed)
    }

    /** The allowlist, file by file, against the ownership manifest. */
    method MatchesManifest(directory: Directory, surface: Surface, manifest: OwnershipManifest) returns (ok: bool)
      ensures ok == HasManifest(directory, surface, manifest)
    {
      var names := FinalFiles(surface);
      if directory.files.Keys != (set n | n in names) { return false; }
      for i := 0 to |names|
        invariant forall j | 0 <= j < i ::
                    names[j] in manifest && directory.files[names[j]].digest == manifest[names[j]]
      {
        if names[i] !in manifest || directory.files[names[i]].digest != manifest[names[i]] { return false; }
      }
      return true;
    }

    method Inspect(a: Address, manifest: OwnershipManifest) returns (r: Outcome<Observation>)
      ensures r == InspectSurface(Now(), a, manifest)
    {
      if a !in finals { return Missing; }
      var ok := MatchesManifest(finals[a], a.surface, manifest);
      if !ok { return Rejected(ManifestInvalid); }
      var names := FinalFiles(a.surface);
      var plan: seq<Entry> := [];
      for i := 0 to |names|
        invariant |plan| == i
        invariant forall j | 0 <= j < i :: plan[j] == Entry(names[j], finals[a].files[names[j]])
      {
        plan := plan + [Entry(names[i], finals[a].files[names[i]])];
      }
      assert plan == Listing(finals[a], names);
      return Found(Observation(finals[a].identity, plan));
    }

    method Verify(directory: Directory, entries: seq<Entry>, expected: DirectoryIdentity) returns (code: Option<Code>)
      ensures code == VerifyEntries(directory, entries, expected)
    {
      if directory.identity != expected { return Some(AuthorityChanged); }
      var names: set<FileName> := {};
      for i := 0 to |entries|
        invariant names == Names(entries[..i])
      {
        assert entries[..i + 1] == entries[..i] + [entries[i]];
        names := names + {entries[i].name};
      }
      assert entries[..|entries|] == entries;
      if directory.files.Keys != names { return Some(ManifestInvalid); }
      for i := 0 to |entries|
        invariant forall j | 0 <= j < i ::
                    entries[j].name in directory.files && directory.files[entries[j].name] == entries[j].identity
      {
        assert entries[i] in entries;
        if directory.files[entries[i].name] != entries[i].identity { return Some(AuthorityChanged); }
      }
      return None;
    }

    /** The rename is the only change, and happens after every check. */
    method Move(key: TombstoneKey, observed: Observation, plan: seq<Entry>, namespace: Option<TombstoneKey>)
      returns (r: Outcome<Observation>)
      modifies this
      ensures !r.Found? ==> Now() == old(Now())
      ensures (Now(), r) == MoveSurface(old(Now()), key, observed, plan, namespace)
    {
      if namespace != Some(key) { return Rejected(OwnershipMismatch); }
      if key.address !in finals { return Missing; }
      var directory := finals[key.address];
      if Observation(directory.identity, plan) != observed { return Rejected(AuthorityChanged); }
      var code := Verify(directory, plan, observed.directory);
      if code.Some? { return Rejected(code.value); }
      if key.address in malformed { return Rejected(TombstoneConflict); }
      var existing := Namespace(Now(), key.address);
      if existing != {} {
        return if key.item in existing then Rejected(AuthorityChanged) else Retryable;
      }
      var moved := Renamed(directory);
      finals := finals - {key.address};
      tombstones := tombstones[key := moved];
      return Found(Observation(moved.identity, plan));
    }

    method Recover(key: TombstoneKey, observed: Observation, plan: seq<Entry>, namespace: Option<TombstoneKey>)
      returns (r: Outcome<Observation>)
      ensures r == RecoverTombstone(Now(), key, observed, plan, namespace)
    {
      if namespace != Some(key) { return Rejected(OwnershipMismatch); }
      if key.address in finals { return Rejected(AuthorityChanged); }
      if key.address in malformed { return Rejected(TombstoneConflict); }
      if key !in tombstones { return Rejected(AuthorityChanged); }
      if Namespace(Now(), key.address) != {key.item} { return Retryable; }
      var directory := tombstones[key];
      if directory.identity.key != observed.directory.key { return Rejected(AuthorityChanged); }
      var code := Verify(directory, plan, directory.identity);
      return if code.Some? then Rejected(code.value) else Found(Observation(directory.identity, plan));
    }

    method FindPlanned(plan: seq<Entry>, name: FileName) returns (e: Option<Entry>)
      ensures e == Planned(plan, name)
    {
      for i := 0 to |plan|
        invariant Planned(plan, name) == Planned(plan[i..], name)
      {
        if plan[i].name == name { return Some(plan[i]); }
        assert plan[i..][1..] == plan[i + 1..];
      }
      return None;
    }

    method Unlink(key: TombstoneKey, bound: Observation, plan: seq<Entry>, name: FileName, allowMissing: bool)
      returns (r: Outcome<()>)
      modifies this
      ensures !r.Found? ==> Now() == old(Now())
      ensures (Now(), r) == UnlinkEntry(old(Now()), key, bound, plan, name, allowMissing)
    {
      var planned := FindPlanned(plan, name);
      if planned.None? { return Rejected(OwnershipMismatch); }
      if key !in tombstones { return Uncaught; }
      var directory := tombstones[key];
      if directory.identity.key != bound.directory.key { return Rejected(AuthorityChanged); }
      if name !in directory.files {
        return if allowMissing then Found(()) else Rejected(AuthorityChanged);
      }
      if directory.files[name] != planned.value.identity { return Rejected(AuthorityChanged); }
      tombstones := tombstones[key := Directory(Renamed(directory).identity, directory.files - {name})];
      return Found(());
    }

    method Remove(key: TombstoneKey, bound: Observation, allowMissing: bool) returns (r: Outcome<()>)
      modifies this
      ensures !r.Found? ==> Now() == old(Now())
      ensures (Now(), r) == RemoveDirectory(old(Now()), key, bound, allowMissing)
    {
      if key !in tombstones {
        return if allowMissing then Found(()) else Rejected(AuthorityChanged);
      }
      if tombstones[key].files != map[] { return Rejected(AuthorityChanged); }
      if tombstones[key].identity.key != bound.directory.key { return Rejected(AuthorityChanged); }
      tombstones := tombstones - {key};
      return Found(());
    }
  }

  /** `ServiceError`, an `AdapterMaintenanceArtifactError` with its code, or anything else. */
  datatype Thrown = ServiceError | MaintenanceError(code: Code) | OtherError

  datatype Result<+T> = Ok(value: T) | Throw(error: Thrown)

  datatype Marking = AlreadyCompleted | Passed | Marked(retry: bool)

  /** Where the main loop catches what an item throws. */
  function Caught(s: Surface, error: Thrown): Pc
  {
    match error
    case ServiceError => Stopped(Refused)
    case MaintenanceError(code) => Block(s, code)
    case OtherError => Stopped(Failed)
  }

  lemma {:induction false} StepsSnoc(w: World, n: nat)
    ensures Steps(w, n + 1) == Step(Steps(w, n))
    decreases n
  {
    if n > 0 { StepsSnoc(Step(w), n - 1); }
  }

  /** One more step of the run that began at `start`. */
  lemma Next(start: World, n: nat, before: World, next: World)
    requires Steps(start, n) == before && Step(before) == next
    ensures Steps(start, n + 1) == next
  {
    StepsSnoc(start, n);
  }

  lemma {:induction false} StepsAdd(w: World, m: nat, n: nat)
    ensures Steps(w, m + n) == Steps(Steps(w, m), n)
    decreases m
  {
    if m > 0 { StepsAdd(Step(w), m - 1, n); }
  }

  lemma {:induction false} EndedStays(w: World, n: nat)
    requires !Running(w.pc)
    ensures Steps(w, n) == w
    decreases n
  {
    if n > 0 { EndedStays(w, n - 1); }
  }

  /** All runs of one process that have ended are the same run. */
  lemma EndedAgree(w: World, m: nat, n: nat)
    requires !Running(Steps(w, m).pc) && !Running(Steps(w, n).pc)
    ensures Steps(w, m) == Steps(w, n)
  {
    hide Steps, Step;
    if m <= n {
      StepsAdd(w, m, n - m);
      EndedStays(Steps(w, m), n - m);
    } else {
      StepsAdd(w, n, m - n);
      EndedStays(Steps(w, n), m - n);
    }
  }

  // One step at each place, without the others in sight.

  /** The purge service: its rows, and the store it works on. */
  class AdapterPurge {
    var db: Db
    const store: PurgeStore

    constructor (db: Db, store: PurgeStore)
      ensures this.db == db && this.store == store
    {
      this.db, this.store := db, store;
    }

    ghost function At(pc: Pc): World
      reads this, store
    {
      World(db, store.Now(), pc)
    }

    // ----- Transactions -----

    method RegisterOrResume() returns (r: Result<bool>)
      modifies this
      ensures r == Ok(true) ==> db.operation.Some?
      ensures At(if r.Throw? then Stopped(Refused) else if r.value then MarkOperation else Stopped(Returned))
              == Purge.RegisterOrResume(old(At(Register)))
    {
      if db.operation.Some? && ActiveOperation(db.operation.value) {
        return if PendingAuthority(db) && GovernanceClear(db) then Ok(true) else Throw(ServiceError);
      }
      if db.adapter.status == Lifecycle.Purged { return Ok(false); }
      if !Eligible(db) { return Throw(ServiceError); }
      db := NewOperation(db);
      return Ok(true);
    }

    method MarkOperationDeleting()
      requires db.operation.Some?
      modifies this
      ensures db.operation.Some?
      ensures At(Select(RegistryFinal)) == Purge.MarkOperationDeleting(old(At(MarkOperation)))
    {
      var op := db.operation.value;
      if op.status == OperationRegistered {
        db := db.(operation := Some(op.(status := OperationDeleting, version := op.version + 1)));
      }
    }

    method CaptureRegisteredContext(s: Surface) returns (r: Result<MoveContext>)
      requires db.operation.Some?
      ensures At(if r.Ok? then Pc.Inspect(s, r.value) else Caught(s, r.error)) == CaptureContext(At(Capture(s)), s)
    {
      var lane := LaneOf(db.operation.value, s);
      if !CanProceed(db) { return Throw(ServiceError); }
      if lane.item.progress.status != Registered || lane.reservation.progress.status != Registered {
        return Throw(MaintenanceError(AuthorityChanged));
      }
      return Ok(MoveContext(lane.item.version, lane.reservation.version, AuthoritySnapshot(db)));
    }

    method PersistMoveIntent(s: Surface, context: MoveContext, inspected: Observation) returns (r: Result<()>)
      requires db.operation.Some?
      modifies this
      ensures db.operation.Some?
      ensures At(if r.Ok? then Reauthorize(s) else Caught(s, r.error))
              == Purge.PersistMoveIntent(old(At(Persist(s, context, inspected))), s, context, inspected)
    {
      var lane := LaneOf(db.operation.value, s);
      if !CanProceed(db) { return Throw(ServiceError); }
      if || lane.item.progress.status != Registered
         || lane.reservation.progress.status != Registered
         || lane.item.version != context.itemVersion
         || lane.reservation.version != context.reservationVersion
         || AuthoritySnapshot(db) != context.snapshot
      {
        return Throw(MaintenanceError(AuthorityChanged));
      }
      db := WithLane(db, s, IntendMove(lane, inspected, KeyOf(db, s)));
      return Ok(());
    }

    method AssertVerifiedMoveContext(s: Surface) returns (r: Result<()>)
      requires db.operation.Some?
      ensures At(if r.Ok? then Pc.Move(s) else Caught(s, r.error)) == ReauthorizeMove(At(Reauthorize(s)), s)
    {
      var lane := LaneOf(db.operation.value, s);
      if lane.item.progress.status != Verified || lane.reservation.progress.status != Verified {
        return Throw(MaintenanceError(AuthorityChanged));
      }
      return if CanProceed(db) then Ok(()) else Throw(ServiceError);
    }

    method BindMoveIntent(s: Surface, bound: Observation) returns (r: Result<()>)
      requires db.operation.Some?
      modifies this
      ensures db.operation.Some?
      ensures At(if r.Ok? then Entry0(db, s) else Caught(s, r.error))
              == Purge.BindMoveIntent(old(At(Bind(s, bound))), s, bound)
    {
      var lane := LaneOf(db.operation.value, s);
      var i, reserved := lane.item.progress, lane.reservation.progress;
      if i.status == TombstoneBound {
        return if i.tombstone != Some(bound) then Throw(MaintenanceError(AuthorityChanged)) else Ok(());
      }
      if i.status != Verified || reserved.status != Verified { return Throw(MaintenanceError(AuthorityChanged)); }
      if !CanProceed(db) { return Throw(ServiceError); }
      if AuthoritySnapshot(db) != lane.reservation.authority.snapshot || i.namespace != reserved.namespace {
        return Throw(MaintenanceError(AuthorityChanged));
      }
      db := WithLane(db, s, BindTombstone(lane, bound));
      return Ok(());
    }

    method MarkEntry(s: Surface, index: nat) returns (r: Result<Marking>)
      requires db.operation.Some? && index < PlanSize(db, s)
      modifies this
      ensures db.operation.Some?
      ensures At(match r
                 case Throw(error) => Caught(s, error)
                 case Ok(AlreadyCompleted) => After(s)
                 case Ok(Passed) => EntryAt(db, s, index + 1)
                 case Ok(Marked(retry)) => Pc.Unlink(s, index, retry))
              == Purge.MarkEntry(old(At(Mark(s, index))), s, index)
    {
      var lane := LaneOf(db.operation.value, s);
      var i := lane.item.progress;
      var marker := InFlight(i.plan.value[index].name, index);
      if i.status == Completed { return Ok(AlreadyCompleted); }
      if i.nextEntry > index { return Ok(Passed); }
      if i.nextEntry != index { return Throw(MaintenanceError(AuthorityChanged)); }
      if i.inFlight.Some? && i.inFlight.value != marker { return Throw(MaintenanceError(AuthorityChanged)); }
      db := WithLane(db, s, MarkInFlight(lane, marker));
      return Ok(Marked(i.inFlight.Some?));
    }

    method AdvanceEntry(s: Surface, index: nat)
      requires db.operation.Some?
      modifies this
      ensures db.operation.Some?
      ensures At(EntryAt(db, s, index + 1)) == Purge.AdvanceEntry(old(At(Advance(s, index))), s, index)
    {
      db := WithLane(db, s, AdvancePast(LaneOf(db.operation.value, s), index));
    }

    method MarkDirectoryUnlink(s: Surface) returns (r: Result<bool>)
      requires db.operation.Some?
      modifies this
      ensures db.operation.Some?
      ensures At(if r.Ok? then RemoveTombstone(s, r.value) else Caught(s, r.error))
              == Purge.MarkDirectoryUnlink(old(At(MarkDirectory(s))), s)
    {
      var lane := LaneOf(db.operation.value, s);
      var i := lane.item.progress;
      if i.nextEntry != PlanSize(db, s) || i.inFlight.Some? { return Throw(MaintenanceError(AuthorityChanged)); }
      db := WithLane(db, s, StartDirectoryUnlink(lane));
      return Ok(i.directoryUnlinkStarted);
    }

    method CompleteItem(s: Surface)
      requires db.operation.Some?
      modifies this
      ensures db.operation.Some?
      ensures At(After(s)) == Purge.CompleteItem(old(At(Pc.Complete(s))), s)
    {
      db := WithLane(db, s, Finish(LaneOf(db.operation.value, s), db.clock));
    }

    method BlockItem(s: Surface, code: Code)
      requires db.operation.Some?
      modifies this
      ensures db.operation.Some?
      ensures At(After(s)) == Purge.BlockItem(old(At(Block(s, code))), s, code)
    {
      var lane := LaneOf(db.operation.value, s);
      if lane.item.progress.status != Completed {
        db := WithLane(db, s, BlockLane(lane, code));
      }
    }

    method FinalizeOperation() returns (r: Result<()>)
      requires db.operation.Some?
      modifies this
      ensures At(Stopped(if r.Ok? then Returned else Refused)) == Purge.FinalizeOperation(old(At(Finalize)))
    {
      var op := db.operation.value;
      if !ActiveOperation(op) { return Ok(()); }
      if db.fences.evaluation { return Throw(ServiceError); }
      if ActiveItem(op.registry.item) || ActiveItem(op.source.item) { return Ok(()); }
      var blocked := BlockedItems(op);
      if blocked == 0 && (!NamespaceEmpty(store.Now(), AddressOf(db, RegistryFinal))
                          || !NamespaceEmpty(store.Now(), AddressOf(db, SourceFinal))) {
        return Throw(ServiceError);
      }
      op := op.(completedCount := CompletedItems(op), blockedCount := blocked);
      op := op.(status := if blocked > 0 then CompletedWithBlocks else OperationCompleted,
                completedAt := Some(db.clock), version := op.version + 1);
      if blocked > 0 {
        db := db.(operation := Some(op));
        return Ok(());
      }
      if !PendingAuthority(db) || !GovernanceClear(db) || !OperationAuthority(db, op) {
        return Throw(ServiceError);
      }
      db := db.(source := PurgedAt(db.source, db.clock));
      db := db.(adapter := PurgedAt(db.adapter, db.clock));
      if op.auditedAt.None? {
        db := db.(purgeAudits := db.purgeAudits + [op.id]);
        op := op.(auditedAt := Some(db.clock), version := op.version + 1);
      }
      db := db.(operation := Some(op));
      return Ok(());
    }

    // ----- One item -----

    /** A registered item: inspect, and commit the intent before any rename. */
    method Intend(s: Surface, ghost start: World, ghost n: nat) returns (r: Result<()>, ghost m: nat)
      requires db.operation.Some? && Steps(start, n) == At(Capture(s))
      modifies this
      ensures db.operation.Some?
      ensures Steps(start, m) == At(if r.Ok? then Reauthorize(s) else Caught(s, r.error))
    {
      hide Steps, Purge.CaptureContext, Purge.PersistMoveIntent, InspectSurface;
      var context := CaptureRegisteredContext(s);
      m := n + 1;
      Next(start, n, At(Capture(s)),
           At(if context.Ok? then Pc.Inspect(s, context.value) else Caught(s, context.error)));
      if context.Throw? { return Throw(context.error), m; }
      label Inspecting:
      var inspected := store.Inspect(AddressOf(db, s), AttemptOf(db, s).manifest);
      ghost var before := At(Pc.Inspect(s, context.value));
      if !inspected.Found? {
        r := Throw(MaintenanceError(if inspected.Rejected? then inspected.code else AuthorityChanged));
        Next(start, m, before, At(Caught(s, r.error)));
        m := m + 1;
        return;
      }
      ghost var persist := At(Persist(s, context.value, inspected.value));
      Next(start, m, before, persist);
      r := PersistMoveIntent(s, context.value, inspected.value);
      Next(start, m + 1, persist, At(if r.Ok? then Reauthorize(s) else Caught(s, r.error)));
      m := m + 2;
    }

    /** The rename, or the recovery of the rename that an earlier process did. */
    method MoveOrRecover(s: Surface, ghost start: World, ghost n: nat) returns (r: Result<Observation>, ghost m: nat)
      requires db.operation.Some? && Steps(start, n) == At(Pc.Move(s))
      modifies store
      ensures Steps(start, m) == At(if r.Ok? then Bind(s, r.value) else Caught(s, r.error))
    {
      hide Steps, MoveSurface, RecoverTombstone, KeyOf;
      var p, key := ItemProgress(db, s), KeyOf(db, s);
      ghost var before := At(Pc.Move(s));
      if p.observed.None? || p.plan.None? {
        Next(start, n, before, At(Block(s, OwnershipMismatch)));
        return Throw(MaintenanceError(OwnershipMismatch)), n + 1;
      }
      var bound := store.Move(key, p.observed.value, p.plan.value, p.namespace);
      if bound.Retryable? {
        Next(start, n, before, At(Stopped(Refused)));
        return Throw(ServiceError), n + 1;
      }
      if bound.Found? {
        Next(start, n, before, At(Bind(s, bound.value)));
        return Ok(bound.value), n + 1;
      }
      Next(start, n, before, At(Pc.Recover(s)));
      bound := store.Recover(key, p.observed.value, p.plan.value, p.namespace);
      r := if bound.Found? then Ok(bound.value)
           else Throw(if bound.Retryable? then ServiceError
                      else if bound.Rejected? then MaintenanceError(bound.code) else OtherError);
      Next(start, n + 1, At(Pc.Recover(s)), At(if r.Ok? then Bind(s, r.value) else Caught(s, r.error)));
      m := n + 2;
    }

    /** A verified item: authorize the move, do it and bind it. */
    method MoveAndBind(s: Surface, ghost start: World, ghost n: nat) returns (r: Result<()>, ghost m: nat)
      requires db.operation.Some? && Steps(start, n) == At(Reauthorize(s))
      modifies this, store
      ensures db.operation.Some?
      ensures Steps(start, m) == At(if r.Ok? then Entry0(db, s) else Caught(s, r.error))
    {
      hide Steps, ReauthorizeMove, Purge.BindMoveIntent, MoveSurface, RecoverTombstone, Entry0;
      var authorized := AssertVerifiedMoveContext(s);
      m := n + 1;
      Next(start, n, At(Reauthorize(s)), At(if authorized.Ok? then Pc.Move(s) else Caught(s, authorized.error)));
      if authorized.Throw? { return Throw(authorized.error), m; }
      var bound;
      bound, m := MoveOrRecover(s, start, m);
      if bound.Throw? { return Throw(bound.error), m; }
      ghost var before := At(Bind(s, bound.value));
      r := BindMoveIntent(s, bound.value);
      Next(start, m, before, At(if r.Ok? then Entry0(db, s) else Caught(s, r.error)));
      m := m + 1;
    }

    /** One entry of the plan: mark it in flight, unlink it, advance. */
    method DeleteEntry(s: Surface, index: nat, ghost start: World, ghost n: nat) returns (r: Result<bool>, ghost m: nat)
      requires db.operation.Some? && index < PlanSize(db, s) && Steps(start, n) == At(Mark(s, index))
      modifies this, store
      ensures db.operation.Some?
      ensures Steps(start, m)
              == At(if r.Throw? then Caught(s, r.error) else if r.value then EntryAt(db, s, index + 1) else After(s))
      ensures r == Ok(true) ==> ItemProgress(db, s).plan == old(ItemProgress(db, s).plan)
    {
      hide Steps, Step, UnlinkEntry;
      StepIs(At(Mark(s, index)));
      var marking := MarkEntry(s, index);
      m := n + 1;
      StepsSnoc(start, n);
      if marking.Throw? { return Throw(marking.error), m; }
      if marking.value.AlreadyCompleted? { return Ok(false), m; }
      if marking.value.Passed? { return Ok(true), m; }
      var retry, p := marking.value.retry, ItemProgress(db, s);
      StepIs(At(Pc.Unlink(s, index, retry)));
      StepsSnoc(start, m);
      m := m + 1;
      if p.tombstone.None? { return Throw(MaintenanceError(OwnershipMismatch)), m; }
      var unlinked := store.Unlink(KeyOf(db, s), p.tombstone.value, p.plan.value, p.plan.value[index].name, retry);
      if !unlinked.Found? {
        return Throw(if unlinked.Rejected? then MaintenanceError(unlinked.code) else OtherError), m;
      }
      StepIs(At(Advance(s, index)));
      StepsSnoc(start, m);
      AdvanceEntry(s, index);
      return Ok(true), m + 1;
    }

    method DeleteDirectory(s: Surface, ghost start: World, ghost n: nat) returns (r: Result<bool>, ghost m: nat)
      requires db.operation.Some? && Steps(start, n) == At(MarkDirectory(s))
      modifies this, store
      ensures db.operation.Some?
      ensures Steps(start, m) == At(if r.Ok? then After(s) else Caught(s, r.error))
    {
      hide Steps, Step, RemoveDirectory, Purge.MarkDirectoryUnlink, Purge.CompleteItem;
      StepIs(At(MarkDirectory(s)));
      var started := MarkDirectoryUnlink(s);
      m := n + 1;
      StepsSnoc(start, n);
      if started.Throw? { return Throw(started.error), m; }
      var p := ItemProgress(db, s);
      StepIs(At(RemoveTombstone(s, started.value)));
      StepsSnoc(start, m);
      m := m + 1;
      if p.tombstone.None? { return Throw(MaintenanceError(OwnershipMismatch)), m; }
      var removed := store.Remove(KeyOf(db, s), p.tombstone.value, started.value);
      if !removed.Found? {
        return Throw(if removed.Rejected? then MaintenanceError(removed.code) else OtherError), m;
      }
      StepIs(At(Pc.Complete(s)));
      StepsSnoc(start, m);
      CompleteItem(s);
      return Ok(true), m + 1;
    }

    /** `_execute_item`: true when this call completed the item. */
    method ExecuteItem(s: Surface, ghost start: World, ghost n: nat) returns (r: Result<bool>, ghost m: nat)
      requires db.operation.Some? && Steps(start, n) == At(Load(s))
      modifies this, store
      ensures db.operation.Some?
      ensures Steps(start, m) == At(if r.Ok? then After(s) else Caught(s, r.error))
    {
      hide Steps;
      var status := ItemProgress(db, s).status;
      ghost var loaded := At(LoadItem(At(Load(s)), s).pc);
      Next(start, n, At(Load(s)), loaded);
      m := n + 1;
      if status == Completed { return Ok(false), m; }
      var moved: Result<()> := Ok(());
      if status == Registered {
        moved, m := Intend(s, start, m);
        if moved.Throw? { return Throw(moved.error), m; }
      } else if status == Verified && (ItemProgress(db, s).observed.None? || ItemProgress(db, s).plan.None?) {
        return Throw(MaintenanceError(OwnershipMismatch)), m;
      }
      if status == Registered || status == Verified {
        moved, m := MoveAndBind(s, start, m);
        if moved.Throw? { return Throw(moved.error), m; }
      }
      var item := ItemProgress(db, s);
      if item.observed.None? || item.plan.None? || item.tombstone.None? || item.namespace.None? {
        return Throw(MaintenanceError(OwnershipMismatch)), m;
      }
      var plan := item.plan.value;
      for index := 0 to |plan|
        invariant db.operation.Some? && ItemProgress(db, s).plan == Some(plan)
        invariant Steps(start, m) == At(EntryAt(db, s, index))
      {
        var deleted: Result<bool>;
        deleted, m := DeleteEntry(s, index, start, m);
        if deleted.Throw? || !deleted.value { return deleted, m; }
      }
      r, m := DeleteDirectory(s, start, m);
    }

    // ----- The command -----

    /** The surfaces in order, the source only behind a completed registry item; then finalization. */
    method ExecuteOperation(ghost start: World, ghost n: nat) returns (ending: Ending, ghost m: nat)
      requires db.operation.Some? && Steps(start, n) == At(Select(RegistryFinal))
      modifies this, store
      ensures Steps(start, m) == At(Stopped(ending))
    {
      hide Steps, Step, Purge.BlockItem, Purge.FinalizeOperation;
      var surfaces := [RegistryFinal, SourceFinal];
      m := n;
      for i := 0 to 2
        invariant db.operation.Some?
        invariant Steps(start, m) == At(if i < 2 then Select(surfaces[i]) else Finalize)
      {
        var s, op := surfaces[i], db.operation.value;
        StepIs(At(Select(s)));
        StepsSnoc(start, m);
        m := m + 1;
        if s == SourceFinal && op.registry.item.progress.status != Completed {
          if ActiveItem(op.source.item) {
            StepIs(At(Block(s, DependencyActive)));
            StepsSnoc(start, m);
            BlockItem(s, DependencyActive);
            m := m + 1;
          }
          break;
        }
        if ActiveItem(LaneOf(op, s).item) {
          var executed: Result<bool>;
          executed, m := ExecuteItem(s, start, m);
          if executed.Throw? {
            if executed.error.ServiceError? { return Refused, m; }
            if executed.error.OtherError? { return Failed, m; }
            StepIs(At(Block(s, executed.error.code)));
            StepsSnoc(start, m);
            BlockItem(s, executed.error.code);
            m := m + 1;
          }
        }
      }
      StepIs(At(Finalize));
      StepsSnoc(start, m);
      var finalized := FinalizeOperation();
      return if finalized.Ok? then Returned else Refused, m + 1;
    }

    /** `purge_adapter_artifacts` with `apply`: one call is one uninterrupted run of the machine, so all
        that holds of such runs holds of the call. */
    method PurgeArtifacts() returns (ending: Ending)
      requires Inv(At(Idle))
      modifies this, store
      ensures At(Stopped(ending)) == Steps(old(At(Register)), StepsLeft(Register))
    {
      hide NewOperation, Eligible, PcInv, RowsInv;
      ghost var start := At(Register);
      LaunchKeepsInv(At(Idle));
      EveryProcessEnds(start, StepsLeft(Register));
      hide Steps, Inv;
      ghost var n := 0;
      assert Steps(start, 0) == start by { NoSteps(start); }
      var registered := RegisterOrResume();
      Next(start, 0, start, At(if registered.Throw? then Stopped(Refused)
                               else if registered.value then MarkOperation else Stopped(Returned)));
      if registered.Throw? {
        ending, n := Refused, 1;
      } else if !registered.value {
        ending, n := Returned, 1;
      } else {
        ghost var before := At(MarkOperation);
        MarkOperationDeleting();
        Next(start, 1, before, At(Select(RegistryFinal)));
        ending, n := ExecuteOperation(start, 2);
      }
      EndedAgree(start, n, StepsLeft(Register));
    }
  }

  lemma NoSteps(w: World)
    ensures Steps(w, 0) == w
  {
  }

  lemma LaunchKeepsInv(w: World)
    requires Inv(w)
    ensures Inv(Launch(w))
  {
  }
}
