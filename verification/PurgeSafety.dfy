/** What every purge run keeps, whatever happens on the disk or in other protocols, and the deletion
    safety that follows from it. */
module PurgeSafety {
  import opened Common
  import opened ArtifactStore
  import opened Purge

  // ----- The invariant over the rows -----

  predicate Intended(status: ItemStatus)
  {
    status == Verified || status == TombstoneBound || status == Deleting || status == Completed
  }

  predicate Authorized(status: ItemStatus)
  {
    status == TombstoneBound || status == Deleting || status == Completed
  }

  /** One lane: the reservation mirrors the item, and each status has what it needs. */
  predicate LaneShape(lane: Lane, key: TombstoneKey)
  {
    var p := lane.item.progress;
    && lane.reservation.progress == p
    && (p.plan.Some? ==> |p.plan.value| == 3)
    && (Intended(p.status) ==> p.observed.Some? && p.plan.Some? && p.namespace == Some(key))
    && (Authorized(p.status) ==> p.tombstone.Some?)
    && (p.status == Completed <==> p.completedAt.Some?)
    && (p.status == Blocked <==> p.blockedCode.Some?)
  }

  /** What registration wrote into a lane, against the rows as they were then. */
  predicate LaneAuthority(db: Db, op: Operation, s: Surface)
  {
    var manifest := AttemptOf(db, s).manifest;
    && LaneOf(op, s).item.manifest == manifest
    && LaneOf(op, s).reservation.authority == Authority(
         match s case RegistryFinal => op.expectedAdapter case SourceFinal => op.expectedSource,
         AttemptOf(db, s).version, manifest,
         SnapshotAt(db, op.expectedAdapter, op.expectedSource, PurgePending))
  }

  /** The authority snapshot with given versions and status; all else comes from the live rows. */
  function SnapshotAt(db: Db, adapterVersion: nat, sourceVersion: nat, status: Lifecycle): Snapshot
  {
    Snapshot(ResourceSection(db.adapter.id, adapterVersion, status, db.adapter.facts),
             ResourceSection(db.source.id, sourceVersion, status, db.source.facts),
             AttemptSectionOf(db.sourceAttempt), AttemptSectionOf(db.registryAttempt))
  }

  /** What registration fixed on the operation itself. */
  predicate OperationAuthorities(db: Db, op: Operation)
  {
    && op.expectedAdapter > 0 && op.expectedSource > 0
    && op.expectedSourceAttempt == db.sourceAttempt.version
    && op.expectedRegistryAttempt == db.registryAttempt.version
    && db.sourceAttempt.authoritative && db.registryAttempt.authoritative
    && (op.snapshot.adapter.status == Live || op.snapshot.adapter.status == PurgePending)
    && op.snapshot == SnapshotAt(db, op.expectedAdapter - 1, op.expectedSource - 1, op.snapshot.adapter.status)
    && (op.snapshot.adapter.status == PurgePending <==> db.past != [])
  }

  predicate Lanes(db: Db, op: Operation)
  {
    && LaneShape(op.registry, TombstoneKey(AddressOf(db, RegistryFinal), op.registry.item.id))
    && LaneShape(op.source, TombstoneKey(AddressOf(db, SourceFinal), op.source.item.id))
    && LaneAuthority(db, op, RegistryFinal)
    && LaneAuthority(db, op, SourceFinal)
    && (Intended(op.source.item.progress.status) ==> op.registry.item.progress.status == Completed)
    && op.registry.item.id != op.source.item.id
    && op.registry.reservation.id != op.source.reservation.id
  }

  predicate OperationPhase(db: Db, op: Operation)
  {
    if op.status == OperationCompleted then
      && db.adapter.status == Purged && db.source.status == Purged
      && db.adapter.version == op.expectedAdapter + 1 && db.source.version == op.expectedSource + 1
      && op.completedAt.Some? && db.adapter.purgedAt == op.completedAt && db.source.purgedAt == op.completedAt
      && op.auditedAt.Some?
      && op.registry.item.progress.status == Completed && op.source.item.progress.status == Completed
      && op.completedCount == 2 && op.blockedCount == 0
      && db.purgeAudits == [op.id]
    else
      && PendingAuthority(db)
      && db.adapter.version == op.expectedAdapter && db.source.version == op.expectedSource
      && op.auditedAt.None?
      && db.purgeAudits == []
  }

  predicate RowsInv(db: Db)
    requires db.operation.Some?
  {
    var op := db.operation.value;
    OperationAuthorities(db, op) && Lanes(db, op) && OperationPhase(db, op)
  }

  predicate Unregistered(db: Db)
  {
    db.operation.None? && db.past == [] && db.purgeAudits == []
    && db.adapter.status == Live && db.source.status == Live
  }

  // ----- The invariant over the process -----

  /** `Move`, `Recover` and `Bind` work on a committed intent; the loop works on a bound tombstone. */
  predicate ItemAtPc(item: Progress, pc: Pc)
  {
    match pc
    case Load(_) => item.status != Completed && item.status != Blocked
    case Persist(_, _, inspected) => |inspected.entries| == 3
    case Move(_) => item.status == Verified
    case Recover(_) => item.status == Verified
    case Bind(_, _) => item.status == Verified
    case Mark(_, i) => (item.status == TombstoneBound || item.status == Deleting) && i < 3
    case Unlink(_, i, _) =>
      && item.status == Deleting && i < 3 && item.nextEntry == i
      && item.plan.Some? && |item.plan.value| == 3
      && item.inFlight == Some(InFlight(item.plan.value[i].name, i))
    case Advance(_, i) => item.status == Deleting && i < 3 && item.nextEntry == i
    case MarkDirectory(_) => item.status == TombstoneBound || item.status == Deleting
    case RemoveTombstone(_, _) =>
      && (item.status == TombstoneBound || item.status == Deleting)
      && item.nextEntry == 3 && item.directoryUnlinkStarted && item.inFlight.None?
    case Complete(_) => (item.status == TombstoneBound || item.status == Deleting) && item.inFlight.None?
    case _ => true
  }

  predicate AtItem(pc: Pc) { Running(pc) && !pc.Register? && !pc.MarkOperation? && !pc.Finalize? }

  predicate PcInv(op: Operation, pc: Pc)
  {
    && (Running(pc) && !pc.Register? ==> ActiveOperation(op))
    && (AtItem(pc) ==>
          && ItemAtPc(LaneOf(op, pc.s).item.progress, pc)
          && (pc.s == SourceFinal && !pc.Select? && !pc.Block? ==> op.registry.item.progress.status == Completed))
  }

  predicate Inv(w: World)
  {
    if w.db.operation.None? then
      Unregistered(w.db) && (w.pc.Idle? || w.pc.Register? || w.pc.Stopped?)
    else
      RowsInv(w.db) && PcInv(w.db.operation.value, w.pc)
  }

  /** A validated adapter of a consumed source that nothing has purged, and no process. */
  predicate Initial(w: World)
  {
    Unregistered(w.db) && w.pc == Idle
  }

  lemma NewOperationKeepsRows(db: Db)
    requires Eligible(db) && if db.operation.None? then Unregistered(db) else RowsInv(db)
    requires db.operation.Some? ==> db.operation.value.status == CompletedWithBlocks
    ensures NewOperation(db).operation.Some? && RowsInv(NewOperation(db))
    ensures ActiveOperation(NewOperation(db).operation.value)
  {
  }

  lemma RegistrationKeepsInv(w: World)
    requires Inv(w) && w.pc.Register?
    ensures Inv(RegisterOrResume(w))
  {
    hide NewOperation, OperationAuthorities, Lanes;
    var db := w.db;
    if (db.operation.Some? ==> !ActiveOperation(db.operation.value)) && db.adapter.status != Purged && Eligible(db) {
      NewOperationKeepsRows(db);
    }
  }

  /** Rewriting one lane of an active operation, within the lane's own rules. */
  lemma LaneWriteKeepsRows(db: Db, s: Surface, lane: Lane)
    requires db.operation.Some? && RowsInv(db) && ActiveOperation(db.operation.value)
    requires var before := LaneOf(db.operation.value, s);
             lane.item.id == before.item.id && lane.item.manifest == before.item.manifest
             && lane.reservation.id == before.reservation.id
                && lane.reservation.authority == before.reservation.authority
    requires LaneShape(lane, KeyOf(db, s))
    requires s == SourceFinal && Intended(lane.item.progress.status)
             ==> db.operation.value.registry.item.progress.status == Completed
    requires s == RegistryFinal ==> db.operation.value.registry.item.progress.status != Completed
    ensures WithLane(db, s, lane).operation.Some? && RowsInv(WithLane(db, s, lane))
    ensures ActiveOperation(WithLane(db, s, lane).operation.value)
    ensures LaneOf(WithLane(db, s, lane).operation.value, s) == lane
    ensures s == SourceFinal ==> WithLane(db, s, lane).operation.value.registry == db.operation.value.registry
  {
  }

  /** A step that changes no row: only the process's own knowledge moves on. */
  lemma ReadKeepsInv(w: World, next: World)
    requires Inv(w) && w.db.operation.Some?
    requires next.db == w.db && PcInv(w.db.operation.value, next.pc)
    ensures Inv(next)
  {
  }

  lemma LaneIsShaped(db: Db, s: Surface)
    requires db.operation.Some? && RowsInv(db)
    ensures LaneShape(LaneOf(db.operation.value, s), KeyOf(db, s))
    ensures Intended(db.operation.value.source.item.progress.status) ==>
              db.operation.value.registry.item.progress.status == Completed
  {
  }

  /** A transaction that rewrites one lane within the lane's own rules, and moves on at that item or
      past it. */
  lemma WriteKeepsInv(w: World, s: Surface, lane: Lane, pc: Pc)
    requires Inv(w) && AtItem(w.pc) && w.pc.s == s && !w.pc.Select?
    requires var before := LaneOf(w.db.operation.value, s);
             lane.item.id == before.item.id && lane.item.manifest == before.item.manifest
             && lane.reservation.id == before.reservation.id
                && lane.reservation.authority == before.reservation.authority
    requires LaneShape(lane, KeyOf(w.db, s))
    requires s == SourceFinal && Intended(lane.item.progress.status)
             ==> w.db.operation.value.registry.item.progress.status == Completed
    requires s == RegistryFinal ==> w.db.operation.value.registry.item.progress.status != Completed
    requires pc == After(s) || (AtItem(pc) && !w.pc.Block? && pc.s == s && ItemAtPc(lane.item.progress, pc))
    ensures Inv(World(WithLane(w.db, s, lane), w.disk, pc))
  {
    hide LaneShape, OperationAuthorities, OperationPhase, LaneAuthority, WithLane, RowsInv, KeyOf;
    LaneWriteKeepsRows(w.db, s, lane);
  }

  lemma PersistKeepsInv(w: World)
    requires Inv(w) && w.pc.Persist?
    ensures Inv(PersistMoveIntent(w, w.pc.s, w.pc.context, w.pc.inspected))
  {
    hide WithLane, CanProceed, RowsInv, AuthoritySnapshot;
    LaneIsShaped(w.db, w.pc.s);
    var s, lane := w.pc.s, LaneOf(w.db.operation.value, w.pc.s);
    var next := PersistMoveIntent(w, w.pc.s, w.pc.context, w.pc.inspected);
    if next.db != w.db {
      WriteKeepsInv(w, s, IntendMove(lane, w.pc.inspected, KeyOf(w.db, s)), next.pc);
    }
  }

  lemma BindKeepsInv(w: World)
    requires Inv(w) && w.pc.Bind?
    ensures Inv(BindMoveIntent(w, w.pc.s, w.pc.bound))
  {
    hide CanProceed, AuthoritySnapshot, LaneAuthority, OperationPhase, OperationAuthorities, RowsInv;
    LaneIsShaped(w.db, w.pc.s);
    var s, lane := w.pc.s, LaneOf(w.db.operation.value, w.pc.s);
    var next := BindMoveIntent(w, w.pc.s, w.pc.bound);
    if next.db != w.db {
      WriteKeepsInv(w, s, BindTombstone(lane, w.pc.bound), next.pc);
    }
  }

  lemma MarkKeepsInv(w: World)
    requires Inv(w) && w.pc.Mark?
    ensures w.pc.index < PlanSize(w.db, w.pc.s) && Inv(MarkEntry(w, w.pc.s, w.pc.index))
  {
    hide RowsInv, WithLane;
    LaneIsShaped(w.db, w.pc.s);
    var s, lane := w.pc.s, LaneOf(w.db.operation.value, w.pc.s);
    var next := MarkEntry(w, w.pc.s, w.pc.index);
    if next.pc.Unlink? {
      WriteKeepsInv(w, s, MarkInFlight(lane, InFlight(lane.item.progress.plan.value[w.pc.index].name, w.pc.index)),
                    next.pc);
    } else {
      ReadKeepsInv(w, next);
    }
  }

  lemma AdvanceKeepsInv(w: World)
    requires Inv(w) && w.pc.Advance?
    ensures Inv(AdvanceEntry(w, w.pc.s, w.pc.index))
  {
    hide CanProceed, AuthoritySnapshot, LaneAuthority, OperationPhase, OperationAuthorities, RowsInv;
    LaneIsShaped(w.db, w.pc.s);
    var s, lane := w.pc.s, LaneOf(w.db.operation.value, w.pc.s);
    var next := AdvanceEntry(w, w.pc.s, w.pc.index);
    if next.db != w.db {
      WriteKeepsInv(w, s, AdvancePast(lane, w.pc.index), next.pc);
    }
  }

  lemma MarkDirectoryKeepsInv(w: World)
    requires Inv(w) && w.pc.MarkDirectory?
    ensures Inv(MarkDirectoryUnlink(w, w.pc.s))
  {
    hide RowsInv, WithLane;
    LaneIsShaped(w.db, w.pc.s);
    var s, lane := w.pc.s, LaneOf(w.db.operation.value, w.pc.s);
    var next := MarkDirectoryUnlink(w, w.pc.s);
    if next.pc.Block? {
      ReadKeepsInv(w, next);
    } else {
      WriteKeepsInv(w, s, StartDirectoryUnlink(lane), next.pc);
    }
  }

  lemma CompleteKeepsInv(w: World)
    requires Inv(w) && w.pc.Complete?
    ensures Inv(CompleteItem(w, w.pc.s))
  {
    hide RowsInv, WithLane, KeyOf, AuthoritySnapshot, CanProceed;
    LaneIsShaped(w.db, w.pc.s);
    var s, lane := w.pc.s, LaneOf(w.db.operation.value, w.pc.s);
    var next := CompleteItem(w, w.pc.s);
    if next.db != w.db {
      WriteKeepsInv(w, s, Finish(lane, w.db.clock), next.pc);
    }
  }

  lemma BlockKeepsInv(w: World)
    requires Inv(w) && w.pc.Block?
    ensures Inv(BlockItem(w, w.pc.s, w.pc.code))
  {
    LaneIsShaped(w.db, w.pc.s);
    hide RowsInv, WithLane;
    var s, lane := w.pc.s, LaneOf(w.db.operation.value, w.pc.s);
    var next := BlockItem(w, w.pc.s, w.pc.code);
    if next.db != w.db {
      WriteKeepsInv(w, s, BlockLane(lane, w.pc.code), next.pc);
    }
  }

  lemma SelectKeepsInv(w: World)
    requires Inv(w) && w.pc.Select?
    ensures Inv(SelectItem(w, w.pc.s))
  {
    hide OperationAuthorities, OperationPhase, LaneAuthority;
    ReadKeepsInv(w, SelectItem(w, w.pc.s));
  }

  lemma LoadKeepsInv(w: World)
    requires Inv(w) && w.pc.Load?
    ensures Inv(LoadItem(w, w.pc.s))
  {
    LaneIsShaped(w.db, w.pc.s);
    hide RowsInv;
    ReadKeepsInv(w, LoadItem(w, w.pc.s));
  }

  lemma CaptureKeepsInv(w: World)
    requires Inv(w) && w.pc.Capture?
    ensures Inv(CaptureContext(w, w.pc.s))
  {
    hide OperationAuthorities, OperationPhase, LaneAuthority, CanProceed, AuthoritySnapshot;
    ReadKeepsInv(w, CaptureContext(w, w.pc.s));
  }

  lemma InspectKeepsInv(w: World)
    requires Inv(w) && w.pc.Inspect?
    ensures Inv(InspectItem(w, w.pc.s, w.pc.context))
  {
    hide OperationAuthorities, OperationPhase, LaneAuthority, HasManifest;
    ReadKeepsInv(w, InspectItem(w, w.pc.s, w.pc.context));
  }

  lemma ReauthorizeKeepsInv(w: World)
    requires Inv(w) && w.pc.Reauthorize?
    ensures Inv(ReauthorizeMove(w, w.pc.s))
  {
    hide OperationAuthorities, OperationPhase, LaneAuthority, CanProceed, AuthoritySnapshot;
    ReadKeepsInv(w, ReauthorizeMove(w, w.pc.s));
  }

  lemma MoveKeepsInv(w: World)
    requires Inv(w) && w.pc.Move?
    ensures Inv(MoveItem(w, w.pc.s))
  {
    LaneIsShaped(w.db, w.pc.s);
    hide RowsInv;
    ReadKeepsInv(w, MoveItem(w, w.pc.s));
  }

  lemma RecoverKeepsInv(w: World)
    requires Inv(w) && w.pc.Recover?
    ensures Inv(RecoverItem(w, w.pc.s))
  {
    LaneIsShaped(w.db, w.pc.s);
    hide RowsInv;
    ReadKeepsInv(w, RecoverItem(w, w.pc.s));
  }

  lemma UnlinkKeepsInv(w: World)
    requires Inv(w) && w.pc.Unlink?
    ensures w.pc.index < PlanSize(w.db, w.pc.s)
    ensures Inv(UnlinkItemEntry(w, w.pc.s, w.pc.index, w.pc.retry))
  {
    LaneIsShaped(w.db, w.pc.s);
    hide RowsInv;
    ReadKeepsInv(w, UnlinkItemEntry(w, w.pc.s, w.pc.index, w.pc.retry));
  }

  lemma RemoveTombstoneKeepsInv(w: World)
    requires Inv(w) && w.pc.RemoveTombstone?
    ensures Inv(RemoveItemTombstone(w, w.pc.s, w.pc.allowMissing))
  {
    LaneIsShaped(w.db, w.pc.s);
    hide RowsInv;
    ReadKeepsInv(w, RemoveItemTombstone(w, w.pc.s, w.pc.allowMissing));
  }

  lemma FinalizeKeepsInv(w: World)
    requires Inv(w) && w.pc.Finalize?
    ensures Inv(FinalizeOperation(w))
  {
    hide LaneShape, AuthoritySnapshot, NamespaceEmpty, OperationAuthority;
  }

  lemma MarkOperationKeepsInv(w: World)
    requires Inv(w) && w.pc.MarkOperation?
    ensures Inv(MarkOperationDeleting(w))
  {
  }

  lemma StepKeepsInv(w: World)
    requires Inv(w)
    ensures Inv(Step(w))
  {
    hide RowsInv, ItemAtPc, PersistMoveIntent, BindMoveIntent, MarkEntry, AdvanceEntry, MarkDirectoryUnlink,
         CompleteItem, BlockItem, SelectItem, LoadItem, CaptureContext, InspectItem, ReauthorizeMove, MoveItem,
         RecoverItem, UnlinkItemEntry, RemoveItemTombstone, FinalizeOperation, MarkOperationDeleting, RegisterOrResume;
    match w.pc
    case Idle =>
    case Stopped(_) =>
    case Register => RegistrationKeepsInv(w);
    case MarkOperation => MarkOperationKeepsInv(w);
    case Finalize => FinalizeKeepsInv(w);
    case Select(_) => SelectKeepsInv(w);
    case Load(_) => LoadKeepsInv(w);
    case Capture(_) => CaptureKeepsInv(w);
    case Inspect(_, _) => InspectKeepsInv(w);
    case Reauthorize(_) => ReauthorizeKeepsInv(w);
    case Move(_) => MoveKeepsInv(w);
    case Recover(_) => RecoverKeepsInv(w);
    case Unlink(_, _, _) => UnlinkKeepsInv(w);
    case RemoveTombstone(_, _) => RemoveTombstoneKeepsInv(w);
    case Persist(_, _, _) => PersistKeepsInv(w);
    case Bind(_, _) => BindKeepsInv(w);
    case Mark(_, _) => MarkKeepsInv(w);
    case Advance(_, _) => AdvanceKeepsInv(w);
    case MarkDirectory(_) => MarkDirectoryKeepsInv(w);
    case Complete(_) => CompleteKeepsInv(w);
    case Block(_, _) => BlockKeepsInv(w);
  }

  /** Clock and fences are no part of what the invariant says. */
  lemma AmbientKeepsInv(w: World, clock: nat, fences: Fences)
    requires Inv(w)
    ensures Inv(w.(db := w.db.(clock := clock, fences := fences)))
  {
  }

  lemma EventKeepsInv(w: World, e: Event)
    requires Inv(w)
    ensures Inv(Apply(w, e))
  {
    match e
    case Run => StepKeepsInv(w);
    case Tick => AmbientKeepsInv(w, w.db.clock + 1, w.db.fences);
    case SetFences(fences) => AmbientKeepsInv(w, w.db.clock, fences);
    case _ =>
  }

  lemma {:induction false} HistoryKeepsInv(w: World, events: seq<Event>)
    requires Inv(w)
    ensures Inv(History(w, events))
  {
    if events != [] {
      HistoryKeepsInv(w, events[..|events| - 1]);
      EventKeepsInv(History(w, events[..|events| - 1]), events[|events| - 1]);
    }
  }

  /** No step but registration brings an operation into being or puts one into the past. */
  lemma OnlyRegistrationRenews(w: World)
    requires !w.pc.Register?
    ensures Step(w).db.past == w.db.past && (Step(w).db.operation.Some? <==> w.db.operation.Some?)
    ensures w.db.operation.Some? ==>
              Step(w).db.operation.value.expectedAdapter == w.db.operation.value.expectedAdapter
              && Step(w).db.operation.value.expectedSource == w.db.operation.value.expectedSource
    ensures w.db.operation.None? ==> Step(w).db == w.db
  {
    hide CanProceed, AuthoritySnapshot, OperationAuthority, Rewrite, InspectSurface, MoveSurface, UnlinkEntry,
         RemoveDirectory, RecoverTombstone, Entry0, EntryAt, After, Eligible, PendingAuthority, GovernanceClear,
         NamespaceEmpty, IntendMove, BindTombstone, MarkInFlight, AdvancePast, StartDirectoryUnlink, Finish, BlockLane,
         PurgedAt;
  }

  /** The steps behind an item's position, each without its body. */
  lemma StepIs(w: World)
    requires w.db.operation.Some?
    ensures w.pc.Select? ==> Step(w) == SelectItem(w, w.pc.s)
    ensures w.pc.Persist? ==> Step(w) == PersistMoveIntent(w, w.pc.s, w.pc.context, w.pc.inspected)
    ensures w.pc.Move? ==> Step(w) == MoveItem(w, w.pc.s)
    ensures w.pc.Bind? ==> Step(w) == BindMoveIntent(w, w.pc.s, w.pc.bound)
    ensures w.pc.Block? ==> Step(w) == BlockItem(w, w.pc.s, w.pc.code)
    ensures w.pc.Finalize? ==> Step(w) == FinalizeOperation(w)
    ensures w.pc.Mark? && w.pc.index < PlanSize(w.db, w.pc.s) ==> Step(w) == MarkEntry(w, w.pc.s, w.pc.index)
    ensures w.pc.Mark? && w.pc.index >= PlanSize(w.db, w.pc.s) ==> Step(w) == Goto(w, MarkDirectory(w.pc.s))
    ensures w.pc.Unlink? && w.pc.index < PlanSize(w.db, w.pc.s) ==>
              Step(w) == UnlinkItemEntry(w, w.pc.s, w.pc.index, w.pc.retry)
    ensures w.pc.Advance? ==> Step(w) == AdvanceEntry(w, w.pc.s, w.pc.index)
    ensures w.pc.MarkDirectory? ==> Step(w) == MarkDirectoryUnlink(w, w.pc.s)
    ensures w.pc.RemoveTombstone? ==> Step(w) == RemoveItemTombstone(w, w.pc.s, w.pc.allowMissing)
    ensures w.pc.Complete? ==> Step(w) == CompleteItem(w, w.pc.s)
  {
    hide MarkOperationDeleting, SelectItem, LoadItem, CaptureContext, InspectItem, PersistMoveIntent, ReauthorizeMove,
         MoveItem, RecoverItem, BindMoveIntent, MarkEntry, UnlinkItemEntry, AdvanceEntry, MarkDirectoryUnlink,
         RemoveItemTombstone, CompleteItem, BlockItem, RegisterOrResume, FinalizeOperation;
  }

  // ----- Deletion safety -----

  /** The whole original surface, exactly as committed, leaves for its own item tombstone. */
  ghost predicate MovesCommittedSurface(w: World, after: Disk, s: Surface)
  {
    w.db.operation.Some? &&
    var op, a, key := w.db.operation.value, AddressOf(w.db, s), KeyOf(w.db, s);
    var item := LaneOf(op, s).item.progress;
    && ActiveOperation(op) && item.status == Verified && item.namespace == Some(key)
    && item.plan.Some? && item.observed.Some? && item.observed.value.entries == item.plan.value
    && a in w.disk.finals && w.disk.finals[a].identity == item.observed.value.directory
    && w.disk.finals[a].files.Keys == Names(item.plan.value)
    && SameEntries(w.disk.finals[a], item.plan.value)
    && Namespace(w.disk, a) == {}
    && after == w.disk.(finals := w.disk.finals - {a},
                        tombstones := w.disk.tombstones[key := Renamed(w.disk.finals[a])])
  }

  /** One file of the committed plan, with the committed identity, leaves the bound tombstone. */
  ghost predicate UnlinksPlannedEntry(w: World, after: Disk, s: Surface, e: Entry)
  {
    w.db.operation.Some? &&
    var op, key := w.db.operation.value, KeyOf(w.db, s);
    var item := LaneOf(op, s).item.progress;
    && ActiveOperation(op) && item.status == Deleting && item.namespace == Some(key)
    && item.plan.Some? && e in item.plan.value && item.tombstone.Some?
    && item.nextEntry < |item.plan.value| && item.inFlight == Some(InFlight(e.name, item.nextEntry))
    && key in w.disk.tombstones
    && w.disk.tombstones[key].identity.key == item.tombstone.value.directory.key
    && e.name in w.disk.tombstones[key].files && w.disk.tombstones[key].files[e.name] == e.identity
    && after == w.disk.(tombstones := w.disk.tombstones[
                  key := Directory(Renamed(w.disk.tombstones[key]).identity, w.disk.tombstones[key].files - {e.name})])
  }

  /** The bound tombstone, emptied through its whole plan, is removed. */
  ghost predicate RemovesEmptyTombstone(w: World, after: Disk, s: Surface)
  {
    w.db.operation.Some? &&
    var op, key := w.db.operation.value, KeyOf(w.db, s);
    var item := LaneOf(op, s).item.progress;
    && ActiveOperation(op) && item.directoryUnlinkStarted && item.namespace == Some(key)
    && item.plan.Some? && item.tombstone.Some? && item.nextEntry == |item.plan.value|
    && key in w.disk.tombstones && w.disk.tombstones[key].files == map[]
    && w.disk.tombstones[key].identity.key == item.tombstone.value.directory.key
    && after == w.disk.(tombstones := w.disk.tombstones - {key})
  }

  /** A change at one surface; the source is touched only after the registry item is completed. */
  ghost predicate SurfaceChange(w: World, after: Disk, s: Surface)
  {
    && w.db.operation.Some?
    && (|| MovesCommittedSurface(w, after, s)
        || RemovesEmptyTombstone(w, after, s)
        || exists e :: UnlinksPlannedEntry(w, after, s, e))
    && (s == SourceFinal ==> w.db.operation.value.registry.item.progress.status == Completed)
  }

  /** The only changes a purge process ever makes on the disk. */
  ghost predicate SafeChange(w: World, after: Disk)
  {
    after == w.disk || exists s :: SurfaceChange(w, after, s)
  }

  lemma {:induction false} PlannedIsInPlan(plan: seq<Entry>, name: FileName)
    ensures var e := Planned(plan, name); e.Some? ==> e.value in plan && e.value.name == name
  {
    if plan != [] && plan[0].name != name {
      PlannedIsInPlan(plan[1..], name);
    }
  }

  lemma MoveIsSafe(w: World)
    requires Inv(w) && w.pc.Move? && MoveItem(w, w.pc.s).disk != w.disk
    ensures MovesCommittedSurface(w, MoveItem(w, w.pc.s).disk, w.pc.s)
  {
  }

  lemma UnlinkIsSafe(w: World)
    requires Inv(w) && w.pc.Unlink?
    requires UnlinkItemEntry(w, w.pc.s, w.pc.index, w.pc.retry).disk != w.disk
    ensures exists e :: UnlinksPlannedEntry(w, UnlinkItemEntry(w, w.pc.s, w.pc.index, w.pc.retry).disk, w.pc.s, e)
  {
    var plan := ItemProgress(w.db, w.pc.s).plan.value;
    PlannedIsInPlan(plan, plan[w.pc.index].name);
    var e := Planned(plan, plan[w.pc.index].name).value;
    assert UnlinksPlannedEntry(w, UnlinkItemEntry(w, w.pc.s, w.pc.index, w.pc.retry).disk, w.pc.s, e);
  }

  lemma RemoveIsSafe(w: World)
    requires Inv(w) && w.pc.RemoveTombstone?
    requires RemoveItemTombstone(w, w.pc.s, w.pc.allowMissing).disk != w.disk
    ensures RemovesEmptyTombstone(w, RemoveItemTombstone(w, w.pc.s, w.pc.allowMissing).disk, w.pc.s)
  {
  }

  lemma SourceComesSecond(w: World)
    requires Inv(w) && (w.pc.Move? || w.pc.Unlink? || w.pc.RemoveTombstone?) && w.pc.s == SourceFinal
    ensures w.db.operation.value.registry.item.progress.status == Completed
  {
  }

  /** Only the three storage calls write the disk. */
  lemma RowStepsKeepTheDisk(w: World)
    requires !w.pc.Move? && !w.pc.Unlink? && !w.pc.RemoveTombstone?
    ensures Step(w).disk == w.disk
  {
    hide CanProceed, AuthoritySnapshot, OperationAuthority, PurgedAt, Rewrite, WithLane, NewOperation, InspectSurface,
         RecoverTombstone, Entry0, EntryAt, After, Eligible, PendingAuthority, GovernanceClear, NamespaceEmpty;
  }

  lemma StepIsSafe(w: World)
    requires Inv(w)
    ensures SafeChange(w, Step(w).disk)
  {
    hide MovesCommittedSurface, RemovesEmptyTombstone, UnlinksPlannedEntry, RowsInv, ItemAtPc, MoveItem,
         UnlinkItemEntry, RemoveItemTombstone;
    if !w.pc.Move? && !w.pc.Unlink? && !w.pc.RemoveTombstone? {
      RowStepsKeepTheDisk(w);
    } else if Step(w).disk != w.disk {
      var s := w.pc.s;
      if s == SourceFinal { SourceComesSecond(w); }
      match w.pc {
        case Move(_) => MoveIsSafe(w);
        case Unlink(_, _, _) => UnlinkIsSafe(w);
        case RemoveTombstone(_, _) => RemoveIsSafe(w);
      }
      assert SurfaceChange(w, Step(w).disk, s);
    }
  }

  /** Deletion safety: after any history of steps, crashes, restarts, clock ticks, changing fences and
      arbitrary outside changes of the disk, the next step of the process changes nothing but one
      committed surface, planned file or emptied tombstone, and touches the source only after the
      registry item is completed. */
  lemma DeletionSafety(w: World, events: seq<Event>)
    requires Initial(w)
    ensures SafeChange(History(w, events), Step(History(w, events)).disk)
  {
    HistoryKeepsInv(w, events);
    StepIsSafe(History(w, events));
  }

  // ----- Every process ends -----

  lemma PlansAreSmall(w: World, s: Surface)
    requires Inv(w) && w.db.operation.Some?
    ensures PlanSize(w.db, s) <= 3
  {
  }

  lemma MarkStepDecreases(w: World)
    requires w.db.operation.Some? && w.pc.Mark? && PlanSize(w.db, w.pc.s) <= 3
    ensures StepsLeft(Step(w).pc) < StepsLeft(w.pc)
  {
    hide MarkInFlight, WithLane, LaneOf;
  }

  lemma UnlinkStepDecreases(w: World)
    requires w.db.operation.Some? && w.pc.Unlink? && PlanSize(w.db, w.pc.s) <= 3
    ensures StepsLeft(Step(w).pc) < StepsLeft(w.pc)
  {
    hide UnlinkEntry, KeyOf;
  }

  lemma AdvanceStepDecreases(w: World)
    requires w.db.operation.Some? && w.pc.Advance? && PlanSize(w.db, w.pc.s) <= 3
    ensures StepsLeft(Step(w).pc) < StepsLeft(w.pc)
  {
  }

  lemma LoopStepDecreases(w: World)
    requires w.db.operation.Some? && LoopPc(w.pc) && PlanSize(w.db, w.pc.s) <= 3
    ensures StepsLeft(Step(w).pc) < StepsLeft(w.pc)
  {
    hide Step, StepsLeft, PlanSize;
    if w.pc.Mark? {
      MarkStepDecreases(w);
    } else if w.pc.Unlink? {
      UnlinkStepDecreases(w);
    } else {
      AdvanceStepDecreases(w);
    }
  }

  lemma MoveStepDecreases(w: World)
    requires w.db.operation.Some? && (w.pc.Move? || w.pc.Recover? || w.pc.Inspect?)
    ensures StepsLeft(Step(w).pc) < StepsLeft(w.pc)
  {
    hide MoveSurface, RecoverTombstone, InspectSurface, ItemProgress, KeyOf, AttemptOf;
  }

  lemma PersistStepDecreases(w: World)
    requires w.db.operation.Some? && w.pc.Persist?
    ensures StepsLeft(Step(w).pc) < StepsLeft(w.pc)
  {
    hide CanProceed, AuthoritySnapshot, WithLane, IntendMove, KeyOf, LaneOf;
  }

  lemma BindStepDecreases(w: World)
    requires w.db.operation.Some? && w.pc.Bind?
    ensures StepsLeft(Step(w).pc) < StepsLeft(w.pc)
  {
    hide CanProceed, AuthoritySnapshot, WithLane, BindTombstone, LaneOf;
  }

  predicate LoopPc(pc: Pc) { pc.Mark? || pc.Unlink? || pc.Advance? }

  predicate MovePc(pc: Pc) { pc.Move? || pc.Recover? || pc.Bind? || pc.Persist? || pc.Inspect? }

  predicate EndPc(pc: Pc) { pc.RemoveTombstone? || pc.MarkDirectory? || pc.Complete? || pc.Block? }

  lemma EndStepDecreases(w: World)
    requires w.db.operation.Some? && (w.pc.RemoveTombstone? || w.pc.MarkDirectory? || w.pc.Complete? || w.pc.Block?)
    ensures StepsLeft(Step(w).pc) < StepsLeft(w.pc)
  {
    hide RemoveDirectory, WithLane, StartDirectoryUnlink, Finish, BlockLane, CanProceed, AuthoritySnapshot, KeyOf;
  }

  lemma OtherStepDecreases(w: World)
    requires Running(w.pc)
    requires w.db.operation.Some? ==> !LoopPc(w.pc) && !MovePc(w.pc) && !EndPc(w.pc)
    ensures StepsLeft(Step(w).pc) < StepsLeft(w.pc)
  {
    hide MarkEntry, UnlinkItemEntry, AdvanceEntry, MoveItem, RecoverItem, BindMoveIntent, PersistMoveIntent,
         InspectItem, MarkDirectoryUnlink, RemoveItemTombstone, CompleteItem, BlockItem, CanProceed, AuthoritySnapshot,
         OperationAuthority, NamespaceEmpty, PurgedAt, NewOperation, Eligible, PendingAuthority, GovernanceClear;
  }

  /** Every step of a live process strictly decreases the item phase and the entries that remain. */
  lemma StepDecreases(w: World)
    requires Inv(w) && Running(w.pc)
    ensures StepsLeft(Step(w).pc) < StepsLeft(w.pc)
  {
    hide RowsInv, Step, StepsLeft;
    if w.db.operation.Some? && LoopPc(w.pc) {
      PlansAreSmall(w, w.pc.s);
      LoopStepDecreases(w);
    } else if w.db.operation.Some? && MovePc(w.pc) {
      if w.pc.Bind? {
        BindStepDecreases(w);
      } else if w.pc.Persist? {
        PersistStepDecreases(w);
      } else {
        MoveStepDecreases(w);
      }
    } else if w.db.operation.Some? && EndPc(w.pc) {
      EndStepDecreases(w);
    } else {
      OtherStepDecreases(w);
    }
  }

  lemma {:induction false} RestingStays(w: World, n: nat)
    requires !Running(w.pc)
    ensures Steps(w, n) == w
    decreases n
  {
    if n > 0 {
      RestingStays(w, n - 1);
    }
  }

  /** Every process ends, after at most the number of steps that its position still allows. */
  lemma {:induction false} EveryProcessEnds(w: World, n: nat)
    requires Inv(w) && n >= StepsLeft(w.pc)
    ensures !Running(Steps(w, n).pc)
    decreases n
  {
    hide Inv, Step, StepsLeft;
    if Running(w.pc) {
      StepKeepsInv(w);
      StepDecreases(w);
      EveryProcessEnds(Step(w), n - 1);
    } else {
      RestingStays(w, n);
    }
  }
}
