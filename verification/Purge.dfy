/** The crash-resumable adapter purge (adapter_purge.py) as a machine of atomic steps.

    A step is one `factory.begin()` transaction or one storage call.  `pc` holds what the running
    process knows; a crash forgets it, and keeps the rows and the disk. */
module Purge {
  import opened Common
  import opened ArtifactStore

  // ----- Rows -----

  /** `Live` is "validated" for an adapter and "consumed" for a source. */
  datatype Lifecycle = Live | PurgePending | Purged | OtherStatus

  datatype Resource = Resource(
    id: Uuid, version: nat, status: Lifecycle, purgedAt: Option<nat>, facts: Facts)

  /** `authoritative` is "committed" for an import attempt and "succeeded" for a registry attempt. */
  datatype Attempt = Attempt(
    version: nat, authoritative: bool, facts: Facts, manifest: OwnershipManifest)

  datatype ResourceSection = ResourceSection(id: Uuid, version: nat, status: Lifecycle, facts: Facts)

  datatype AttemptSection = AttemptSection(version: nat, authoritative: bool, facts: Facts)

  datatype Snapshot = Snapshot(
    adapter: ResourceSection, source: ResourceSection,
    sourceAttempt: AttemptSection, registryAttempt: AttemptSection)

  datatype ItemStatus = Registered | Verified | TombstoneBound | Deleting | Completed | Blocked

  datatype InFlight = InFlight(name: FileName, index: nat)

  /** The deletion progress that an item and its reservation both record.  A reservation names the
      statuses of this type registered, deletion_authorized, tombstone_bound, deleting, completed
      and blocked. */
  datatype Progress = Progress(
    status: ItemStatus,
    observed: Option<Observation>,
    plan: Option<seq<Entry>>,
    namespace: Option<TombstoneKey>,
    tombstone: Option<Observation>,
    nextEntry: nat,
    inFlight: Option<InFlight>,
    directoryUnlinkStarted: bool,
    completedAt: Option<nat>,
    blockedCode: Option<Code>)

  datatype Item = Item(id: Uuid, version: nat, manifest: OwnershipManifest, progress: Progress)

  /** What registration writes into a reservation once and for all. */
  datatype Authority = Authority(
    expectedResourceVersion: nat, expectedAttemptVersion: nat, manifest: OwnershipManifest, snapshot: Snapshot)

  datatype Reservation = Reservation(id: Uuid, version: nat, authority: Authority, progress: Progress)

  /** One surface of one operation. */
  datatype Lane = Lane(item: Item, reservation: Reservation)

  datatype OperationStatus = OperationRegistered | OperationDeleting | OperationCompleted | CompletedWithBlocks

  datatype Operation = Operation(
    id: Uuid,
    status: OperationStatus,
    version: nat,
    expectedAdapter: nat,
    expectedSource: nat,
    expectedSourceAttempt: nat,
    expectedRegistryAttempt: nat,
    snapshot: Snapshot,
    registry: Lane,
    source: Lane,
    completedCount: nat,
    blockedCount: nat,
    completedAt: Option<nat>,
    auditedAt: Option<nat>)

  /** Rows of other protocols that make a purge transaction refuse. */
  datatype Fences = Fences(evaluation: bool, governance: bool, reconciliation: bool)

  datatype Db = Db(
    department: Uuid,
    adapter: Resource,
    source: Resource,
    sourceAttempt: Attempt,
    registryAttempt: Attempt,
    operation: Option<Operation>,
    past: seq<Operation>,
    fences: Fences,
    purgeAudits: seq<Uuid>,
    nextSerial: nat,
    clock: nat)

  // ----- The process -----

  datatype MoveContext = MoveContext(itemVersion: nat, reservationVersion: nat, snapshot: Snapshot)

  /** `Refused` is a ServiceError that leaves every row as it was; `Failed` an untranslated exception. */
  datatype Ending = Returned | Refused | Failed

  datatype Pc =
    | Idle
    | Register
    | MarkOperation
    | Select(s: Surface)
    | Load(s: Surface)
    | Capture(s: Surface)
    | Inspect(s: Surface, context: MoveContext)
    | Persist(s: Surface, context: MoveContext, inspected: Observation)
    | Reauthorize(s: Surface)
    | Move(s: Surface)
    | Recover(s: Surface)
    | Bind(s: Surface, bound: Observation)
    | Mark(s: Surface, index: nat)
    | Unlink(s: Surface, index: nat, retry: bool)
    | Advance(s: Surface, index: nat)
    | MarkDirectory(s: Surface)
    | RemoveTombstone(s: Surface, allowMissing: bool)
    | Complete(s: Surface)
    | Block(s: Surface, code: Code)
    | Finalize
    | Stopped(ending: Ending)

  datatype World = World(db: Db, disk: Disk, pc: Pc)

  function Goto(w: World, pc: Pc): World { w.(pc := pc) }

  function Stop(w: World, ending: Ending): World { w.(pc := Stopped(ending)) }

  // ----- Reading rows -----

  predicate ActiveOperation(op: Operation)
  {
    op.status == OperationRegistered || op.status == OperationDeleting
  }

  predicate ActiveItem(item: Item)
  {
    item.progress.status != Completed && item.progress.status != Blocked
  }

  function LaneOf(op: Operation, s: Surface): Lane
  {
    match s
    case RegistryFinal => op.registry
    case SourceFinal => op.source
  }

  /** The item and the reservation of one surface are rewritten in one transaction. */
  function Rewrite(lane: Lane, item: Progress, reservation: Progress): Lane
  {
    Lane(lane.item.(version := lane.item.version + 1, progress := item),
         lane.reservation.(version := lane.reservation.version + 1, progress := reservation))
  }

  // What each transaction writes into a lane.

  function IntendMove(lane: Lane, inspected: Observation, key: TombstoneKey): Lane
  {
    var intend := (p: Progress) => p.(
      status := Verified, observed := Some(inspected), plan := Some(inspected.entries), namespace := Some(key));
    Rewrite(lane, intend(lane.item.progress), intend(lane.reservation.progress))
  }

  function BindTombstone(lane: Lane, bound: Observation): Lane
  {
    var bind := (p: Progress) => p.(status := TombstoneBound, tombstone := Some(bound));
    Rewrite(lane, bind(lane.item.progress), bind(lane.reservation.progress))
  }

  function MarkInFlight(lane: Lane, marker: InFlight): Lane
  {
    var i := lane.item.progress.(status := Deleting, inFlight := Some(marker));
    Rewrite(lane, i,
            lane.reservation.progress.(status := Deleting, inFlight := Some(marker), nextEntry := i.nextEntry))
  }

  function AdvancePast(lane: Lane, index: nat): Lane
  {
    var i, r := lane.item.progress, lane.reservation.progress;
    var next := if i.nextEntry > index + 1 then i.nextEntry else index + 1;
    Rewrite(lane, i.(nextEntry := next, inFlight := None), r.(nextEntry := next, inFlight := None))
  }

  function StartDirectoryUnlink(lane: Lane): Lane
  {
    var i, r := lane.item.progress, lane.reservation.progress;
    Lane(if i.directoryUnlinkStarted then lane.item
         else lane.item.(version := lane.item.version + 1, progress := i.(directoryUnlinkStarted := true)),
         if r.directoryUnlinkStarted then lane.reservation
         else lane.reservation.(version := lane.reservation.version + 1,
                                progress := r.(directoryUnlinkStarted := true)))
  }

  function Finish(lane: Lane, now: nat): Lane
  {
    Rewrite(lane, lane.item.progress.(status := Completed, inFlight := None, completedAt := Some(now)),
            lane.reservation.progress.(status := Completed, completedAt := Some(now)))
  }

  function BlockLane(lane: Lane, code: Code): Lane
  {
    var block := (p: Progress) => p.(status := Blocked, blockedCode := Some(code));
    Rewrite(lane, block(lane.item.progress), block(lane.reservation.progress))
  }

  function WithLane(db: Db, s: Surface, lane: Lane): Db
    requires db.operation.Some?
  {
    var op := db.operation.value;
    match s
    case RegistryFinal => db.(operation := Some(op.(registry := lane)))
    case SourceFinal => db.(operation := Some(op.(source := lane)))
  }

  function ResourceOf(db: Db, s: Surface): Resource
  {
    match s
    case RegistryFinal => db.adapter
    case SourceFinal => db.source
  }

  function AttemptOf(db: Db, s: Surface): Attempt
  {
    match s
    case RegistryFinal => db.registryAttempt
    case SourceFinal => db.sourceAttempt
  }

  function AddressOf(db: Db, s: Surface): Address
  {
    Address(s, db.department, ResourceOf(db, s).id)
  }

  function KeyOf(db: Db, s: Surface): TombstoneKey
    requires db.operation.Some?
  {
    TombstoneKey(AddressOf(db, s), LaneOf(db.operation.value, s).item.id)
  }

  function SectionOf(r: Resource): ResourceSection
  {
    ResourceSection(r.id, r.version, r.status, r.facts)
  }

  function AttemptSectionOf(a: Attempt): AttemptSection
  {
    AttemptSection(a.version, a.authoritative, a.facts)
  }

  function AuthoritySnapshot(db: Db): Snapshot
  {
    Snapshot(SectionOf(db.adapter), SectionOf(db.source),
             AttemptSectionOf(db.sourceAttempt), AttemptSectionOf(db.registryAttempt))
  }

  predicate GovernanceClear(db: Db) { !db.fences.evaluation && !db.fences.governance }

  predicate PendingAuthority(db: Db)
  {
    db.adapter.status == PurgePending && db.source.status == PurgePending
  }

  predicate Eligible(db: Db)
  {
    && (db.adapter.status == Live || db.adapter.status == PurgePending)
    && (db.source.status == Live || db.source.status == PurgePending)
    && db.sourceAttempt.authoritative
    && db.registryAttempt.authoritative
    && !db.fences.reconciliation
    && GovernanceClear(db)
  }

  predicate CanProceed(db: Db) { PendingAuthority(db) && Eligible(db) }

  /** `_assert_operation_authority`: exact versions, and the snapshot apart from status and version. */
  predicate OperationAuthority(db: Db, op: Operation)
  {
    && db.adapter.version == op.expectedAdapter
    && db.source.version == op.expectedSource
    && db.sourceAttempt.version == op.expectedSourceAttempt
    && db.registryAttempt.version == op.expectedRegistryAttempt
    && db.sourceAttempt.authoritative
    && db.registryAttempt.authoritative
    && db.adapter.id == op.snapshot.adapter.id
    && db.source.id == op.snapshot.source.id
    && db.adapter.facts == op.snapshot.adapter.facts
    && db.source.facts == op.snapshot.source.facts
    && db.sourceAttempt.facts == op.snapshot.sourceAttempt.facts
    && db.registryAttempt.facts == op.snapshot.registryAttempt.facts
  }

  // ----- Registration -----

  const FRESH := Progress(Registered, None, None, None, None, 0, None, false, None, None)

  function NewLane(db: Db, s: Surface, serial: nat): Lane
  {
    var manifest := AttemptOf(db, s).manifest;
    var authority := Authority(ResourceOf(db, s).version, AttemptOf(db, s).version, manifest, AuthoritySnapshot(db));
    Lane(Item(Issued(serial + 1), 1, manifest, FRESH), Reservation(Issued(serial), 1, authority, FRESH))
  }

  function Pending(r: Resource): Resource
  {
    r.(status := PurgePending, version := r.version + 1)
  }

  /** The registration transaction: the operation keeps the snapshot taken before the two status
      changes, each reservation the snapshot taken after them. */
  function NewOperation(db: Db): Db
  {
    var pending := db.(adapter := Pending(db.adapter), source := Pending(db.source));
    var op := Operation(
      Issued(db.nextSerial), OperationRegistered, 1,
      pending.adapter.version, pending.source.version,
      pending.sourceAttempt.version, pending.registryAttempt.version,
      AuthoritySnapshot(db),
      NewLane(pending, RegistryFinal, db.nextSerial + 1),
      NewLane(pending, SourceFinal, db.nextSerial + 3),
      0, 0, None, None);
    pending.(operation := Some(op),
             past := db.past + (if db.operation.Some? then [db.operation.value] else []),
             nextSerial := db.nextSerial + 5)
  }

  function RegisterOrResume(w: World): World
  {
    var db := w.db;
    if db.operation.Some? && ActiveOperation(db.operation.value) then
      if PendingAuthority(db) && GovernanceClear(db) then Goto(w, MarkOperation) else Stop(w, Refused)
    else if db.adapter.status == Purged then Stop(w, Returned)
    else if Eligible(db) then World(NewOperation(db), w.disk, MarkOperation)
    else Stop(w, Refused)
  }

  function MarkOperationDeleting(w: World): World
    requires w.db.operation.Some?
  {
    var op := w.db.operation.value;
    var next := Goto(w, Select(RegistryFinal));
    if op.status == OperationRegistered then
      next.(db := w.db.(operation := Some(op.(status := OperationDeleting, version := op.version + 1))))
    else next
  }

  // ----- One item -----

  /** What the process does when the item at `s` is done, blocked or not active. */
  function After(s: Surface): Pc
  {
    match s
    case RegistryFinal => Select(SourceFinal)
    case SourceFinal => Finalize
  }

  function SelectItem(w: World, s: Surface): World
    requires w.db.operation.Some?
  {
    var op := w.db.operation.value;
    if s == SourceFinal && op.registry.item.progress.status != Completed then
      Goto(w, if ActiveItem(op.source.item) then Block(SourceFinal, DependencyActive) else Finalize)
    else Goto(w, if ActiveItem(LaneOf(op, s).item) then Load(s) else After(s))
  }

  function ItemProgress(db: Db, s: Surface): Progress
    requires db.operation.Some?
  {
    LaneOf(db.operation.value, s).item.progress
  }

  function LoadItem(w: World, s: Surface): World
    requires w.db.operation.Some?
  {
    var p := ItemProgress(w.db, s);
    match p.status
    case Completed => Goto(w, After(s))
    case Registered => Goto(w, Capture(s))
    case Verified => Goto(w, if p.observed.None? || p.plan.None? then Block(s, OwnershipMismatch) else Reauthorize(s))
    case _ => Goto(w, Entry0(w.db, s))
  }

  function PlanSize(db: Db, s: Surface): nat
    requires db.operation.Some?
  {
    var plan := ItemProgress(db, s).plan;
    if plan.Some? then |plan.value| else 0
  }

  /** The loop over the plan: entry `index`, or the directory after the last one. */
  function EntryAt(db: Db, s: Surface, index: nat): Pc
    requires db.operation.Some?
  {
    if index < PlanSize(db, s) then Mark(s, index) else MarkDirectory(s)
  }

  function Entry0(db: Db, s: Surface): Pc
    requires db.operation.Some?
  {
    var p := ItemProgress(db, s);
    if p.observed.None? || p.plan.None? || p.tombstone.None? || p.namespace.None? then
      Block(s, OwnershipMismatch)
    else EntryAt(db, s, 0)
  }

  function CaptureContext(w: World, s: Surface): World
    requires w.db.operation.Some?
  {
    var lane := LaneOf(w.db.operation.value, s);
    if !CanProceed(w.db) then Stop(w, Refused)
    else if lane.item.progress.status != Registered || lane.reservation.progress.status != Registered then
      Goto(w, Block(s, AuthorityChanged))
    else
      Goto(w, Inspect(s, MoveContext(lane.item.version, lane.reservation.version, AuthoritySnapshot(w.db))))
  }

  function InspectItem(w: World, s: Surface, context: MoveContext): World
  {
    match InspectSurface(w.disk, AddressOf(w.db, s), AttemptOf(w.db, s).manifest)
    case Found(inspected) => Goto(w, Persist(s, context, inspected))
    case Rejected(code) => Goto(w, Block(s, code))
    case _ => Goto(w, Block(s, AuthorityChanged))
  }

  function PersistMoveIntent(w: World, s: Surface, context: MoveContext, inspected: Observation): World
    requires w.db.operation.Some?
  {
    var lane := LaneOf(w.db.operation.value, s);
    var i, r := lane.item.progress, lane.reservation.progress;
    if !CanProceed(w.db) then Stop(w, Refused)
    else if
      || i.status != Registered
      || r.status != Registered
      || lane.item.version != context.itemVersion
      || lane.reservation.version != context.reservationVersion
      || AuthoritySnapshot(w.db) != context.snapshot
    then Goto(w, Block(s, AuthorityChanged))
    else
      World(WithLane(w.db, s, IntendMove(lane, inspected, KeyOf(w.db, s))), w.disk, Reauthorize(s))
  }

  function ReauthorizeMove(w: World, s: Surface): World
    requires w.db.operation.Some?
  {
    var lane := LaneOf(w.db.operation.value, s);
    if lane.item.progress.status != Verified || lane.reservation.progress.status != Verified then
      Goto(w, Block(s, AuthorityChanged))
    else if !CanProceed(w.db) then Stop(w, Refused)
    else Goto(w, Move(s))
  }

  function MoveItem(w: World, s: Surface): World
    requires w.db.operation.Some?
  {
    var p := ItemProgress(w.db, s);
    if p.observed.None? || p.plan.None? then Goto(w, Block(s, OwnershipMismatch))
    else
      var (disk, outcome) := MoveSurface(w.disk, KeyOf(w.db, s), p.observed.value, p.plan.value, p.namespace);
      match outcome
      case Found(bound) => World(w.db, disk, Bind(s, bound))
      case Retryable => Stop(w, Refused)
      case _ => Goto(w, Recover(s))
  }

  function RecoverItem(w: World, s: Surface): World
    requires w.db.operation.Some?
  {
    var p := ItemProgress(w.db, s);
    if p.observed.None? || p.plan.None? then Goto(w, Block(s, OwnershipMismatch))
    else
      match RecoverTombstone(w.disk, KeyOf(w.db, s), p.observed.value, p.plan.value, p.namespace)
      case Found(bound) => Goto(w, Bind(s, bound))
      case Retryable => Stop(w, Refused)
      case Rejected(code) => Goto(w, Block(s, code))
      case _ => Stop(w, Failed)
  }

  function BindMoveIntent(w: World, s: Surface, bound: Observation): World
    requires w.db.operation.Some?
  {
    var lane := LaneOf(w.db.operation.value, s);
    var i, r := lane.item.progress, lane.reservation.progress;
    if i.status == TombstoneBound then
      Goto(w, if i.tombstone != Some(bound) then Block(s, AuthorityChanged) else Entry0(w.db, s))
    else if i.status != Verified || r.status != Verified then Goto(w, Block(s, AuthorityChanged))
    else if !CanProceed(w.db) then Stop(w, Refused)
    else if AuthoritySnapshot(w.db) != lane.reservation.authority.snapshot || i.namespace != r.namespace then
      Goto(w, Block(s, AuthorityChanged))
    else
      var db := WithLane(w.db, s, BindTombstone(lane, bound));
      World(db, w.disk, Entry0(db, s))
  }

  function MarkEntry(w: World, s: Surface, index: nat): World
    requires w.db.operation.Some? && index < PlanSize(w.db, s)
  {
    var lane := LaneOf(w.db.operation.value, s);
    var i := lane.item.progress;
    var marker := InFlight(i.plan.value[index].name, index);
    if i.status == Completed then Goto(w, After(s))
    else if i.nextEntry > index then Goto(w, EntryAt(w.db, s, index + 1))
    else if i.nextEntry != index then Goto(w, Block(s, AuthorityChanged))
    else if i.inFlight.Some? && i.inFlight.value != marker then Goto(w, Block(s, AuthorityChanged))
    else
      World(WithLane(w.db, s, MarkInFlight(lane, marker)), w.disk, Unlink(s, index, i.inFlight.Some?))
  }

  function UnlinkItemEntry(w: World, s: Surface, index: nat, retry: bool): World
    requires w.db.operation.Some? && index < PlanSize(w.db, s)
  {
    var p := ItemProgress(w.db, s);
    if p.tombstone.None? then Goto(w, Block(s, OwnershipMismatch))
    else
      var (disk, outcome) := UnlinkEntry(w.disk, KeyOf(w.db, s), p.tombstone.value, p.plan.value,
                                         p.plan.value[index].name, retry);
      match outcome
      case Found(_) => World(w.db, disk, Advance(s, index))
      case Rejected(code) => Goto(w, Block(s, code))
      case _ => Stop(w, Failed)
  }

  function AdvanceEntry(w: World, s: Surface, index: nat): World
    requires w.db.operation.Some?
  {
    var lane := LaneOf(w.db.operation.value, s);
    var db := WithLane(w.db, s, AdvancePast(lane, index));
    World(db, w.disk, EntryAt(db, s, index + 1))
  }

  function MarkDirectoryUnlink(w: World, s: Surface): World
    requires w.db.operation.Some?
  {
    var lane := LaneOf(w.db.operation.value, s);
    var i := lane.item.progress;
    if i.nextEntry != PlanSize(w.db, s) || i.inFlight.Some? then Goto(w, Block(s, AuthorityChanged))
    else
      World(WithLane(w.db, s, StartDirectoryUnlink(lane)), w.disk, RemoveTombstone(s, i.directoryUnlinkStarted))
  }

  function RemoveItemTombstone(w: World, s: Surface, allowMissing: bool): World
    requires w.db.operation.Some?
  {
    var p := ItemProgress(w.db, s);
    if p.tombstone.None? then Goto(w, Block(s, OwnershipMismatch))
    else
      var (disk, outcome) := RemoveDirectory(w.disk, KeyOf(w.db, s), p.tombstone.value, allowMissing);
      match outcome
      case Found(_) => World(w.db, disk, Complete(s))
      case Rejected(code) => Goto(w, Block(s, code))
      case _ => Stop(w, Failed)
  }

  function CompleteItem(w: World, s: Surface): World
    requires w.db.operation.Some?
  {
    World(WithLane(w.db, s, Finish(LaneOf(w.db.operation.value, s), w.db.clock)), w.disk, After(s))
  }

  function BlockItem(w: World, s: Surface, code: Code): World
    requires w.db.operation.Some?
  {
    var lane := LaneOf(w.db.operation.value, s);
    var next := Goto(w, After(s));
    if lane.item.progress.status == Completed then next
    else next.(db := WithLane(w.db, s, BlockLane(lane, code)))
  }

  // ----- Finalization -----

  function PurgedAt(r: Resource, now: nat): Resource
  {
    r.(status := Purged, purgedAt := Some(now), version := r.version + 1)
  }

  function BlockedItems(op: Operation): nat
  {
    (if op.registry.item.progress.status == Blocked then 1 else 0)
      + (if op.source.item.progress.status == Blocked then 1 else 0)
  }

  function CompletedItems(op: Operation): nat
  {
    (if op.registry.item.progress.status == Completed then 1 else 0)
      + (if op.source.item.progress.status == Completed then 1 else 0)
  }

  function FinalizeOperation(w: World): World
    requires w.db.operation.Some?
  {
    var db, op := w.db, w.db.operation.value;
    var blocked := BlockedItems(op);
    var ended := op.(completedCount := CompletedItems(op), blockedCount := blocked,
                     completedAt := Some(db.clock), version := op.version + 1,
                     status := if blocked > 0 then CompletedWithBlocks else OperationCompleted);
    if !ActiveOperation(op) then Stop(w, Returned)
    else if db.fences.evaluation then Stop(w, Refused)
    else if ActiveItem(op.registry.item) || ActiveItem(op.source.item) then Stop(w, Returned)
    else if blocked > 0 then World(db.(operation := Some(ended)), w.disk, Stopped(Returned))
    else if
      || !NamespaceEmpty(w.disk, AddressOf(db, RegistryFinal))
      || !NamespaceEmpty(w.disk, AddressOf(db, SourceFinal))
      || !PendingAuthority(db)
      || !GovernanceClear(db)
      || !OperationAuthority(db, op)
    then Stop(w, Refused)
    else
      var audited := if op.auditedAt.Some? then ended
                     else ended.(auditedAt := Some(db.clock), version := ended.version + 1);
      World(db.(source := PurgedAt(db.source, db.clock), adapter := PurgedAt(db.adapter, db.clock),
                operation := Some(audited),
                purgeAudits := db.purgeAudits + (if op.auditedAt.Some? then [] else [op.id])),
            w.disk, Stopped(Returned))
  }

  // ----- Steps and runs -----

  predicate Running(pc: Pc) { !pc.Idle? && !pc.Stopped? }

  /** One atomic step of the running process. */
  function Step(w: World): World
  {
    if !Running(w.pc) then w
    else if w.pc.Register? then RegisterOrResume(w)
    else if w.db.operation.None? then Stop(w, Refused)
    else
      match w.pc
      case MarkOperation => MarkOperationDeleting(w)
      case Select(s) => SelectItem(w, s)
      case Load(s) => LoadItem(w, s)
      case Capture(s) => CaptureContext(w, s)
      case Inspect(s, context) => InspectItem(w, s, context)
      case Persist(s, context, inspected) => PersistMoveIntent(w, s, context, inspected)
      case Reauthorize(s) => ReauthorizeMove(w, s)
      case Move(s) => MoveItem(w, s)
      case Recover(s) => RecoverItem(w, s)
      case Bind(s, bound) => BindMoveIntent(w, s, bound)
      case Mark(s, i) => if i < PlanSize(w.db, s) then MarkEntry(w, s, i) else Goto(w, MarkDirectory(s))
      case Unlink(s, i, retry) =>
        if i < PlanSize(w.db, s) then UnlinkItemEntry(w, s, i, retry) else Stop(w, Failed)
      case Advance(s, i) => AdvanceEntry(w, s, i)
      case MarkDirectory(s) => MarkDirectoryUnlink(w, s)
      case RemoveTombstone(s, allowMissing) => RemoveItemTombstone(w, s, allowMissing)
      case Complete(s) => CompleteItem(w, s)
      case Block(s, code) => BlockItem(w, s, code)
      case Finalize => FinalizeOperation(w)
  }

  /** A process starts anew; whatever an earlier one knew is gone. */
  function Launch(w: World): World { Goto(w, Register) }

  function Steps(w: World, n: nat): World
    decreases n
  {
    if n == 0 then w else Steps(Step(w), n - 1)
  }

  datatype Event =
    | Run
    | Crash
    | Start
    | Tick
    | SetFences(fences: Fences)
    | Outside(disk: Disk)

  function Apply(w: World, e: Event): World
  {
    match e
    case Run => Step(w)
    case Crash => Goto(w, Idle)
    case Start => Launch(w)
    case Tick => w.(db := w.db.(clock := w.db.clock + 1))
    case SetFences(fences) => w.(db := w.db.(fences := fences))
    case Outside(disk) => w.(disk := disk)
  }

  function History(w: World, events: seq<Event>): World
  {
    if events == [] then w else Apply(History(w, events[..|events| - 1]), events[|events| - 1])
  }

  // ----- Every process ends -----

  /** More than the steps a lane needs after its selection; three files on every surface. */
  const LANE_STEPS: nat := 21

  function LaneSteps(pc: Pc): nat
  {
    match pc
    case Select(_) => 21
    case Load(_) => 20
    case Capture(_) => 19
    case Inspect(_, _) => 18
    case Persist(_, _, _) => 17
    case Reauthorize(_) => 16
    case Move(_) => 15
    case Recover(_) => 14
    case Bind(_, _) => 13
    case Mark(_, i) => if i < 3 then 12 - 3 * i else 4
    case Unlink(_, i, _) => if i < 3 then 11 - 3 * i else 3
    case Advance(_, i) => if i < 3 then 10 - 3 * i else 4
    case MarkDirectory(_) => 3
    case RemoveTombstone(_, _) => 2
    case Complete(_) => 1
    case Block(_, _) => 1
    case _ => 0
  }

  /** Phase of the item, then remaining entries: what `Step` decreases while a process runs. */
  function StepsLeft(pc: Pc): nat
  {
    match pc
    case Idle => 0
    case Stopped(_) => 0
    case Finalize => 1
    case MarkOperation => 2 + 2 * LANE_STEPS
    case Register => 3 + 2 * LANE_STEPS
    case _ => 1 + LaneSteps(pc) + (if pc.s == RegistryFinal then LANE_STEPS else 0)
  }
}
