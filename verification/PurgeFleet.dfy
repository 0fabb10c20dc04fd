/** Any number of purge processes at once (adapter_purge.py).  No lock is held between two transactions, so
    that processes interleave at every step, on the current operation and on ended ones.  What a process
    loaded it keeps in memory: the inspection, the plan and the bound tombstone that its storage calls use
    are those of its own copy of the item, not of the row. */
module PurgeFleet {
  import opened Common
  import opened ArtifactStore
  import P = Purge

  // ----- Processes -----

  /** The process's copy of a verified item, and of a bound one. */
  datatype Intent = Intent(observed: Observation, plan: seq<Entry>, namespace: Option<TombstoneKey>)

  datatype Bound = Bound(plan: seq<Entry>, tombstone: Observation)

  datatype Pc =
    | Idle
    | Register
    | MarkOperation
    | Select(s: Surface)
    | Load(s: Surface)
    | Capture(s: Surface)
    | Inspect(s: Surface, context: P.MoveContext)
    | Persist(s: Surface, context: P.MoveContext, inspected: Observation)
    | Reload(s: Surface)
    | Reauthorize(s: Surface, intent: Intent)
    | Move(s: Surface, intent: Intent)
    | Recover(s: Surface, intent: Intent)
    | Bind(s: Surface, moved: Observation)
    | Mark(s: Surface, bound: Bound, index: nat)
    | Unlink(s: Surface, bound: Bound, index: nat, retry: bool)
    | Advance(s: Surface, bound: Bound, index: nat)
    | MarkDirectory(s: Surface, bound: Bound)
    | Remove(s: Surface, bound: Bound, allowMissing: bool)
    | Complete(s: Surface)
    | Block(s: Surface, code: Code)
    | Finalize
    | Stopped(ending: P.Ending)

  /** A process and the operation that it registered or resumed. */
  datatype Process = Process(op: nat, pc: Pc)

  /** `ops` are all the operations there ever were; those of `db` itself are not used. */
  datatype Fleet = Fleet(db: P.Db, ops: seq<P.Operation>, disk: Disk, processes: seq<Process>)

  // ----- Rows -----

  function LaneAt(f: Fleet, n: nat, s: Surface): P.Lane
    requires n < |f.ops|
  {
    P.LaneOf(f.ops[n], s)
  }

  function RowAt(f: Fleet, n: nat, s: Surface): P.Progress
    requires n < |f.ops|
  {
    LaneAt(f, n, s).item.progress
  }

  function KeyAt(f: Fleet, n: nat, s: Surface): TombstoneKey
    requires n < |f.ops|
  {
    TombstoneKey(P.AddressOf(f.db, s), LaneAt(f, n, s).item.id)
  }

  function WithLane(op: P.Operation, s: Surface, lane: P.Lane): P.Operation
  {
    match s
    case RegistryFinal => op.(registry := lane)
    case SourceFinal => op.(source := lane)
  }

  /** Process `k` rewrites a lane of its operation and goes on. */
  function Write(f: Fleet, k: nat, s: Surface, lane: P.Lane, pc: Pc): Fleet
    requires k < |f.processes| && f.processes[k].op < |f.ops|
  {
    var n := f.processes[k].op;
    f.(ops := f.ops[n := WithLane(f.ops[n], s, lane)], processes := f.processes[k := Process(n, pc)])
  }

  function Goto(f: Fleet, k: nat, pc: Pc): Fleet
    requires k < |f.processes|
  {
    f.(processes := f.processes[k := f.processes[k].(pc := pc)])
  }

  // ----- Registration -----

  /** The oldest operation that is not ended. */
  function FirstActive(ops: seq<P.Operation>): (n: Option<nat>)
    ensures n.Some? ==> n.value < |ops| && P.ActiveOperation(ops[n.value])
    ensures n.None? ==> forall op | op in ops :: !P.ActiveOperation(op)
  {
    if ops == [] then None
    else if P.ActiveOperation(ops[0]) then Some(0)
    else
      var rest := FirstActive(ops[1..]);
      assert ops == [ops[0]] + ops[1..];
      if rest.None? then None else Some(rest.value + 1)
  }

  function RegisterOrResume(f: Fleet, k: nat): Fleet
    requires k < |f.processes|
  {
    var db := f.db.(operation := None, past := []);
    var active := FirstActive(f.ops);
    if active.Some? then
      if P.PendingAuthority(db) && P.GovernanceClear(db) then
        f.(processes := f.processes[k := Process(active.value, MarkOperation)])
      else Goto(f, k, Stopped(P.Refused))
    else if db.adapter.status == P.Purged then Goto(f, k, Stopped(P.Returned))
    else if P.Eligible(db) then
      var registered := P.NewOperation(db);
      f.(db := registered.(operation := None), ops := f.ops + [registered.operation.value],
         processes := f.processes[k := Process(|f.ops|, MarkOperation)])
    else Goto(f, k, Stopped(P.Refused))
  }

  function MarkOperationDeleting(f: Fleet, k: nat): Fleet
    requires k < |f.processes| && f.processes[k].op < |f.ops|
  {
    var n := f.processes[k].op;
    var op := f.ops[n];
    var next := Goto(f, k, Select(RegistryFinal));
    if op.status == P.OperationRegistered then
      next.(ops := f.ops[n := op.(status := P.OperationDeleting, version := op.version + 1)])
    else next
  }

  // ----- One item -----

  function After(s: Surface): Pc
  {
    match s
    case RegistryFinal => Select(SourceFinal)
    case SourceFinal => Finalize
  }

  function SelectItem(op: P.Operation, s: Surface): Pc
  {
    if s == SourceFinal && op.registry.item.progress.status != P.Completed then
      if P.ActiveItem(op.source.item) then Block(SourceFinal, DependencyActive) else Finalize
    else if P.ActiveItem(P.LaneOf(op, s).item) then Load(s) else After(s)
  }

  function EntryAt(s: Surface, bound: Bound, index: nat): Pc
  {
    if index < |bound.plan| then Mark(s, bound, index) else MarkDirectory(s, bound)
  }

  /** `_bound_surface` of the loaded item, and the loop from its first entry. */
  function BoundPc(s: Surface, item: P.Progress): Pc
  {
    if item.observed.None? || item.plan.None? || item.tombstone.None?
       || item.namespace.None? then Block(s, OwnershipMismatch)
    else EntryAt(s, Bound(item.plan.value, item.tombstone.value), 0)
  }

  /** Where a loaded item leads: to the move if it is verified, and otherwise to its tombstone. */
  function LoadedPc(s: Surface, item: P.Progress): Pc
  {
    if item.status == P.Verified then
      if item.observed.None? || item.plan.None? then Block(s, OwnershipMismatch)
      else Reauthorize(s, Intent(item.observed.value, item.plan.value, item.namespace))
    else BoundPc(s, item)
  }

  function LoadPc(s: Surface, item: P.Progress): Pc
  {
    match item.status
    case Completed => After(s)
    case Registered => Capture(s)
    case _ => LoadedPc(s, item)
  }

  function CapturePc(db: P.Db, lane: P.Lane, s: Surface): Pc
  {
    if !P.CanProceed(db) then Stopped(P.Refused)
    else if lane.item.progress.status != P.Registered || lane.reservation.progress.status != P.Registered then
      Block(s, AuthorityChanged)
    else Inspect(s, P.MoveContext(lane.item.version, lane.reservation.version, P.AuthoritySnapshot(db)))
  }

  function InspectPc(f: Fleet, s: Surface, context: P.MoveContext): Pc
  {
    match InspectSurface(f.disk, P.AddressOf(f.db, s), P.AttemptOf(f.db, s).manifest)
    case Found(inspected) => Persist(s, context, inspected)
    case Rejected(code) => Block(s, code)
    case _ => Block(s, AuthorityChanged)
  }

  function PersistMoveIntent(f: Fleet, k: nat, s: Surface, context: P.MoveContext, inspected: Observation): Fleet
    requires k < |f.processes| && f.processes[k].op < |f.ops|
  {
    var n := f.processes[k].op;
    var lane := LaneAt(f, n, s);
    if !P.CanProceed(f.db) then Goto(f, k, Stopped(P.Refused))
    else if
      || lane.item.progress.status != P.Registered
      || lane.reservation.progress.status != P.Registered
      || lane.item.version != context.itemVersion
      || lane.reservation.version != context.reservationVersion
      || P.AuthoritySnapshot(f.db) != context.snapshot
    then Goto(f, k, Block(s, AuthorityChanged))
    else Write(f, k, s, P.IntendMove(lane, inspected, KeyAt(f, n, s)), Reload(s))
  }

  function ReauthorizePc(db: P.Db, lane: P.Lane, s: Surface, intent: Intent): Pc
  {
    if lane.item.progress.status != P.Verified
       || lane.reservation.progress.status != P.Verified then Block(s, AuthorityChanged)
    else if !P.CanProceed(db) then Stopped(P.Refused)
    else Move(s, intent)
  }

  function MoveItem(f: Fleet, k: nat, s: Surface, i: Intent): Fleet
    requires k < |f.processes| && f.processes[k].op < |f.ops|
  {
    var (disk, outcome) := MoveSurface(f.disk, KeyAt(f, f.processes[k].op, s), i.observed, i.plan, i.namespace);
    match outcome
    case Found(moved) => Goto(f, k, Bind(s, moved)).(disk := disk)
    case Retryable => Goto(f, k, Stopped(P.Refused))
    case _ => Goto(f, k, Recover(s, i))
  }

  function RecoverPc(f: Fleet, n: nat, s: Surface, i: Intent): Pc
    requires n < |f.ops|
  {
    match RecoverTombstone(f.disk, KeyAt(f, n, s), i.observed, i.plan, i.namespace)
    case Found(moved) => Bind(s, moved)
    case Retryable => Stopped(P.Refused)
    case Rejected(code) => Block(s, code)
    case _ => Stopped(P.Failed)
  }

  function BindMoveIntent(f: Fleet, k: nat, s: Surface, moved: Observation): Fleet
    requires k < |f.processes| && f.processes[k].op < |f.ops|
  {
    var lane := LaneAt(f, f.processes[k].op, s);
    var i, r := lane.item.progress, lane.reservation.progress;
    if i.status == P.TombstoneBound then
      Goto(f, k, if i.tombstone != Some(moved) then Block(s, AuthorityChanged) else BoundPc(s, i))
    else if i.status != P.Verified || r.status != P.Verified then Goto(f, k, Block(s, AuthorityChanged))
    else if !P.CanProceed(f.db) then Goto(f, k, Stopped(P.Refused))
    else if P.AuthoritySnapshot(f.db) != lane.reservation.authority.snapshot || i.namespace != r.namespace then
      Goto(f, k, Block(s, AuthorityChanged))
    else
      var next := P.BindTombstone(lane, moved);
      Write(f, k, s, next, BoundPc(s, next.item.progress))
  }

  /** Only a completed item is left alone here: a blocked one is deleted on. */
  function MarkEntry(f: Fleet, k: nat, s: Surface, b: Bound, index: nat): Fleet
    requires k < |f.processes| && f.processes[k].op < |f.ops| && index < |b.plan|
  {
    var lane := LaneAt(f, f.processes[k].op, s);
    var i, marker := lane.item.progress, P.InFlight(b.plan[index].name, index);
    if i.status == P.Completed then Goto(f, k, After(s))
    else if i.nextEntry > index then Goto(f, k, EntryAt(s, b, index + 1))
    else if i.nextEntry != index then Goto(f, k, Block(s, AuthorityChanged))
    else if i.inFlight.Some? && i.inFlight.value != marker then Goto(f, k, Block(s, AuthorityChanged))
    else Write(f, k, s, P.MarkInFlight(lane, marker), Unlink(s, b, index, i.inFlight.Some?))
  }

  function UnlinkItemEntry(f: Fleet, k: nat, s: Surface, b: Bound, index: nat, retry: bool): Fleet
    requires k < |f.processes| && f.processes[k].op < |f.ops| && index < |b.plan|
  {
    var (disk, outcome) := UnlinkEntry(f.disk, KeyAt(f, f.processes[k].op, s), b.tombstone, b.plan, b.plan[index].name,
                                       retry);
    match outcome
    case Found(_) => Goto(f, k, Advance(s, b, index)).(disk := disk)
    case Rejected(code) => Goto(f, k, Block(s, code))
    case _ => Goto(f, k, Stopped(P.Failed))
  }

  function MarkDirectoryUnlink(f: Fleet, k: nat, s: Surface, b: Bound): Fleet
    requires k < |f.processes| && f.processes[k].op < |f.ops|
  {
    var lane := LaneAt(f, f.processes[k].op, s);
    var i := lane.item.progress;
    if i.nextEntry != |b.plan| || i.inFlight.Some? then Goto(f, k, Block(s, AuthorityChanged))
    else Write(f, k, s, P.StartDirectoryUnlink(lane), Remove(s, b, i.directoryUnlinkStarted))
  }

  function RemoveItemTombstone(f: Fleet, k: nat, s: Surface, b: Bound, allowMissing: bool): Fleet
    requires k < |f.processes| && f.processes[k].op < |f.ops|
  {
    var (disk, outcome) := RemoveDirectory(f.disk, KeyAt(f, f.processes[k].op, s), b.tombstone, allowMissing);
    match outcome
    case Found(_) => Goto(f, k, Complete(s)).(disk := disk)
    case Rejected(code) => Goto(f, k, Block(s, code))
    case _ => Goto(f, k, Stopped(P.Failed))
  }

  function BlockItem(f: Fleet, k: nat, s: Surface, code: Code): Fleet
    requires k < |f.processes| && f.processes[k].op < |f.ops|
  {
    var lane := LaneAt(f, f.processes[k].op, s);
    if lane.item.progress.status == P.Completed then Goto(f, k, After(s))
    else Write(f, k, s, P.BlockLane(lane, code), After(s))
  }

  function FinalizeOperation(f: Fleet, k: nat): Fleet
    requires k < |f.processes| && f.processes[k].op < |f.ops|
  {
    var n := f.processes[k].op;
    var end := P.FinalizeOperation(P.World(f.db.(operation := Some(f.ops[n]), past := []), f.disk, P.Finalize));
    if end.db.operation.None? || !end.pc.Stopped? then f
    else
      Fleet(end.db.(operation := None), f.ops[n := end.db.operation.value], f.disk,
            f.processes[k := Process(n, Stopped(end.pc.ending))])
  }

  // ----- Steps and runs -----

  /** One atomic step of process `k`. */
  function Step(f: Fleet, k: nat): Fleet
    requires k < |f.processes|
  {
    var n, pc := f.processes[k].op, f.processes[k].pc;
    if pc.Idle? || pc.Stopped? then f
    else if pc.Register? then RegisterOrResume(f, k)
    else if n >= |f.ops| then Goto(f, k, Stopped(P.Refused))
    else
      match pc
      case MarkOperation => MarkOperationDeleting(f, k)
      case Select(s) => Goto(f, k, SelectItem(f.ops[n], s))
      case Load(s) => Goto(f, k, LoadPc(s, RowAt(f, n, s)))
      case Capture(s) => Goto(f, k, CapturePc(f.db, LaneAt(f, n, s), s))
      case Inspect(s, context) => Goto(f, k, InspectPc(f, s, context))
      case Persist(s, context, inspected) => PersistMoveIntent(f, k, s, context, inspected)
      case Reload(s) => Goto(f, k, LoadedPc(s, RowAt(f, n, s)))
      case Reauthorize(s, i) => Goto(f, k, ReauthorizePc(f.db, LaneAt(f, n, s), s, i))
      case Move(s, i) => MoveItem(f, k, s, i)
      case Recover(s, i) => Goto(f, k, RecoverPc(f, n, s, i))
      case Bind(s, moved) => BindMoveIntent(f, k, s, moved)
      case Mark(s, b, i) => if i < |b.plan| then MarkEntry(f, k, s, b, i) else Goto(f, k, MarkDirectory(s, b))
      case Unlink(s, b, i, retry) =>
        if i < |b.plan| then UnlinkItemEntry(f, k, s, b, i, retry) else Goto(f, k, Stopped(P.Failed))
      case Advance(s, b, i) => Write(f, k, s, P.AdvancePast(LaneAt(f, n, s), i), EntryAt(s, b, i + 1))
      case MarkDirectory(s, b) => MarkDirectoryUnlink(f, k, s, b)
      case Remove(s, b, allowMissing) => RemoveItemTombstone(f, k, s, b, allowMissing)
      case Complete(s) => Write(f, k, s, P.Finish(LaneAt(f, n, s), f.db.clock), After(s))
      case Block(s, code) => BlockItem(f, k, s, code)
      case Finalize => FinalizeOperation(f, k)
  }

  datatype Event =
    | Run(process: nat)
    | Crash(process: nat)
    | Start
    | Tick
    | SetFences(fences: P.Fences)
    | Outside(disk: Disk)

  function Apply(f: Fleet, e: Event): Fleet
  {
    match e
    case Run(k) => if k < |f.processes| then Step(f, k) else f
    case Crash(k) => if k < |f.processes| then Goto(f, k, Idle) else f
    case Start => f.(processes := f.processes + [Process(0, Register)])
    case Tick => f.(db := f.db.(clock := f.db.clock + 1))
    case SetFences(fences) => f.(db := f.db.(fences := fences))
    case Outside(disk) => f.(disk := disk)
  }

  function History(f: Fleet, events: seq<Event>): Fleet
  {
    if events == [] then f else Apply(History(f, events[..|events| - 1]), events[|events| - 1])
  }

  /** A validated adapter of a consumed source that nothing has purged, and no process. */
  predicate Initial(f: Fleet)
  {
    f.ops == [] && f.processes == [] && f.db.adapter.status == P.Live && f.db.source.status == P.Live
  }
}
