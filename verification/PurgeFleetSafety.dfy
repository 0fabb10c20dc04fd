/** Deletion safety for any number of processes: what each keeps in memory stays true of the rows, because
    the rows that authorize a deletion are written once. */
module PurgeFleetSafety {
  import opened Common
  import opened ArtifactStore
  import P = Purge
  import opened PurgeFleet

  // ----- Rows only gain -----

  /** What a row has said once it says forever; its counters only grow. */
  predicate Gains(before: P.Progress, after: P.Progress)
  {
    && (before.observed.Some? ==> after.observed == before.observed)
    && (before.plan.Some? ==> after.plan == before.plan)
    && (before.namespace.Some? ==> after.namespace == before.namespace)
    && (before.tombstone.Some? ==> after.tombstone == before.tombstone)
    && before.nextEntry <= after.nextEntry
    && (before.directoryUnlinkStarted ==> after.directoryUnlinkStarted)
    && (before.status == P.Completed ==> after.status == P.Completed)
  }

  // ----- The invariant over rows -----

  function PlanSize(p: P.Progress): nat { if p.plan.Some? then |p.plan.value| else 0 }

  /** A verified, bound, deleting or completed item has its intent, and the last three their tombstone. */
  predicate RowShape(p: P.Progress, key: TombstoneKey)
  {
    && (p.namespace.Some? ==> p.namespace == Some(key))
    && (p.namespace.Some? <==> p.plan.Some?) && (p.namespace.Some? <==> p.observed.Some?)
    && (p.observed.Some? ==> p.observed.value.entries == p.plan.value)
    && (p.status != P.Registered && p.status != P.Blocked ==> p.namespace.Some?)
    && (p.tombstone.Some? ==> p.namespace.Some?)
    && (p.status == P.TombstoneBound || p.status == P.Deleting || p.status == P.Completed ==> p.tombstone.Some?)
    && (p.status == P.Registered ==> p.namespace.None?) && (p.status == P.Verified ==> p.tombstone.None?)
    && p.nextEntry <= PlanSize(p)
    && (p.inFlight.Some? ==>
          p.plan.Some? && p.nextEntry < |p.plan.value|
            && p.inFlight == Some(P.InFlight(p.plan.value[p.nextEntry].name, p.nextEntry)))
  }

  predicate LaneShape(lane: P.Lane, a: Address)
  {
    lane.reservation.progress == lane.item.progress && RowShape(lane.item.progress, TombstoneKey(a, lane.item.id))
  }

  /** The source has an intent only behind a completed registry item. */
  predicate OpShape(op: P.Operation, registry: Address, source: Address)
  {
    && LaneShape(op.registry, registry) && LaneShape(op.source, source)
    && (op.source.item.progress.namespace.Some? ==> op.registry.item.progress.status == P.Completed)
  }

  predicate OpsInv(f: Fleet)
  {
    forall n | 0 <= n < |f.ops| :: OpShape(f.ops[n], P.AddressOf(f.db, RegistryFinal), P.AddressOf(f.db, SourceFinal))
  }

  // ----- What a process remembers -----

  predicate Remembers(p: P.Progress, i: Intent)
  {
    p.observed == Some(i.observed) && p.plan == Some(i.plan) && p.namespace.Some? && i.namespace == p.namespace
  }

  predicate RemembersBound(p: P.Progress, b: Bound)
  {
    p.plan == Some(b.plan) && p.tombstone == Some(b.tombstone)
  }

  predicate AtItem(pc: Pc)
  {
    !pc.Idle? && !pc.Stopped? && !pc.Register? && !pc.MarkOperation? && !pc.Finalize?
  }

  /** The memory of a process at an item agrees with the item's row. */
  predicate RowAtPc(p: P.Progress, pc: Pc)
    requires AtItem(pc)
  {
    match pc
    case Reload(_) => p.namespace.Some?
    case Reauthorize(_, i) => Remembers(p, i)
    case Move(_, i) => Remembers(p, i)
    case Recover(_, i) => Remembers(p, i)
    case Bind(_, _) => p.namespace.Some?
    case Mark(_, b, _) => RemembersBound(p, b)
    case Unlink(_, b, i, _) => RemembersBound(p, b) && i < |b.plan|
    case Advance(_, b, i) => RemembersBound(p, b) && i < |b.plan|
    case MarkDirectory(_, b) => RemembersBound(p, b)
    case Remove(_, b, _) => RemembersBound(p, b) && p.directoryUnlinkStarted && p.nextEntry == |b.plan|
    case Complete(_) => p.tombstone.Some? && p.plan.Some? && p.nextEntry == |p.plan.value|
    case _ => true
  }

  predicate ProcessInv(ops: seq<P.Operation>, p: Process)
  {
    && (!p.pc.Idle? && !p.pc.Stopped? && !p.pc.Register? ==> p.op < |ops|)
    && (AtItem(p.pc) ==>
          && RowAtPc(P.LaneOf(ops[p.op], p.pc.s).item.progress, p.pc)
          && (p.pc.s == SourceFinal && !p.pc.Select? && !p.pc.Block?
              ==> ops[p.op].registry.item.progress.status == P.Completed))
  }

  predicate Inv(f: Fleet)
  {
    OpsInv(f) && forall k | 0 <= k < |f.processes| :: ProcessInv(f.ops, f.processes[k])
  }

  // ----- Gains keep what every process remembers -----

  predicate OpGains(before: P.Operation, after: P.Operation)
  {
    && Gains(before.registry.item.progress, after.registry.item.progress)
    && Gains(before.source.item.progress, after.source.item.progress)
  }

  /** No more entries are advanced past than are planned. */
  predicate Bounded(op: P.Operation)
  {
    && op.registry.item.progress.nextEntry <= PlanSize(op.registry.item.progress)
    && op.source.item.progress.nextEntry <= PlanSize(op.source.item.progress)
  }

  ghost predicate OpsGain(before: seq<P.Operation>, after: seq<P.Operation>)
  {
    |before| <= |after| && forall n | 0 <= n < |before| :: OpGains(before[n], after[n])
  }

  lemma MemoryStays(before: P.Progress, after: P.Progress, pc: Pc)
    requires AtItem(pc) && RowAtPc(before, pc) && Gains(before, after) && after.nextEntry <= PlanSize(after)
    ensures RowAtPc(after, pc)
  {
  }

  /** A step of one process that only makes rows gain leaves the memory of all others true. */
  lemma OthersRemember(before: seq<P.Operation>, after: seq<P.Operation>, p: Process)
    requires |before| <= |after| && forall n | 0 <= n < |before| :: OpGains(before[n], after[n])
    requires forall n | 0 <= n < |before| :: Bounded(after[n])
    requires ProcessInv(before, p)
    ensures ProcessInv(after, p)
  {
    hide RowAtPc;
    if AtItem(p.pc) {
      var a, b := P.LaneOf(before[p.op], p.pc.s).item.progress, P.LaneOf(after[p.op], p.pc.s).item.progress;
      assert OpGains(before[p.op], after[p.op]) && Bounded(after[p.op]);
      MemoryStays(a, b, p.pc);
    }
  }

  // ----- Steps -----

  lemma SelfRowGains(p: P.Progress)
    ensures Gains(p, p)
  {
  }

  lemma SelfGains(op: P.Operation)
    ensures OpGains(op, op)
  {
  }

  lemma SameRowsKeepOps(f: Fleet, k: nat, pc: Pc)
    requires OpsInv(f) && k < |f.processes|
    ensures OpsInv(Goto(f, k, pc))
  {
  }

  /** A step that writes no row: only the process's own memory has to be right. */
  lemma GotoKeepsInv(f: Fleet, k: nat, pc: Pc)
    requires Inv(f) && k < |f.processes| && ProcessInv(f.ops, f.processes[k].(pc := pc))
    ensures Inv(Goto(f, k, pc))
  {
    hide OpsInv, ProcessInv;
    SameRowsKeepOps(f, k, pc);
  }

  predicate SameAddresses(db: P.Db, other: P.Db)
  {
    && P.AddressOf(other, RegistryFinal) == P.AddressOf(db, RegistryFinal)
    && P.AddressOf(other, SourceFinal) == P.AddressOf(db, SourceFinal)
  }

  /** Rows that only gain and keep their shape keep the invariant for all other processes. */
  lemma OpsChangeKeepsInv(f: Fleet, ops: seq<P.Operation>, db: P.Db, k: nat, p: Process)
    requires Inv(f) && k < |f.processes| && |f.ops| <= |ops| && ProcessInv(ops, p)
    requires SameAddresses(f.db, db)
    requires forall n | 0 <= n < |f.ops| :: OpGains(f.ops[n], ops[n])
    requires forall n | 0 <= n < |ops| ::
             OpShape(ops[n], P.AddressOf(f.db, RegistryFinal), P.AddressOf(f.db, SourceFinal))
    ensures Inv(f.(ops := ops, db := db, processes := f.processes[k := p]))
  {
    forall n | 0 <= n < |f.ops| ensures Bounded(ops[n]) {
      assert OpShape(ops[n], P.AddressOf(f.db, RegistryFinal), P.AddressOf(f.db, SourceFinal));
    }
    forall j | 0 <= j < |f.processes| ensures ProcessInv(ops, f.processes[j]) {
      OthersRemember(f.ops, ops, f.processes[j]);
    }
    hide ProcessInv, OpShape, OpGains, Bounded;
  }

  /** A transaction that rewrites one lane within the lane's own rules. */
  lemma WriteKeepsInv(f: Fleet, k: nat, s: Surface, lane: P.Lane, pc: Pc)
    requires Inv(f) && k < |f.processes| && f.processes[k].op < |f.ops|
    requires lane.item.id == LaneAt(f, f.processes[k].op, s).item.id && LaneShape(lane, P.AddressOf(f.db, s))
    requires Gains(RowAt(f, f.processes[k].op, s), lane.item.progress)
    requires s == SourceFinal && lane.item.progress.namespace.Some?
             ==> f.ops[f.processes[k].op].registry.item.progress.status == P.Completed
    requires !AtItem(pc) || pc.Select?
             || (pc.s == s && RowAtPc(lane.item.progress, pc)
                 && (s == SourceFinal && !pc.Block?
                     ==> f.ops[f.processes[k].op].registry.item.progress.status == P.Completed))
    ensures Inv(Write(f, k, s, lane, pc)) && OpsGain(f.ops, Write(f, k, s, lane, pc).ops)
  {
    var n := f.processes[k].op;
    var op := f.ops[n];
    var next := WithLane(op, s, lane);
    var ops := f.ops[n := next];
    assert OpShape(op, P.AddressOf(f.db, RegistryFinal), P.AddressOf(f.db, SourceFinal));
    OneOpChanges(f, n, next, ops);
    hide LaneShape, Gains, RowAtPc;
    assert ProcessInv(ops, Process(n, pc));
    OpsChangeKeepsInv(f, ops, f.db, k, Process(n, pc));
  }

  lemma OneOpChanges(f: Fleet, n: nat, next: P.Operation, ops: seq<P.Operation>)
    requires OpsInv(f) && n < |f.ops| && OpGains(f.ops[n], next) && ops == f.ops[n := next]
    requires OpShape(next, P.AddressOf(f.db, RegistryFinal), P.AddressOf(f.db, SourceFinal))
    ensures forall m | 0 <= m < |ops| :: OpGains(f.ops[m], ops[m])
    ensures forall m | 0 <= m < |ops| ::
            OpShape(ops[m], P.AddressOf(f.db, RegistryFinal), P.AddressOf(f.db, SourceFinal))
  {
    hide OpShape, OpGains;
    forall m | 0 <= m < |ops| ensures OpGains(f.ops[m], ops[m]) {
      SelfGains(f.ops[m]);
    }
  }

  // ----- One step of one process -----

  lemma AtRow(f: Fleet, k: nat)
    requires Inv(f) && k < |f.processes| && AtItem(f.processes[k].pc)
    ensures var n, pc := f.processes[k].op, f.processes[k].pc;
            && n < |f.ops| && LaneShape(LaneAt(f, n, pc.s), P.AddressOf(f.db, pc.s)) && RowAtPc(RowAt(f, n, pc.s), pc)
            && OpShape(f.ops[n], P.AddressOf(f.db, RegistryFinal), P.AddressOf(f.db, SourceFinal))
            && (pc.s == SourceFinal && !pc.Select? && !pc.Block?
                ==> f.ops[n].registry.item.progress.status == P.Completed)
  {
    hide LaneShape, RowAtPc;
    assert ProcessInv(f.ops, f.processes[k]);
  }

  predicate Reading(pc: Pc)
  {
    pc.Select? || pc.Load? || pc.Capture? || pc.Inspect? || pc.Reload? || pc.Reauthorize? || pc.Recover?
  }

  /** Where a process goes after looking at a row, an authority or the disk. */
  lemma ReadingKeepsInv(f: Fleet, k: nat)
    requires Inv(f) && k < |f.processes| && Reading(f.processes[k].pc)
    ensures Inv(Step(f, k))
  {
    hide OpsInv, P.CanProceed, P.AuthoritySnapshot, InspectSurface, RecoverTombstone, KeyAt;
    AtRow(f, k);
    GotoKeepsInv(f, k, Step(f, k).processes[k].pc);
  }

  lemma StorageKeepsInv(f: Fleet, k: nat)
    requires Inv(f) && k < |f.processes|
    requires var pc := f.processes[k].pc; pc.Move? || pc.Unlink? || pc.Remove?
    ensures Inv(Step(f, k))
  {
    hide Inv, OpsInv, MoveSurface, UnlinkEntry, RemoveDirectory, LaneShape, OpShape;
    AtRow(f, k);
    var next := Step(f, k);
    StoragePc(f, k);
    GotoKeepsInv(f, k, next.processes[k].pc);
    DiskIsFree(Goto(f, k, next.processes[k].pc), next.disk);
  }

  lemma StoragePc(f: Fleet, k: nat)
    requires k < |f.processes| && f.processes[k].op < |f.ops| && AtItem(f.processes[k].pc)
    requires var pc := f.processes[k].pc; pc.Move? || pc.Unlink? || pc.Remove?
    requires LaneShape(LaneAt(f, f.processes[k].op, f.processes[k].pc.s), P.AddressOf(f.db, f.processes[k].pc.s))
    requires RowAtPc(RowAt(f, f.processes[k].op, f.processes[k].pc.s), f.processes[k].pc)
    requires f.processes[k].pc.s == SourceFinal
             ==> f.ops[f.processes[k].op].registry.item.progress.status == P.Completed
    ensures var next := Step(f, k);
            && next == Goto(f, k, next.processes[k].pc).(disk := next.disk)
            && ProcessInv(f.ops, f.processes[k].(pc := next.processes[k].pc))
  {
    hide MoveSurface, UnlinkEntry, RemoveDirectory;
  }

  lemma DiskIsFree(f: Fleet, disk: Disk)
    requires Inv(f)
    ensures Inv(f.(disk := disk))
  {
    hide ProcessInv;
    assert OpsInv(f.(disk := disk)) by { hide OpShape; }
  }

  lemma PersistKeepsInv(f: Fleet, k: nat)
    requires Inv(f) && k < |f.processes| && f.processes[k].pc.Persist?
    ensures Inv(Step(f, k)) && (Step(f, k).ops != f.ops ==> OpsGain(f.ops, Step(f, k).ops))
  {
    AtRow(f, k);
    hide Inv, P.CanProceed, P.AuthoritySnapshot;
    var n, pc := f.processes[k].op, f.processes[k].pc;
    var next := PersistMoveIntent(f, k, pc.s, pc.context, pc.inspected);
    if next.ops != f.ops {
      WriteKeepsInv(f, k, pc.s, P.IntendMove(LaneAt(f, n, pc.s), pc.inspected, KeyAt(f, n, pc.s)), Reload(pc.s));
    } else {
      GotoKeepsInv(f, k, next.processes[k].pc);
    }
  }

  lemma BoundLane(lane: P.Lane, a: Address, moved: Observation)
    requires LaneShape(lane, a) && lane.item.progress.status == P.Verified
    ensures var next := P.BindTombstone(lane, moved);
            && LaneShape(next, a) && Gains(lane.item.progress, next.item.progress)
            && next.item.id == lane.item.id && next.item.progress.namespace == lane.item.progress.namespace
  {
  }

  lemma BoundIsRemembered(s: Surface, row: P.Progress)
    ensures var pc := BoundPc(s, row); AtItem(pc) && pc.s == s && !pc.Select? && RowAtPc(row, pc)
  {
  }

  lemma BindKeepsInv(f: Fleet, k: nat)
    requires Inv(f) && k < |f.processes| && f.processes[k].pc.Bind?
    ensures Inv(Step(f, k)) && (Step(f, k).ops != f.ops ==> OpsGain(f.ops, Step(f, k).ops))
  {
    hide Inv, P.CanProceed, P.AuthoritySnapshot, LaneShape, Gains, RemembersBound, OpShape, P.BindTombstone, BoundPc;
    AtRow(f, k);
    var n, pc := f.processes[k].op, f.processes[k].pc;
    var lane := LaneAt(f, n, pc.s);
    var next := BindMoveIntent(f, k, pc.s, pc.moved);
    if next.ops != f.ops {
      BoundLane(lane, P.AddressOf(f.db, pc.s), pc.moved);
      BoundIsRemembered(pc.s, P.BindTombstone(lane, pc.moved).item.progress);
      WriteKeepsInv(f, k, pc.s, P.BindTombstone(lane, pc.moved),
                    BoundPc(pc.s, P.BindTombstone(lane, pc.moved).item.progress));
    } else {
      BoundIsRemembered(pc.s, lane.item.progress);
      GotoKeepsInv(f, k, next.processes[k].pc);
    }
  }

  lemma MarkKeepsInv(f: Fleet, k: nat)
    requires Inv(f) && k < |f.processes| && f.processes[k].pc.Mark?
    ensures Inv(Step(f, k)) && (Step(f, k).ops != f.ops ==> OpsGain(f.ops, Step(f, k).ops))
  {
    hide Inv;
    AtRow(f, k);
    var n, pc := f.processes[k].op, f.processes[k].pc;
    var next := Step(f, k);
    if next.ops != f.ops {
      var marker := P.InFlight(pc.bound.plan[pc.index].name, pc.index);
      WriteKeepsInv(f, k, pc.s, P.MarkInFlight(LaneAt(f, n, pc.s), marker), next.processes[k].pc);
    } else {
      GotoKeepsInv(f, k, next.processes[k].pc);
    }
  }

  lemma AdvancedLane(lane: P.Lane, a: Address, b: Bound, i: nat)
    requires LaneShape(lane, a) && RemembersBound(lane.item.progress, b) && i < |b.plan|
    ensures var next := P.AdvancePast(lane, i);
            && LaneShape(next, a) && Gains(lane.item.progress, next.item.progress)
               && RemembersBound(next.item.progress, b)
            && next.item.id == lane.item.id && next.item.progress.namespace == lane.item.progress.namespace
  {
  }

  lemma AdvanceKeepsInv(f: Fleet, k: nat)
    requires Inv(f) && k < |f.processes| && f.processes[k].pc.Advance?
    ensures Inv(Step(f, k)) && (Step(f, k).ops != f.ops ==> OpsGain(f.ops, Step(f, k).ops))
  {
    hide Inv, LaneShape, Gains, RemembersBound, OpShape;
    AtRow(f, k);
    var n, pc := f.processes[k].op, f.processes[k].pc;
    AdvancedLane(LaneAt(f, n, pc.s), P.AddressOf(f.db, pc.s), pc.bound, pc.index);
    WriteKeepsInv(f, k, pc.s, P.AdvancePast(LaneAt(f, n, pc.s), pc.index), EntryAt(pc.s, pc.bound, pc.index + 1));
  }

  lemma MarkDirectoryKeepsInv(f: Fleet, k: nat)
    requires Inv(f) && k < |f.processes| && f.processes[k].pc.MarkDirectory?
    ensures Inv(Step(f, k)) && (Step(f, k).ops != f.ops ==> OpsGain(f.ops, Step(f, k).ops))
  {
    AtRow(f, k);
    hide Inv;
    var n, pc := f.processes[k].op, f.processes[k].pc;
    var next := MarkDirectoryUnlink(f, k, pc.s, pc.bound);
    if next.processes[k].pc.Block? {
      GotoKeepsInv(f, k, next.processes[k].pc);
    } else {
      WriteKeepsInv(f, k, pc.s, P.StartDirectoryUnlink(LaneAt(f, n, pc.s)), next.processes[k].pc);
    }
  }

  lemma CompleteKeepsInv(f: Fleet, k: nat)
    requires Inv(f) && k < |f.processes| && f.processes[k].pc.Complete?
    ensures Inv(Step(f, k)) && (Step(f, k).ops != f.ops ==> OpsGain(f.ops, Step(f, k).ops))
  {
    AtRow(f, k);
    hide Inv;
    var n, pc := f.processes[k].op, f.processes[k].pc;
    WriteKeepsInv(f, k, pc.s, P.Finish(LaneAt(f, n, pc.s), f.db.clock), After(pc.s));
  }

  lemma BlockKeepsInv(f: Fleet, k: nat)
    requires Inv(f) && k < |f.processes| && f.processes[k].pc.Block?
    ensures Inv(Step(f, k)) && (Step(f, k).ops != f.ops ==> OpsGain(f.ops, Step(f, k).ops))
  {
    AtRow(f, k);
    hide Inv;
    var n, pc := f.processes[k].op, f.processes[k].pc;
    if RowAt(f, n, pc.s).status == P.Completed {
      GotoKeepsInv(f, k, After(pc.s));
    } else {
      WriteKeepsInv(f, k, pc.s, P.BlockLane(LaneAt(f, n, pc.s), pc.code), After(pc.s));
    }
  }

  /** The operation's own status is no part of what processes remember. */
  lemma StatusKeepsInv(f: Fleet, k: nat, op: P.Operation, db: P.Db, pc: Pc)
    requires Inv(f) && k < |f.processes| && f.processes[k].op < |f.ops| && SameAddresses(f.db, db)
    requires op.registry == f.ops[f.processes[k].op].registry && op.source == f.ops[f.processes[k].op].source
    requires pc.Select? || pc.Stopped?
    ensures OpsGain(f.ops, f.ops[f.processes[k].op := op])
    ensures Inv(f.(ops := f.ops[f.processes[k].op := op], db := db,
                   processes := f.processes[k := Process(f.processes[k].op, pc)]))
  {
    var n := f.processes[k].op;
    hide LaneShape, Gains, RowAtPc, ProcessInv;
    assert OpShape(f.ops[n], P.AddressOf(f.db, RegistryFinal), P.AddressOf(f.db, SourceFinal));
    SelfGains(f.ops[n]);
    assert OpGains(f.ops[n], op);
    OneOpChanges(f, n, op, f.ops[n := op]);
    StoppedIsFine(f.ops[n := op], Process(n, pc));
    OpsChangeKeepsInv(f, f.ops[n := op], db, k, Process(n, pc));
  }

  lemma StoppedIsFine(ops: seq<P.Operation>, p: Process)
    requires p.op < |ops| && (p.pc.Select? || p.pc.Stopped? || p.pc.MarkOperation?)
    ensures ProcessInv(ops, p)
  {
  }

  lemma MarkOperationKeepsInv(f: Fleet, k: nat)
    requires Inv(f) && k < |f.processes| && f.processes[k].pc.MarkOperation?
    ensures Inv(Step(f, k)) && (Step(f, k).ops != f.ops ==> OpsGain(f.ops, Step(f, k).ops))
  {
    hide OpsInv, RowAtPc;
    assert ProcessInv(f.ops, f.processes[k]);
    var n := f.processes[k].op;
    var op := f.ops[n];
    if op.status == P.OperationRegistered {
      StatusKeepsInv(f, k, op.(status := P.OperationDeleting, version := op.version + 1), f.db, Select(RegistryFinal));
    } else {
      StoppedIsFine(f.ops, Process(n, Select(RegistryFinal)));
      GotoKeepsInv(f, k, Select(RegistryFinal));
    }
  }

  lemma FinalizeKeepsInv(f: Fleet, k: nat)
    requires Inv(f) && k < |f.processes| && f.processes[k].pc.Finalize?
    ensures Inv(Step(f, k)) && (Step(f, k).ops != f.ops ==> OpsGain(f.ops, Step(f, k).ops))
  {
    hide OpsInv, RowAtPc, NamespaceEmpty, P.OperationAuthority, P.GovernanceClear, P.PendingAuthority;
    assert ProcessInv(f.ops, f.processes[k]);
    var n := f.processes[k].op;
    var end := P.FinalizeOperation(P.World(f.db.(operation := Some(f.ops[n]), past := []), f.disk, P.Finalize));
    StatusKeepsInv(f, k, end.db.operation.value, end.db.(operation := None), Stopped(end.pc.ending));
  }

  lemma NewOperationIsShaped(db: P.Db, registry: Address, source: Address)
    ensures P.NewOperation(db).operation.Some? && OpShape(P.NewOperation(db).operation.value, registry, source)
    ensures SameAddresses(db, P.NewOperation(db))
  {
    hide P.AuthoritySnapshot;
  }

  lemma RegisterKeepsInv(f: Fleet, k: nat)
    requires Inv(f) && k < |f.processes| && f.processes[k].pc.Register?
    ensures Inv(Step(f, k)) && (Step(f, k).ops != f.ops ==> OpsGain(f.ops, Step(f, k).ops))
  {
    hide OpsInv, RowAtPc, P.NewOperation, P.Eligible, P.PendingAuthority, P.GovernanceClear;
    var next := Step(f, k);
    if |next.ops| > |f.ops| {
      NewOperationKeepsInv(f, k);
    } else {
      var active := FirstActive(f.ops);
      if active.Some? { StoppedIsFine(f.ops, Process(active.value, MarkOperation)); }
      assert ProcessInv(f.ops, next.processes[k]);
      ProcessKeepsInv(f, k, next.processes[k]);
    }
  }

  lemma ProcessKeepsInv(f: Fleet, k: nat, p: Process)
    requires Inv(f) && k < |f.processes| && ProcessInv(f.ops, p)
    ensures Inv(f.(processes := f.processes[k := p]))
  {
    hide ProcessInv;
    assert OpsInv(f.(processes := f.processes[k := p])) by { hide OpShape; }
  }

  lemma NewOperationKeepsInv(f: Fleet, k: nat)
    requires Inv(f) && k < |f.processes|
    ensures var registered := P.NewOperation(f.db.(operation := None, past := []));
            Inv(f.(db := registered.(operation := None), ops := f.ops + [registered.operation.value],
                   processes := f.processes[k := Process(|f.ops|, MarkOperation)]))
    ensures OpsGain(f.ops, f.ops + [P.NewOperation(f.db.(operation := None, past := [])).operation.value])
  {
    hide P.NewOperation, RowAtPc, LaneShape, Gains, ProcessInv;
    var db := f.db.(operation := None, past := []);
    NewOperationIsShaped(db, P.AddressOf(f.db, RegistryFinal), P.AddressOf(f.db, SourceFinal));
    var registered := P.NewOperation(db);
    var ops := f.ops + [registered.operation.value];
    forall n | 0 <= n < |f.ops| ensures OpGains(f.ops[n], ops[n]) { SelfGains(f.ops[n]); }
    forall n | 0 <= n < |ops|
      ensures OpShape(ops[n], P.AddressOf(f.db, RegistryFinal), P.AddressOf(f.db, SourceFinal)) {
      if n < |f.ops| { assert ops[n] == f.ops[n]; }
    }
    StoppedIsFine(ops, Process(|f.ops|, MarkOperation));
    OpsChangeKeepsInv(f, ops, registered.(operation := None), k, Process(|f.ops|, MarkOperation));
  }

  lemma StepKeepsInv(f: Fleet, k: nat)
    requires Inv(f) && k < |f.processes|
    ensures Inv(Step(f, k))
  {
    var pc := f.processes[k].pc;
    if pc.Idle? || pc.Stopped? {
      assert Step(f, k) == f;
    } else {
      hide Inv, Step;
      match pc
      case Register => RegisterKeepsInv(f, k);
      case MarkOperation => MarkOperationKeepsInv(f, k);
      case Finalize => FinalizeKeepsInv(f, k);
      case Persist(_, _, _) => PersistKeepsInv(f, k);
      case Bind(_, _) => BindKeepsInv(f, k);
      case Mark(_, _, _) => MarkKeepsInv(f, k);
      case Advance(_, _, _) => AdvanceKeepsInv(f, k);
      case MarkDirectory(_, _) => MarkDirectoryKeepsInv(f, k);
      case Complete(_) => CompleteKeepsInv(f, k);
      case Block(_, _) => BlockKeepsInv(f, k);
      case Move(_, _) => StorageKeepsInv(f, k);
      case Unlink(_, _, _, _) => StorageKeepsInv(f, k);
      case Remove(_, _, _) => StorageKeepsInv(f, k);
      case _ => ReadingKeepsInv(f, k);
    }
  }

  lemma EventKeepsInv(f: Fleet, e: Event)
    requires Inv(f)
    ensures Inv(Apply(f, e))
  {
    match e
    case Run(k) => if k < |f.processes| { StepKeepsInv(f, k); }
    case Crash(k) => if k < |f.processes| { GotoKeepsInv(f, k, Idle); }
    case Outside(disk) => DiskIsFree(f, disk);
    case _ => AmbientKeepsInv(f, e);
    hide Inv, Step;
  }

  lemma AmbientKeepsInv(f: Fleet, e: Event)
    requires Inv(f) && (e.Start? || e.Tick? || e.SetFences?)
    ensures Inv(Apply(f, e))
  {
    hide OpShape, RowAtPc;
    var next := Apply(f, e);
    assert SameAddresses(f.db, next.db);
  }

  lemma StepGains(f: Fleet, k: nat)
    requires Inv(f) && k < |f.processes|
    ensures OpsGain(f.ops, Step(f, k).ops)
  {
    var pc := f.processes[k].pc;
    if Step(f, k).ops == f.ops {
      forall n | 0 <= n < |f.ops| ensures OpGains(f.ops[n], f.ops[n]) { SelfGains(f.ops[n]); }
      hide Step;
    } else if pc.MarkOperation? {
      MarkOperationKeepsInv(f, k);
    } else if pc.Finalize? {
      FinalizeKeepsInv(f, k);
    } else if pc.Register? {
      RegisterKeepsInv(f, k);
    } else {
      WritingGains(f, k);
    }
  }

  lemma WritingGains(f: Fleet, k: nat)
    requires Inv(f) && k < |f.processes| && Step(f, k).ops != f.ops
    requires var pc := f.processes[k].pc; !pc.MarkOperation? && !pc.Finalize? && !pc.Register?
    ensures OpsGain(f.ops, Step(f, k).ops)
  {
    var pc := f.processes[k].pc;
    OnlyWritersWrite(f, k);
    hide Step, Inv;
    if pc.Persist? { PersistKeepsInv(f, k); }
    else if pc.Bind? { BindKeepsInv(f, k); }
    else if pc.Mark? { MarkKeepsInv(f, k); }
    else if pc.Advance? { AdvanceKeepsInv(f, k); }
    else if pc.MarkDirectory? { MarkDirectoryKeepsInv(f, k); }
    else if pc.Complete? { CompleteKeepsInv(f, k); }
    else { BlockKeepsInv(f, k); }
  }

  lemma OnlyWritersWrite(f: Fleet, k: nat)
    requires k < |f.processes| && Step(f, k).ops != f.ops
    requires var pc := f.processes[k].pc; !pc.MarkOperation? && !pc.Finalize? && !pc.Register?
    ensures var pc := f.processes[k].pc;
            pc.Persist? || pc.Bind? || pc.Mark? || pc.Advance? || pc.MarkDirectory? || pc.Complete? || pc.Block?
  {
    hide P.CanProceed, P.AuthoritySnapshot, InspectSurface, RecoverTombstone, MoveSurface, UnlinkEntry, RemoveDirectory;
  }

  lemma EventGains(f: Fleet, e: Event, n: nat, s: Surface)
    requires Inv(f) && n < |f.ops|
    ensures n < |Apply(f, e).ops| && Gains(RowAt(f, n, s), RowAt(Apply(f, e), n, s))
  {
    SelfGains(f.ops[n]);
    if e.Run? && e.process < |f.processes| { StepGains(f, e.process); }
    hide Gains, Step, Inv;
    assert OpGains(f.ops[n], Apply(f, e).ops[n]);
  }

  lemma {:induction false} HistoryKeepsInv(f: Fleet, events: seq<Event>)
    requires Initial(f)
    ensures Inv(History(f, events))
  {
    if events != [] {
      HistoryKeepsInv(f, events[..|events| - 1]);
      EventKeepsInv(History(f, events[..|events| - 1]), events[|events| - 1]);
      hide Inv, Apply;
    }
  }

  // ----- Deletion safety -----

  /** The whole original surface, exactly as some operation committed it, leaves for the tombstone that the
      operation committed. */
  ghost predicate MovesCommittedSurface(f: Fleet, after: Disk, n: nat, s: Surface)
    requires n < |f.ops|
  {
    var row, a, key := RowAt(f, n, s), P.AddressOf(f.db, s), KeyAt(f, n, s);
    && row.namespace == Some(key) && row.plan.Some? && row.observed.Some?
       && row.observed.value.entries == row.plan.value
    && a in f.disk.finals && f.disk.finals[a].identity == row.observed.value.directory
    && f.disk.finals[a].files.Keys == Names(row.plan.value) && SameEntries(f.disk.finals[a], row.plan.value)
    && Namespace(f.disk, a) == {}
    && after == f.disk.(finals := f.disk.finals - {a},
                        tombstones := f.disk.tombstones[key := Renamed(f.disk.finals[a])])
  }

  /** One file of the committed plan, with the committed identity, leaves the bound tombstone. */
  ghost predicate UnlinksPlannedEntry(f: Fleet, after: Disk, n: nat, s: Surface, e: Entry)
    requires n < |f.ops|
  {
    var row, key := RowAt(f, n, s), KeyAt(f, n, s);
    && row.namespace == Some(key) && row.plan.Some? && e in row.plan.value && row.tombstone.Some?
    && key in f.disk.tombstones && f.disk.tombstones[key].identity.key == row.tombstone.value.directory.key
    && e.name in f.disk.tombstones[key].files && f.disk.tombstones[key].files[e.name] == e.identity
    && after == f.disk.(tombstones := f.disk.tombstones[
                  key := Directory(Renamed(f.disk.tombstones[key]).identity, f.disk.tombstones[key].files - {e.name})])
  }

  /** The bound tombstone, empty and with its whole plan advanced past, is removed. */
  ghost predicate RemovesEmptyTombstone(f: Fleet, after: Disk, n: nat, s: Surface)
    requires n < |f.ops|
  {
    var row, key := RowAt(f, n, s), KeyAt(f, n, s);
    && row.namespace == Some(key) && row.plan.Some? && row.tombstone.Some?
    && row.directoryUnlinkStarted && row.nextEntry == |row.plan.value|
    && key in f.disk.tombstones && f.disk.tombstones[key].files == map[]
    && f.disk.tombstones[key].identity.key == row.tombstone.value.directory.key
    && after == f.disk.(tombstones := f.disk.tombstones - {key})
  }

  /** A change that operation `n` has committed to, at its source only behind its completed registry item. */
  ghost predicate CommittedChange(f: Fleet, after: Disk, n: nat, s: Surface)
    requires n < |f.ops|
  {
    && (|| MovesCommittedSurface(f, after, n, s)
        || RemovesEmptyTombstone(f, after, n, s)
        || exists e :: UnlinksPlannedEntry(f, after, n, s, e))
    && (s == SourceFinal ==> f.ops[n].registry.item.progress.status == P.Completed)
  }

  lemma {:induction false} PlannedIsInPlan(plan: seq<Entry>, name: FileName)
    ensures var e := Planned(plan, name); e.Some? ==> e.value in plan && e.value.name == name
  {
    if plan != [] && plan[0].name != name {
      PlannedIsInPlan(plan[1..], name);
    }
  }

  lemma MoveIsSafe(f: Fleet, k: nat)
    requires Inv(f) && k < |f.processes| && f.processes[k].pc.Move? && Step(f, k).disk != f.disk
    ensures f.processes[k].op < |f.ops|
            && MovesCommittedSurface(f, Step(f, k).disk, f.processes[k].op, f.processes[k].pc.s)
  {
    AtRow(f, k);
    hide Inv;
  }

  lemma UnlinkIsSafe(f: Fleet, k: nat)
    requires Inv(f) && k < |f.processes| && f.processes[k].pc.Unlink? && Step(f, k).disk != f.disk
    ensures f.processes[k].op < |f.ops|
    ensures exists e :: UnlinksPlannedEntry(f, Step(f, k).disk, f.processes[k].op, f.processes[k].pc.s, e)
  {
    AtRow(f, k);
    var pc := f.processes[k].pc;
    var name := pc.bound.plan[pc.index].name;
    PlannedIsInPlan(pc.bound.plan, name);
    hide Inv;
    assert UnlinksPlannedEntry(f, Step(f, k).disk, f.processes[k].op, pc.s, Planned(pc.bound.plan, name).value);
  }

  lemma RemoveIsSafe(f: Fleet, k: nat)
    requires Inv(f) && k < |f.processes| && f.processes[k].pc.Remove? && Step(f, k).disk != f.disk
    ensures f.processes[k].op < |f.ops|
            && RemovesEmptyTombstone(f, Step(f, k).disk, f.processes[k].op, f.processes[k].pc.s)
  {
    AtRow(f, k);
    hide Inv;
  }

  /** Only the three storage calls write the disk. */
  lemma RowStepsKeepTheDisk(f: Fleet, k: nat)
    requires k < |f.processes|
    requires var pc := f.processes[k].pc; !pc.Move? && !pc.Unlink? && !pc.Remove?
    ensures Step(f, k).disk == f.disk
  {
    hide P.CanProceed, P.AuthoritySnapshot, P.FinalizeOperation, P.NewOperation, InspectSurface, RecoverTombstone,
         FirstActive;
  }

  /** Deletion safety, for any number of processes: after any history in which they interleave, crash and
      start, with clock ticks, changing fences and arbitrary outside changes of the disk, a step of any of
      them changes nothing on the disk but one committed surface, one planned file of identical identity
      in its bound tombstone, or one emptied bound tombstone, of the operation that it works on, be it
      current or ended; and the source only after that operation's registry item has completed. */
  lemma DeletionSafety(f: Fleet, events: seq<Event>, k: nat)
    requires Initial(f) && k < |History(f, events).processes|
    ensures var now := History(f, events);
            var after, n := Step(now, k).disk, now.processes[k].op;
            after == now.disk || (n < |now.ops| && exists s :: CommittedChange(now, after, n, s))
  {
    HistoryKeepsInv(f, events);
    StepIsSafe(History(f, events), k);
  }

  lemma StepIsSafe(f: Fleet, k: nat)
    requires Inv(f) && k < |f.processes|
    ensures var after, n := Step(f, k).disk, f.processes[k].op;
            after == f.disk || (n < |f.ops| && exists s :: CommittedChange(f, after, n, s))
  {
    hide MovesCommittedSurface, RemovesEmptyTombstone, UnlinksPlannedEntry, Step;
    var pc, n := f.processes[k].pc, f.processes[k].op;
    if !pc.Move? && !pc.Unlink? && !pc.Remove? {
      RowStepsKeepTheDisk(f, k);
    } else if Step(f, k).disk != f.disk {
      AtRow(f, k);
      match pc {
        case Move(_, _) => MoveIsSafe(f, k);
        case Unlink(_, _, _, _) => UnlinkIsSafe(f, k);
        case Remove(_, _, _) => RemoveIsSafe(f, k);
      }
      assert CommittedChange(f, Step(f, k).disk, n, pc.s);
    }
  }

  /** The two records of every surface of every operation agree at all times, and a source is never ahead
      of its registry item, with any number of processes. */
  lemma RecordsAgree(f: Fleet, events: seq<Event>, n: nat)
    requires Initial(f) && n < |History(f, events).ops|
    ensures var op := History(f, events).ops[n];
            && op.registry.reservation.progress == op.registry.item.progress
            && op.source.reservation.progress == op.source.item.progress
            && (op.source.item.progress.namespace.Some? ==> op.registry.item.progress.status == P.Completed)
  {
    HistoryKeepsInv(f, events);
    var now := History(f, events);
    hide History, RowShape, ProcessInv;
    assert OpShape(now.ops[n], P.AddressOf(now.db, RegistryFinal), P.AddressOf(now.db, SourceFinal));
  }

  /** What a row authorizes is written once: over every further run of any number of processes, the
      observation, plan, namespace and tombstone of an item stay as they are, and a completed item stays
      completed. */
  lemma {:induction false} AuthorityIsWrittenOnce(f: Fleet, events: seq<Event>, more: seq<Event>, n: nat, s: Surface)
    requires Initial(f) && n < |History(f, events).ops|
    ensures var start, now := History(f, events), History(f, events + more);
            n < |now.ops| && Gains(RowAt(start, n, s), RowAt(now, n, s))
  {
    hide Gains, Apply, Initial;
    if more == [] {
      assert events + more == events;
      assert Gains(RowAt(History(f, events), n, s), RowAt(History(f, events), n, s)) by {
        SelfRowGains(RowAt(History(f, events), n, s));
      }
    } else {
      var m, all := |more| - 1, events + more;
      assert all[..|all| - 1] == events + more[..m] && all[|all| - 1] == more[m];
      AuthorityIsWrittenOnce(f, events, more[..m], n, s);
      var before := History(f, events + more[..m]);
      HistoryKeepsInv(f, events + more[..m]);
      EventGains(before, more[m], n, s);
      GainsOn(RowAt(History(f, events), n, s), RowAt(before, n, s), RowAt(Apply(before, more[m]), n, s));
    }
  }

  lemma GainsOn(a: P.Progress, b: P.Progress, c: P.Progress)
    requires Gains(a, b) && Gains(b, c)
    ensures Gains(a, c)
  {
  }
}
