/** Each step of each of many purge processes is a step of the machine of one process, on the process's own
    operation: what holds of that machine's transactions and storage calls holds whoever runs them, and however
    they interleave. */
module PurgeFleetSteps {
  import opened Common
  import opened ArtifactStore
  import opened PurgeFleet
  import opened PurgeFleetSafety
  import P = Purge
  import G = PurgeGuards
  import S = PurgeSafety

  /** The position without what the process remembers.  A process that has just committed its move reads the
      item again before it goes on. */
  function Bare(pc: Pc): P.Pc
  {
    match pc
    case Idle => P.Idle
    case Register => P.Register
    case MarkOperation => P.MarkOperation
    case Select(s) => P.Select(s)
    case Load(s) => P.Load(s)
    case Capture(s) => P.Capture(s)
    case Inspect(s, context) => P.Inspect(s, context)
    case Persist(s, context, inspected) => P.Persist(s, context, inspected)
    case Reload(s) => P.Reauthorize(s)
    case Reauthorize(s, _) => P.Reauthorize(s)
    case Move(s, _) => P.Move(s)
    case Recover(s, _) => P.Recover(s)
    case Bind(s, moved) => P.Bind(s, moved)
    case Mark(s, _, index) => P.Mark(s, index)
    case Unlink(s, _, index, retry) => P.Unlink(s, index, retry)
    case Advance(s, _, index) => P.Advance(s, index)
    case MarkDirectory(s, _) => P.MarkDirectory(s)
    case Remove(s, _, allowMissing) => P.RemoveTombstone(s, allowMissing)
    case Complete(s) => P.Complete(s)
    case Block(s, code) => P.Block(s, code)
    case Finalize => P.Finalize
    case Stopped(ending) => P.Stopped(ending)
  }

  /** What process `k` sees: the rows with its own operation, the disk, and its position. */
  function View(f: Fleet, k: nat): P.World
    requires k < |f.processes| && f.processes[k].op < |f.ops|
  {
    P.World(f.db.(operation := Some(f.ops[f.processes[k].op]), past := []), f.disk, Bare(f.processes[k].pc))
  }

  /** The fleet after process `k` has come to `next`: its own operation, the shared rows and the disk. */
  predicate Follows(f: Fleet, after: Fleet, k: nat, next: P.World)
    requires k < |f.processes| && f.processes[k].op < |f.ops|
  {
    var n := f.processes[k].op;
    && next.db.operation.Some? && next.db.past == []
    && after.db.(operation := None, past := []) == next.db.(operation := None)
    && after.ops == f.ops[n := next.db.operation.value] && after.disk == next.disk
    && |after.processes| == |f.processes| && after.processes[k].op == n && Bare(after.processes[k].pc) == next.pc
    && forall j | 0 <= j < |f.processes| && j != k :: after.processes[j] == f.processes[j]
  }

  predicate AtOperation(pc: Pc) { !pc.Idle? && !pc.Stopped? && !pc.Register? && !pc.Reload? }

  lemma GotoFollows(f: Fleet, k: nat, pc: Pc)
    requires k < |f.processes| && f.processes[k].op < |f.ops|
    ensures Follows(f, Goto(f, k, pc), k, View(f, k).(pc := Bare(pc)))
  {
    var n := f.processes[k].op;
    assert f.ops[n := f.ops[n]] == f.ops;
  }

  lemma WriteFollows(f: Fleet, k: nat, s: Surface, lane: P.Lane, pc: Pc)
    requires k < |f.processes| && f.processes[k].op < |f.ops|
    ensures var view := View(f, k);
            Follows(f, Write(f, k, s, lane, pc), k, P.World(P.WithLane(view.db, s, lane), view.disk, Bare(pc)))
  {
  }

  lemma DiskFollows(f: Fleet, k: nat, disk: Disk, pc: Pc)
    requires k < |f.processes| && f.processes[k].op < |f.ops|
    ensures Follows(f, Goto(f, k, pc).(disk := disk), k, P.World(View(f, k).db, disk, Bare(pc)))
  {
    var n := f.processes[k].op;
    assert f.ops[n := f.ops[n]] == f.ops;
  }

  /** What a process sees of its own item. */
  lemma ViewIs(f: Fleet, k: nat, s: Surface)
    requires k < |f.processes| && f.processes[k].op < |f.ops|
    ensures var view, n := View(f, k), f.processes[k].op;
            && view.pc == Bare(f.processes[k].pc) && view.db.operation == Some(f.ops[n])
               && view.db.clock == f.db.clock && view.disk == f.disk
            && P.LaneOf(view.db.operation.value, s) == LaneAt(f, n, s) && P.ItemProgress(view.db, s) == RowAt(f, n, s)
            && P.KeyOf(view.db, s) == KeyAt(f, n, s) && P.AddressOf(view.db, s) == P.AddressOf(f.db, s)
            && P.AttemptOf(view.db, s) == P.AttemptOf(f.db, s)
            && P.AuthoritySnapshot(view.db) == P.AuthoritySnapshot(f.db)
            && P.CanProceed(view.db) == P.CanProceed(f.db)
  {
  }

  predicate Reads(pc: Pc) { pc.Select? || pc.Load? || pc.Capture? || pc.Inspect? || pc.Reauthorize? || pc.Recover? }

  lemma LoadIsMachineStep(f: Fleet, k: nat)
    requires Inv(f) && k < |f.processes| && (f.processes[k].pc.Select? || f.processes[k].pc.Load?)
    ensures f.processes[k].op < |f.ops| && Follows(f, Step(f, k), k, P.Step(View(f, k)))
  {
    hide Inv, Follows, LaneShape, P.CanProceed, P.AuthoritySnapshot, P.KeyOf, KeyAt;
    AtRow(f, k);
    ViewIs(f, k, f.processes[k].pc.s);
    GotoFollows(f, k, Step(f, k).processes[k].pc);
  }

  lemma CheckIsMachineStep(f: Fleet, k: nat)
    requires Inv(f) && k < |f.processes| && (f.processes[k].pc.Capture? || f.processes[k].pc.Reauthorize?)
    ensures f.processes[k].op < |f.ops| && Follows(f, Step(f, k), k, P.Step(View(f, k)))
  {
    hide Inv, Follows, LaneShape, View, LoadPc, LoadedPc, P.LoadItem, P.SelectItem, SelectItem, P.CanProceed,
         P.AuthoritySnapshot, InspectSurface, RecoverTombstone, P.KeyOf, KeyAt, P.ItemProgress, P.EntryAt;
    AtRow(f, k);
    ViewIs(f, k, f.processes[k].pc.s);
    GotoFollows(f, k, Step(f, k).processes[k].pc);
  }

  lemma LookIsMachineStep(f: Fleet, k: nat)
    requires Inv(f) && k < |f.processes| && (f.processes[k].pc.Inspect? || f.processes[k].pc.Recover?)
    ensures f.processes[k].op < |f.ops| && Follows(f, Step(f, k), k, P.Step(View(f, k)))
  {
    hide Inv, Follows, LaneShape, View, LoadPc, LoadedPc, P.LoadItem, P.SelectItem, SelectItem, P.CanProceed,
         P.AuthoritySnapshot, InspectSurface, RecoverTombstone, P.KeyOf, KeyAt, P.ItemProgress, Write;
    AtRow(f, k);
    ViewIs(f, k, f.processes[k].pc.s);
    GotoFollows(f, k, Step(f, k).processes[k].pc);
  }

  lemma ReadIsMachineStep(f: Fleet, k: nat)
    requires Inv(f) && k < |f.processes| && Reads(f.processes[k].pc)
    ensures f.processes[k].op < |f.ops| && Follows(f, Step(f, k), k, P.Step(View(f, k)))
  {
    hide Inv, Follows, Step, P.Step, View;
    var pc := f.processes[k].pc;
    if pc.Select? || pc.Load? {
      LoadIsMachineStep(f, k);
    } else if pc.Capture? || pc.Reauthorize? {
      CheckIsMachineStep(f, k);
    } else {
      LookIsMachineStep(f, k);
    }
  }

  lemma PersistMoveIntentSame(f: Fleet, k: nat)
    requires Inv(f) && k < |f.processes| && f.processes[k].pc.Persist?
    ensures var n, pc := f.processes[k].op, f.processes[k].pc;
            && n < |f.ops|
            && Follows(f, PersistMoveIntent(f, k, pc.s, pc.context, pc.inspected), k,
                       P.PersistMoveIntent(View(f, k), pc.s, pc.context, pc.inspected))
  {
    hide Inv, Follows, View, P.KeyOf, KeyAt, LaneShape, P.CanProceed, P.AuthoritySnapshot, P.IntendMove;
    AtRow(f, k);
    var n, pc := f.processes[k].op, f.processes[k].pc;
    ViewIs(f, k, pc.s);
    var next := PersistMoveIntent(f, k, pc.s, pc.context, pc.inspected);
    GotoFollows(f, k, next.processes[k].pc);
    WriteFollows(f, k, pc.s, LaneAt(next, n, pc.s), next.processes[k].pc);
  }

  lemma MoveItemSame(f: Fleet, k: nat)
    requires Inv(f) && k < |f.processes| && f.processes[k].pc.Move?
    ensures var n, pc := f.processes[k].op, f.processes[k].pc;
            && n < |f.ops|
            && Follows(f, MoveItem(f, k, pc.s, pc.intent), k, P.MoveItem(View(f, k), pc.s))
  {
    hide Inv, Follows, View, P.KeyOf, KeyAt, LaneShape, MoveSurface;
    AtRow(f, k);
    var n, pc := f.processes[k].op, f.processes[k].pc;
    ViewIs(f, k, pc.s);
    var next := MoveItem(f, k, pc.s, pc.intent);
    GotoFollows(f, k, next.processes[k].pc);
    DiskFollows(f, k, next.disk, next.processes[k].pc);
  }

  lemma BindMoveIntentSame(f: Fleet, k: nat)
    requires Inv(f) && k < |f.processes| && f.processes[k].pc.Bind?
    ensures var n, pc := f.processes[k].op, f.processes[k].pc;
            && n < |f.ops|
            && Follows(f, BindMoveIntent(f, k, pc.s, pc.moved), k, P.BindMoveIntent(View(f, k), pc.s, pc.moved))
  {
    hide Inv, Follows, View, P.KeyOf, KeyAt, LaneShape, P.CanProceed, P.AuthoritySnapshot, RowAt, P.BindTombstone;
    AtRow(f, k);
    var n, pc := f.processes[k].op, f.processes[k].pc;
    ViewIs(f, k, pc.s);
    var next := BindMoveIntent(f, k, pc.s, pc.moved);
    GotoFollows(f, k, next.processes[k].pc);
    WriteFollows(f, k, pc.s, LaneAt(next, n, pc.s), next.processes[k].pc);
  }

  lemma MarkEntrySame(f: Fleet, k: nat)
    requires Inv(f) && k < |f.processes| && f.processes[k].pc.Mark?
    requires f.processes[k].pc.index < |f.processes[k].pc.bound.plan|
    ensures var n, pc := f.processes[k].op, f.processes[k].pc;
            && n < |f.ops| && pc.index < P.PlanSize(View(f, k).db, pc.s)
            && Follows(f, MarkEntry(f, k, pc.s, pc.bound, pc.index), k, P.MarkEntry(View(f, k), pc.s, pc.index))
  {
    hide Inv, Follows, View, P.KeyOf, KeyAt, LaneShape;
    AtRow(f, k);
    var n, pc := f.processes[k].op, f.processes[k].pc;
    ViewIs(f, k, pc.s);
    var next := MarkEntry(f, k, pc.s, pc.bound, pc.index);
    GotoFollows(f, k, next.processes[k].pc);
    WriteFollows(f, k, pc.s, LaneAt(next, n, pc.s), next.processes[k].pc);
  }

  lemma UnlinkItemEntrySame(f: Fleet, k: nat)
    requires Inv(f) && k < |f.processes| && f.processes[k].pc.Unlink?
    ensures var n, pc := f.processes[k].op, f.processes[k].pc;
            && n < |f.ops|
            && pc.index < |pc.bound.plan| == P.PlanSize(View(f, k).db, pc.s)
            && Follows(f, UnlinkItemEntry(f, k, pc.s, pc.bound, pc.index, pc.retry), k,
                       P.UnlinkItemEntry(View(f, k), pc.s, pc.index, pc.retry))
  {
    hide Inv, Follows, View, P.KeyOf, KeyAt, LaneShape, UnlinkEntry;
    AtRow(f, k);
    var n, pc := f.processes[k].op, f.processes[k].pc;
    ViewIs(f, k, pc.s);
    var next := UnlinkItemEntry(f, k, pc.s, pc.bound, pc.index, pc.retry);
    GotoFollows(f, k, next.processes[k].pc);
    DiskFollows(f, k, next.disk, next.processes[k].pc);
  }

  lemma MarkDirectoryUnlinkSame(f: Fleet, k: nat)
    requires Inv(f) && k < |f.processes| && f.processes[k].pc.MarkDirectory?
    ensures var n, pc := f.processes[k].op, f.processes[k].pc;
            && n < |f.ops|
            && Follows(f, MarkDirectoryUnlink(f, k, pc.s, pc.bound), k, P.MarkDirectoryUnlink(View(f, k), pc.s))
  {
    hide Inv, Follows, View, P.KeyOf, KeyAt, LaneShape;
    AtRow(f, k);
    var n, pc := f.processes[k].op, f.processes[k].pc;
    ViewIs(f, k, pc.s);
    var next := MarkDirectoryUnlink(f, k, pc.s, pc.bound);
    GotoFollows(f, k, next.processes[k].pc);
    WriteFollows(f, k, pc.s, LaneAt(next, n, pc.s), next.processes[k].pc);
  }

  lemma RemoveItemTombstoneSame(f: Fleet, k: nat)
    requires Inv(f) && k < |f.processes| && f.processes[k].pc.Remove?
    ensures var n, pc := f.processes[k].op, f.processes[k].pc;
            && n < |f.ops|
            && Follows(f, RemoveItemTombstone(f, k, pc.s, pc.bound, pc.allowMissing), k,
                       P.RemoveItemTombstone(View(f, k), pc.s, pc.allowMissing))
  {
    hide Inv, Follows, View, P.KeyOf, KeyAt, LaneShape, RemoveDirectory;
    AtRow(f, k);
    var n, pc := f.processes[k].op, f.processes[k].pc;
    ViewIs(f, k, pc.s);
    var next := RemoveItemTombstone(f, k, pc.s, pc.bound, pc.allowMissing);
    GotoFollows(f, k, next.processes[k].pc);
    DiskFollows(f, k, next.disk, next.processes[k].pc);
  }

  lemma BlockItemSame(f: Fleet, k: nat)
    requires Inv(f) && k < |f.processes| && f.processes[k].pc.Block?
    ensures var n, pc := f.processes[k].op, f.processes[k].pc;
            && n < |f.ops|
            && Follows(f, BlockItem(f, k, pc.s, pc.code), k, P.BlockItem(View(f, k), pc.s, pc.code))
  {
    hide Inv, Follows, View, P.KeyOf, KeyAt, LaneShape, P.BlockLane;
    AtRow(f, k);
    var n, pc := f.processes[k].op, f.processes[k].pc;
    ViewIs(f, k, pc.s);
    var next := BlockItem(f, k, pc.s, pc.code);
    GotoFollows(f, k, next.processes[k].pc);
    WriteFollows(f, k, pc.s, LaneAt(next, n, pc.s), next.processes[k].pc);
  }

  lemma AdvanceSame(f: Fleet, k: nat)
    requires Inv(f) && k < |f.processes| && f.processes[k].pc.Advance?
    ensures var n, pc := f.processes[k].op, f.processes[k].pc;
            && n < |f.ops|
            && Follows(f, Write(f, k, pc.s, P.AdvancePast(LaneAt(f, n, pc.s), pc.index),
                                EntryAt(pc.s, pc.bound, pc.index + 1)),
                       k, P.AdvanceEntry(View(f, k), pc.s, pc.index))
  {
    hide Inv, Follows, View, LaneShape, P.KeyOf, KeyAt;
    AtRow(f, k);
    var n, pc := f.processes[k].op, f.processes[k].pc;
    ViewIs(f, k, pc.s);
    WriteFollows(f, k, pc.s, P.AdvancePast(LaneAt(f, n, pc.s), pc.index), EntryAt(pc.s, pc.bound, pc.index + 1));
  }

  lemma CompleteSame(f: Fleet, k: nat)
    requires Inv(f) && k < |f.processes| && f.processes[k].pc.Complete?
    ensures var n, pc := f.processes[k].op, f.processes[k].pc;
            && n < |f.ops|
            && Follows(f, Write(f, k, pc.s, P.Finish(LaneAt(f, n, pc.s), f.db.clock), After(pc.s)),
                       k, P.CompleteItem(View(f, k), pc.s))
  {
    hide Inv, Follows, View, LaneShape, P.KeyOf, KeyAt, P.Finish;
    AtRow(f, k);
    var n, pc := f.processes[k].op, f.processes[k].pc;
    ViewIs(f, k, pc.s);
    WriteFollows(f, k, pc.s, P.Finish(LaneAt(f, n, pc.s), f.db.clock), After(pc.s));
  }

  /** The step at each position that writes rows or the disk, without its body. */
  lemma StepIs(f: Fleet, k: nat)
    requires k < |f.processes| && f.processes[k].op < |f.ops|
    ensures var pc := f.processes[k].pc;
            && (pc.Persist? ==> Step(f, k) == PersistMoveIntent(f, k, pc.s, pc.context, pc.inspected))
            && (pc.Move? ==> Step(f, k) == MoveItem(f, k, pc.s, pc.intent))
            && (pc.Bind? ==> Step(f, k) == BindMoveIntent(f, k, pc.s, pc.moved))
            && (pc.Mark? ==> Step(f, k) == if pc.index < |pc.bound.plan| then MarkEntry(f, k, pc.s, pc.bound, pc.index)
                                           else Goto(f, k, MarkDirectory(pc.s, pc.bound)))
            && (pc.Unlink? && pc.index < |pc.bound.plan| ==>
                  Step(f, k) == UnlinkItemEntry(f, k, pc.s, pc.bound, pc.index, pc.retry))
            && (pc.Advance? ==>
                  Step(f, k) == Write(f, k, pc.s, P.AdvancePast(LaneAt(f, f.processes[k].op, pc.s), pc.index),
                                      EntryAt(pc.s, pc.bound, pc.index + 1)))
            && (pc.MarkDirectory? ==> Step(f, k) == MarkDirectoryUnlink(f, k, pc.s, pc.bound))
            && (pc.Remove? ==> Step(f, k) == RemoveItemTombstone(f, k, pc.s, pc.bound, pc.allowMissing))
            && (pc.Complete? ==>
                  Step(f, k)
                  == Write(f, k, pc.s, P.Finish(LaneAt(f, f.processes[k].op, pc.s), f.db.clock), After(pc.s)))
            && (pc.Block? ==> Step(f, k) == BlockItem(f, k, pc.s, pc.code))
  {
    hide RegisterOrResume, MarkOperationDeleting, PersistMoveIntent, MoveItem, BindMoveIntent, MarkEntry,
         UnlinkItemEntry, MarkDirectoryUnlink, RemoveItemTombstone, BlockItem, FinalizeOperation, Write, Goto;
  }

  lemma MarkOperationIsMachineStep(f: Fleet, k: nat)
    requires Inv(f) && k < |f.processes| && f.processes[k].pc.MarkOperation?
    ensures f.processes[k].op < |f.ops| && Follows(f, Step(f, k), k, P.Step(View(f, k)))
  {
    hide OpsInv;
    assert ProcessInv(f.ops, f.processes[k]);
    var n := f.processes[k].op;
    assert f.ops[n := f.ops[n]] == f.ops;
  }

  lemma FinalizeIsMachineStep(f: Fleet, k: nat)
    requires Inv(f) && k < |f.processes| && f.processes[k].pc.Finalize?
    ensures f.processes[k].op < |f.ops| && Follows(f, Step(f, k), k, P.Step(View(f, k)))
  {
    hide OpsInv, P.OperationAuthority, NamespaceEmpty, P.BlockedItems, P.CompletedItems, P.ActiveItem;
    assert ProcessInv(f.ops, f.processes[k]);
    var n := f.processes[k].op;
    assert f.ops[n := f.ops[n]] == f.ops;
  }

  lemma WriteIsMachineStep(f: Fleet, k: nat)
    requires Inv(f) && k < |f.processes| && AtItem(f.processes[k].pc)
    requires !Reads(f.processes[k].pc) && !f.processes[k].pc.Reload?
    ensures f.processes[k].op < |f.ops| && Follows(f, Step(f, k), k, P.Step(View(f, k)))
  {
    hide Inv, Follows, Step, P.Step, P.KeyOf, KeyAt, LaneShape, P.LaneOf;
    AtRow(f, k);
    var pc := f.processes[k].pc;
    ViewIs(f, k, pc.s);
    StepIs(f, k);
    S.StepIs(View(f, k));
    match pc
    case Persist(_, _, _) => PersistMoveIntentSame(f, k);
    case Move(_, _) => MoveItemSame(f, k);
    case Bind(_, _) => BindMoveIntentSame(f, k);
    case Mark(s, b, i) =>
      if i < |b.plan| { MarkEntrySame(f, k); } else { GotoFollows(f, k, MarkDirectory(s, b)); }
    case Unlink(_, _, _, _) => UnlinkItemEntrySame(f, k);
    case Advance(_, _, _) => AdvanceSame(f, k);
    case MarkDirectory(_, _) => MarkDirectoryUnlinkSame(f, k);
    case Remove(_, _, _) => RemoveItemTombstoneSame(f, k);
    case Complete(_) => CompleteSame(f, k);
    case Block(_, _) => BlockItemSame(f, k);
  }

  /** Refinement: in every state of any number of processes, on current and ended operations, the step of one of
      them is exactly the machine's step on what that process sees, and touches nothing else.  The one position
      without a counterpart, `Reload`, only reads the item. */
  lemma StepIsMachineStep(f: Fleet, k: nat)
    requires Inv(f) && k < |f.processes| && AtOperation(f.processes[k].pc)
    ensures f.processes[k].op < |f.ops| && Follows(f, Step(f, k), k, P.Step(View(f, k)))
  {
    hide Inv, Follows, Step, View, P.Step;
    var pc := f.processes[k].pc;
    if Reads(pc) {
      ReadIsMachineStep(f, k);
    } else if pc.MarkOperation? {
      MarkOperationIsMachineStep(f, k);
    } else if pc.Finalize? {
      FinalizeIsMachineStep(f, k);
    } else {
      WriteIsMachineStep(f, k);
    }
  }

  /** At `Reload` a process reads its item once more: if the move is still only committed, it goes on with what
      was committed, and otherwise with the tombstone that another process has bound. */
  lemma ReloadOnlyReads(f: Fleet, k: nat)
    requires Inv(f) && k < |f.processes| && f.processes[k].pc.Reload?
    ensures var n, s := f.processes[k].op, f.processes[k].pc.s;
            && n < |f.ops|
            && var row := RowAt(f, n, s);
               && row.observed.Some? && row.plan.Some?
               && Step(f, k) == Goto(f, k,
                    if row.status == P.Verified then
                      Reauthorize(s, Intent(row.observed.value, row.plan.value, row.namespace))
                    else if row.tombstone.None? then Block(s, OwnershipMismatch)
                    else EntryAt(s, Bound(row.plan.value, row.tombstone.value), 0))
  {
    AtRow(f, k);
  }

  // ----- Registration -----

  /** The rows as a registering process sees them. */
  function SharedRows(f: Fleet): P.Db { f.db.(operation := None, past := []) }

  /** With no operation under way and an unpurged adapter, a process registers if and only if nothing stands
      against the purge; otherwise it is refused, and no row and no other process changes. */
  lemma RegistersExactly(f: Fleet, k: nat)
    requires k < |f.processes| && f.processes[k].pc.Register? && f.db.adapter.status != P.Purged
    requires forall op | op in f.ops :: op.status in {P.OperationCompleted, P.CompletedWithBlocks}
    ensures var next := Step(f, k);
            if G.Unfenced(f.db) then
              && |next.ops| == |f.ops| + 1 && next.ops[..|f.ops|] == f.ops && next.disk == f.disk
              && next.processes == f.processes[k := Process(|f.ops|, MarkOperation)]
              && G.RegisteredFrom(SharedRows(f), next.db.(operation := Some(next.ops[|f.ops|])))
            else next == f.(processes := f.processes[k := f.processes[k].(pc := Stopped(P.Refused))])
  {
    assert FirstActive(f.ops).None?;
  }

  /** With an operation under way, a process takes up the oldest one if and only if both resources are pending
      and neither an evaluation nor a governance row names them. */
  lemma ResumesExactly(f: Fleet, k: nat, n: nat)
    requires k < |f.processes| && f.processes[k].pc.Register?
    requires n < |f.ops| && f.ops[n].status in {P.OperationRegistered, P.OperationDeleting}
    requires forall m | 0 <= m < n :: f.ops[m].status in {P.OperationCompleted, P.CompletedWithBlocks}
    ensures var pending := f.db.adapter.status == f.db.source.status == P.PurgePending;
            Step(f, k) == f.(processes := f.processes[k :=
              if pending && !f.db.fences.evaluation && !f.db.fences.governance then Process(n, MarkOperation)
              else f.processes[k].(pc := Stopped(P.Refused))])
  {
    FirstActiveIs(f.ops, n);
  }

  /** Once the adapter is purged and nothing is under way, a call returns and changes nothing. */
  lemma PurgedIsDone(f: Fleet, k: nat)
    requires k < |f.processes| && f.processes[k].pc.Register? && f.db.adapter.status == P.Purged
    requires forall op | op in f.ops :: op.status in {P.OperationCompleted, P.CompletedWithBlocks}
    ensures Step(f, k) == f.(processes := f.processes[k := f.processes[k].(pc := Stopped(P.Returned))])
  {
    assert FirstActive(f.ops).None?;
  }

  lemma HistoryLast(f: Fleet, events: seq<Event>, e: Event)
    ensures History(f, events + [e]) == Apply(History(f, events), e)
  {
    hide Apply;
    assert (events + [e])[..|events + [e]| - 1] == events;
  }

  /** What a history is made of: processes start, step and die, one at a time and in any order; the clock ticks, other
      protocols set and clear the fences, and anything may happen to the disk. */
  lemma EventsExactly(f: Fleet, events: seq<Event>, k: nat, fences: P.Fences, disk: Disk)
    ensures var now := History(f, events);
            && (k < |now.processes| ==>
                  && History(f, events + [Run(k)]) == Step(now, k)
                  && History(f, events + [Crash(k)])
                     == now.(processes := now.processes[k := now.processes[k].(pc := Idle)]))
            && History(f, events + [Start]) == now.(processes := now.processes + [Process(0, Register)])
            && History(f, events + [Tick]) == now.(db := now.db.(clock := now.db.clock + 1))
            && History(f, events + [SetFences(fences)]) == now.(db := now.db.(fences := fences))
            && History(f, events + [Outside(disk)]) == now.(disk := disk)
  {
    hide Step, History;
    HistoryLast(f, events, Run(k));
    HistoryLast(f, events, Crash(k));
    HistoryLast(f, events, Start);
    HistoryLast(f, events, Tick);
    HistoryLast(f, events, SetFences(fences));
    HistoryLast(f, events, Outside(disk));
  }

  lemma {:induction false} FirstActiveIs(ops: seq<P.Operation>, n: nat)
    requires n < |ops| && P.ActiveOperation(ops[n]) && forall m | 0 <= m < n :: !P.ActiveOperation(ops[m])
    ensures FirstActive(ops) == Some(n)
  {
    hide P.ActiveOperation;
    if n > 0 { FirstActiveIs(ops[1..], n - 1); }
  }

  /** Over all histories: an operation comes into being only for an unfenced adapter. */
  lemma OperationsBeginUnfenced(f: Fleet, events: seq<Event>, e: Event)
    requires Initial(f) && |History(f, events + [e]).ops| > |History(f, events).ops|
    ensures e.Run? && G.Unfenced(History(f, events).db)
  {
    hide Step, Inv, G.Unfenced, Apply, History;
    HistoryLast(f, events, e);
    var before := History(f, events);
    ReachableInv(f, events);
    OthersAddNothing(before, e);
    if e.Run? && e.process < |before.processes| {
      if before.processes[e.process].pc.Register? {
        RegistrationIsUnfenced(before, e.process);
      } else {
        OnlyRegistrationAdds(before, e.process);
      }
    }
  }

  lemma OthersAddNothing(f: Fleet, e: Event)
    ensures if e.Run? && e.process < |f.processes| then Apply(f, e) == Step(f, e.process)
            else Apply(f, e).ops == f.ops
  {
    hide Step;
  }

  lemma ReachableInv(f: Fleet, events: seq<Event>)
    requires Initial(f)
    ensures Inv(History(f, events))
  {
    HistoryKeepsInv(f, events);
  }

  lemma RegistrationIsUnfenced(f: Fleet, k: nat)
    requires k < |f.processes| && f.processes[k].pc.Register?
    ensures |Step(f, k).ops| == |f.ops| || G.Unfenced(f.db)
  {
    hide P.NewOperation;
  }

  lemma OnlyRegistrationAdds(f: Fleet, k: nat)
    requires Inv(f) && k < |f.processes| && !f.processes[k].pc.Register?
    ensures |Step(f, k).ops| == |f.ops|
  {
    hide Inv, View, P.Step;
    if f.processes[k].pc.Reload? {
      ReloadOnlyReads(f, k);
    } else if AtOperation(f.processes[k].pc) {
      StepIsMachineStep(f, k);
      hide Step;
    }
  }
}
