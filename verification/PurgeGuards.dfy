/** What stops a purge process (adapter_purge.py): exactly when it registers, resumes, commits a move, renames,
    binds and finalizes, and that it never does so for a fenced adapter. */
module PurgeGuards {
  import opened Common
  import opened ArtifactStore
  import opened Purge
  import opened PurgeSafety

  // ----- Registration -----

  /** Nothing stands against a purge: the resources are live or pending, their attempts authoritative, and no
      evaluation, governance row or reconciliation names them. */
  predicate Unfenced(db: Db)
  {
    && db.adapter.status in {Live, PurgePending} && db.source.status in {Live, PurgePending}
    && db.sourceAttempt.authoritative && db.registryAttempt.authoritative
    && db.fences.evaluation == db.fences.governance == db.fences.reconciliation == false
  }

  /** What registration leaves, item by item. */
  predicate RegisteredFrom(db: Db, next: Db)
  {
    && next.operation.Some?
    && var op := next.operation.value;
       && next == db.(adapter := next.adapter, source := next.source, operation := next.operation,
                      past := next.past, nextSerial := db.nextSerial + 5)
       && next.adapter == db.adapter.(status := PurgePending, version := db.adapter.version + 1)
       && next.source == db.source.(status := PurgePending, version := db.source.version + 1)
       && next.past == db.past + (if db.operation.Some? then [db.operation.value] else [])
       && op.status == OperationRegistered && op.version == 1 && op.completedAt == op.auditedAt == None
       && op.completedCount == op.blockedCount == 0
       && op.expectedAdapter == next.adapter.version && op.expectedSource == next.source.version
       && op.expectedSourceAttempt == db.sourceAttempt.version
       && op.expectedRegistryAttempt == db.registryAttempt.version
       && op.snapshot == AuthoritySnapshot(db)
       && LaneFrom(op.registry, next.adapter.version, db.registryAttempt, AuthoritySnapshot(next))
       && LaneFrom(op.source, next.source.version, db.sourceAttempt, AuthoritySnapshot(next))
       && [op.id, op.registry.reservation.id, op.registry.item.id, op.source.reservation.id, op.source.item.id]
          == [Issued(db.nextSerial), Issued(db.nextSerial + 1), Issued(db.nextSerial + 2),
              Issued(db.nextSerial + 3), Issued(db.nextSerial + 4)]
  }

  predicate LaneFrom(lane: Lane, resourceVersion: nat, attempt: Attempt, snapshot: Snapshot)
  {
    && lane.item.version == lane.reservation.version == 1
    && lane.item.manifest == attempt.manifest
    && lane.reservation.authority == Authority(resourceVersion, attempt.version, attempt.manifest, snapshot)
    && lane.item.progress == lane.reservation.progress
       == Progress(Registered, None, None, None, None, 0, None, false, None, None)
  }

  /** A new process with no operation under way and an unpurged adapter registers if and only if nothing stands
      against the purge; otherwise it is refused and no row changes. */
  lemma RegistersExactly(w: World)
    requires w.db.operation.Some? ==> w.db.operation.value.status in {OperationCompleted, CompletedWithBlocks}
    requires w.db.adapter.status != Purged
    ensures var next := Step(Launch(w));
            if Unfenced(w.db) then RegisteredFrom(w.db, next.db) && next == World(next.db, w.disk, MarkOperation)
            else next == w.(pc := Stopped(Refused))
  {
  }

  /** With an operation under way, a new process takes it up if and only if both resources are pending and
      neither an evaluation nor a governance row names them; nothing is written. */
  lemma ResumesExactly(w: World)
    requires w.db.operation.Some? && w.db.operation.value.status in {OperationRegistered, OperationDeleting}
    ensures var pending := w.db.adapter.status == w.db.source.status == PurgePending;
            Step(Launch(w)) == w.(pc := if pending && !w.db.fences.evaluation && !w.db.fences.governance
                                        then MarkOperation else Stopped(Refused))
  {
  }

  /** Once the adapter is purged and nothing is under way, a call returns and changes nothing, whatever fences there
      are. */
  lemma PurgedIsDone(w: World)
    requires w.db.operation.Some? ==> w.db.operation.value.status in {OperationCompleted, CompletedWithBlocks}
    requires w.db.adapter.status == Purged
    ensures Step(Launch(w)) == w.(pc := Stopped(Returned))
  {
  }

  lemma HistoryLast(w: World, events: seq<Event>, e: Event)
    ensures History(w, events + [e]) == Apply(History(w, events), e)
  {
    hide Apply;
    assert (events + [e])[..|events + [e]| - 1] == events;
  }

  /** What a history is made of: a process starts from nothing, steps, or dies; the clock ticks, other protocols set and
      clear the fences, and anything may happen to the disk. */
  lemma EventsExactly(w: World, events: seq<Event>, fences: Fences, disk: Disk)
    ensures var now := History(w, events);
            && History(w, events + [Run]) == Step(now) && History(w, events + [Crash]) == World(now.db, now.disk, Idle)
            && History(w, events + [Start]) == World(now.db, now.disk, Register)
            && History(w, events + [Tick]) == now.(db := now.db.(clock := now.db.clock + 1))
            && History(w, events + [SetFences(fences)]) == now.(db := now.db.(fences := fences))
            && History(w, events + [Outside(disk)]) == World(now.db, disk, now.pc)
  {
    hide Step, History;
    HistoryLast(w, events, Run);
    HistoryLast(w, events, Crash);
    HistoryLast(w, events, Start);
    HistoryLast(w, events, Tick);
    HistoryLast(w, events, SetFences(fences));
    HistoryLast(w, events, Outside(disk));
  }

  /** Over all histories: whatever event brings an operation into being finds the adapter unfenced. */
  lemma OperationsBeginUnfenced(w: World, events: seq<Event>, e: Event)
    requires Initial(w)
    ensures var before, after := History(w, events), History(w, events + [e]);
            after.db.operation.Some? && (before.db.operation.None? || after.db.past != before.db.past) ==>
              e == Run && Unfenced(before.db) && RegisteredFrom(before.db, after.db)
  {
    hide Step, Unfenced, RegisteredFrom;
    var before := History(w, events);
    assert (events + [e])[..|events + [e]| - 1] == events;
    if e == Run {
      if before.pc.Register? {
        BeginsUnfenced(before);
      } else {
        OnlyRegistrationRenews(before);
      }
    }
  }

  lemma BeginsUnfenced(w: World)
    requires w.pc.Register?
    ensures Step(w).db == w.db || (Unfenced(w.db) && RegisteredFrom(w.db, Step(w).db))
  {
    hide Unfenced, RegisteredFrom, NewOperation;
    assert w == Launch(w);
    if w.db.operation.Some? && ActiveOperation(w.db.operation.value) {
      ResumesExactly(w);
    } else if w.db.adapter.status != Purged {
      if w.db.operation.Some? {
        var status := w.db.operation.value.status;
        assert status == OperationCompleted || status == CompletedWithBlocks;
      }
      RegistersExactly(w);
    }
  }

  // ----- Committing, renaming and binding -----

  predicate PendingUnfenced(db: Db) { db.adapter.status == db.source.status == PurgePending && Unfenced(db) }

  /** The rows differ in one lane of the operation. */
  predicate OnlyLane(db: Db, next: Db, s: Surface, lane: Lane)
    requires db.operation.Some?
  {
    var op := db.operation.value;
    next == db.(operation := Some(match s
                                  case RegistryFinal => op.(registry := lane)
                                  case SourceFinal => op.(source := lane)))
  }

  /** A registered item is inspected only for a pending and unfenced pair, by an item that no other process has
      taken further; nothing is written. */
  lemma CapturesExactly(w: World)
    requires w.db.operation.Some? && w.pc.Capture?
    ensures var lane := LaneOf(w.db.operation.value, w.pc.s);
            Step(w) == w.(pc := if !PendingUnfenced(w.db) then Stopped(Refused)
                                else if lane.item.progress.status == lane.reservation.progress.status == Registered
                                then Inspect(w.pc.s, MoveContext(lane.item.version, lane.reservation.version,
                                                                 AuthoritySnapshot(w.db)))
                                else Block(w.pc.s, AuthorityChanged))
  {
  }

  /** The move is committed if and only if the pair is still pending and unfenced, and item, reservation and
      authority are as they were captured; both records then carry the inspection and the item's own
      namespace. */
  lemma CommitsExactly(w: World)
    requires w.db.operation.Some? && w.pc.Persist?
    ensures var s, c, next := w.pc.s, w.pc.context, Step(w);
            var lane := LaneOf(w.db.operation.value, s);
            var i, r := lane.item.progress, lane.reservation.progress;
            if !PendingUnfenced(w.db) then next == w.(pc := Stopped(Refused))
            else if i.status == r.status == Registered && lane.item.version == c.itemVersion
                    && lane.reservation.version == c.reservationVersion && AuthoritySnapshot(w.db) == c.snapshot then
              && next.pc == Reauthorize(s) && next.disk == w.disk
              && OnlyLane(w.db, next.db, s, Lane(
                   lane.item.(version := lane.item.version + 1,
                              progress := Committed(i, w.pc.inspected, KeyOf(w.db, s))),
                   lane.reservation.(version := lane.reservation.version + 1,
                                     progress := Committed(r, w.pc.inspected, KeyOf(w.db, s)))))
            else next == w.(pc := Block(s, AuthorityChanged))
  {
  }

  function Committed(p: Progress, inspected: Observation, key: TombstoneKey): Progress
  {
    p.(status := Verified, observed := Some(inspected), plan := Some(inspected.entries), namespace := Some(key))
  }

  /** A process goes on to the rename if and only if the move is committed in both records and the pair is
      pending and unfenced at that moment. */
  lemma RenamesExactly(w: World)
    requires w.db.operation.Some? && w.pc.Reauthorize?
    ensures var lane := LaneOf(w.db.operation.value, w.pc.s);
            Step(w) == w.(pc := if lane.item.progress.status != Verified || lane.reservation.progress.status != Verified
                                then Block(w.pc.s, AuthorityChanged)
                                else if PendingUnfenced(w.db) then Move(w.pc.s) else Stopped(Refused))
  {
  }

  /** A moved surface is bound if and only if the move is committed in both records, with one namespace, the pair
      is pending and unfenced, and the authority is still that of the reservation; an item already bound to
      exactly this tombstone goes on, and one bound to another is blocked. */
  lemma BindsExactly(w: World)
    requires w.db.operation.Some? && w.pc.Bind?
    ensures var s, next, bound := w.pc.s, Step(w), Some(w.pc.bound);
            var lane := LaneOf(w.db.operation.value, s);
            var i, r := lane.item.progress, lane.reservation.progress;
            if i.status == TombstoneBound then
              next == w.(pc := if i.tombstone == bound then Entry0(w.db, s) else Block(s, AuthorityChanged))
            else if i.status != Verified || r.status != Verified then next == w.(pc := Block(s, AuthorityChanged))
            else if !PendingUnfenced(w.db) then next == w.(pc := Stopped(Refused))
            else if AuthoritySnapshot(w.db) == lane.reservation.authority.snapshot && i.namespace == r.namespace then
              && next.disk == w.disk && next.pc == Entry0(next.db, s)
              && OnlyLane(w.db, next.db, s, Lane(
                   lane.item.(version := lane.item.version + 1,
                              progress := i.(status := TombstoneBound, tombstone := bound)),
                   lane.reservation.(version := lane.reservation.version + 1,
                                     progress := r.(status := TombstoneBound, tombstone := bound))))
            else next == w.(pc := Block(s, AuthorityChanged))
  {
    hide CanProceed;
    CanProceedMeans(w.db);
  }

  lemma CanProceedMeans(db: Db)
    ensures CanProceed(db) <==> PendingUnfenced(db)
  {
  }

  // ----- Finalization -----

  /** With every item ended, the counts say how. */
  function EndedWith(op: Operation, completed: nat, blocked: nat, now: nat): Operation
  {
    op.(status := if blocked > 0 then CompletedWithBlocks else OperationCompleted, version := op.version + 1,
        completedAt := Some(now), completedCount := completed, blockedCount := blocked)
  }

  function PurgedAtVersion(r: Resource, now: nat): Resource
  {
    r.(status := Purged, purgedAt := Some(now), version := r.version + 1)
  }

  /** An operation whose items have all completed completes if and only if no evaluation or governance row names
      the pair and no tombstone is left at either address; then both resources are purged, with one audit.
      While an item is active it stays as it is, and with a blocked item it ends with blocks. */
  lemma CompletesExactly(w: World)
    requires Inv(w) && w.pc.Finalize?
    ensures w.db.operation.Some?
    ensures var db, op, next := w.db, w.db.operation.value, Step(w);
            var r, s := op.registry.item.progress.status, op.source.item.progress.status;
            var clear := !db.fences.governance && forall a :: NoTombstone(w.disk, AddressOf(db, a));
            if db.fences.evaluation then next == w.(pc := Stopped(Refused))
            else if r !in {Completed, Blocked} || s !in {Completed, Blocked} then next == w.(pc := Stopped(Returned))
            else if r == s == Completed && !clear then next == w.(pc := Stopped(Refused))
            else if r == s == Completed then
              var ended := EndedWith(op, 2, 0, db.clock);
              next == World(db.(adapter := PurgedAtVersion(db.adapter, db.clock),
                                source := PurgedAtVersion(db.source, db.clock),
                                operation := Some(ended.(version := op.version + 2, auditedAt := Some(db.clock))),
                                purgeAudits := [op.id]),
                            w.disk, Stopped(Returned))
            else
              var completed := if r == s then 0 else 1;
              next == World(db.(operation := Some(EndedWith(op, completed, 2 - completed, db.clock))), w.disk,
                            Stopped(Returned))
  {
    hide LaneShape, NamespaceEmpty, OperationAuthority, NoTombstone, OperationAuthorities, LaneAuthority, ItemAtPc;
    AuthorityStands(w.db);
    EmptyIsNoTombstone(w.disk, AddressOf(w.db, RegistryFinal));
    EmptyIsNoTombstone(w.disk, AddressOf(w.db, SourceFinal));
  }

  lemma AuthorityStands(db: Db)
    requires db.operation.Some? && RowsInv(db) && ActiveOperation(db.operation.value)
    ensures OperationAuthority(db, db.operation.value) && PendingAuthority(db)
  {
    hide Lanes;
  }
}
