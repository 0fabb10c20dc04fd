/** The release accepts exactly what the purge produces. */
module Handoff {
  import opened Common
  import opened ArtifactStore
  import opened Purge
  import opened PurgeSafety
  import opened PurgeProgress
  import opened PurgeResume
  import opened Release

  // ----- Version arithmetic over whole runs -----

  /** One increment at every registration; the completed purge adds one more (`OperationPhase`). */
  predicate VersionLaw(db: Db, adapterVersion: nat, sourceVersion: nat)
  {
    if db.operation.None? then db.adapter.version == adapterVersion && db.source.version == sourceVersion
    else
      var op := db.operation.value;
      && op.expectedAdapter == adapterVersion + 1 + |db.past|
      && op.expectedSource == sourceVersion + 1 + |db.past|
      && forall earlier | earlier in db.past :: earlier.status == CompletedWithBlocks
  }

  lemma RegistrationKeepsLaw(w: World, a: nat, s: nat)
    requires Inv(w) && w.pc.Register? && VersionLaw(w.db, a, s)
    ensures VersionLaw(RegisterOrResume(w).db, a, s)
  {
    hide OperationAuthorities, Lanes, NewLane, AuthoritySnapshot;
  }

  lemma StepKeepsLaw(w: World, a: nat, s: nat)
    requires Inv(w) && VersionLaw(w.db, a, s)
    ensures VersionLaw(Step(w).db, a, s)
  {
    hide Inv;
    if w.pc.Register? {
      RegistrationKeepsLaw(w, a, s);
      hide RegisterOrResume, VersionLaw;
    } else {
      OnlyRegistrationRenews(w);
      hide Step;
      RenewalOnly(w.db, Step(w).db, a, s);
    }
  }

  lemma RenewalOnly(db: Db, next: Db, a: nat, s: nat)
    requires VersionLaw(db, a, s) && next.past == db.past && (next.operation.Some? <==> db.operation.Some?)
    requires if db.operation.None? then next == db
             else next.operation.value.expectedAdapter == db.operation.value.expectedAdapter
                  && next.operation.value.expectedSource == db.operation.value.expectedSource
    ensures VersionLaw(next, a, s)
  {
  }

  lemma {:induction false} HistoryKeepsLaw(w: World, events: seq<Event>)
    requires Initial(w)
    ensures VersionLaw(History(w, events).db, w.db.adapter.version, w.db.source.version)
  {
    if events != [] {
      HistoryKeepsLaw(w, events[..|events| - 1]);
      HistoryKeepsInv(w, events[..|events| - 1]);
      StepKeepsLaw(History(w, events[..|events| - 1]), w.db.adapter.version, w.db.source.version);
      hide Inv, Step, Initial;
    }
  }

  lemma {:induction false} StepsKeepLaw(w: World, n: nat, a: nat, s: nat)
    requires Inv(w) && VersionLaw(w.db, a, s)
    ensures Inv(Steps(w, n)) && VersionLaw(Steps(w, n).db, a, s)
    decreases n
  {
    hide Inv, VersionLaw, Step;
    if n > 0 {
      StepKeepsInv(w);
      StepKeepsLaw(w, a, s);
      StepsKeepLaw(Step(w), n - 1, a, s);
    }
  }

  // ----- What the release accepts -----

  lemma {:induction false} BlockedNeverMatch(db: Db, ops: seq<Operation>)
    requires forall op | op in ops :: op.status != OperationCompleted
    ensures Matches(db, ops) == []
  {
    if ops != [] {
      BlockedNeverMatch(db, ops[1..]);
    }
  }

  lemma {:induction false} MatchesOfAppend(db: Db, ops: seq<Operation>, last: Operation)
    ensures Matches(db, ops + [last]) == Matches(db, ops) + (if Successful(db, last) then [last] else [])
  {
    if ops == [] {
      assert ops + [last] == [last];
      assert Matches(db, [last][1..]) == [];
    } else {
      assert (ops + [last])[1..] == ops[1..] + [last];
      MatchesOfAppend(db, ops[1..], last);
    }
  }

  /** Of all the operations there ever were, only the last can match. */
  lemma OnlyTheLastMatches(db: Db, a: nat, s: nat)
    requires db.operation.Some? && VersionLaw(db, a, s)
    ensures Matches(db, Operations(db)) == if Successful(db, db.operation.value) then [db.operation.value] else []
  {
    BlockedNeverMatch(db, db.past);
    MatchesOfAppend(db, db.past, db.operation.value);
  }

  lemma CompletedMatches(l: Ledger)
    requires l.db.operation.Some? && RowsInv(l.db) && l.db.operation.value.status == OperationCompleted
    requires l.dependency.status == DependencyIsActive
    ensures Successful(l.db, l.db.operation.value) <==> l.db.past == []
    ensures CompletedPurge(l, l.db.operation.value)
    ensures CountOf(l.db.purgeAudits, l.db.operation.value.id) == 1
  {
    assert forall s :: ReservationMatches(l.db, l.db.operation.value, s) && ItemMatches(l.db, l.db.operation.value, s);
    assert CountOf([], l.db.operation.value.id) == 0;
  }

  lemma AcceptsTheFirstPurge(l: Ledger, expected: Versions, a: nat, s: nat)
    requires l.db.operation.Some? && RowsInv(l.db) && VersionLaw(l.db, a, s)
    requires l.dependency.status == DependencyIsActive && l.dependency.releasedAt.None?
    ensures Accepts(l, expected) <==>
              && expected == VersionsOf(l) && !l.governed && !l.db.fences.reconciliation
              && l.db.operation.value.status == OperationCompleted && l.db.past == []
  {
    OnlyTheLastMatches(l.db, a, s);
    var op := l.db.operation.value;
    assert op in Operations(l.db);
    assert forall other | other in Operations(l.db) :: other != op ==> other.status == CompletedWithBlocks;
    if op.status == OperationCompleted {
      CompletedMatches(l);
      PurgedLifecycle(l, expected);
    }
    hide CompletedPurge, RowsInv, Matches, VersionsOf, LifecycleMatches, Operations;
  }

  /** Handoff: over every history of the purge, whatever the disk did, the release accepts if and only
      if the caller's versions are current, nothing else holds the adapter, and the operation is
      completed and is the first one.  An operation registered again after a blocked one has taken its
      snapshot from `purge_pending` rows and is refused. */
  lemma ReleaseAcceptsExactlyTheFirstPurge(w: World, events: seq<Event>, l: Ledger, expected: Versions)
    requires Initial(w) && l.db == History(w, events).db
    requires l.dependency.status == DependencyIsActive && l.dependency.releasedAt.None?
    ensures Accepts(l, expected) <==>
              && expected == VersionsOf(l) && !l.governed && !l.db.fences.reconciliation
              && l.db.operation.Some? && l.db.operation.value.status == OperationCompleted && l.db.past == []
  {
    HistoryKeepsInv(w, events);
    HistoryKeepsLaw(w, events);
    if l.db.operation.None? {
      assert Operations(l.db) == [];
    } else {
      hide Accepts, RowsInv, VersionLaw;
      AcceptsTheFirstPurge(l, expected, w.db.adapter.version, w.db.source.version);
    }
  }

  lemma PurgedLifecycle(l: Ledger, expected: Versions)
    requires l.db.operation.Some? && RowsInv(l.db) && l.db.operation.value.status == OperationCompleted
    requires l.dependency.status == DependencyIsActive && l.dependency.releasedAt.None?
    ensures LifecycleMatches(l, expected) <==> expected == VersionsOf(l)
  {
  }

  // ----- What the release does -----

  /** The release bumps adapter and dependency once, and repeating it changes nothing; with any
      versions but the refreshed ones it is refused. */
  lemma ReleaseTwice(l: Ledger, disk: Disk, expected: Versions, again: Versions)
    requires l.releaseAudits == 0
    requires Released(l, disk, expected).1.Applied?
    ensures var (next, result) := Released(l, disk, expected);
            && result.versions == VersionsOf(next)
            && VersionsOf(next) == Versions(expected.adapter + 1, expected.source, expected.dependency + 1)
            && next.dependency.status == DependencyReleased && next.releaseAudits == 1
            && Released(next, disk, again)
               == (next, if again == VersionsOf(next) then AlreadyReleased(again) else Conflict)
  {
    var next := Released(l, disk, expected).0;
    assert Operations(next.db) == Operations(l.db);
    SameMatches(l.db, next.db, Operations(l.db));
    assert forall s :: AddressOf(next.db, s) == AddressOf(l.db, s) && AttemptOf(next.db, s) == AttemptOf(l.db, s);
    var op := Matches(l.db, Operations(l.db))[0];
    assert forall s | s in SURFACES :: ReservationMatches(next.db, op, s);
    assert forall s | s in SURFACES :: ItemMatches(next.db, op, s);
    assert CompletedPurge(next, op);
    hide Matches, ReservationMatches, ItemMatches, CompletedPurge, NamespaceEmpty;
    assert StorageAbsent(disk, next.db) <==> StorageAbsent(disk, l.db);
    hide StorageAbsent;
  }

  /** The version of the adapter is no part of what makes an operation match. */
  lemma {:induction false} SameMatches(db: Db, other: Db, ops: seq<Operation>)
    requires other == db.(adapter := other.adapter) && other.adapter == db.adapter.(version := other.adapter.version)
    ensures Matches(other, ops) == Matches(db, ops)
  {
    if ops != [] {
      SameMatches(db, other, ops[1..]);
    }
  }

  lemma QuietEnd(end: World, base: Disk, a: nat, s: nat)
    requires Quiet(end, base) && end.pc.Stopped? && VersionLaw(end.db, a, s)
    ensures end.db.operation.Some? && RowsInv(end.db) && end.db.operation.value.status == OperationCompleted
    ensures end.db.fences == CLEAR && StorageAbsent(end.disk, end.db)
    ensures end.db.adapter.version == a + 2 + |end.db.past| && end.db.source.version == s + 2 + |end.db.past|
  {
    PurgedDisk(end, base);
    hide OperationAuthorities, Lanes, HasManifest;
    OwnNamespace(end, base, RegistryFinal);
    OwnNamespace(end, base, SourceFinal);
    hide Namespace;
  }

  /** What a purge that was begun once has behind it at its end. */
  lemma PastAtTheEnd(w: World, events: seq<Event>, n: nat)
    requires Startable(w) && Ready(w.disk, w.db) && BenignHistory(w, events)
    requires Begun(Steps(Launch(History(w, events)), n).db)
    ensures Steps(Launch(History(w, events)), n).db.past
            == w.db.past + (if w.db.operation.Some? then [w.db.operation.value] else [])
  {
    var now, base := History(w, events), Baseline(w.disk, events);
    HistoryKeepsFit(w, events);
    BegunOrUntouched(w, events);
    hide Resumable, Ready, Startable, Begun, History, Steps, BenignHistory, Baseline;
    RestartFits(now, base, Register);
    assert Follows(w.db, Launch(now).db);
    StepsFollow(w.db, Launch(now), base, n);
  }

  /** End to end: after any crashes and siblings, the resumed purge is released, and the adapter's
      version has grown by exactly three since it was validated. */
  lemma PurgeThenRelease(w: World, events: seq<Event>, n: nat, dependencyVersion: nat)
    requires Initial(w) && Ready(w.disk, w.db) && BenignHistory(w, events) && n >= StepsLeft(Register)
    requires Unobstructed(History(w, events).db, Baseline(w.disk, events))
    ensures var end := Steps(Launch(History(w, events)), n);
            var l := Ledger(end.db, Dependency(DependencyIsActive, None, dependencyVersion), 0, false);
            Released(l, end.disk, VersionsOf(l)).1
            == Applied(Versions(w.db.adapter.version + 3, w.db.source.version + 2, dependencyVersion + 1))
  {
    hide Inv, Quiet, Initial, Ready, Unobstructed, VersionLaw, Accepts, RowsInv, Emptied, Steps, History, StorageAbsent,
         BenignHistory, Baseline, FullyPurged, Startable, Unregistered;
    var now := History(w, events);
    var a, s, end := w.db.adapter.version, w.db.source.version, Steps(Launch(now), n);
    InitialIsStartable(w);
    Resumption(w, events, n);
    InitialInv(w);
    HistoryKeepsInv(w, events);
    HistoryKeepsLaw(w, events);
    LaunchKeepsInv(now);
    StepsKeepLaw(Launch(now), n, a, s);
    QuietEnd(end, Baseline(w.disk, events), a, s);
    PastAtTheEnd(w, events, n);
    assert end.db.past == [] by { InitialIsEmpty(w); }
    var l := Ledger(end.db, Dependency(DependencyIsActive, None, dependencyVersion), 0, false);
    AcceptsTheFirstPurge(l, VersionsOf(l), a, s);
  }

  lemma InitialIsEmpty(w: World)
    requires Initial(w)
    ensures w.db.operation.None? && w.db.past == []
  {
  }

  lemma InitialInv(w: World)
    requires Initial(w)
    ensures Inv(w)
  {
  }

  lemma LaunchKeepsInv(w: World)
    requires Inv(w)
    ensures Inv(Launch(w))
  {
  }

  // ----- What is released -----

  /** Neither surface exists, and nothing is left of either tombstone namespace. */
  predicate NothingAt(disk: Disk, db: Db)
  {
    forall s: Surface ::
      var a := Address(s, db.department, if s.RegistryFinal? then db.adapter.id else db.source.id);
      a !in disk.finals && NoTombstone(disk, a)
  }

  lemma AbsentIsNothing(disk: Disk, db: Db)
    ensures StorageAbsent(disk, db) <==> NothingAt(disk, db)
  {
    forall s: Surface ensures s in SURFACES {
      match s
      case SourceFinal => assert SURFACES[0] == s;
      case RegistryFinal => assert SURFACES[1] == s;
    }
    assert forall s: Surface ::
        AddressOf(db, s) == Address(s, db.department, if s.RegistryFinal? then db.adapter.id else db.source.id);
    forall s: Surface ensures NamespaceEmpty(disk, AddressOf(db, s)) <==> NoTombstone(disk, AddressOf(db, s)) {
      EmptyIsNoTombstone(disk, AddressOf(db, s));
    }
    hide NamespaceEmpty, NoTombstone;
  }

  /** The release applies if and only if the validation accepts, the dependency is active and nothing is left at
      either address; it then adds one to the versions of adapter and dependency, and one audit.  An accepted
      and earlier release is only reported, and everything else is a conflict that changes nothing. */
  lemma ReleaseAppliesExactly(l: Ledger, disk: Disk, expected: Versions)
    ensures var active := l.dependency.status == DependencyIsActive;
            Released(l, disk, expected)
            == if !Accepts(l, expected) || !NothingAt(disk, l.db) then (l, Conflict)
               else if !active then (l, AlreadyReleased(VersionsOf(l)))
               else
                 (l.(dependency := Dependency(DependencyReleased, Some(l.db.clock), l.dependency.version + 1),
                     db := l.db.(adapter := l.db.adapter.(version := l.db.adapter.version + 1)),
                     releaseAudits := l.releaseAudits + 1),
                  Applied(Versions(l.db.adapter.version + 1, l.db.source.version, l.dependency.version + 1)))
  {
    hide Accepts, StorageAbsent, NothingAt;
    AbsentIsNothing(disk, l.db);
  }

  /** After any crashes and siblings, the rows of the resumed purge are released on exactly those disks on which
      neither a surface nor a tombstone has been put back. */
  lemma PutBackIsConflict(w: World, events: seq<Event>, n: nat, dependencyVersion: nat, disk: Disk)
    requires Initial(w) && Ready(w.disk, w.db) && BenignHistory(w, events) && n >= StepsLeft(Register)
    requires Unobstructed(History(w, events).db, Baseline(w.disk, events))
    ensures var end := Steps(Launch(History(w, events)), n);
            var l := Ledger(end.db, Dependency(DependencyIsActive, None, dependencyVersion), 0, false);
            if NothingAt(disk, end.db) then Released(l, disk, VersionsOf(l)).1.Applied?
            else Released(l, disk, VersionsOf(l)) == (l, Conflict)
  {
    hide Initial, Ready, Unobstructed, Steps, History, BenignHistory, Baseline, NothingAt, Accepts, StorageAbsent;
    PurgeThenRelease(w, events, n, dependencyVersion);
    var end := Steps(Launch(History(w, events)), n);
    var l := Ledger(end.db, Dependency(DependencyIsActive, None, dependencyVersion), 0, false);
    ReleaseAppliesExactly(l, end.disk, VersionsOf(l));
    ReleaseAppliesExactly(l, disk, VersionsOf(l));
  }

  /** One surface of an accepted purge: item and reservation completed with the same record, made for the live
      rows and their manifest, in the item's own namespace. */
  predicate SurfaceAccounted(db: Db, op: Operation, s: Surface)
  {
    var attempt := if s.RegistryFinal? then db.registryAttempt else db.sourceAttempt;
    var item, r := LaneOf(op, s).item, LaneOf(op, s).reservation;
    && item.progress.status == r.progress.status == Completed
    && item.progress.completedAt.Some? && r.progress.completedAt.Some?
    && item.progress.blockedCode == r.progress.blockedCode == None
    && item.progress.observed == r.progress.observed && r.progress.observed.Some?
    && item.progress.plan == r.progress.plan && r.progress.plan.Some?
    && item.progress.tombstone == r.progress.tombstone && r.progress.tombstone.Some?
    && item.progress.namespace == r.progress.namespace == Some(TombstoneKey(AddressOf(db, s), item.id))
    && item.manifest == r.authority.manifest == attempt.manifest
    && r.authority.expectedResourceVersion == (if s.RegistryFinal? then op.expectedAdapter else op.expectedSource)
    && r.authority.expectedAttemptVersion == attempt.version
    && r.authority.snapshot.adapter
       == ResourceSection(db.adapter.id, op.expectedAdapter, PurgePending, db.adapter.facts)
    && r.authority.snapshot.source == ResourceSection(db.source.id, op.expectedSource, PurgePending, db.source.facts)
    && r.authority.snapshot.sourceAttempt == AttemptSection(db.sourceAttempt.version, true, db.sourceAttempt.facts)
    && r.authority.snapshot.registryAttempt
       == AttemptSection(db.registryAttempt.version, true, db.registryAttempt.facts)
  }

  /** What acceptance vouches for, in any ledger: the rows are purged, at the expected versions, attempts
      authoritative, nothing active or holding; and one operation, audited once, purged them, with both surfaces
      accounted for. */
  lemma AcceptanceVouches(l: Ledger, expected: Versions) returns (op: Operation)
    requires Accepts(l, expected)
    ensures expected == Versions(l.db.adapter.version, l.db.source.version, l.dependency.version)
    ensures l.db.adapter.status == l.db.source.status == Purged
    ensures l.db.sourceAttempt.authoritative && l.db.registryAttempt.authoritative
    ensures !l.governed && !l.db.fences.reconciliation
    ensures l.dependency.releasedAt.Some? <==> l.dependency.status == DependencyReleased
    ensures l.dependency.status == DependencyReleased ==> l.releaseAudits == 1
    ensures forall other | other in l.db.past || l.db.operation == Some(other) ::
              other.status != OperationRegistered && other.status != OperationDeleting
    ensures (op in l.db.past || l.db.operation == Some(op)) && op.status == OperationCompleted
    ensures op.completedAt.Some? && l.db.adapter.purgedAt == l.db.source.purgedAt == op.completedAt
    ensures op.auditedAt.Some? && op.completedCount == 2 && op.blockedCount == 0
    ensures multiset(l.db.purgeAudits)[op.id] == 1 && op.registry.reservation.id != op.source.reservation.id
    ensures l.db.source.version == op.expectedSource + 1
    ensures l.db.adapter.version == op.expectedAdapter + if l.dependency.status == DependencyReleased then 2 else 1
    ensures l.db.sourceAttempt.version == op.expectedSourceAttempt
    ensures l.db.registryAttempt.version == op.expectedRegistryAttempt
    ensures op.snapshot.adapter
            == ResourceSection(l.db.adapter.id, Before(op.expectedAdapter), Live, l.db.adapter.facts)
    ensures op.snapshot.source == ResourceSection(l.db.source.id, Before(op.expectedSource), Live, l.db.source.facts)
    ensures SurfaceAccounted(l.db, op, RegistryFinal) && SurfaceAccounted(l.db, op, SourceFinal)
  {
    op := Matches(l.db, Operations(l.db))[0];
    CountIsMultiplicity(l.db.purgeAudits, op.id);
    MatchesAreOperations(l.db, Operations(l.db));
    assert op in Matches(l.db, Operations(l.db)) && SURFACES[0] == SourceFinal && SURFACES[1] == RegistryFinal;
    assert op in Operations(l.db) ==> op in l.db.past || l.db.operation == Some(op);
    assert forall other | other in l.db.past || l.db.operation == Some(other) :: other in Operations(l.db);
    assert ReservationMatches(l.db, op, RegistryFinal) && ItemMatches(l.db, op, RegistryFinal);
    assert ReservationMatches(l.db, op, SourceFinal) && ItemMatches(l.db, op, SourceFinal);
  }

  lemma {:induction false} CountIsMultiplicity(ids: seq<Uuid>, id: Uuid)
    ensures CountOf(ids, id) == multiset(ids)[id]
  {
    if ids != [] {
      CountIsMultiplicity(ids[1..], id);
      assert ids == [ids[0]] + ids[1..];
    }
  }

  lemma {:induction false} MatchesAreOperations(db: Db, ops: seq<Operation>)
    ensures forall op | op in Matches(db, ops) :: op in ops && Successful(db, op)
  {
    hide Successful;
    if ops != [] { MatchesAreOperations(db, ops[1..]); }
  }

  // ----- The refused case is reachable -----

  /** The rows of a first registration, marked as deleting. */
  function FirstDeleting(db: Db): Db
  {
    var op := NewOperation(db).operation.value;
    NewOperation(db).(operation := Some(op.(status := OperationDeleting, version := 2)))
  }

  lemma FirstRegisters(w: World)
    requires Initial(w) && Eligible(w.db)
    ensures Step(Step(Launch(w))) == World(FirstDeleting(w.db), w.disk, Select(RegistryFinal))
  {
    hide AuthoritySnapshot, NewLane;
    assert Step(Launch(w)) == World(NewOperation(w.db), w.disk, MarkOperation);
  }

  lemma FirstProceeds(w: World)
    requires Initial(w) && Eligible(w.db)
    ensures var db := FirstDeleting(w.db);
            && db.operation.Some? && CanProceed(db) && AddressOf(db, RegistryFinal) == AddressOf(w.db, RegistryFinal)
            && db.operation.value.registry.item.progress == db.operation.value.registry.reservation.progress == FRESH
  {
    hide AuthoritySnapshot, NewLane;
    FreshLane(w.db.(adapter := Pending(w.db.adapter), source := Pending(w.db.source)), RegistryFinal,
              w.db.nextSerial + 1);
  }

  lemma FreshLoads(w: World)
    requires w.pc == Select(RegistryFinal) && w.db.operation.Some? && CanProceed(w.db)
    requires w.db.operation.value.registry.item.progress
             == w.db.operation.value.registry.reservation.progress == FRESH
    ensures var next := Step(Step(Step(w)));
            next.pc.Inspect? && next == w.(pc := Inspect(RegistryFinal, next.pc.context))
  {
    hide AuthoritySnapshot, CanProceed;
    assert Step(w) == w.(pc := Load(RegistryFinal));
    assert Step(Step(w)) == w.(pc := Capture(RegistryFinal));
  }

  lemma InspectionBlocks(w: World)
    requires w.db.operation.Some? && w.pc.Inspect? && w.pc.s == RegistryFinal
    requires AddressOf(w.db, RegistryFinal) !in w.disk.finals
    ensures Step(w) == w.(pc := Block(RegistryFinal, AuthorityChanged))
  {
  }

  /** Up to the inspection that finds no surface. */
  lemma InspectionMisses(w: World)
    requires Initial(w) && Eligible(w.db) && AddressOf(w.db, RegistryFinal) !in w.disk.finals
    ensures Step(Step(Step(Step(Step(Step(Launch(w)))))))
            == World(FirstDeleting(w.db), w.disk, Block(RegistryFinal, AuthorityChanged))
  {
    hide Step, Initial, Eligible, CanProceed, AddressOf, FirstDeleting;
    FirstRegisters(w);
    FirstProceeds(w);
    var selecting := Step(Step(Launch(w)));
    FreshLoads(selecting);
    InspectionBlocks(Step(Step(Step(selecting))));
  }

  lemma FreshLane(db: Db, s: Surface, serial: nat)
    ensures NewLane(db, s, serial).item.progress == NewLane(db, s, serial).reservation.progress == FRESH
  {
  }

  lemma FinalizeBlocked(w: World)
    requires w.pc == Finalize && w.db.operation.Some? && w.db.operation.value.status == OperationDeleting
             && Eligible(w.db)
    requires w.db.operation.value.registry.item.progress.status == w.db.operation.value.source.item.progress.status
             == Blocked
    ensures var end := Step(w);
            && end.pc == Stopped(Returned) && end.db.operation.Some?
            && end.db.operation.value.status == CompletedWithBlocks
            && Eligible(end.db) && end.db == w.db.(operation := end.db.operation) && end.disk == w.disk
  {
    hide OperationAuthority, NamespaceEmpty;
  }

  /** From there the item and its dependent are blocked, and the operation ends. */
  lemma BlockedToTheEnd(w: World)
    requires w.pc == Block(RegistryFinal, AuthorityChanged) && w.db.operation.Some?
             && w.db.operation.value.status == OperationDeleting
    requires w.db.operation.value.registry.item.progress == w.db.operation.value.source.item.progress == FRESH
    requires Eligible(w.db)
    ensures var end := Step(Step(Step(Step(w))));
            && end.pc == Stopped(Returned) && end.db.operation.Some?
            && end.db.operation.value.status == CompletedWithBlocks
            && Eligible(end.db) && end.db == w.db.(operation := end.db.operation) && end.disk == w.disk
  {
    hide OperationAuthority, NamespaceEmpty, FinalizeOperation;
    var w1 := Step(w);
    assert w1 == BlockItem(w, RegistryFinal, AuthorityChanged);
    assert w1.pc == Select(SourceFinal) && w1.db.operation.value.registry.item.progress.status == Blocked;
    var w2 := Step(w1);
    assert w2 == World(w1.db, w1.disk, Block(SourceFinal, DependencyActive));
    var w3 := Step(w2);
    assert w3 == BlockItem(w2, SourceFinal, DependencyActive);
    FinalizeBlocked(w3);
  }

  /** A purge whose registry surface is gone ends blocked, and the next process registers again, from
      the `purge_pending` rows: for every adapter there is a run that the release refuses forever. */
  lemma BlockedPurgeIsRegisteredAgain(w: World)
    requires Initial(w) && Eligible(w.db) && AddressOf(w.db, RegistryFinal) !in w.disk.finals
    ensures var blocked := Steps(Launch(w), 10);
            var again := Step(Launch(blocked));
            && blocked.pc == Stopped(Returned)
            && blocked.db.operation.Some? && blocked.db.operation.value.status == CompletedWithBlocks
            && blocked.db == NewOperation(w.db).(operation := blocked.db.operation) && blocked.disk == w.disk
            && again.db.operation.Some? && again.db.past == [blocked.db.operation.value]
            && again.db.operation.value.snapshot.adapter.status == PurgePending
  {
    InspectionMisses(w);
    var w6 := Step(Step(Step(Step(Step(Step(Launch(w)))))));
    BlockedToTheEnd(w6);
    hide Step;
    assert Steps(Launch(w), 10) == Steps(w6, 4);
    assert Steps(w6, 4) == Step(Step(Step(Step(w6))));
    RegisterAgain(Steps(w6, 4));
  }

  lemma RegisterAgain(w: World)
    requires w.db.operation.Some? && !ActiveOperation(w.db.operation.value) && w.db.adapter.status == PurgePending
             && Eligible(w.db)
    ensures var again := Step(Launch(w));
            again.db.operation.Some? && again.db.past == w.db.past + [w.db.operation.value]
            && again.db.operation.value.snapshot.adapter.status == PurgePending
  {
    hide NewLane;
  }

  lemma {:induction false} HistoryOfAppend(w: World, events: seq<Event>, more: seq<Event>)
    ensures History(w, events + more) == History(History(w, events), more)
  {
    hide Apply;
    if more == [] {
      assert events + more == events;
    } else {
      var k := |more| - 1;
      assert (events + more)[..|events + more| - 1] == events + more[..k];
      HistoryOfAppend(w, events, more[..k]);
    }
  }

  lemma {:induction false} PastStays(w: World, events: seq<Event>)
    requires w.db.past != []
    ensures History(w, events).db.past != []
  {
    if events != [] {
      var earlier := History(w, events[..|events| - 1]);
      PastStays(w, events[..|events| - 1]);
      if earlier.pc.Register? {
        assert Step(earlier) == RegisterOrResume(earlier);
      } else {
        OnlyRegistrationRenews(earlier);
      }
      hide Step;
    }
  }

  /** Once a blocked operation has been registered again, nothing that happens later makes the release
      accept, with whatever versions. */
  lemma BlockedPurgeIsNeverReleased(w: World, events: seq<Event>, more: seq<Event>, l: Ledger, expected: Versions)
    requires Initial(w) && History(w, events).db.past != []
    requires l.db == History(w, events + more).db
    requires l.dependency.status == DependencyIsActive && l.dependency.releasedAt.None?
    ensures !Accepts(l, expected)
  {
    hide History, Accepts, Initial;
    HistoryOfAppend(w, events, more);
    PastStays(History(w, events), more);
    ReleaseAcceptsExactlyTheFirstPurge(w, events + more, l, expected);
  }

  // ----- A completed purge that is refused -----

  lemma RegistrationKeepsAuthority(db: Db, restored: Disk)
    requires Ready(restored, db) && forall k, s | k in restored.tombstones :: k.address != AddressOf(db, s)
    ensures var next := NewOperation(db);
            && Ready(restored, next) && next.fences == db.fences
            && (forall k, s | k in restored.tombstones :: k.address != AddressOf(next, s))
            && Emptied(restored, next) == Emptied(restored, db)
  {
    hide HasManifest, NewLane, AuthoritySnapshot;
    var next := NewOperation(db);
    assert forall s :: AddressOf(next, s) == AddressOf(db, s) && AttemptOf(next, s) == AttemptOf(db, s);
    SameEmptied(restored, next, db);
  }

  /** The operation is no part of what a disk has to be ready for. */
  lemma OperationIsFree(db: Db, operation: Option<Operation>, restored: Disk)
    requires Ready(restored, db) && forall k, s | k in restored.tombstones :: k.address != AddressOf(db, s)
    ensures var next := db.(operation := operation);
            && Ready(restored, next) && (forall k, s | k in restored.tombstones :: k.address != AddressOf(next, s))
            && Emptied(restored, next) == Emptied(restored, db)
  {
    hide HasManifest;
    var next := db.(operation := operation);
    assert forall s :: AddressOf(next, s) == AddressOf(db, s) && AttemptOf(next, s) == AttemptOf(db, s);
    SameEmptied(restored, next, db);
  }

  /** A purge registered behind a blocked one: whatever crashes and siblings it went through, it purges
      both resources, and the release refuses it with whatever versions. */
  lemma RepeatedPurgeIsRefused(w: World, events: seq<Event>, n: nat, a: nat, s: nat, l: Ledger, expected: Versions)
    requires Startable(w) && w.db.operation.Some? && Ready(w.disk, w.db) && BenignHistory(w, events)
    requires Unobstructed(History(w, events).db, Baseline(w.disk, events)) && n >= StepsLeft(Register)
    requires VersionLaw(History(w, events).db, a, s)
    requires l.db == Steps(Launch(History(w, events)), n).db
    requires l.dependency.status == DependencyIsActive && l.dependency.releasedAt.None?
    ensures var end := Steps(Launch(History(w, events)), n);
            && end.pc == Stopped(Returned) && FullyPurged(end.db)
            && end.disk == Emptied(Baseline(w.disk, events), w.db)
            && end.db.past == w.db.past + [w.db.operation.value]
    ensures !Accepts(l, expected)
  {
    hide Inv, Quiet, Ready, VersionLaw, Accepts, Emptied, Steps, Startable, StorageAbsent, BenignHistory, Baseline,
         Unobstructed, History, RowsInv;
    var now := History(w, events);
    StartableInv(w);
    HistoryKeepsInv(w, events);
    LaunchKeepsInv(now);
    LaunchKeepsLaw(now, a, s);
    StepsKeepLaw(Launch(now), n, a, s);
    Resumption(w, events, n);
    var end := Steps(Launch(now), n);
    PastAtTheEnd(w, events, n);
    QuietEnd(end, Baseline(w.disk, events), a, s);
    AcceptsTheFirstPurge(l, expected, a, s);
  }

  lemma StartableInv(w: World)
    requires Startable(w)
    ensures Inv(w)
  {
  }

  lemma LaunchKeepsLaw(w: World, a: nat, s: nat)
    requires VersionLaw(w.db, a, s)
    ensures VersionLaw(Launch(w).db, a, s)
  {
  }

  /** The state a blocked purge leaves, with the surfaces put back. */
  lemma RestoredIsStartable(w: World, restored: Disk)
    requires Initial(w) && Eligible(w.db) && AddressOf(w.db, RegistryFinal) !in w.disk.finals
    requires Ready(restored, w.db) && forall k, s | k in restored.tombstones :: k.address != AddressOf(w.db, s)
    ensures var blocked := Steps(Launch(w), 10);
            var again := blocked.(disk := restored);
            && blocked.db.operation.Some? && blocked.db.operation.value.status == CompletedWithBlocks
            && Startable(again) && Ready(restored, again.db) && Unobstructed(again.db, restored) && again.db.past == []
            && VersionLaw(again.db, w.db.adapter.version, w.db.source.version)
            && Emptied(restored, again.db) == Emptied(restored, w.db)
  {
    hide Inv, Ready, VersionLaw, Emptied, Steps, Startable, Eligible, NewOperation, AddressOf;
    var a, s := w.db.adapter.version, w.db.source.version;
    var blocked := Steps(Launch(w), 10);
    BlockedPurgeIsRegisteredAgain(w);
    InitialInv(w);
    InitialLaw(w);
    LaunchKeepsInv(w);
    StepsKeepLaw(Launch(w), 10, a, s);
    RegistrationKeepsAuthority(w.db, restored);
    OperationIsFree(NewOperation(w.db), blocked.db.operation, restored);
    BlockedIsStartable(blocked, restored);
    RegisteredOnce(w.db);
    EligibleIsClear(w.db);
  }

  lemma EligibleIsClear(db: Db)
    requires Eligible(db)
    ensures db.fences == CLEAR
  {
  }

  /** A purge that finds its registry surface gone ends blocked.  When an operator has put the surfaces
      back, the next process purges everything; and that completed purge the release refuses, with whatever
      versions. */
  lemma CompletedPurgeIsRefused(w: World, restored: Disk, n: nat, l: Ledger, expected: Versions)
    requires Initial(w) && Eligible(w.db) && AddressOf(w.db, RegistryFinal) !in w.disk.finals
    requires Ready(restored, w.db) && forall k, s | k in restored.tombstones :: k.address != AddressOf(w.db, s)
    requires n >= StepsLeft(Register)
    requires l.db == Steps(Launch(Steps(Launch(w), 10).(disk := restored)), n).db
    requires l.dependency.status == DependencyIsActive && l.dependency.releasedAt.None?
    ensures var blocked := Steps(Launch(w), 10);
            var end := Steps(Launch(blocked.(disk := restored)), n);
            && blocked.db.operation.Some? && blocked.db.operation.value.status == CompletedWithBlocks
            && end.pc == Stopped(Returned) && FullyPurged(end.db) && end.disk == Emptied(restored, w.db)
            && end.db.past == [blocked.db.operation.value]
    ensures !Accepts(l, expected)
  {
    hide Inv, Ready, VersionLaw, Emptied, Steps, Startable, Eligible, AddressOf, History, Baseline, BenignHistory,
         Unobstructed, Accepts, FullyPurged;
    var again := Steps(Launch(w), 10).(disk := restored);
    RestoredIsStartable(w, restored);
    NothingHappens(again);
    RepeatedPurgeIsRefused(again, [], n, w.db.adapter.version, w.db.source.version, l, expected);
  }

  lemma NothingHappens(w: World)
    ensures History(w, []) == w && Baseline(w.disk, []) == w.disk && BenignHistory(w, [])
  {
  }

  lemma InitialLaw(w: World)
    requires Initial(w)
    ensures VersionLaw(Launch(w).db, w.db.adapter.version, w.db.source.version)
    ensures w.db.operation.None? && w.db.past == []
  {
  }

  lemma RegisteredOnce(db: Db)
    requires db.operation.None? && db.past == []
    ensures NewOperation(db).past == []
  {
    hide NewLane, AuthoritySnapshot;
  }

  /** The rows alone decide it: the invariant speaks of no disk once a process has stopped. */
  lemma BlockedIsStartable(w: World, restored: Disk)
    requires Inv(w) && w.pc == Stopped(Returned)
    requires w.db.operation.Some? && w.db.operation.value.status == CompletedWithBlocks
    ensures Startable(w.(disk := restored))
  {
    hide RowsInv;
  }

  // ----- One adapter, as an input -----

  const SAMPLE_ATTEMPT := Attempt(1, true, Facts(0),
                                  map n | n in {AdapterConfig, AdapterModel, RegistryManifest, IntakeManifest} :: 0)

  const SAMPLE_ROWS := Db(
    Issued(0), Resource(Issued(1), 1, Live, None, Facts(0)), Resource(Issued(2), 1, Live, None, Facts(0)),
    SAMPLE_ATTEMPT, SAMPLE_ATTEMPT, None, [], Fences(false, false, false), [], 3, 0)

  function SurfaceOf(s: Surface): Directory
  {
    Directory(DirectoryIdentity(0, 0), map n | n in FinalFiles(s) :: FileIdentity(0, 0))
  }

  const SAMPLE_DISK := Disk(
    map[AddressOf(SAMPLE_ROWS, RegistryFinal) := SurfaceOf(RegistryFinal),
        AddressOf(SAMPLE_ROWS, SourceFinal) := SurfaceOf(SourceFinal)],
    map[], {})

  const NOTHING := Disk(map[], map[], {})

  lemma SampleIsReady()
    ensures Ready(SAMPLE_DISK, SAMPLE_ROWS)
  {
    forall s: Surface
      ensures AddressOf(SAMPLE_ROWS, s) in SAMPLE_DISK.finals
              && HasManifest(SAMPLE_DISK.finals[AddressOf(SAMPLE_ROWS, s)], s, SAMPLE_ATTEMPT.manifest)
    {
      assert HasManifest(SurfaceOf(s), s, SAMPLE_ATTEMPT.manifest);
    }
  }

  /** An input of `CompletedPurgeIsRefused`: this adapter, first without surfaces. */
  lemma RefusedCompletion(expected: Versions)
    ensures var blocked := Steps(Launch(World(SAMPLE_ROWS, NOTHING, Idle)), 10);
            var end := Steps(Launch(blocked.(disk := SAMPLE_DISK)), StepsLeft(Register));
            var l := Ledger(end.db, Dependency(DependencyIsActive, None, 0), 0, false);
            && FullyPurged(end.db)
            && end.disk == NOTHING
            && Released(l, end.disk, expected) == (l, Conflict)
  {
    hide Steps, Ready, FullyPurged, Accepts, StorageAbsent;
    var w := World(SAMPLE_ROWS, NOTHING, Idle);
    SampleIsReady();
    var blocked := Steps(Launch(w), 10);
    var end := Steps(Launch(blocked.(disk := SAMPLE_DISK)), StepsLeft(Register));
    var l := Ledger(end.db, Dependency(DependencyIsActive, None, 0), 0, false);
    CompletedPurgeIsRefused(w, SAMPLE_DISK, StepsLeft(Register), l, expected);
  }
}
