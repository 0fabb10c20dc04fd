/** The release of an adapter's upstream dependency (adapter_lifecycle_release.py), which accepts one
    completed purge by rebuilding its snapshots from the live rows. */
module Release {
  import opened Common
  import opened ArtifactStore
  import opened Purge

  datatype DependencyStatus = DependencyIsActive | DependencyReleased

  datatype Dependency = Dependency(status: DependencyStatus, releasedAt: Option<nat>, version: nat)

  /** `governed` says that a deployment pointer, an active rollback retention or an active deployment
      operation names the adapter at its present version. */
  datatype Ledger = Ledger(db: Db, dependency: Dependency, releaseAudits: nat, governed: bool)

  datatype Versions = Versions(adapter: nat, source: nat, dependency: nat)

  datatype ReleaseResult = Applied(versions: Versions) | AlreadyReleased(versions: Versions) | Conflict

  function VersionsOf(l: Ledger): Versions
  {
    Versions(l.db.adapter.version, l.db.source.version, l.dependency.version)
  }

  function Before(version: nat): nat { if version == 0 then 0 else version - 1 }

  /** The registration snapshot that the live rows and the operation's expected versions imply. */
  function ExpectedSnapshot(db: Db, op: Operation, pending: bool): Snapshot
  {
    var status := if pending then PurgePending else Live;
    Snapshot(
      ResourceSection(db.adapter.id, if pending then op.expectedAdapter else Before(op.expectedAdapter),
                      status, db.adapter.facts),
      ResourceSection(db.source.id, if pending then op.expectedSource else Before(op.expectedSource),
                      status, db.source.facts),
      AttemptSection(op.expectedSourceAttempt, true, db.sourceAttempt.facts),
      AttemptSection(op.expectedRegistryAttempt, true, db.registryAttempt.facts))
  }

  predicate LifecycleMatches(l: Ledger, expected: Versions)
  {
    && l.db.adapter.status == Purged && l.db.adapter.purgedAt.Some?
    && l.db.source.status == Purged && l.db.source.purgedAt.Some?
    && l.db.sourceAttempt.authoritative && l.db.registryAttempt.authoritative
    && (l.dependency.status == DependencyIsActive <==> l.dependency.releasedAt.None?)
    && VersionsOf(l) == expected
  }

  /** A completed operation that can be the purge of these rows. */
  predicate Successful(db: Db, op: Operation)
  {
    && op.status == OperationCompleted
    && op.completedAt.Some? && op.completedAt == db.adapter.purgedAt && op.completedAt == db.source.purgedAt
    && op.auditedAt.Some? && op.completedCount == 2 && op.blockedCount == 0
    && op.snapshot == ExpectedSnapshot(db, op, false)
  }

  function Matches(db: Db, ops: seq<Operation>): seq<Operation>
  {
    if ops == [] then []
    else (if Successful(db, ops[0]) then [ops[0]] else []) + Matches(db, ops[1..])
  }

  function Operations(db: Db): seq<Operation>
  {
    db.past + (if db.operation.Some? then [db.operation.value] else [])
  }

  predicate ReservationMatches(db: Db, op: Operation, s: Surface)
  {
    var r := LaneOf(op, s).reservation;
    && r.progress.status == Completed && r.progress.completedAt.Some? && r.progress.blockedCode.None?
    && r.authority.expectedResourceVersion
       == (match s case SourceFinal => op.expectedSource case RegistryFinal => op.expectedAdapter)
    && r.authority.expectedAttemptVersion
       == (match s case SourceFinal => op.expectedSourceAttempt case RegistryFinal => op.expectedRegistryAttempt)
    && r.progress.namespace.Some? && r.progress.observed.Some? && r.progress.tombstone.Some? && r.progress.plan.Some?
    && r.authority.manifest == AttemptOf(db, s).manifest
    && r.authority.snapshot == ExpectedSnapshot(db, op, true)
  }

  predicate ItemMatches(db: Db, op: Operation, s: Surface)
  {
    var item, r := LaneOf(op, s).item, LaneOf(op, s).reservation;
    && item.progress.status == Completed && item.progress.completedAt.Some? && item.progress.blockedCode.None?
    && item.manifest == r.authority.manifest
    && item.progress.observed == r.progress.observed
    && r.progress.namespace == Some(TombstoneKey(AddressOf(db, s), item.id))
    && item.progress.namespace == r.progress.namespace
    && item.progress.tombstone == r.progress.tombstone
    && item.progress.plan == r.progress.plan
  }

  predicate VersionsMatch(l: Ledger, op: Operation)
  {
    && l.db.source.version == op.expectedSource + 1
    && l.db.sourceAttempt.version == op.expectedSourceAttempt
    && l.db.registryAttempt.version == op.expectedRegistryAttempt
    && l.db.adapter.version == op.expectedAdapter + (if l.dependency.status == DependencyReleased then 2 else 1)
  }

  const SURFACES := [SourceFinal, RegistryFinal]

  predicate CompletedPurge(l: Ledger, op: Operation)
  {
    && VersionsMatch(l, op)
    && op.registry.reservation.id != op.source.reservation.id
    && (forall s | s in SURFACES :: ReservationMatches(l.db, op, s))
    && (forall s | s in SURFACES :: ItemMatches(l.db, op, s))
  }

  function CountOf(ids: seq<Uuid>, id: Uuid): nat
  {
    if ids == [] then 0 else (if ids[0] == id then 1 else 0) + CountOf(ids[1..], id)
  }

  /** The whole validation transaction. */
  predicate Accepts(l: Ledger, expected: Versions)
  {
    && (forall op | op in Operations(l.db) :: !ActiveOperation(op))
    && !l.governed
    && LifecycleMatches(l, expected)
    && (l.dependency.status == DependencyReleased ==> l.releaseAudits == 1)
    && !l.db.fences.reconciliation
    && var matches := Matches(l.db, Operations(l.db));
       && |matches| == 1
       && CompletedPurge(l, matches[0])
       && CountOf(l.db.purgeAudits, matches[0].id) == 1
  }

  predicate StorageAbsent(disk: Disk, db: Db)
  {
    forall s | s in SURFACES :: AddressOf(db, s) !in disk.finals && NamespaceEmpty(disk, AddressOf(db, s))
  }

  /** The applying transaction. */
  function Released(l: Ledger, disk: Disk, expected: Versions): (Ledger, ReleaseResult)
  {
    if !Accepts(l, expected) || !StorageAbsent(disk, l.db) then (l, Conflict)
    else if l.dependency.status == DependencyReleased then (l, AlreadyReleased(VersionsOf(l)))
    else
      var next := l.(dependency := Dependency(DependencyReleased, Some(l.db.clock), l.dependency.version + 1),
                     db := l.db.(adapter := l.db.adapter.(version := l.db.adapter.version + 1)),
                     releaseAudits := l.releaseAudits + 1);
      (next, Applied(VersionsOf(next)))
  }

  /** The service itself: rows that it rewrites in place. */
  class UpstreamRelease {
    var db: Db
    var dependency: Dependency
    var releaseAudits: nat
    var governed: bool

    constructor (db: Db, dependency: Dependency, releaseAudits: nat, governed: bool)
      ensures Book() == Ledger(db, dependency, releaseAudits, governed)
    {
      this.db, this.dependency, this.releaseAudits, this.governed := db, dependency, releaseAudits, governed;
    }

    function Book(): Ledger
      reads this
    {
      Ledger(db, dependency, releaseAudits, governed)
    }

    method SuccessfulOperation() returns (operation: Option<Operation>)
      ensures var matches := Matches(db, Operations(db));
              operation == if |matches| == 1 then Some(matches[0]) else None
    {
      var operations := Operations(db);
      var matches: seq<Operation> := [];
      for i := 0 to |operations|
        invariant Matches(db, operations) == matches + Matches(db, operations[i..])
      {
        assert operations[i..][1..] == operations[i + 1..];
        if Successful(db, operations[i]) {
          matches := matches + [operations[i]];
        }
      }
      assert operations[|operations|..] == [];
      operation := if |matches| == 1 then Some(matches[0]) else None;
    }

    method AssertCompletedPurge(op: Operation) returns (ok: bool)
      ensures ok == CompletedPurge(Book(), op)
    {
      if !VersionsMatch(Book(), op) || op.registry.reservation.id == op.source.reservation.id {
        return false;
      }
      for i := 0 to |SURFACES|
        invariant forall j | 0 <= j < i :: ReservationMatches(db, op, SURFACES[j])
      {
        if !ReservationMatches(db, op, SURFACES[i]) { return false; }
      }
      for i := 0 to |SURFACES|
        invariant forall j | 0 <= j < i :: ItemMatches(db, op, SURFACES[j])
      {
        if !ItemMatches(db, op, SURFACES[i]) { return false; }
      }
      return true;
    }

    method AssertStorageAbsent(disk: Disk) returns (ok: bool)
      ensures ok == StorageAbsent(disk, db)
    {
      for i := 0 to |SURFACES|
        invariant forall j | 0 <= j < i ::
                    AddressOf(db, SURFACES[j]) !in disk.finals && NamespaceEmpty(disk, AddressOf(db, SURFACES[j]))
      {
        var a := AddressOf(db, SURFACES[i]);
        if a in disk.finals || !NamespaceEmpty(disk, a) { return false; }
      }
      return true;
    }

    method LoadAuthority(expected: Versions) returns (ok: bool)
      ensures ok == Accepts(Book(), expected)
    {
      if (exists op | op in Operations(db) :: ActiveOperation(op)) || governed || !LifecycleMatches(Book(), expected) {
        return false;
      }
      var operation := SuccessfulOperation();
      if operation.None? { return false; }
      var completed := AssertCompletedPurge(operation.value);
      return completed
        && CountOf(db.purgeAudits, operation.value.id) == 1
        && (dependency.status == DependencyReleased ==> releaseAudits == 1)
        && !db.fences.reconciliation;
    }

    method Release(disk: Disk, expected: Versions) returns (result: ReleaseResult)
      modifies this
      ensures (Book(), result) == Released(old(Book()), disk, expected)
    {
      var ok := LoadAuthority(expected);
      if !ok { return Conflict; }
      var absent := AssertStorageAbsent(disk);
      if !absent { return Conflict; }
      if dependency.status == DependencyReleased {
        return AlreadyReleased(VersionsOf(Book()));
      }
      dependency := dependency.(status := DependencyReleased, releasedAt := Some(db.clock),
                                version := dependency.version + 1);
      db := db.(adapter := db.adapter.(version := db.adapter.version + 1));
      releaseAudits := releaseAudits + 1;
      return Applied(VersionsOf(Book()));
    }
  }
}
