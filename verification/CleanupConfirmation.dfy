/** When the reconciliation confirms that an import attempt has left nothing behind
    (adapter_artifact_maintenance.py, `_confirm_attempt_cleanup`), and what registering and confirming do
    to rows that are rewritten in place. */
module CleanupConfirmation {
  import opened Common
  import opened Reconciliation

  datatype ItemStatus = ItemRegistered | ItemVerified | ItemBound | ItemDeleting | ItemCompleted | ItemBlocked

  /** An item of an operation; a confirmation-only one works on no surface. */
  datatype Item = Item(operation: nat, candidate: Candidate, confirmationOnly: bool, status: ItemStatus)

  predicate ActiveStatus(status: ItemStatus)
  {
    status != ItemCompleted && status != ItemBlocked
  }

  /** Stages are addressed by attempt, finals by source. */
  datatype Place = StageOf(attempt: nat) | FinalOf(source: nat)

  datatype Tombstone = Tombstone(place: Place, item: nat)

  /** The surfaces that exist, and the tombstones of the family in the whole department with the number of
      their entries; `malformed` is a namespace that cannot be enumerated. */
  datatype Storage = Storage(live: set<Place>, tombstones: map<Tombstone, nat>, malformed: bool)

  /** Items of one surface generation after generation, without the one being executed. */
  predicate Counts(items: seq<Item>, k: nat, surface: Surface, i: nat, ignore: Option<nat>)
    requires k < |items|
  {
    items[k].candidate.surface == surface && items[k].candidate.attempt == i && ignore != Some(k)
  }

  /** Some generation completed, and none is still active. */
  predicate SurfaceDone(items: seq<Item>, surface: Surface, i: nat, ignore: Option<nat>)
  {
    && (exists k | 0 <= k < |items| :: Counts(items, k, surface, i, ignore) && items[k].status == ItemCompleted)
    && (forall k | 0 <= k < |items| :: Counts(items, k, surface, i, ignore) ==> !ActiveStatus(items[k].status))
  }

  /** Nothing of the attempt is on the disk, and no tombstone of its family is anywhere in the department. */
  predicate NothingLeft(storage: Storage, i: nat, source: nat)
  {
    !storage.malformed && StageOf(i) !in storage.live && FinalOf(source) !in storage.live && storage.tombstones == map[]
  }

  predicate Settled(rows: Rows, i: nat, manifestMatches: bool)
  {
    && i < |rows.attempts| && rows.attempts[i].source < |rows.sources|
    && var a := rows.attempts[i];
       && Terminal(a) && rows.sources[a.source].status != Protected && rows.sources[a.source].authoritative.None?
       && !HasCommitted(rows.attempts, a.source) && !OtherActive(rows.attempts, i)
       && (a.manifest == Valid ==> manifestMatches) && a.manifest != Invalid
  }

  /** What has to hold before an unconfirmed attempt is confirmed. */
  predicate Clean(rows: Rows, items: seq<Item>, storage: Storage, i: nat, ignore: Option<nat>)
    requires i < |rows.attempts|
  {
    && SurfaceDone(items, StageSurface, i, ignore)
    && (rows.attempts[i].manifest == Valid ==> SurfaceDone(items, FinalSurface, i, ignore))
    && NothingLeft(storage, i, rows.attempts[i].source)
  }

  function Confirm(rows: Rows, items: seq<Item>, storage: Storage, i: nat, ignore: Option<nat>, manifestMatches: bool,
                   now: nat)
    : (Rows, bool)
  {
    if !Settled(rows, i, manifestMatches) then (rows, false)
    else if rows.attempts[i].confirmedAt.Some? then (rows, true)
    else if !Clean(rows, items, storage, i, ignore) then (rows, false)
    else
      var a := rows.attempts[i];
      (rows.(attempts := rows.attempts[i := a.(confirmedAt := Some(now), version := a.version + 1)]), true)
  }

  // ----- As it runs -----

  class Maintenance {
    var sources: seq<Source>
    var attempts: seq<Attempt>

    constructor (rows: Rows)
      ensures Now() == rows
    {
      sources, attempts := rows.sources, rows.attempts;
    }

    function Now(): Rows
      reads this
    {
      Rows(sources, attempts)
    }

    method AbandonIfNeeded(c: Candidate) returns (item: Option<Candidate>)
      modifies this
      ensures var r := Reconciliation.AbandonIfNeeded(old(Now()), c);
              if r.None? then item.None? && Now() == old(Now()) else item.Some? && r.value == (Now(), item.value)
    {
      if c.attempt >= |attempts| || attempts[c.attempt].source >= |sources| { return None; }
      var a, k := attempts[c.attempt], attempts[c.attempt].source;
      if !Terminal(a) {
        if a.status == Committed || sources[k].status != Staging || sources[k].authoritative.Some? { return None; }
        attempts := attempts[c.attempt := a.(status := Abandoned, version := a.version + 1)];
        sources := sources[k := sources[k].(status := SourceAbandoned, version := sources[k].version + 1)];
      }
      return Some(c.(expectedSource := sources[k].version, expectedAttempt := attempts[c.attempt].version));
    }

    /** The loop of the registration transaction; a refusal rolls everything back. */
    method RegisterItems(candidates: seq<Candidate>) returns (items: Option<seq<Candidate>>)
      modifies this
      ensures var r := Reconciliation.RegisterItems(old(Now()), candidates);
              if r.None? then items.None? && Now() == old(Now()) else items.Some? && r.value == (Now(), items.value)
    {
      var start, registered := Now(), [];
      for n := 0 to |candidates|
        invariant Reconciliation.RegisterItems(start, candidates[..n]) == Some((Now(), registered))
      {
        assert candidates[..n + 1][..n] == candidates[..n];
        var item := AbandonIfNeeded(candidates[n]);
        if item.None? {
          NoneStays(start, candidates, n + 1);
          sources, attempts := start.sources, start.attempts;
          return None;
        }
        registered := registered + [item.value];
      }
      assert candidates[..|candidates|] == candidates;
      return Some(registered);
    }

    static lemma {:induction false} NoneStays(rows: Rows, candidates: seq<Candidate>, n: nat)
      requires n <= |candidates| && Reconciliation.RegisterItems(rows, candidates[..n]).None?
      ensures Reconciliation.RegisterItems(rows, candidates).None?
      decreases |candidates|
    {
      if n < |candidates| {
        var k := |candidates| - 1;
        assert candidates[..k][..n] == candidates[..n];
        NoneStays(rows, candidates[..k], n);
      } else {
        assert candidates[..n] == candidates;
      }
    }

    method SurfaceIsDone(items: seq<Item>, surface: Surface, i: nat, ignore: Option<nat>) returns (done: bool)
      ensures done == SurfaceDone(items, surface, i, ignore)
    {
      var completed := false;
      for k := 0 to |items|
        invariant completed <==> exists j | 0 <= j < k ::
                    Counts(items, j, surface, i, ignore) && items[j].status == ItemCompleted
        invariant forall j | 0 <= j < k :: Counts(items, j, surface, i, ignore) ==> !ActiveStatus(items[j].status)
      {
        if Counts(items, k, surface, i, ignore) {
          if ActiveStatus(items[k].status) { return false; }
          if items[k].status == ItemCompleted { completed := true; }
        }
      }
      return completed;
    }

    method ConfirmCleanup(items: seq<Item>, storage: Storage, i: nat, ignore: Option<nat>, manifestMatches: bool,
                          now: nat)
      returns (confirmed: bool)
      modifies this
      ensures (Now(), confirmed) == Confirm(old(Now()), items, storage, i, ignore, manifestMatches, now)
    {
      if !Settled(Now(), i, manifestMatches) { return false; }
      var a := attempts[i];
      if a.confirmedAt.Some? { return true; }
      var surfaces := [StageSurface] + if a.manifest == Valid then [FinalSurface] else [];
      for k := 0 to |surfaces|
        invariant forall j | 0 <= j < k :: SurfaceDone(items, surfaces[j], i, ignore)
        invariant Now() == old(Now())
      {
        var done := SurfaceIsDone(items, surfaces[k], i, ignore);
        if !done {
          assert !Clean(Now(), items, storage, i, ignore);
          return false;
        }
      }
      assert SurfaceDone(items, surfaces[0], i, ignore);
      assert a.manifest == Valid ==> SurfaceDone(items, surfaces[1], i, ignore);
      if !NothingLeft(storage, i, a.source) { return false; }
      attempts := attempts[i := a.(confirmedAt := Some(now), version := a.version + 1)];
      return true;
    }
  }
}
