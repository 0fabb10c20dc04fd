/** Exactly when a terminal import attempt is confirmed, with and without a manifest
    (adapter_artifact_maintenance.py, `_confirm_attempt_cleanup` and its two callers). */
module ConfirmationExactly {
  import opened Common
  import opened Reconciliation
  import opened CleanupConfirmation
  import opened ReconciliationRuns

  /** No row decides or protects the source, and no sibling is committed or still at work. */
  predicate Undecided(rows: Rows, i: nat)
  {
    && i < |rows.attempts| && rows.attempts[i].source < |rows.sources|
    && rows.attempts[i].status in {Failed, Abandoned}
    && rows.sources[rows.attempts[i].source].status in {Staging, SourceFailed, SourceAbandoned}
    && rows.sources[rows.attempts[i].source].authoritative.None?
    && forall j | 0 <= j < |rows.attempts| && j != i && rows.attempts[j].source == rows.attempts[i].source ::
         rows.attempts[j].status in {Failed, Abandoned}
  }

  /** Some item of the surface has completed, and none is under way, leaving out the one given. */
  predicate Through(items: seq<Item>, surface: Surface, i: nat, ignore: Option<nat>)
  {
    && (exists k | 0 <= k < |items| && ignore != Some(k) ::
          items[k].candidate.surface == surface && items[k].candidate.attempt == i && items[k].status == ItemCompleted)
    && forall k | 0 <= k < |items| && ignore != Some(k) ::
         items[k].candidate.surface == surface && items[k].candidate.attempt == i ==>
           items[k].status in {ItemCompleted, ItemBlocked}
  }

  /** Neither surface is there, and the tombstones of the family can be listed and are none. */
  predicate DiskIsClear(storage: Storage, i: nat, source: nat)
  {
    !storage.malformed && storage.tombstones == map[] && {StageOf(i), FinalOf(source)} !! storage.live
  }

  /** An attempt without a manifest needs its stage through, and one with a valid manifest that still matches its final
      surface as well; then, and only then, an undecided attempt with nothing on the disk is confirmed, now, once. */
  lemma ConfirmsExactly(rows: Rows, items: seq<Item>, storage: Storage, i: nat, ignore: Option<nat>, ok: bool, now: nat)
    ensures Confirm(rows, items, storage, i, ignore, ok, now)
            == if !Undecided(rows, i) || rows.attempts[i].manifest == Invalid
                  || (rows.attempts[i].manifest == Valid && !ok)
               then (rows, false)
               else
                 var a := rows.attempts[i];
                 if a.confirmedAt.Some? then (rows, true)
                 else if && Through(items, StageSurface, i, ignore)
                         && (a.manifest == NoManifest || Through(items, FinalSurface, i, ignore))
                         && DiskIsClear(storage, i, a.source)
                 then (rows.(attempts := rows.attempts[i := a.(confirmedAt := Some(now), version := a.version + 1)]),
                       true)
                 else (rows, false)
  {
    ThroughIsDone(items, StageSurface, i, ignore);
    ThroughIsDone(items, FinalSurface, i, ignore);
    UndecidedIsSettled(rows, i, ok);
    hide Through, SurfaceDone, Undecided, Settled;
    if i < |rows.attempts| { ClearIsNothingLeft(storage, i, rows.attempts[i].source); }
    hide DiskIsClear, NothingLeft;
    assert Settled(rows, i, ok) ==> i < |rows.attempts| by { SettledIsThere(rows, i, ok); }
  }

  lemma SettledIsThere(rows: Rows, i: nat, ok: bool)
    ensures Settled(rows, i, ok) ==> i < |rows.attempts|
  {
  }

  lemma ThroughIsDone(items: seq<Item>, surface: Surface, i: nat, ignore: Option<nat>)
    ensures Through(items, surface, i, ignore) <==> SurfaceDone(items, surface, i, ignore)
  {
    if Through(items, surface, i, ignore) {
      var k :| 0 <= k < |items| && ignore != Some(k) && items[k].candidate.surface == surface
               && items[k].candidate.attempt == i && items[k].status == ItemCompleted;
      assert Counts(items, k, surface, i, ignore);
    }
    if SurfaceDone(items, surface, i, ignore) {
      forall k | 0 <= k < |items| && ignore != Some(k) && items[k].candidate.surface == surface
                 && items[k].candidate.attempt == i
        ensures items[k].status in {ItemCompleted, ItemBlocked}
      {
        assert Counts(items, k, surface, i, ignore);
      }
    }
  }

  lemma ClearIsNothingLeft(storage: Storage, i: nat, source: nat)
    ensures DiskIsClear(storage, i, source) <==> NothingLeft(storage, i, source)
  {
    assert StageOf(i) in {StageOf(i), FinalOf(source)} && FinalOf(source) in {StageOf(i), FinalOf(source)};
  }

  lemma UndecidedIsSettled(rows: Rows, i: nat, ok: bool)
    ensures Settled(rows, i, ok) <==>
            Undecided(rows, i) && rows.attempts[i].manifest != Invalid && (rows.attempts[i].manifest == Valid ==> ok)
  {
    if Undecided(rows, i) {
      forall j | 0 <= j < |rows.attempts| && rows.attempts[j].source == rows.attempts[i].source
        ensures rows.attempts[j].status != Committed && (j != i ==> Terminal(rows.attempts[j]))
      {
      }
    }
  }

  // ----- Over runs -----

  /** The item's surface apart, the attempt has nothing left to do: its other applicable surface has completed, and no
      other item of it is under way. */
  predicate OthersThrough(s: State, k: nat)
    requires k < |s.items| && s.items[k].candidate.attempt < |s.rows.attempts|
  {
    var c := s.items[k].candidate;
    && (forall j | 0 <= j < |s.items| && j != k && s.items[j].candidate.attempt == c.attempt ::
          s.items[j].status in {ItemCompleted, ItemBlocked})
    && (c.surface == FinalSurface ==> HasCompleted(s.items, StageSurface, c.attempt))
    && (c.surface == StageSurface && s.rows.attempts[c.attempt].manifest == Valid ==>
          HasCompleted(s.items, FinalSurface, c.attempt))
  }

  predicate HasCompleted(items: seq<Item>, surface: Surface, i: nat)
  {
    exists j | 0 <= j < |items| ::
      items[j].candidate.surface == surface && items[j].candidate.attempt == i && items[j].status == ItemCompleted
  }

  predicate ManifestStands(a: Attempt, ok: bool) { a.manifest == NoManifest || (a.manifest == Valid && ok) }

  /** Over all runs: the transaction that completes an item confirms its attempt if and only if that was the last
      applicable surface, no sibling is at work, the manifest (if there is one) stands, and nothing of the
      attempt or of its family is on the disk.  Otherwise the attempt stays unconfirmed. */
  lemma CompletionConfirmsExactly(s0: State, actions: seq<Action>, k: nat, ok: bool)
    requires Initial(s0)
    requires var s := Run(s0, actions);
             Loads(s, k) && !s.items[k].confirmationOnly
             && s.rows.attempts[s.items[k].candidate.attempt].confirmedAt.None?
    ensures var s, next := Run(s0, actions), Act(Run(s0, actions), DoComplete(k, ok));
            var i := s.items[k].candidate.attempt;
            && next.items == s.items[k := s.items[k].(status := ItemCompleted)]
            && next.rows
               == if Undecided(s.rows, i) && ManifestStands(s.rows.attempts[i], ok) && OthersThrough(s, k)
                     && DiskIsClear(s.storage, i, s.rows.attempts[i].source)
                  then s.rows.(attempts := s.rows.attempts[i := s.rows.attempts[i].(confirmedAt := Some(s.clock),
                                                           version := s.rows.attempts[i].version + 1)])
                  else s.rows
  {
    hide Run, Undecided, DiskIsClear, Through, OthersThrough, Confirm, Inv, Initial, ManifestStands, SurfaceDone,
         Settled, AuthorityHolds;
    RunKeepsInv(s0, actions);
    var s := Run(s0, actions);
    CompletionIs(s, k, ok);

  }

  lemma CompletionIs(s: State, k: nat, ok: bool)
    requires Inv(s) && Loads(s, k) && !s.items[k].confirmationOnly
    requires s.rows.attempts[s.items[k].candidate.attempt].confirmedAt.None?
    ensures var i, next := s.items[k].candidate.attempt, MarkCompleted(s, k, ok);
            && next.items == s.items[k := s.items[k].(status := ItemCompleted)]
            && next.rows
               == if Undecided(s.rows, i) && ManifestStands(s.rows.attempts[i], ok) && OthersThrough(s, k)
                     && DiskIsClear(s.storage, i, s.rows.attempts[i].source)
                  then s.rows.(attempts := s.rows.attempts[i := s.rows.attempts[i].(confirmedAt := Some(s.clock),
                                                           version := s.rows.attempts[i].version + 1)])
                  else s.rows
  {
    hide Undecided, DiskIsClear, Through, OthersThrough, Confirm, Inv, SurfaceDone, Settled, HasCompleted;
    var done, i := WithStatus(s, k, ItemCompleted), s.items[k].candidate.attempt;
    ConfirmsExactly(s.rows, done.items, s.storage, i, None, ok, s.clock);
    if s.rows.attempts[i].manifest != Invalid { LastSurface(s, k); }
  }

  lemma LastSurface(s: State, k: nat)
    requires Inv(s) && Loads(s, k) && s.rows.attempts[s.items[k].candidate.attempt].manifest != Invalid
    ensures var i, items := s.items[k].candidate.attempt, s.items[k := s.items[k].(status := ItemCompleted)];
            OthersThrough(s, k) <==>
              Through(items, StageSurface, i, None)
              && (s.rows.attempts[i].manifest == NoManifest || Through(items, FinalSurface, i, None))
  {
    var i, items := s.items[k].candidate.attempt, s.items[k := s.items[k].(status := ItemCompleted)];
    assert items[k].status == ItemCompleted && forall j | 0 <= j < |items| && j != k :: items[j] == s.items[j];
    assert forall j | 0 <= j < |s.items| :: ItemInv(s.rows, s.items[j]);
  }

  /** Over all runs: a confirmation retry confirms its attempt if and only if every applicable surface is through
      without it and all else is as for a completion; otherwise the retry is blocked. */
  lemma RetryConfirmsExactly(s0: State, actions: seq<Action>, k: nat, ok: bool)
    requires Initial(s0)
    requires var s := Run(s0, actions);
             Loads(s, k) && s.items[k].confirmationOnly
             && s.rows.attempts[s.items[k].candidate.attempt].confirmedAt.None?
    ensures var s, next := Run(s0, actions), Act(Run(s0, actions), DoConfirm(k, ok));
            var i := s.items[k].candidate.attempt;
            var a := s.rows.attempts[i];
            if && Undecided(s.rows, i) && ManifestStands(a, ok) && Through(s.items, StageSurface, i, Some(k))
               && (a.manifest == NoManifest || Through(s.items, FinalSurface, i, Some(k)))
               && DiskIsClear(s.storage, i, a.source)
            then next.items == s.items[k := s.items[k].(status := ItemCompleted)]
                 && next.rows == s.rows.(attempts := s.rows.attempts[i := a.(confirmedAt := Some(s.clock),
                                                                             version := a.version + 1)])
            else next.items == s.items[k := s.items[k].(status := ItemBlocked)] && next.rows == s.rows
  {
    hide Run, Undecided, DiskIsClear, Through, OthersThrough, Confirm, Inv, Initial, SurfaceDone, Settled,
         AuthorityHolds;
    RunKeepsInv(s0, actions);
    var s := Run(s0, actions);
    ConfirmsExactly(s.rows, s.items, s.storage, s.items[k].candidate.attempt, Some(k), ok, s.clock);

  }

  // ----- Loading and registering -----

  /** An item is loaded if and only if it is under way in the open operation, its source and attempt still have the
      versions it was registered with, and nothing protects or decides the source. */
  lemma LoadsExactly(s: State, k: nat)
    ensures Loads(s, k) <==>
            && k < |s.items| && s.items[k].status !in {ItemCompleted, ItemBlocked}
            && s.open == Some(s.items[k].operation)
            && var c := s.items[k].candidate;
               && c.attempt < |s.rows.attempts| && s.rows.attempts[c.attempt].source < |s.rows.sources|
               && var a := s.rows.attempts[c.attempt];
                  var source := s.rows.sources[a.source];
                  && a.version == c.expectedAttempt && source.version == c.expectedSource
                  && a.status in {Failed, Abandoned} && source.status in {Staging, SourceFailed, SourceAbandoned}
                  && source.authoritative.None?
                  && forall j | 0 <= j < |s.rows.attempts| && s.rows.attempts[j].source == a.source ::
                       s.rows.attempts[j].status != Committed
  {
  }
}
