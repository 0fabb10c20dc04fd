/** Exactly what a registration admits, which attempts it abandons, and what an undisturbed item does to the disk
    (adapter_artifact_maintenance.py). */
module RegistrationExactly {
  import opened Common
  import opened Reconciliation
  import opened CleanupConfirmation
  import opened ReconciliationRuns
  import opened ConfirmationExactly

  // ----- What a registration admits -----

  /** Neither the source's row nor another attempt of it stands in the way. */
  predicate Free(rows: Rows, i: nat)
  {
    && i < |rows.attempts| && rows.attempts[i].source < |rows.sources|
    && rows.sources[rows.attempts[i].source].status in {Staging, SourceFailed, SourceAbandoned}
    && rows.sources[rows.attempts[i].source].authoritative.None?
    && forall j | 0 <= j < |rows.attempts| && j != i && rows.attempts[j].source == rows.attempts[i].source ::
         rows.attempts[j].status in {Failed, Abandoned}
  }

  predicate AtWork(a: Attempt) { a.status in {Registered, Reconciliation.Validated, Staged, Published} }

  /** An attempt still at work is given up only if it is old enough and its source is still being staged. */
  predicate Stale(rows: Rows, i: nat, cutoff: nat)
    requires Free(rows, i)
  {
    AtWork(rows.attempts[i]) && rows.attempts[i].createdAt <= cutoff
    && rows.sources[rows.attempts[i].source].status == Staging
  }

  lemma EligibleExactly(rows: Rows, i: nat, cutoff: nat)
    ensures Eligible(rows, i, cutoff)
            <==> Free(rows, i) && (rows.attempts[i].status in {Failed, Abandoned} || Stale(rows, i, cutoff))
  {
    if Free(rows, i) {
      forall j | 0 <= j < |rows.attempts| && rows.attempts[j].source == rows.attempts[i].source && j != i
        ensures rows.attempts[j].status != Committed && Terminal(rows.attempts[j])
      {
      }
    }
  }

  /** The surface was never cleaned up; or, for a confirmation, every stage item has come to an end and one has
      completed. */
  predicate HasWork(s: State, p: Picked)
  {
    var c := p.candidate;
    if p.confirmationOnly then c.surface == StageSurface && Through(s.items, StageSurface, c.attempt, None)
    else !HasCompleted(s.items, c.surface, c.attempt)
  }

  predicate Admissible(s: State, p: Picked, cutoff: nat)
  {
    var c := p.candidate;
    && Free(s.rows, c.attempt)
    && var a := s.rows.attempts[c.attempt];
       && a.confirmedAt.None? && (a.status in {Failed, Abandoned} || Stale(s.rows, c.attempt, cutoff))
       && c.expectedAttempt == a.version && c.expectedSource == s.rows.sources[a.source].version
       && (c.surface == FinalSurface ==> a.manifest != NoManifest) && HasWork(s, p)
  }

  lemma MayPickExactly(s: State, p: Picked, cutoff: nat)
    ensures MayPick(s, p, cutoff) <==> Admissible(s, p, cutoff)
  {
    EligibleExactly(s.rows, p.candidate.attempt, cutoff);
    ThroughIsDone(s.items, StageSurface, p.candidate.attempt, None);
    FinishedIsCompleted(s.items, p.candidate.surface, p.candidate.attempt);
    hide Eligible, Through, SurfaceDone, Finished, HasCompleted;
  }

  lemma FinishedIsCompleted(items: seq<Item>, surface: Surface, i: nat)
    ensures Finished(items, surface, i) <==> HasCompleted(items, surface, i)
  {
    if HasCompleted(items, surface, i) {
      var k :| 0 <= k < |items| && items[k].candidate.surface == surface && items[k].candidate.attempt == i
               && items[k].status == ItemCompleted;
      assert Counts(items, k, surface, i, None);
    }
  }

  // ----- What it writes -----

  predicate GivesUp(s: State, picked: seq<Picked>, i: nat)
    requires i < |s.rows.attempts|
  {
    AtWork(s.rows.attempts[i]) && exists p | p in picked :: p.candidate.attempt == i
  }

  function AttemptsAfter(s: State, picked: seq<Picked>): seq<Attempt>
  {
    seq(|s.rows.attempts|, i requires 0 <= i < |s.rows.attempts| =>
      var a := s.rows.attempts[i];
      if GivesUp(s, picked, i) then Attempt(a.source, Abandoned, a.createdAt, a.manifest, a.confirmedAt, a.version + 1)
      else a)
  }

  function SourcesAfter(s: State, picked: seq<Picked>): seq<Source>
  {
    seq(|s.rows.sources|, k requires 0 <= k < |s.rows.sources| =>
      var source := s.rows.sources[k];
      if exists i | 0 <= i < |s.rows.attempts| :: s.rows.attempts[i].source == k && GivesUp(s, picked, i)
      then Source(SourceAbandoned, source.authoritative, source.version + 1) else source)
  }

  /** The item of a pick, with the versions that its rows have once the registration is over. */
  function ItemFor(s: State, p: Picked): Item
    requires p.candidate.attempt < |s.rows.attempts|
  {
    var c := p.candidate;
    var more := if AtWork(s.rows.attempts[c.attempt]) then 1 else 0;
    Item(s.operations, Candidate(c.surface, c.attempt, c.expectedSource + more, c.expectedAttempt + more),
         p.confirmationOnly, ItemRegistered)
  }

  function Begun(s: State, picked: seq<Picked>): State
    requires forall p | p in picked :: p.candidate.attempt < |s.rows.attempts|
  {
    State(Rows(SourcesAfter(s, picked), AttemptsAfter(s, picked)),
          s.items + seq(|picked|, k requires 0 <= k < |picked| => ItemFor(s, picked[k])),
          Some(s.operations), s.operations + 1, s.storage, s.clock)
  }

  predicate AllAdmissible(s: State, picked: seq<Picked>, cutoff: nat)
  {
    forall p | p in picked :: Admissible(s, p, cutoff)
  }

  lemma AbandonedAreGivenUp(s: State, picked: seq<Picked>, cutoff: nat)
    requires AllAdmissible(s, picked, cutoff)
    ensures forall i | 0 <= i < |s.rows.attempts| ::
              i in AbandonedBy(s.rows, Candidates(picked)) <==> GivesUp(s, picked, i)
  {
    hide Stale, HasWork;
    var cs := Candidates(picked);
    forall i | 0 <= i < |s.rows.attempts| ensures i in AbandonedBy(s.rows, cs) <==> GivesUp(s, picked, i) {
      if GivesUp(s, picked, i) {
        var k :| 0 <= k < |picked| && picked[k].candidate.attempt == i;
        assert cs[k] in cs;
      }
      if i in AbandonedBy(s.rows, cs) {
        var k :| 0 <= k < |cs| && cs[k].attempt == i;
        assert picked[k] in picked && Admissible(s, picked[k], cutoff);
        NotCommitted(s, picked[k], cutoff);
      }
    }
  }

  lemma NotCommitted(s: State, p: Picked, cutoff: nat)
    requires Admissible(s, p, cutoff)
    ensures var a := s.rows.attempts[p.candidate.attempt]; Terminal(a) <==> !AtWork(a)
  {
  }

  lemma RowsAfter(s: State, picked: seq<Picked>, after: Rows)
    requires Abandons(s.rows, after, AbandonedBy(s.rows, Candidates(picked)))
    requires forall i | 0 <= i < |s.rows.attempts| ::
               i in AbandonedBy(s.rows, Candidates(picked)) <==> GivesUp(s, picked, i)
    ensures after == Rows(SourcesAfter(s, picked), AttemptsAfter(s, picked))
  {
    hide GivesUp;
    var gone := AbandonedBy(s.rows, Candidates(picked));
    hide AbandonedBy;
    assert after.attempts == AttemptsAfter(s, picked);
    forall k | 0 <= k < |s.rows.sources| ensures after.sources[k] == SourcesAfter(s, picked)[k] {
      if i :| 0 <= i < |s.rows.attempts| && s.rows.attempts[i].source == k && GivesUp(s, picked, i) {
        assert i in gone;
      }
    }
    assert after.sources == SourcesAfter(s, picked);
  }

  lemma ItemAfter(s: State, p: Picked, cutoff: nat)
    requires Admissible(s, p, cutoff)
    ensures ItemFor(s, p) == Item(s.operations, ItemOf(s.rows, p.candidate), p.confirmationOnly, ItemRegistered)
  {
    NotCommitted(s, p, cutoff);
  }

  lemma BeginsAs(s: State, picked: seq<Picked>, cutoff: nat)
    requires s.open.None? && picked != [] && AllAdmissible(s, picked, cutoff)
    requires forall p | p in picked :: MayPick(s, p, cutoff) && p.candidate.attempt < |s.rows.attempts|
    ensures Register(s, picked, cutoff) == Begun(s, picked)
  {
    hide MayPick, RegisterItems, Register, Admissible, GivesUp, Selected, Abandons, AbandonedBy, ItemFor, ItemOf;
    RegisterIs(s, picked, cutoff);
    PickedAreSelected(s, picked, cutoff);
    RegistrationIs(s.rows, Candidates(picked), cutoff);
    AbandonedAreGivenUp(s, picked, cutoff);
    var next := Register(s, picked, cutoff);
    RowsAfter(s, picked, next.rows);
    hide SourcesAfter, AttemptsAfter;
    forall k | 0 <= k < |picked| ensures next.items[|s.items| + k] == ItemFor(s, picked[k]) {
      assert picked[k] in picked;
      ItemAfter(s, picked[k], cutoff);
    }
    assert next.items == s.items + seq(|picked|, k requires 0 <= k < |picked| => ItemFor(s, picked[k]));
  }

  /** A registration begins an operation if and only if none is open, something is picked and every pick is admissible.
      It then writes exactly this: the picked attempts that are still at work are abandoned with their sources, each
      pick gets its item, and nothing else changes. */
  lemma RegistersExactly(s: State, picked: seq<Picked>, cutoff: nat)
    ensures AllAdmissible(s, picked, cutoff) ==> forall p | p in picked :: p.candidate.attempt < |s.rows.attempts|
    ensures Act(s, DoRegister(picked, cutoff))
            == if s.open.None? && picked != [] && AllAdmissible(s, picked, cutoff) then Begun(s, picked) else s
  {
    hide MayPick, RegisterItems, Begun;
    forall p | p in picked ensures MayPick(s, p, cutoff) <==> Admissible(s, p, cutoff) {
      MayPickExactly(s, p, cutoff);
    }
    if s.open.None? && picked != [] && AllAdmissible(s, picked, cutoff) {
      BeginsAs(s, picked, cutoff);
    }
  }

  // ----- What an item does -----

  function RemoveEntries(t: Tombstone, n: nat): seq<Action>
  {
    if n == 0 then [] else RemoveEntries(t, n - 1) + [DoUnlink(t)]
  }

  /** All the operations of an item, in order: verify, move, bind, mark, one unlink for each entry, remove, complete. */
  function Work(t: Tombstone, entries: nat, ok: bool): seq<Action>
  {
    [DoVerify(t.item), DoMove(t.item, entries), DoBind(t.item), DoMark(t.item)] + RemoveEntries(t, entries)
    + [DoRemove(t), DoComplete(t.item, ok)]
  }

  /** The item is registered, may be loaded, and its surface is there, with no earlier tombstone of it. */
  predicate Ready(s: State, k: nat)
  {
    && Loads(s, k) && s.items[k].status == ItemRegistered && !s.items[k].confirmationOnly
    && var place := PlaceOf(s.rows, s.items[k].candidate);
       place in s.storage.live && forall t | t in s.storage.tombstones :: t.place != place
  }

  function Moved(s: State, t: Tombstone, entries: nat): State
    requires t.item < |s.items|
  {
    WithStatus(s, t.item, ItemDeleting).(
    storage := s.storage.(live := s.storage.live - {t.place}, tombstones := s.storage.tombstones[t := entries]))
  }

  lemma LoadedIsThere(s: State, k: nat)
    requires Loads(s, k)
    ensures k < |s.items| && s.items[k].candidate.attempt < |s.rows.attempts|
  {
  }

  lemma TwoMore(s: State, a: Action, b: Action)
    ensures Run(s, [a, b]) == Act(Act(s, a), b)
  {
    hide Act;
    assert [a, b][..1] == [a] && [a][..0] == [];
    assert Run(s, [a]) == Act(Run(s, []), a);
  }

  lemma VerifiesAndMoves(s: State, k: nat, entries: nat)
    requires Ready(s, k) && s.items[k].candidate.attempt < |s.rows.attempts|
    ensures var t := Tombstone(PlaceOf(s.rows, s.items[k].candidate), k);
            var next := Act(Act(s, DoVerify(k)), DoMove(k, entries));
            && next == Moved(s, t, entries).(items := s.items[k := s.items[k].(status := ItemVerified)])
            && Loads(next, k)
  {
    hide AuthorityHolds;
    assert Act(s, DoVerify(k)) == WithStatus(s, k, ItemVerified);
  }

  lemma BindsAndMarks(s: State, k: nat)
    requires Loads(s, k) && s.items[k].status == ItemVerified && !s.items[k].confirmationOnly
    ensures Act(Act(s, DoBind(k)), DoMark(k)) == s.(items := s.items[k := s.items[k].(status := ItemDeleting)])
  {
    hide AuthorityHolds;
    assert Act(s, DoBind(k)) == WithStatus(s, k, ItemBound);
  }

  lemma MovesAway(s: State, k: nat, entries: nat)
    requires Ready(s, k) && s.items[k].candidate.attempt < |s.rows.attempts|
    ensures var t := Tombstone(PlaceOf(s.rows, s.items[k].candidate), k);
            Run(s, [DoVerify(k), DoMove(k, entries), DoBind(k), DoMark(k)]) == Moved(s, t, entries)
  {
    hide AuthorityHolds, Run, Act;
    var first, second := [DoVerify(k), DoMove(k, entries)], [DoBind(k), DoMark(k)];
    RunOfAppend(s, first, second);
    assert first + second == [DoVerify(k), DoMove(k, entries), DoBind(k), DoMark(k)];
    TwoMore(s, DoVerify(k), DoMove(k, entries));
    VerifiesAndMoves(s, k, entries);
    TwoMore(Run(s, first), DoBind(k), DoMark(k));
    BindsAndMarks(Run(s, first), k);
  }

  lemma {:induction false} RunOfAppend(s: State, actions: seq<Action>, more: seq<Action>)
    ensures Run(s, actions + more) == Run(Run(s, actions), more)
  {
    hide Act;
    if more == [] {
      assert actions + more == actions;
    } else {
      var n := |more| - 1;
      assert (actions + more)[..|actions + more| - 1] == actions + more[..n];
      RunOfAppend(s, actions, more[..n]);
    }
  }

  function WithEntries(s: State, t: Tombstone, n: nat): State
  {
    s.(storage := s.storage.(tombstones := s.storage.tombstones[t := n]))
  }

  lemma UnlinksOne(s: State, t: Tombstone, n: nat)
    ensures Act(WithEntries(s, t, n + 1), DoUnlink(t)) == WithEntries(s, t, n)
  {
    assert s.storage.tombstones[t := n + 1][t := n] == s.storage.tombstones[t := n];
  }

  lemma RunLast(s: State, actions: seq<Action>, a: Action)
    ensures Run(s, actions + [a]) == Act(Run(s, actions), a)
  {
    hide Act;
    assert (actions + [a])[..|actions + [a]| - 1] == actions;
  }

  lemma {:induction false} Empties(s: State, t: Tombstone, n: nat, more: nat)
    ensures Run(WithEntries(s, t, n + more), RemoveEntries(t, n)) == WithEntries(s, t, more)
  {
    hide Act, WithEntries;
    if n > 0 {
      hide Run;
      Empties(s, t, n - 1, more + 1);
      RunLast(WithEntries(s, t, n + more), RemoveEntries(t, n - 1), DoUnlink(t));
      UnlinksOne(s, t, more);
    }
  }

  /** An undisturbed item does what it was registered for: its surface is moved, emptied and removed, the item
      completes, no other item and nothing else on the disk changes, and the attempt is confirmed as the completion
      says. */
  lemma ItemRunsThrough(s: State, k: nat, entries: nat, ok: bool)
    requires Ready(s, k)
    ensures var t := Tombstone(PlaceOf(s.rows, s.items[k].candidate), k);
            var end := Run(s, Work(t, entries, ok));
            && end.items == s.items[k := s.items[k].(status := ItemCompleted)]
            && end.storage == s.storage.(live := s.storage.live - {t.place})
            && end.rows == Confirm(s.rows, end.items, end.storage, s.items[k].candidate.attempt, None, ok, s.clock).0
            && end.open == s.open && end.operations == s.operations && end.clock == s.clock
  {
    hide Run, Confirm, AuthorityHolds;
    LoadedIsThere(s, k);
    var t := Tombstone(PlaceOf(s.rows, s.items[k].candidate), k);
    var first, middle := [DoVerify(k), DoMove(k, entries), DoBind(k), DoMark(k)], RemoveEntries(t, entries);
    MovesAway(s, k, entries);
    RunOfAppend(s, first, middle);
    Empties(Moved(s, t, entries), t, entries, 0);
    assert WithEntries(Moved(s, t, entries), t, entries) == Moved(s, t, entries);
    RunOfAppend(s, first + middle, [DoRemove(t), DoComplete(k, ok)]);
    var empty := Run(s, first + middle);
    TwoMore(empty, DoRemove(t), DoComplete(k, ok));
    assert (s.storage.tombstones[t := entries])[t := 0] - {t} == s.storage.tombstones;
  }

  // ----- How items and operations end -----

  /** The statuses in the order in which an item takes them. */
  function Phase(status: ItemStatus): nat
  {
    match status
    case ItemRegistered => 0
    case ItemVerified => 1
    case ItemBound => 2
    case ItemDeleting => 3
    case ItemCompleted => 4
    case ItemBlocked => 4
  }

  /** No action changes of an item anything but its status, and that only while the item can be loaded: it takes the
      next phase, or ends; an item that only confirms takes no phase in between. */
  lemma ItemsGoForward(s: State, a: Action, k: nat)
    requires k < |s.items|
    ensures var next := Act(s, a);
            && k < |next.items| && next.items[k] == s.items[k].(status := next.items[k].status)
            && var before, after := s.items[k].status, next.items[k].status;
               before == after
               || (Loads(s, k)
                   && (Phase(after) == 4 || (Phase(after) == Phase(before) + 1 && !s.items[k].confirmationOnly)))
  {
    hide AuthorityHolds, Confirm, RegisterItems, MayPick, Terminal, PlaceOf;
  }

  /** Over all runs: an operation ends once every item has come to an end, and not before. */
  lemma FinalizesExactly(s0: State, actions: seq<Action>)
    requires Initial(s0)
    ensures var s := Run(s0, actions);
            Act(s, DoFinalize) == if (forall item | item in s.items :: item.status in {ItemCompleted, ItemBlocked})
                                  then s.(open := None) else s
  {
    hide Run, ItemInv, Initial, NoneActive;
    RunKeepsInv(s0, actions);
    var s := Run(s0, actions);
    if item :| item in s.items && item.status !in {ItemCompleted, ItemBlocked} {
      var k :| 0 <= k < |s.items| && s.items[k] == item;
      assert ActiveStatus(s.items[k].status);
    }
  }

  /** The transactions on an item that works on a surface, phase by phase; an error ends it blocked.  All of them need
      an item that can be loaded, and otherwise write nothing. */
  lemma ItemStepsExactly(s: State, k: nat)
    ensures var may := Loads(s, k);
            var works := may && !s.items[k].confirmationOnly;
            && Act(s, DoVerify(k)) == (if works && s.items[k].status == ItemRegistered
                                       then To(s, k, ItemVerified) else s)
            && Act(s, DoAuthorize(k)) == s
            && Act(s, DoBind(k)) == (if works && s.items[k].status == ItemVerified then To(s, k, ItemBound) else s)
            && Act(s, DoMark(k)) == (if works && s.items[k].status in {ItemBound, ItemDeleting}
                                     then To(s, k, ItemDeleting) else s)
            && Act(s, DoBlock(k)) == (if may then To(s, k, ItemBlocked) else s)
  {
    hide AuthorityHolds;
    if k < |s.items| { assert s.items[k := s.items[k].(status := s.items[k].status)] == s.items; }
  }

  function To(s: State, k: nat, status: ItemStatus): State
    requires k < |s.items|
  {
    State(s.rows, s.items[k := Item(s.items[k].operation, s.items[k].candidate, s.items[k].confirmationOnly, status)],
          s.open, s.operations, s.storage, s.clock)
  }

  /** The storage calls: a surface that is there, without an earlier tombstone of it, becomes the item's own; entries
      leave one by one; and an empty tombstone goes.  In all other cases the disk stays. */
  lemma DiskStepsExactly(s: State, k: nat, entries: nat, t: Tombstone)
    ensures var item := if k < |s.items| then Some(s.items[k]) else None;
            var moves := && item.Some? && !item.value.confirmationOnly
                         && item.value.candidate.attempt < |s.rows.attempts|
                         && var place := PlaceOf(s.rows, item.value.candidate);
                            && place in s.storage.live
                            && forall other | other in s.storage.tombstones :: other.place != place;
            && Act(s, DoMove(k, entries))
               == (if moves then
                     var place := PlaceOf(s.rows, item.value.candidate);
                     s.(storage := Storage(s.storage.live - {place},
                                           s.storage.tombstones[Tombstone(place, k) := entries], s.storage.malformed))
                   else s)
            && (t in s.storage.tombstones ==>
                  var n := s.storage.tombstones[t];
                  && Act(s, DoUnlink(t)) == (if n > 0 then WithEntries(s, t, n - 1) else s)
                  && Act(s, DoRemove(t))
                     == (if n > 0 then s else s.(storage := s.storage.(tombstones := s.storage.tombstones - {t}))))
            && (t !in s.storage.tombstones ==> Act(s, DoUnlink(t)) == Act(s, DoRemove(t)) == s)
  {
  }

  /** Meanwhile time passes, the disk may become anything, and the import may add attempts and move those that are not
      terminal, under the same source and without confirming them. */
  lemma OthersExactly(s: State, i: nat, row: Attempt, source: Source, storage: Storage)
    ensures Act(s, DoTick) == s.(clock := s.clock + 1) && Act(s, OutsideStorage(storage)) == s.(storage := storage)
    ensures var rows, n := s.rows, |s.rows.attempts|;
            && (i == n && row.confirmedAt.None? && row.status !in {Failed, Abandoned} ==>
                  Act(s, OutsideAttempt(i, row)) == s.(rows := Rows(rows.sources, rows.attempts + [row])))
            && (i < n && rows.attempts[i].status !in {Failed, Abandoned} && row.source == rows.attempts[i].source
                && row.confirmedAt == rows.attempts[i].confirmedAt ==>
                  Act(s, OutsideAttempt(i, row)) == s.(rows := Rows(rows.sources, rows.attempts[i := row])))
            && (i < n && rows.attempts[i].status in {Failed, Abandoned} ==> Act(s, OutsideAttempt(i, row)) == s)
            && (i < |rows.sources| ==>
                  Act(s, OutsideSource(i, source)) == s.(rows := Rows(rows.sources[i := source], rows.attempts)))
            && (i == |rows.sources| ==>
                  Act(s, OutsideSource(i, source)) == s.(rows := Rows(rows.sources + [source], rows.attempts)))
  {
  }
}
