/** Whole runs of the reconciliation: operations that register items, items that are executed by any number
    of processes in any order, confirmation, and what other protocols do meanwhile
    (adapter_artifact_maintenance.py).  Every action is one transaction or one storage call; a crash is
    that a process acts no more. */
module ReconciliationRuns {
  import opened Common
  import opened Reconciliation
  import opened CleanupConfirmation

  // ----- State -----

  /** `open` is the registered operation, `operations` the number of operations there ever were. */
  datatype State = State(rows: Rows, items: seq<Item>, open: Option<nat>, operations: nat, storage: Storage, clock: nat)

  predicate Active(s: State, k: nat) { k < |s.items| && ActiveStatus(s.items[k].status) }

  /** `_load_item`: the operation is registered, the item active, and its authority unchanged. */
  predicate Loads(s: State, k: nat)
  {
    Active(s, k) && s.open == Some(s.items[k].operation) && AuthorityHolds(s.rows, s.items[k].candidate)
  }

  function WithStatus(s: State, k: nat, status: ItemStatus): State
    requires k < |s.items|
  {
    s.(items := s.items[k := s.items[k].(status := status)])
  }

  // ----- Selection and registration -----

  datatype Picked = Picked(candidate: Candidate, confirmationOnly: bool)

  /** The keyset windows read only unconfirmed rows. */
  predicate Scannable(rows: Rows, i: nat)
  {
    i < |rows.attempts| && rows.attempts[i].confirmedAt.None?
  }

  predicate Finished(items: seq<Item>, surface: Surface, i: nat)
  {
    exists k | 0 <= k < |items| :: Counts(items, k, surface, i, None) && items[k].status == ItemCompleted
  }

  /** What a selection may pick: scanned and eligible attempts with unfinished surfaces, or with all of
      them finished and only the confirmation left. */
  predicate MayPick(s: State, p: Picked, cutoff: nat)
  {
    var c := p.candidate;
    && Scannable(s.rows, c.attempt) && Selected(s.rows, c, cutoff)
    && (c.surface == FinalSurface ==> s.rows.attempts[c.attempt].manifest != NoManifest && !p.confirmationOnly)
    && if p.confirmationOnly then SurfaceDone(s.items, StageSurface, c.attempt, None)
       else !Finished(s.items, c.surface, c.attempt)
  }

  function Candidates(picked: seq<Picked>): seq<Candidate>
  {
    seq(|picked|, k requires 0 <= k < |picked| => picked[k].candidate)
  }

  /** The registration transaction, unless an operation is to be resumed. */
  function Register(s: State, picked: seq<Picked>, cutoff: nat): State
  {
    if s.open.Some? || picked == [] || !(forall p | p in picked :: MayPick(s, p, cutoff)) then s
    else
      var registered := RegisterItems(s.rows, Candidates(picked));
      if registered.None? || |registered.value.1| != |picked| then s
      else
        var (rows, items) := registered.value;
        s.(rows := rows, open := Some(s.operations), operations := s.operations + 1,
           items := s.items + seq(|picked|, k requires 0 <= k < |picked| =>
                                    Item(s.operations, items[k], picked[k].confirmationOnly, ItemRegistered)))
  }

  // ----- Execution -----

  /** `_mark_completed`. */
  function MarkCompleted(s: State, k: nat, manifestMatches: bool): State
  {
    if !Loads(s, k) || s.items[k].confirmationOnly then s
    else
      var done := WithStatus(s, k, ItemCompleted);
      done.(rows := Confirm(s.rows, done.items, s.storage, s.items[k].candidate.attempt, None, manifestMatches,
                            s.clock).0)
  }

  /** `_mark_confirmation_completed`. */
  function MarkConfirmationCompleted(s: State, k: nat, manifestMatches: bool): State
  {
    if !Loads(s, k) || !s.items[k].confirmationOnly then s
    else
      var (rows, confirmed) := Confirm(s.rows, s.items, s.storage, s.items[k].candidate.attempt, Some(k),
                                       manifestMatches, s.clock);
      WithStatus(s, k, if confirmed then ItemCompleted else ItemBlocked).(rows := rows)
  }

  /** The transactions on an item between its registration and its end. */
  function Progress(s: State, k: nat, before: set<ItemStatus>, after: ItemStatus): State
  {
    if !Loads(s, k) || s.items[k].confirmationOnly || s.items[k].status !in before then s else WithStatus(s, k, after)
  }

  function FinalizeOperation(s: State): State
  {
    if s.open.None?
       || (exists k | 0 <= k < |s.items| :: s.items[k].operation == s.open.value && ActiveStatus(s.items[k].status))
    then s else s.(open := None)
  }

  function PlaceOf(rows: Rows, c: Candidate): Place
    requires c.attempt < |rows.attempts|
  {
    match c.surface
    case StageSurface => StageOf(c.attempt)
    case FinalSurface => FinalOf(rows.attempts[c.attempt].source)
  }

  /** The no-replace rename into the item's own tombstone. */
  function MoveSurface(s: State, k: nat, entries: nat): State
  {
    if k >= |s.items| || s.items[k].candidate.attempt >= |s.rows.attempts| || s.items[k].confirmationOnly then s
    else
      var place := PlaceOf(s.rows, s.items[k].candidate);
      if place !in s.storage.live || exists t | t in s.storage.tombstones :: t.place == place then s
      else
        s.(storage := s.storage.(live := s.storage.live - {place},
                                 tombstones := s.storage.tombstones[Tombstone(place, k) := entries]))
  }

  function UnlinkEntry(s: State, t: Tombstone): State
  {
    if t !in s.storage.tombstones || s.storage.tombstones[t] == 0 then s
    else s.(storage := s.storage.(tombstones := s.storage.tombstones[t := s.storage.tombstones[t] - 1]))
  }

  function RemoveTombstone(s: State, t: Tombstone): State
  {
    if t !in s.storage.tombstones || s.storage.tombstones[t] != 0 then s
    else s.(storage := s.storage.(tombstones := s.storage.tombstones - {t}))
  }

  // ----- Other protocols -----

  /** The import creates attempts and moves those that are not terminal. */
  function ChangeAttempt(s: State, i: nat, a: Attempt): State
  {
    if i == |s.rows.attempts| && a.confirmedAt.None? && !Terminal(a) then
      s.(rows := s.rows.(attempts := s.rows.attempts + [a]))
    else if i < |s.rows.attempts| && !Terminal(s.rows.attempts[i]) && a.source == s.rows.attempts[i].source
            && a.confirmedAt == s.rows.attempts[i].confirmedAt
    then s.(rows := s.rows.(attempts := s.rows.attempts[i := a]))
    else s
  }

  function ChangeSource(s: State, i: nat, source: Source): State
  {
    if i == |s.rows.sources| then s.(rows := s.rows.(sources := s.rows.sources + [source]))
    else if i < |s.rows.sources| then s.(rows := s.rows.(sources := s.rows.sources[i := source]))
    else s
  }

  // ----- Runs -----

  datatype Action =
    | DoRegister(picked: seq<Picked>, cutoff: nat)
    | DoVerify(item: nat)
    | DoAuthorize(item: nat)
    | DoBind(item: nat)
    | DoMark(item: nat)
    | DoComplete(item: nat, manifestMatches: bool)
    | DoConfirm(item: nat, manifestMatches: bool)
    | DoBlock(item: nat)
    | DoFinalize
    | DoMove(item: nat, entries: nat)
    | DoUnlink(tombstone: Tombstone)
    | DoRemove(tombstone: Tombstone)
    | DoTick
    | OutsideAttempt(attempt: nat, row: Attempt)
    | OutsideSource(source: nat, sourceRow: Source)
    | OutsideStorage(storage: Storage)

  function Act(s: State, a: Action): State
  {
    match a
    case DoRegister(picked, cutoff) => Register(s, picked, cutoff)
    case DoVerify(k) => Progress(s, k, {ItemRegistered}, ItemVerified)
    case DoAuthorize(k) => Progress(s, k, {ItemVerified}, ItemVerified)
    case DoBind(k) => Progress(s, k, {ItemVerified}, ItemBound)
    case DoMark(k) => Progress(s, k, {ItemBound, ItemDeleting}, ItemDeleting)
    case DoComplete(k, ok) => MarkCompleted(s, k, ok)
    case DoConfirm(k, ok) => MarkConfirmationCompleted(s, k, ok)
    case DoBlock(k) => if Loads(s, k) then WithStatus(s, k, ItemBlocked) else s
    case DoFinalize => FinalizeOperation(s)
    case DoMove(k, entries) => MoveSurface(s, k, entries)
    case DoUnlink(t) => UnlinkEntry(s, t)
    case DoRemove(t) => RemoveTombstone(s, t)
    case DoTick => s.(clock := s.clock + 1)
    case OutsideAttempt(i, row) => ChangeAttempt(s, i, row)
    case OutsideSource(i, row) => ChangeSource(s, i, row)
    case OutsideStorage(storage) => s.(storage := storage)
  }

  function Run(s: State, actions: seq<Action>): State
  {
    if actions == [] then s else Act(Run(s, actions[..|actions| - 1]), actions[|actions| - 1])
  }

  /** No reconciliation has happened yet. */
  predicate Initial(s: State)
  {
    s.items == [] && s.open.None? && s.operations == 0 && forall a | a in s.rows.attempts :: a.confirmedAt.None?
  }

  // ----- What every run keeps -----

  /** The item's attempt is terminal, and has the surface that the item is for. */
  predicate ItemInv(rows: Rows, item: Item)
  {
    && item.candidate.attempt < |rows.attempts| && Terminal(rows.attempts[item.candidate.attempt])
    && (item.candidate.surface == FinalSurface ==> rows.attempts[item.candidate.attempt].manifest != NoManifest)
  }

  predicate Inv(s: State)
  {
    && (s.open.Some? ==> s.open.value < s.operations)
    && (forall k | 0 <= k < |s.items| ::
          && ItemInv(s.rows, s.items[k]) && s.items[k].operation < s.operations
          && (ActiveStatus(s.items[k].status) ==> s.open == Some(s.items[k].operation)))
    && (forall i | 0 <= i < |s.rows.attempts| ::
          s.rows.attempts[i].confirmedAt.Some? ==> Terminal(s.rows.attempts[i]) && NoneActive(s.items, i))
  }

  /** No item of the attempt is active. */
  predicate NoneActive(items: seq<Item>, i: nat)
  {
    forall k | 0 <= k < |items| :: items[k].candidate.attempt == i ==> !ActiveStatus(items[k].status)
  }

  /** Terminal attempts keep their rows, but for the confirmation of the given one. */
  predicate RowsKept(before: Rows, after: Rows, confirmed: Option<nat>)
  {
    && |before.attempts| <= |after.attempts|
    && forall i | 0 <= i < |before.attempts| && Terminal(before.attempts[i]) ::
         var a, b := before.attempts[i], after.attempts[i];
         b == a || (confirmed == Some(i) && a.confirmedAt.None? && b.confirmedAt.Some?
                    && b == a.(confirmedAt := b.confirmedAt, version := a.version + 1))
  }

  /** What a confirmation does: nothing, or the one row, and then only when all is clean. */
  lemma ConfirmIs(rows: Rows, items: seq<Item>, storage: Storage, i: nat, ignore: Option<nat>, ok: bool, now: nat)
    ensures var (after, confirmed) := Confirm(rows, items, storage, i, ignore, ok, now);
            && after.sources == rows.sources && RowsKept(rows, after, Some(i)) && |after.attempts| == |rows.attempts|
            && (forall j | 0 <= j < |rows.attempts| && j != i :: after.attempts[j] == rows.attempts[j])
            && (after != rows ==>
                  && confirmed && i < |rows.attempts| && Terminal(rows.attempts[i])
                     && rows.attempts[i].confirmedAt.None?
                  && rows.attempts[i].manifest != Invalid && Clean(rows, items, storage, i, ignore)
                  && after.attempts[i]
                     == rows.attempts[i].(confirmedAt := Some(now), version := rows.attempts[i].version + 1))
  {
    hide Clean;
  }

  /** A clean attempt has no active item at all: a final item exists only where there is a manifest. */
  lemma CleanMeansNoneActive(rows: Rows, items: seq<Item>, storage: Storage, i: nat, ignore: Option<nat>)
    requires i < |rows.attempts| && rows.attempts[i].manifest != Invalid && Clean(rows, items, storage, i, ignore)
    requires forall k | 0 <= k < |items| :: ItemInv(rows, items[k])
    ensures forall k | 0 <= k < |items| && items[k].candidate.attempt == i
            && ignore != Some(k) :: !ActiveStatus(items[k].status)
  {
    forall k | 0 <= k < |items| && items[k].candidate.attempt == i
      && ignore != Some(k) ensures !ActiveStatus(items[k].status) {
      assert ItemInv(rows, items[k]);
      assert Counts(items, k, items[k].candidate.surface, i, ignore);
    }
  }

  // ----- Registration -----

  lemma PickedAreSelected(s: State, picked: seq<Picked>, cutoff: nat)
    requires forall p | p in picked :: MayPick(s, p, cutoff)
    ensures forall c | c in Candidates(picked) :: Selected(s.rows, c, cutoff) && Scannable(s.rows, c.attempt)
  {
    hide Selected, Finished, SurfaceDone;
    forall c | c in Candidates(picked) ensures Selected(s.rows, c, cutoff) && Scannable(s.rows, c.attempt) {
      var k :| 0 <= k < |picked| && Candidates(picked)[k] == c;
      assert MayPick(s, picked[k], cutoff);
    }
  }

  /** The registration never refuses what a selection may pick. */
  lemma RegisterIs(s: State, picked: seq<Picked>, cutoff: nat)
    requires s.open.None? && picked != [] && forall p | p in picked :: MayPick(s, p, cutoff)
    ensures var r, next := RegisterItems(s.rows, Candidates(picked)), Register(s, picked, cutoff);
            && r.Some? && |r.value.1| == |picked| && next.rows == r.value.0 && next.open == Some(s.operations)
            && next.operations == s.operations + 1 && next.storage == s.storage && next.clock == s.clock
            && |next.items| == |s.items| + |picked| && next.items[..|s.items|] == s.items
            && forall k | 0 <= k < |picked| ::
                 next.items[|s.items| + k]
                   == Item(s.operations, r.value.1[k], picked[k].confirmationOnly, ItemRegistered)
  {
    PickedAreSelected(s, picked, cutoff);
    RegistrationIs(s.rows, Candidates(picked), cutoff);
    hide MayPick, RegisterItems, Selected, Abandons;
  }

  /** Registration abandons only attempts that are not terminal, and every item's attempt is terminal
      afterwards and was not confirmed. */
  lemma RegisteredRows(s: State, picked: seq<Picked>, cutoff: nat, k: nat)
    requires s.open.None? && k < |picked| && forall p | p in picked :: MayPick(s, p, cutoff)
    ensures var r := RegisterItems(s.rows, Candidates(picked));
            && r.Some? && |r.value.1| == |picked| && RowsKept(s.rows, r.value.0, None)
            && |r.value.0.attempts| == |s.rows.attempts|
            && (forall i | 0 <= i < |s.rows.attempts| ::
                r.value.0.attempts[i].confirmedAt == s.rows.attempts[i].confirmedAt
                && (Terminal(r.value.0.attempts[i]) <== Terminal(s.rows.attempts[i])))
            && r.value.1[k].attempt == picked[k].candidate.attempt
               && r.value.1[k].surface == picked[k].candidate.surface
            && Scannable(s.rows, picked[k].candidate.attempt)
            && ItemInv(r.value.0, Item(s.operations, r.value.1[k], picked[k].confirmationOnly, ItemRegistered))
  {
    var cs, p := Candidates(picked), picked[k];
    PickedAreSelected(s, picked, cutoff);
    RegistrationIs(s.rows, cs, cutoff);
    AbandonedAreActive(s.rows, cs, cutoff);
    assert p in picked && cs[k] == p.candidate && p.candidate in cs;
    assert MayPick(s, p, cutoff);
    hide MayPick, RegisterItems, Selected, Eligible;
  }

  /** The items after a registration: those before it, none of them active, and those registered. */
  lemma RegisteredItem(s: State, picked: seq<Picked>, cutoff: nat, k: nat)
    requires Inv(s) && s.open.None? && picked != [] && forall p | p in picked :: MayPick(s, p, cutoff)
    requires k < |Register(s, picked, cutoff).items|
    ensures var next := Register(s, picked, cutoff);
            var item := next.items[k];
            && ItemInv(next.rows, item) && item.operation < next.operations
            && (k < |s.items| ==> item == s.items[k])
            && (ActiveStatus(item.status) ==>
                  k >= |s.items| && next.open == Some(item.operation) && Scannable(next.rows, item.candidate.attempt))
            && (k >= |s.items| ==> Scannable(s.rows, item.candidate.attempt))
  {
    hide MayPick, Register, RegisterItems, ItemInv;
    RegisterIs(s, picked, cutoff);
    var next := Register(s, picked, cutoff);
    RegisteredRows(s, picked, cutoff, if k < |s.items| then 0 else k - |s.items|);
    if k < |s.items| {
      assert next.items[k] == next.items[..|s.items|][k];
      KeptItem(s.rows, next.rows, s.items[k], None);
    } else {
      assert next.items[k] == next.items[|s.items| + (k - |s.items|)];
    }
  }

  lemma RegisterKeepsInv(s: State, picked: seq<Picked>, cutoff: nat)
    requires Inv(s)
    ensures Inv(Register(s, picked, cutoff))
  {
    hide MayPick, Register, RegisterItems, ItemInv;
    var next := Register(s, picked, cutoff);
    if s.open.None? && picked != [] && forall p | p in picked :: MayPick(s, p, cutoff) {
      RegisterIs(s, picked, cutoff);
      RegisteredRows(s, picked, cutoff, 0);
      forall k | 0 <= k < |next.items|
        ensures ItemInv(next.rows, next.items[k]) && next.items[k].operation < next.operations
        ensures ActiveStatus(next.items[k].status) ==>
                  next.open == Some(next.items[k].operation) && Scannable(next.rows, next.items[k].candidate.attempt)
      {
        RegisteredItem(s, picked, cutoff, k);
      }
    } else {
      RefusedRegistration(s, picked, cutoff);
    }
  }

  lemma RefusedRegistration(s: State, picked: seq<Picked>, cutoff: nat)
    requires s.open.Some? || picked == [] || !(forall p | p in picked :: MayPick(s, p, cutoff))
    ensures Register(s, picked, cutoff) == s
  {
  }

  /** An item keeps its terminal attempt while rows are kept. */
  lemma KeptItem(before: Rows, after: Rows, item: Item, confirmed: Option<nat>)
    requires ItemInv(before, item) && RowsKept(before, after, confirmed)
    ensures ItemInv(after, item)
  {
  }

  // ----- Execution -----

  /** Item statuses change, and rows are kept: the invariant needs that what was confirmed is idle. */
  lemma ItemsKeepInv(s: State, next: State, confirmed: Option<nat>)
    requires Inv(s) && RowsKept(s.rows, next.rows, confirmed) && |next.rows.attempts| == |s.rows.attempts|
    requires next.open == s.open && next.operations == s.operations && |next.items| == |s.items|
    requires forall k | 0 <= k < |s.items| ::
               next.items[k] == s.items[k].(status := next.items[k].status)
               && (ActiveStatus(next.items[k].status) ==> ActiveStatus(s.items[k].status))
    requires forall i | 0 <= i < |s.rows.attempts| ::
               confirmed == Some(i) || next.rows.attempts[i] == s.rows.attempts[i]
    requires confirmed.Some? && confirmed.value < |s.rows.attempts|
             && next.rows.attempts[confirmed.value].confirmedAt.Some? ==>
               Terminal(next.rows.attempts[confirmed.value]) && NoneActive(next.items, confirmed.value)
    ensures Inv(next)
  {
    forall k | 0 <= k < |next.items| ensures ItemInv(next.rows, next.items[k]) {
      KeptItem(s.rows, next.rows, s.items[k], confirmed);
    }
    hide RowsKept;
  }

  lemma CompleteKeepsInv(s: State, k: nat, ok: bool)
    requires Inv(s)
    ensures Inv(MarkCompleted(s, k, ok))
  {
    if Loads(s, k) && !s.items[k].confirmationOnly {
      var i, done, next := s.items[k].candidate.attempt, WithStatus(s, k, ItemCompleted), MarkCompleted(s, k, ok);
      hide Loads, Confirm, Clean, AuthorityHolds;
      ConfirmIs(s.rows, done.items, s.storage, i, None, ok, s.clock);
      if next.rows != s.rows {
        CleanMeansNoneActive(s.rows, done.items, s.storage, i, None);
      }
      ItemsKeepInv(s, next, Some(i));
    }
  }

  lemma ConfirmationKeepsInv(s: State, k: nat, ok: bool)
    requires Inv(s)
    ensures Inv(MarkConfirmationCompleted(s, k, ok))
  {
    if Loads(s, k) && s.items[k].confirmationOnly {
      var i, next := s.items[k].candidate.attempt, MarkConfirmationCompleted(s, k, ok);
      hide Loads, Confirm, Clean, AuthorityHolds;
      ConfirmIs(s.rows, s.items, s.storage, i, Some(k), ok, s.clock);
      if next.rows != s.rows {
        CleanMeansNoneActive(s.rows, s.items, s.storage, i, Some(k));
      }
      ItemsKeepInv(s, next, Some(i));
    }
  }

  lemma OutsideKeepsInv(s: State, i: nat, a: Attempt, source: Source)
    requires Inv(s)
    ensures Inv(ChangeAttempt(s, i, a)) && Inv(ChangeSource(s, i, source))
  {
    var changed, sourced := ChangeAttempt(s, i, a), ChangeSource(s, i, source);
    forall k | 0 <= k < |s.items| ensures ItemInv(changed.rows, s.items[k]) && ItemInv(sourced.rows, s.items[k]) {
      KeptItem(s.rows, changed.rows, s.items[k], None);
      KeptItem(s.rows, sourced.rows, s.items[k], None);
    }
    hide ItemInv;
  }

  lemma ActKeepsInv(s: State, a: Action)
    requires Inv(s)
    ensures Inv(Act(s, a))
  {
    match a
    case DoRegister(picked, cutoff) => RegisterKeepsInv(s, picked, cutoff);
    case DoComplete(k, ok) => CompleteKeepsInv(s, k, ok);
    case DoConfirm(k, ok) => ConfirmationKeepsInv(s, k, ok);
    case OutsideAttempt(i, row) => OutsideKeepsInv(s, i, row, Source(Staging, None, 0));
    case OutsideSource(i, row) => OutsideKeepsInv(s, i, Attempt(0, Registered, 0, NoManifest, None, 0), row);
    case DoVerify(k) => ItemsKeepInv(s, Act(s, a), None);
    case DoAuthorize(k) => ItemsKeepInv(s, Act(s, a), None);
    case DoBind(k) => ItemsKeepInv(s, Act(s, a), None);
    case DoMark(k) => ItemsKeepInv(s, Act(s, a), None);
    case DoBlock(k) => ItemsKeepInv(s, Act(s, a), None);
    case _ => OthersKeepInv(s, a);
    hide Inv, Act;
  }

  lemma OthersKeepInv(s: State, a: Action)
    requires Inv(s)
    requires a.DoFinalize? || a.DoMove? || a.DoUnlink? || a.DoRemove? || a.DoTick? || a.OutsideStorage?
    ensures Inv(Act(s, a))
  {
  }

  lemma {:induction false} RunKeepsInv(s: State, actions: seq<Action>)
    requires Initial(s)
    ensures Inv(Run(s, actions))
  {
    if actions != [] {
      RunKeepsInv(s, actions[..|actions| - 1]);
      ActKeepsInv(Run(s, actions[..|actions| - 1]), actions[|actions| - 1]);
      hide Inv, Act;
    }
  }
}
