/** What every run of the reconciliation guarantees about confirmation and about its own fences. */
module ReconciliationTheorems {
  import opened Common
  import opened Reconciliation
  import opened CleanupConfirmation
  import opened ReconciliationRuns

  predicate ConfirmedAt(s: State, i: nat)
  {
    i < |s.rows.attempts| && s.rows.attempts[i].confirmedAt.Some?
  }

  /** No item from index `n` on is for the attempt. */
  predicate NoItemFrom(items: seq<Item>, n: nat, i: nat)
  {
    n <= |items| && forall k | n <= k < |items| :: items[k].candidate.attempt != i
  }

  // ----- Confirmed for good -----

  lemma RegisterLeavesConfirmed(s: State, picked: seq<Picked>, cutoff: nat, i: nat)
    requires Inv(s) && ConfirmedAt(s, i)
    ensures var next := Register(s, picked, cutoff);
            && i < |next.rows.attempts| && next.rows.attempts[i] == s.rows.attempts[i]
            && NoItemFrom(next.items, |s.items|, i)
  {
    hide MayPick, Register, RegisterItems, ItemInv;
    var next := Register(s, picked, cutoff);
    if s.open.None? && picked != [] && forall p | p in picked :: MayPick(s, p, cutoff) {
      RegisterIs(s, picked, cutoff);
      RegisteredRows(s, picked, cutoff, 0);
      forall k | |s.items| <= k < |next.items| ensures next.items[k].candidate.attempt != i {
        RegisteredItem(s, picked, cutoff, k);
      }
    } else {
      RefusedRegistration(s, picked, cutoff);
    }
  }

  lemma ConfirmsLeaveConfirmed(s: State, k: nat, ok: bool, i: nat)
    requires Inv(s) && ConfirmedAt(s, i)
    ensures i < |MarkCompleted(s, k, ok).rows.attempts|
            && MarkCompleted(s, k, ok).rows.attempts[i] == s.rows.attempts[i]
    ensures i < |MarkConfirmationCompleted(s, k, ok).rows.attempts|
            && MarkConfirmationCompleted(s, k, ok).rows.attempts[i] == s.rows.attempts[i]
    ensures |MarkCompleted(s, k, ok).items| == |MarkConfirmationCompleted(s, k, ok).items| == |s.items|
  {
    hide Confirm, Clean, AuthorityHolds, ItemInv;
    if Loads(s, k) {
      var j := s.items[k].candidate.attempt;
      ConfirmIs(s.rows, WithStatus(s, k, ItemCompleted).items, s.storage, j, None, ok, s.clock);
      ConfirmIs(s.rows, s.items, s.storage, j, Some(k), ok, s.clock);
    }
  }

  lemma ActLeavesConfirmed(s: State, a: Action, i: nat)
    requires Inv(s) && ConfirmedAt(s, i)
    ensures var next := Act(s, a);
            && ConfirmedAt(next, i) && next.rows.attempts[i] == s.rows.attempts[i]
            && NoItemFrom(next.items, |s.items|, i)
  {
    hide AuthorityHolds, Register, MarkCompleted, MarkConfirmationCompleted, ItemInv, NoneActive;
    assert Terminal(s.rows.attempts[i]);
    match a
    case DoRegister(picked, cutoff) => RegisterLeavesConfirmed(s, picked, cutoff, i);
    case DoComplete(k, ok) => ConfirmsLeaveConfirmed(s, k, ok, i);
    case DoConfirm(k, ok) => ConfirmsLeaveConfirmed(s, k, ok, i);
    case _ =>
  }

  /** Confirmation is final: from the state in which an attempt is confirmed on, over every further run,
      whatever other protocols do, its row never changes again (so that it is confirmed once), it has no
      active item, no item is registered for it, and no selection may pick it. */
  lemma {:induction false} ConfirmedForGood(s: State, actions: seq<Action>, more: seq<Action>, i: nat)
    requires Initial(s) && ConfirmedAt(Run(s, actions), i)
    ensures var start, now := Run(s, actions), Run(s, actions + more);
            && ConfirmedAt(now, i) && now.rows.attempts[i] == start.rows.attempts[i]
            && NoneActive(now.items, i) && NoItemFrom(now.items, |start.items|, i)
            && forall p: Picked, cutoff: nat | p.candidate.attempt == i :: !MayPick(now, p, cutoff)
  {
    hide Act, Initial, Selected, Finished, SurfaceDone, ItemInv;
    if more == [] {
      assert actions + more == actions;
      RunKeepsInv(s, actions);
    } else {
      var n, all := |more| - 1, actions + more;
      assert all[..|all| - 1] == actions + more[..n] && all[|all| - 1] == more[n];
      ConfirmedForGood(s, actions, more[..n], i);
      RunKeepsInv(s, actions + more[..n]);
      ActLeavesConfirmed(Run(s, actions + more[..n]), more[n], i);
      OldItemsStay(Run(s, actions + more[..n]), more[n]);
      RunKeepsInv(s, all);
    }
  }

  /** No action moves an item to another attempt. */
  lemma OldItemsStay(s: State, a: Action)
    requires Inv(s)
    ensures var next := Act(s, a);
            |s.items| <= |next.items|
              && forall k | 0 <= k < |s.items| :: next.items[k].candidate == s.items[k].candidate
  {
    if a.DoRegister? {
      hide MayPick, RegisterItems, Register;
      if s.open.None? && a.picked != [] && forall p | p in a.picked :: MayPick(s, p, a.cutoff) {
        RegisterIs(s, a.picked, a.cutoff);
        var next := Register(s, a.picked, a.cutoff);
        assert forall k | 0 <= k < |s.items| :: next.items[k] == next.items[..|s.items|][k];
      } else {
        RefusedRegistration(s, a.picked, a.cutoff);
      }
    } else {
      OtherItemsStay(s, a);
    }
  }

  lemma OtherItemsStay(s: State, a: Action)
    requires !a.DoRegister?
    ensures var next := Act(s, a);
            |s.items| == |next.items|
              && forall k | 0 <= k < |s.items| :: next.items[k].candidate == s.items[k].candidate
  {
    hide AuthorityHolds, Confirm;
  }

  // ----- Only when clean -----

  lemma RegisterConfirmsNothing(s: State, picked: seq<Picked>, cutoff: nat, i: nat)
    requires Inv(s) && Scannable(s.rows, i)
    ensures Scannable(Register(s, picked, cutoff).rows, i)
  {
    hide MayPick, Register, RegisterItems, ItemInv, Inv;
    if s.open.None? && picked != [] && forall p | p in picked :: MayPick(s, p, cutoff) {
      RegisterIs(s, picked, cutoff);
      RegisteredRows(s, picked, cutoff, 0);
    } else {
      RefusedRegistration(s, picked, cutoff);
    }
  }

  lemma CompletionConfirmsClean(s: State, k: nat, ok: bool, i: nat)
    requires Inv(s) && Scannable(s.rows, i) && !Scannable(MarkCompleted(s, k, ok).rows, i)
    ensures CleanBy(s, k, MarkCompleted(s, k, ok), i)
  {
    hide Confirm, AuthorityHolds, ItemInv, NothingLeft;
    var j, done := s.items[k].candidate.attempt, WithStatus(s, k, ItemCompleted);
    ConfirmIs(s.rows, done.items, s.storage, j, None, ok, s.clock);
    forall n | 0 <= n < |done.items| ensures ItemInv(s.rows, done.items[n]) {
      assert ItemInv(s.rows, s.items[n]);
      SameItemInv(s.rows, s.items[n], done.items[n]);
    }
    CleanMeansNoneActive(s.rows, done.items, s.storage, j, None);
  }

  lemma SameItemInv(rows: Rows, item: Item, other: Item)
    requires ItemInv(rows, item) && other.candidate == item.candidate
    ensures ItemInv(rows, other)
  {
  }

  lemma RetryConfirmsClean(s: State, k: nat, ok: bool, i: nat)
    requires Inv(s) && Scannable(s.rows, i) && !Scannable(MarkConfirmationCompleted(s, k, ok).rows, i)
    ensures CleanBy(s, k, MarkConfirmationCompleted(s, k, ok), i)
  {
    hide Confirm, AuthorityHolds, ItemInv, NothingLeft;
    var j, next := s.items[k].candidate.attempt, MarkConfirmationCompleted(s, k, ok);
    ConfirmIs(s.rows, s.items, s.storage, j, Some(k), ok, s.clock);
    CleanMeansNoneActive(s.rows, s.items, s.storage, j, Some(k));
    assert forall surface, n | 0 <= n < |s.items| && n != k && Counts(s.items, n, surface, j, Some(k)) ::
        Counts(next.items, n, surface, j, None) && next.items[n] == s.items[n];
  }

  /** The transaction that ends item `k` confirms its attempt `i`, with every surface that the attempt has
      finished, none active, and nothing of it or its family on the disk. */
  predicate CleanBy(s: State, k: nat, after: State, i: nat)
  {
    && Loads(s, k) && s.items[k].candidate.attempt == i && i < |s.rows.attempts| && Terminal(s.rows.attempts[i])
    && Finished(after.items, StageSurface, i)
    && (s.rows.attempts[i].manifest == Valid ==> Finished(after.items, FinalSurface, i))
    && NoneActive(after.items, i)
    && NothingLeft(after.storage, i, s.rows.attempts[i].source)
  }

  /** The item whose end an action records. */
  function EndedBy(a: Action): Option<nat>
  {
    match a
    case DoComplete(k, _) => Some(k)
    case DoConfirm(k, _) => Some(k)
    case _ => None
  }

  lemma OthersConfirmNothing(s: State, a: Action, i: nat)
    requires Scannable(s.rows, i) && !a.DoRegister? && EndedBy(a).None?
    ensures Scannable(Act(s, a).rows, i)
  {
    hide Loads;
  }

  /** Over every run, an attempt is confirmed only by the transaction that completes an item of its own,
      and only when all is clean. */
  lemma ConfirmedMeansClean(s: State, actions: seq<Action>, a: Action, i: nat)
    requires Initial(s) && Scannable(Run(s, actions).rows, i) && !Scannable(Run(s, actions + [a]).rows, i)
    ensures EndedBy(a).Some? && CleanBy(Run(s, actions), EndedBy(a).value, Run(s, actions + [a]), i)
  {
    assert (actions + [a])[..|actions + [a]| - 1] == actions;
    RunKeepsInv(s, actions);
    var before := Run(s, actions);
    hide Initial, Inv, Run, Register, MarkCompleted, MarkConfirmationCompleted, CleanBy, Scannable;
    match a
    case DoRegister(picked, cutoff) => RegisterConfirmsNothing(before, picked, cutoff, i);
    case DoComplete(k, ok) => CompletionConfirmsClean(before, k, ok, i);
    case DoConfirm(k, ok) => RetryConfirmsClean(before, k, ok, i);
    case _ => OthersConfirmNothing(before, a, i);
  }

  // ----- Nothing comes back -----

  predicate Gone(storage: Storage, place: Place)
  {
    place !in storage.live && forall t | t in storage.tombstones :: t.place != place
  }

  lemma {:induction false} GoneStays(s: State, actions: seq<Action>, more: seq<Action>, place: Place)
    requires Gone(Run(s, actions).storage, place) && forall a | a in more :: !a.OutsideStorage?
    ensures Gone(Run(s, actions + more).storage, place)
  {
    hide Loads, Confirm, RegisterItems;
    if more == [] {
      assert actions + more == actions;
    } else {
      var n, all := |more| - 1, actions + more;
      assert all[..|all| - 1] == actions + more[..n] && all[|all| - 1] == more[n] && more[n] in more;
      GoneStays(s, actions, more[..n], place);
      ActKeepsGone(Run(s, actions + more[..n]), more[n], place);
      hide Act;
    }
  }

  lemma ActKeepsGone(s: State, a: Action, place: Place)
    requires Gone(s.storage, place) && !a.OutsideStorage?
    ensures Gone(Act(s, a).storage, place)
  {
    hide Loads, Confirm, RegisterItems, MayPick;
  }

  /** A confirmed attempt has left nothing behind, and while nothing else writes the disk, it stays so
      over every further run, whatever the rows of other protocols do. */
  lemma ConfirmedStaysGone(s: State, actions: seq<Action>, a: Action, more: seq<Action>, i: nat)
    requires Initial(s) && Scannable(Run(s, actions).rows, i) && !Scannable(Run(s, actions + [a]).rows, i)
    requires forall b | b in more :: !b.OutsideStorage?
    ensures var storage := Run(s, actions + [a] + more).storage;
            Gone(storage, StageOf(i)) && Gone(storage, FinalOf(Run(s, actions).rows.attempts[i].source))
  {
    ConfirmedMeansClean(s, actions, a, i);
    hide Run, Finished, Loads, NoneActive;
    GoneStays(s, actions + [a], more, StageOf(i));
    GoneStays(s, actions + [a], more, FinalOf(Run(s, actions).rows.attempts[i].source));
  }

  // ----- Fences -----

  /** An action of the reconciliation, of the clock or of the disk. */
  predicate KeepsRows(a: Action) { !a.OutsideAttempt? && !a.OutsideSource? }

  predicate Fenced(s: State)
  {
    forall k | 0 <= k < |s.items| :: Active(s, k) ==> AuthorityHolds(s.rows, s.items[k].candidate)
  }

  lemma RegisterFences(s: State, picked: seq<Picked>, cutoff: nat)
    requires Inv(s) && Fenced(s)
    ensures Fenced(Register(s, picked, cutoff))
  {
    hide MayPick, Register, RegisterItems, ItemInv, AuthorityHolds;
    var next := Register(s, picked, cutoff);
    if s.open.None? && picked != [] && forall p | p in picked :: MayPick(s, p, cutoff) {
      RegisterIs(s, picked, cutoff);
      PickedAreSelected(s, picked, cutoff);
      RegistrationFencesHold(s.rows, Candidates(picked), cutoff);
      forall k: nat | Active(next, k) ensures AuthorityHolds(next.rows, next.items[k].candidate) {
        RegisteredItem(s, picked, cutoff, k);
        var m, r := k - |s.items|, RegisterItems(s.rows, Candidates(picked)).value;
        assert AuthorityHolds(r.0, r.1[m]) && next.items[|s.items| + m].candidate == r.1[m];
      }
    } else {
      RefusedRegistration(s, picked, cutoff);
    }
  }

  /** The confirmation of one attempt leaves the authority of the items of all others alone. */
  lemma ConfirmKeepsAuthority(rows: Rows, after: Rows, c: Candidate, i: nat)
    requires after.sources == rows.sources && |after.attempts| == |rows.attempts| && c.attempt != i
    requires forall j | 0 <= j < |rows.attempts| && j != i :: after.attempts[j] == rows.attempts[j]
    requires i < |rows.attempts| && after.attempts[i].source == rows.attempts[i].source
             && after.attempts[i].status == rows.attempts[i].status
    requires AuthorityHolds(rows, c)
    ensures AuthorityHolds(after, c)
  {
  }

  lemma CompletionKeepsFences(s: State, k: nat, ok: bool)
    requires Inv(s) && Fenced(s)
    ensures Fenced(MarkCompleted(s, k, ok))
  {
    var next := MarkCompleted(s, k, ok);
    if Loads(s, k) && next.rows != s.rows {
      hide Confirm, AuthorityHolds, ItemInv, Clean;
      var j, done := s.items[k].candidate.attempt, WithStatus(s, k, ItemCompleted);
      ConfirmIs(s.rows, done.items, s.storage, j, None, ok, s.clock);
      forall n | 0 <= n < |done.items| ensures ItemInv(s.rows, done.items[n]) {
        assert ItemInv(s.rows, s.items[n]);
        SameItemInv(s.rows, s.items[n], done.items[n]);
      }
      CleanMeansNoneActive(s.rows, done.items, s.storage, j, None);
      forall n: nat | Active(next, n) ensures AuthorityHolds(next.rows, next.items[n].candidate) {
        assert Active(s, n) && next.items[n] == s.items[n];
        ConfirmKeepsAuthority(s.rows, next.rows, s.items[n].candidate, j);
      }
    }
  }

  lemma RetryKeepsFences(s: State, k: nat, ok: bool)
    requires Inv(s) && Fenced(s)
    ensures Fenced(MarkConfirmationCompleted(s, k, ok))
  {
    var next := MarkConfirmationCompleted(s, k, ok);
    if Loads(s, k) && next.rows != s.rows {
      hide Confirm, AuthorityHolds, ItemInv, Clean;
      var j := s.items[k].candidate.attempt;
      ConfirmIs(s.rows, s.items, s.storage, j, Some(k), ok, s.clock);
      CleanMeansNoneActive(s.rows, s.items, s.storage, j, Some(k));
      forall n: nat | Active(next, n) ensures AuthorityHolds(next.rows, next.items[n].candidate) {
        assert Active(s, n) && next.items[n] == s.items[n];
        ConfirmKeepsAuthority(s.rows, next.rows, s.items[n].candidate, j);
      }
    }
  }

  lemma ActKeepsFences(s: State, a: Action)
    requires Inv(s) && Fenced(s) && KeepsRows(a)
    ensures Fenced(Act(s, a))
  {
    hide Inv, AuthorityHolds, MarkCompleted, MarkConfirmationCompleted, Register;
    if a.DoRegister? {
      RegisterFences(s, a.picked, a.cutoff);
    } else if a.DoComplete? {
      CompletionKeepsFences(s, a.item, a.manifestMatches);
    } else if a.DoConfirm? {
      RetryKeepsFences(s, a.item, a.manifestMatches);
    } else {
      OthersKeepFences(s, a);
    }
  }

  lemma OthersKeepFences(s: State, a: Action)
    requires Fenced(s) && KeepsRows(a) && !a.DoRegister? && EndedBy(a).None?
    ensures Fenced(Act(s, a))
  {
    hide AuthorityHolds;
    var next := Act(s, a);
    assert next.rows == s.rows && |next.items| == |s.items|;
    assert forall n: nat :: Active(next, n) ==> Active(s, n) && next.items[n].candidate == s.items[n].candidate;
  }

  /** The reconciliation never breaks its own fences: take any run that ends with no operation open, and
      any further run in which only the reconciliation writes rows, in any order, with any crashes, through
      any number of operations.  Then every item that is active can be loaded: no later load fails. */
  lemma {:induction false} NoLaterLoadFails(s: State, actions: seq<Action>, more: seq<Action>)
    requires Initial(s) && Run(s, actions).open.None? && forall a | a in more :: KeepsRows(a)
    ensures var now := Run(s, actions + more);
            Fenced(now) && forall k: nat | Active(now, k) :: Loads(now, k)
  {
    hide Act, Initial, AuthorityHolds, ItemInv, KeepsRows;
    if more == [] {
      assert actions + more == actions;
      RunKeepsInv(s, actions);
    } else {
      var n, all := |more| - 1, actions + more;
      assert all[..|all| - 1] == actions + more[..n] && all[|all| - 1] == more[n] && more[n] in more;
      NoLaterLoadFails(s, actions, more[..n]);
      RunKeepsInv(s, actions + more[..n]);
      ActKeepsFences(Run(s, actions + more[..n]), more[n]);
      RunKeepsInv(s, all);
    }
  }
}
