/** The purge resumption theorem: whatever crashes and siblings came before, an undisturbed run ends
    completed, on the same disk. */
module PurgeResume {
  import opened Common
  import opened ArtifactStore
  import opened Purge
  import opened PurgeSafety
  import opened PurgeProgress

  const CLEAR := Fences(false, false, false)

  /** Nothing stands in the way: no fence, and no sibling in our two namespaces. */
  ghost predicate Unobstructed(db: Db, base: Disk)
  {
    db.fences == CLEAR && forall k, s | k in base.tombstones :: k.address != AddressOf(db, s)
  }

  predicate FullyPurged(db: Db)
  {
    && db.operation.Some? && db.operation.value.status == OperationCompleted
    && db.adapter.status == Purged && db.source.status == Purged
  }

  /** A run that nothing obstructs: it is going on, or it has returned with everything purged. */
  ghost predicate Quiet(w: World, base: Disk)
  {
    && Resumable(w, base) && Unobstructed(w.db, base)
    && (Running(w.pc) || (w.pc == Stopped(Returned) && FullyPurged(w.db)))
  }

  lemma StepKeepsFences(w: World)
    ensures Step(w).db.fences == w.db.fences
    ensures forall s :: AddressOf(Step(w).db, s) == AddressOf(w.db, s)
  {
    hide CanProceed, AuthoritySnapshot, OperationAuthority, Rewrite, NewLane, InspectSurface, MoveSurface, UnlinkEntry,
         RemoveDirectory, RecoverTombstone, Entry0, EntryAt, After, Eligible, PendingAuthority, GovernanceClear,
         NamespaceEmpty, IntendMove, BindTombstone, MarkInFlight, AdvancePast, StartDirectoryUnlink, Finish, BlockLane;
  }

  lemma OwnNamespace(w: World, base: Disk, s: Surface)
    requires Fit(w, base) && Unobstructed(w.db, base) && Begun(w.db)
    ensures Namespace(w.disk, AddressOf(w.db, s)) == if TombAt(w, s).Some? then {KeyOf(w.db, s).item} else {}
  {
    var a := AddressOf(w.db, s);
    forall k | k in w.disk.tombstones && k.address == a ensures k == KeyOf(w.db, s) {
      assert Lookup(w.disk.tombstones, k) == Some(w.disk.tombstones[k]);
    }
  }

  lemma ActiveProceeds(w: World, base: Disk)
    requires Inv(w) && Unobstructed(w.db, base) && w.db.operation.Some? && ActiveOperation(w.db.operation.value)
    ensures CanProceed(w.db)
  {
  }

  lemma MoveRuns(w: World, base: Disk, s: Surface)
    requires Quiet(w, base) && w.pc == Move(s)
    ensures Running(MoveItem(w, s).pc)
  {
    AtLane(w, base, s);
    OwnNamespace(w, base, s);
    MoveGoes(w, s, HomeOf(base, w.db, s));
    hide MoveItem, Resumable, Namespace, LocalChange;
  }

  lemma RecoverRuns(w: World, base: Disk, s: Surface)
    requires Quiet(w, base) && w.pc == Recover(s)
    ensures Running(RecoverItem(w, s).pc)
  {
    AtLane(w, base, s);
    OwnNamespace(w, base, s);
    RecoverFinds(w.disk, KeyOf(w.db, s), HomeOf(base, w.db, s));
    hide RecoverTombstone, Resumable, Namespace, HasManifest;
  }

  lemma UnlinkRuns(w: World, base: Disk, s: Surface, i: nat, retry: bool)
    requires Quiet(w, base) && w.pc == Unlink(s, i, retry)
    ensures i < PlanSize(w.db, s) && Running(UnlinkItemEntry(w, s, i, retry).pc)
  {
    hide Resumable, Fit, Inv;
    AtLane(w, base, s);
    hide HasManifest, UnlinkItemEntry, PlanOf, Rest, AuthoritySnapshot, LocalChange, Lookup, LaneShape, LaneFits;
    UnlinkLane(ItemProgress(w.db, s), HomeOf(base, w.db, s), s, LiveAt(w, s), TombAt(w, s), TombAt(w, s), i, retry);
    UnlinkGoes(w, s, HomeOf(base, w.db, s), i, retry);
  }

  lemma RemoveRuns(w: World, base: Disk, s: Surface, allowMissing: bool)
    requires Quiet(w, base) && w.pc == RemoveTombstone(s, allowMissing)
    ensures Running(RemoveItemTombstone(w, s, allowMissing).pc)
  {
    hide RemoveItemTombstone, Resumable, LocalChange, Rest, FinalFiles, PlanOf, HasManifest, Lookup, LaneShape, Ready;
    AtLane(w, base, s);
    RemoveGoes(w, s, HomeOf(base, w.db, s), allowMissing);
  }

  lemma RegisterRuns(w: World, base: Disk)
    requires Quiet(w, base) && w.pc.Register?
    ensures var next := RegisterOrResume(w);
            Running(next.pc) || (next.pc == Stopped(Returned) && FullyPurged(next.db))
  {
    hide NewOperation, LaneFits, Background, HasManifest, OperationAuthorities, Lanes;
  }

  lemma FinalizeReturns(w: World, base: Disk)
    requires Quiet(w, base) && w.pc.Finalize?
    ensures FinalizeOperation(w).pc == Stopped(Returned) && FullyPurged(FinalizeOperation(w).db)
  {
    OwnNamespace(w, base, RegistryFinal);
    OwnNamespace(w, base, SourceFinal);
    hide Namespace, Background, HasManifest, Lanes;
  }

  /** The transactions that ask for authority get it; the others cannot stop. */
  lemma RowsRun(w: World, base: Disk)
    requires Quiet(w, base) && Running(w.pc) && w.db.operation.Some? && CanProceed(w.db)
    requires !w.pc.Register? && !w.pc.Finalize? && !w.pc.Move? && !w.pc.Recover? && !w.pc.Unlink?
             && !w.pc.RemoveTombstone?
    ensures Running(Step(w).pc)
  {
    hide Quiet, CanProceed, AuthoritySnapshot, WithLane, InspectSurface, IntendMove, BindTombstone, MarkInFlight,
         AdvancePast, StartDirectoryUnlink, Finish, BlockLane, ItemProgress, PlanSize;
  }

  lemma QuietIsActive(w: World, base: Disk)
    requires Quiet(w, base) && Running(w.pc) && !w.pc.Register?
    ensures w.db.operation.Some? && CanProceed(w.db)
  {
    hide RowsInv, Fit;
    ActiveProceeds(w, base);
  }

  lemma StepRuns(w: World, base: Disk)
    requires Quiet(w, base) && Running(w.pc)
    ensures var next := Step(w);
            Running(next.pc) || (next.pc == Stopped(Returned) && FullyPurged(next.db))
  {
    hide Quiet, CanProceed, FullyPurged, MarkOperationDeleting, SelectItem, LoadItem, CaptureContext, InspectItem,
         PersistMoveIntent, ReauthorizeMove, MoveItem, RecoverItem, BindMoveIntent, MarkEntry, UnlinkItemEntry,
         AdvanceEntry, MarkDirectoryUnlink, RemoveItemTombstone, CompleteItem, BlockItem, RegisterOrResume,
         FinalizeOperation;
    if !w.pc.Register? { QuietIsActive(w, base); }
    match w.pc
    case Register => RegisterRuns(w, base);
    case Finalize => FinalizeReturns(w, base);
    case Move(s) => MoveRuns(w, base, s);
    case Recover(s) => RecoverRuns(w, base, s);
    case Unlink(s, i, retry) => UnlinkRuns(w, base, s, i, retry);
    case RemoveTombstone(s, allowMissing) => RemoveRuns(w, base, s, allowMissing);
    case _ => RowsRun(w, base);
  }

  lemma StepStaysQuiet(w: World, base: Disk)
    requires Quiet(w, base)
    ensures Quiet(Step(w), base)
  {
    StepKeepsFit(w, base);
    StepKeepsFences(w);
    if Running(w.pc) { StepRuns(w, base); }
    hide Resumable, FullyPurged;
    if Running(w.pc) { hide Step; }
  }

  lemma {:induction false} QuietRun(w: World, base: Disk, n: nat)
    requires Quiet(w, base) && n >= StepsLeft(w.pc)
    ensures Quiet(Steps(w, n), base) && Steps(w, n).pc == Stopped(Returned)
    ensures forall s :: AddressOf(Steps(w, n).db, s) == AddressOf(w.db, s)
    decreases n
  {
    hide Resumable, FullyPurged, Unobstructed;
    if n > 0 {
      StepStaysQuiet(w, base);
      StepKeepsFences(w);
      if Running(w.pc) {
        assert Inv(w) by { ResumableInv(w, base); }
        StepDecreases(w);
      }
      hide Quiet, Step, AddressOf;
      QuietRun(Step(w), base, n - 1);
    }
  }

  lemma ResumableInv(w: World, base: Disk)
    requires Resumable(w, base)
    ensures Inv(w)
  {
  }

  lemma PurgedDisk(w: World, base: Disk)
    requires Resumable(w, base) && FullyPurged(w.db)
    ensures w.disk == Emptied(base, w.db)
  {
    hide HasManifest, OperationAuthorities, LaneAuthority, LaneShape;
    assert forall s :: LiveAt(w, s).None? && TombAt(w, s).None?;
    var end := Emptied(base, w.db);
    forall a ensures Lookup(w.disk.finals, a) == Lookup(end.finals, a) {
    }
    SameLookups(w.disk.finals, end.finals);
    forall k ensures Lookup(w.disk.tombstones, k) == Lookup(base.tombstones, k) {
    }
    SameLookups(w.disk.tombstones, base.tombstones);
  }

  lemma SameLookups<K, V>(m: map<K, V>, n: map<K, V>)
    requires forall k :: Lookup(m, k) == Lookup(n, k)
    ensures m == n
  {
    forall k ensures k in m <==> k in n {
      assert Lookup(m, k) == Lookup(n, k);
    }
    forall k | k in m ensures m[k] == n[k] {
      assert Lookup(m, k) == Lookup(n, k);
    }
  }

  lemma {:induction false} HistoryKeepsAddresses(w: World, events: seq<Event>)
    ensures forall s :: AddressOf(History(w, events).db, s) == AddressOf(w.db, s)
  {
    if events != [] {
      var before := History(w, events[..|events| - 1]);
      HistoryKeepsAddresses(w, events[..|events| - 1]);
      StepKeepsFences(before);
      hide Step;
    }
  }

  // ----- The theorems -----

  /** Resumption: take any history of steps, crashes, restarts, clock ticks, changing fences and siblings
      coming and going, from a purge that no process has begun, or that has ended blocked and whose
      surfaces are in place again.  Once nothing obstructs the purge any more, one more process returns
      with everything purged, and the disk is what outside changes made of it, without the two surfaces. */
  lemma Resumption(w: World, events: seq<Event>, n: nat)
    requires Startable(w) && Ready(w.disk, w.db) && BenignHistory(w, events) && n >= StepsLeft(Register)
    ensures var now, base := History(w, events), Baseline(w.disk, events);
            Unobstructed(now.db, base) ==>
              var end := Steps(Launch(now), n);
              && end.pc == Stopped(Returned) && FullyPurged(end.db) && end.disk == Emptied(base, w.db)
              && Quiet(end, base)
  {
    hide Resumable, FullyPurged, Emptied, Startable;
    var now, base := History(w, events), Baseline(w.disk, events);
    if Unobstructed(now.db, base) {
      HistoryKeepsFit(w, events);
      HistoryKeepsAddresses(w, events);
      RestartFits(now, base, Register);
      QuietRun(Launch(now), base, n);
      var end := Steps(Launch(now), n);
      PurgedDisk(end, base);
      assert Emptied(base, end.db) == Emptied(base, w.db) by { SameEmptied(base, end.db, w.db); }
    }
  }

  lemma SameEmptied(base: Disk, db: Db, other: Db)
    requires forall s :: AddressOf(db, s) == AddressOf(other, s)
    ensures Emptied(base, db) == Emptied(base, other)
  {
    assert AddressOf(db, RegistryFinal) == AddressOf(other, RegistryFinal);
    assert AddressOf(db, SourceFinal) == AddressOf(other, SourceFinal);
  }

  predicate OnlyOurs(events: seq<Event>) { forall e | e in events :: !e.Outside? }

  lemma {:induction false} UndisturbedBaseline(w: World, base: Disk, events: seq<Event>)
    requires OnlyOurs(events)
    ensures BenignHistory(w, events) && Baseline(base, events) == base
  {
    if events != [] {
      UndisturbedBaseline(w, base, events[..|events| - 1]);
    }
  }

  /** Crashes leave no trace: without outside changes, the resumed purge ends on the same disk as a
      purge that was never interrupted. */
  lemma CrashesDoNotMatter(w: World, events: seq<Event>, n: nat)
    requires Startable(w) && Ready(w.disk, w.db) && OnlyOurs(events) && n >= StepsLeft(Register)
    requires Unobstructed(w.db, w.disk) && History(w, events).db.fences == CLEAR
    ensures var resumed, uninterrupted := Steps(Launch(History(w, events)), n), Steps(Launch(w), n);
            && resumed.pc == uninterrupted.pc == Stopped(Returned)
            && FullyPurged(resumed.db) && FullyPurged(uninterrupted.db)
            && resumed.disk == uninterrupted.disk == Emptied(w.disk, w.db)
  {
    hide Startable, Ready, FullyPurged, Emptied;
    UndisturbedBaseline(w, w.disk, events);
    HistoryKeepsAddresses(w, events);
    Resumption(w, events, n);
    assert History(w, []) == w;
    Resumption(w, [], n);
  }

  // ----- Siblings -----

  lemma RegisterStaysBegun(w: World)
    requires Inv(w) && Begun(w.db) && w.pc.Register?
    ensures Step(w).db == w.db
  {
    hide OperationAuthorities, Lanes, NewOperation, Eligible;
  }

  lemma FinalizeStaysBegun(w: World, base: Disk)
    requires Resumable(w, base) && Begun(w.db) && w.pc.Finalize?
    ensures Begun(Step(w).db) && Step(w).db.past == w.db.past
  {
    hide LaneFits, HasManifest, RowsInv, NamespaceEmpty, OperationAuthority, GovernanceClear, Background, Ready;
    assert BlockedItems(w.db.operation.value) == 0;
  }

  lemma OthersStayBegun(w: World)
    requires Begun(w.db) && !w.pc.Register? && !w.pc.Finalize?
    ensures Begun(Step(w).db) && Step(w).db.past == w.db.past
  {
    hide MoveSurface, UnlinkEntry, RemoveDirectory, InspectSurface, RecoverTombstone, CanProceed, AuthoritySnapshot,
         Rewrite, Entry0, EntryAt, After, IntendMove, BindTombstone, MarkInFlight, AdvancePast, StartDirectoryUnlink,
         Finish, BlockLane;
  }

  /** Once it has begun, a purge that fits never ends blocked, and is never registered again. */
  lemma BegunStays(w: World, base: Disk)
    requires Resumable(w, base) && Begun(w.db)
    ensures Begun(Step(w).db) && Step(w).db.past == w.db.past
  {
    hide Fit, RowsInv, PcInv, Step, Begun;
    if w.pc.Register? {
      RegisterStaysBegun(w);
    } else if w.pc.Finalize? {
      FinalizeStaysBegun(w, base);
    } else {
      OthersStayBegun(w);
    }
  }

  /** Until then, a process can only register. */
  lemma UnbegunStep(w: World)
    requires Inv(w) && !Begun(w.db)
    ensures Begun(Step(w).db) || Step(w).db == w.db
  {
    hide RowsInv, NewLane, AuthoritySnapshot;
  }

  /** Nothing is registered since `start`, or the operation that follows what was there then. */
  predicate Follows(start: Db, db: Db)
  {
    if Begun(db) then db.past == start.past + (if start.operation.Some? then [start.operation.value] else [])
    else db.operation == start.operation && db.past == start.past
  }

  lemma StepFollows(start: Db, w: World, base: Disk)
    requires Resumable(w, base) && Follows(start, w.db)
    ensures Follows(start, Step(w).db)
  {
    hide Fit, Begun, Inv, Step;
    ResumableInv(w, base);
    if Begun(w.db) {
      BegunStays(w, base);
    } else {
      UnbegunStep(w);
      if Begun(Step(w).db) { BeginsWithPast(w); }
    }
  }

  lemma EventFollows(start: Db, w: World, base: Disk, e: Event)
    requires Resumable(w, base) && Follows(start, w.db)
    ensures Follows(start, Apply(w, e).db)
  {
    hide Resumable, Step;
    if e.Run? { StepFollows(start, w, base); }
  }

  lemma {:induction false} BegunOrUntouched(w: World, events: seq<Event>)
    requires Startable(w) && Ready(w.disk, w.db) && BenignHistory(w, events)
    ensures Follows(w.db, History(w, events).db)
  {
    if events != [] {
      var k := |events| - 1;
      BegunOrUntouched(w, events[..k]);
      HistoryKeepsFit(w, events[..k]);
      hide Resumable, Ready, Startable, Follows, Apply;
      EventFollows(w.db, History(w, events[..k]), Baseline(w.disk, events[..k]), events[k]);
    }
  }

  lemma {:induction false} StepsFollow(start: Db, w: World, base: Disk, n: nat)
    requires Resumable(w, base) && Follows(start, w.db)
    ensures Follows(start, Steps(w, n).db)
    decreases n
  {
    hide Resumable, Follows, Step;
    if n > 0 {
      StepKeepsFit(w, base);
      StepFollows(start, w, base);
      StepsFollow(start, Step(w), base, n - 1);
    }
  }

  lemma BeginsWithPast(w: World)
    requires Inv(w) && !Begun(w.db) && Begun(Step(w).db)
    ensures Step(w).db.past == w.db.past + (if w.db.operation.Some? then [w.db.operation.value] else [])
  {
    hide RowsInv, NewLane, AuthoritySnapshot;
  }

  /** What the agreement of rows and disk says of blocked items and of foreign tombstones. */
  lemma FitIsUnblocked(w: World, base: Disk)
    requires Fit(w, base)
    ensures w.pc != Stopped(Failed)
    ensures Begun(w.db) ==> forall s :: ItemProgress(w.db, s).status != Blocked
    ensures forall k: TombstoneKey | k.item.Foreign? :: Lookup(w.disk.tombstones, k) == Lookup(base.tombstones, k)
  {
    hide HasManifest, Rest, Ready;
    if Begun(w.db) {
      assert ItemProgress(w.db, RegistryFinal).status != Blocked && ItemProgress(w.db, SourceFinal).status != Blocked;
    }
  }

  /** Siblings only delay: no benign history blocks an item, ends the operation blocked or fails the
      process, and every tombstone the service never issued is exactly as the outside left it. */
  lemma SiblingsOnlyDelay(w: World, events: seq<Event>)
    requires Startable(w) && Ready(w.disk, w.db) && BenignHistory(w, events)
    ensures var now := History(w, events);
            && now.pc != Stopped(Failed)
            && (now.db.operation != w.db.operation ==>
                  && Begun(now.db) && forall s :: ItemProgress(now.db, s).status != Blocked)
            && forall k: TombstoneKey | k.item.Foreign? ::
                 Lookup(now.disk.tombstones, k) == Lookup(Baseline(w.disk, events).tombstones, k)
  {
    HistoryKeepsFit(w, events);
    BegunOrUntouched(w, events);
    hide Inv, Fit, History, Baseline, Startable, Ready, BenignHistory;
    FitIsUnblocked(History(w, events), Baseline(w.disk, events));
  }
}
