/** What each remaining step of a purge leaves, whatever is on the disk (adapter_purge.py,
    adapter_maintenance_artifacts.py): inspection, move, recovery, the loop over the plan, and the end of an item. */
module PurgeOutcomes {
  import opened Common
  import opened ArtifactStore
  import opened Purge
  import opened PurgeSafety
  import opened PurgeGuards

  // ----- Inspection, move and recovery -----

  function ThirdFile(s: Surface): FileName { if s == RegistryFinal then RegistryManifest else IntakeManifest }

  /** A surface with exactly its three files, each with the digest of the ownership manifest, is recorded as it is,
      in the order of the names; any other is blocked, and a missing one as changed authority. */
  lemma InspectsExactly(w: World)
    requires w.db.operation.Some? && w.pc.Inspect?
    ensures var s, m := w.pc.s, AttemptOf(w.db, w.pc.s).manifest;
            var a, names := AddressOf(w.db, s), {AdapterConfig, AdapterModel, ThirdFile(s)};
            Step(w) == w.(pc :=
              if a !in w.disk.finals then Block(s, AuthorityChanged)
              else
                var d := w.disk.finals[a];
                if d.files.Keys == names && forall n | n in names :: n in m && d.files[n].digest == m[n] then
                  Persist(s, w.pc.context,
                          Observation(d.identity, [Entry(AdapterConfig, d.files[AdapterConfig]),
                                                   Entry(AdapterModel, d.files[AdapterModel]),
                                                   Entry(ThirdFile(s), d.files[ThirdFile(s)])]))
                else Block(s, ManifestInvalid))
  {
    hide HasManifest, Listing;
    var a := AddressOf(w.db, w.pc.s);
    if a in w.disk.finals { ManifestIs(w.disk.finals[a], w.pc.s, AttemptOf(w.db, w.pc.s).manifest); }
  }

  lemma ManifestIs(d: Directory, s: Surface, m: OwnershipManifest)
    ensures var names := {AdapterConfig, AdapterModel, ThirdFile(s)};
            && (HasManifest(d, s, m) <==>
                  d.files.Keys == names && forall n | n in names :: n in m && d.files[n].digest == m[n])
            && (HasManifest(d, s, m) ==>
                  Listing(d, FinalFiles(s)) == [Entry(AdapterConfig, d.files[AdapterConfig]),
                                                Entry(AdapterModel, d.files[AdapterModel]),
                                                Entry(ThirdFile(s), d.files[ThirdFile(s)])])
  {
    var names, files := {AdapterConfig, AdapterModel, ThirdFile(s)}, FinalFiles(s);
    assert files == [AdapterConfig, AdapterModel, ThirdFile(s)];
    assert (set n | n in files) == names;
    assert forall n | n in names :: n in files;
  }

  /** The committed surface is renamed if and only if it is there as it was inspected and its namespace can be listed
      and is empty.  With only foreign tombstones in the way the process is refused, to be run again; in all other cases
      it looks for an earlier move.  Nothing else on the disk is touched. */
  lemma MovesExactly(w: World)
    requires Inv(w) && w.pc.Move?
    ensures w.db.operation.Some?
    ensures var s, p := w.pc.s, LaneOf(w.db.operation.value, w.pc.s).item.progress;
            var a, key := AddressOf(w.db, s), KeyOf(w.db, s);
            && p.observed.Some? && p.plan.Some?
            && var intact := && a in w.disk.finals && w.disk.finals[a].identity == p.observed.value.directory
                             && p.observed.value.entries == p.plan.value && Holds(w.disk.finals[a], p.plan.value);
               if !intact || a in w.disk.malformed || key in w.disk.tombstones then Step(w) == w.(pc := Recover(s))
               else if OthersAt(w.disk, key) then Step(w) == w.(pc := Stopped(Refused))
               else
                 var d := w.disk.finals[a];
                 var identity := DirectoryIdentity(d.identity.key, d.identity.stamp + 1);
                 Step(w) == w.(disk := Disk(w.disk.finals - {a},
                                            w.disk.tombstones[key := Directory(identity, d.files)], w.disk.malformed),
                               pc := Bind(s, Observation(identity, p.plan.value)))
  {
    hide RowsInv, Namespace, SameEntries, Names, Holds, OthersAt;
    ItemStands(w);
    var p := LaneOf(w.db.operation.value, w.pc.s).item.progress;
    NamespaceIs(w.disk, KeyOf(w.db, w.pc.s));
    if AddressOf(w.db, w.pc.s) in w.disk.finals { NamesAgree(w.disk.finals[AddressOf(w.db, w.pc.s)], p.plan.value); }
  }

  lemma ItemStands(w: World)
    requires Inv(w) && AtItem(w.pc)
    ensures w.db.operation.Some?
    ensures LaneShape(LaneOf(w.db.operation.value, w.pc.s), KeyOf(w.db, w.pc.s))
    ensures ItemAtPc(LaneOf(w.db.operation.value, w.pc.s).item.progress, w.pc)
  {
  }

  /** An earlier move is taken up if and only if the surface is gone, the item's own tombstone is the only one and its
      directory is the inspected one with exactly the files of the plan. */
  lemma RecoversExactly(w: World)
    requires Inv(w) && w.pc.Recover?
    ensures w.db.operation.Some?
    ensures var s, p := w.pc.s, LaneOf(w.db.operation.value, w.pc.s).item.progress;
            var a, key := AddressOf(w.db, s), KeyOf(w.db, s);
            && p.observed.Some? && p.plan.Some?
            && Step(w) == w.(pc :=
                 if a in w.disk.finals then Block(s, AuthorityChanged)
                 else if a in w.disk.malformed then Block(s, TombstoneConflict)
                 else if key !in w.disk.tombstones then Block(s, AuthorityChanged)
                 else if OthersAt(w.disk, key) then Stopped(Refused)
                 else
                   var d := w.disk.tombstones[key];
                   if d.identity.key != p.observed.value.directory.key then Block(s, AuthorityChanged)
                   else if !SameNames(d, p.plan.value) then Block(s, ManifestInvalid)
                   else if Holds(d, p.plan.value) then Bind(s, Observation(d.identity, p.plan.value))
                   else Block(s, AuthorityChanged))
  {
    hide RowsInv, Namespace, SameEntries, Names, Holds, OthersAt, SameNames;
    ItemStands(w);
    var p := LaneOf(w.db.operation.value, w.pc.s).item.progress;
    NamespaceIs(w.disk, KeyOf(w.db, w.pc.s));
    if KeyOf(w.db, w.pc.s) in w.disk.tombstones { NamesAgree(w.disk.tombstones[KeyOf(w.db, w.pc.s)], p.plan.value); }
  }

  // ----- The loop over the plan -----

  /** Item and reservation take the same new record, in one transaction. */
  function Recorded(lane: Lane, p: Progress): Lane
  {
    Lane(Item(lane.item.id, lane.item.version + 1, lane.item.manifest, p),
         Reservation(lane.reservation.id, lane.reservation.version + 1, lane.reservation.authority, p))
  }

  /** Entry `index` is put in flight in both records; one already passed is skipped, and a retry is told apart by its
      own marker. */
  lemma MarksExactly(w: World)
    requires Inv(w) && w.pc.Mark?
    ensures w.db.operation.Some?
    ensures var s, index, lane, next := w.pc.s, w.pc.index, LaneOf(w.db.operation.value, w.pc.s), Step(w);
            var p := lane.item.progress;
            && p.plan.Some? && index < |p.plan.value|
            && var marker := InFlight(p.plan.value[index].name, index);
               if p.nextEntry > index then
                 next == w.(pc := if index + 1 < |p.plan.value| then Mark(s, index + 1) else MarkDirectory(s))
               else if p.nextEntry < index || (p.inFlight.Some? && p.inFlight != Some(marker)) then
                 next == w.(pc := Block(s, AuthorityChanged))
               else
                 && next.disk == w.disk && next.pc == Unlink(s, index, p.inFlight.Some?)
                 && OnlyLane(w.db, next.db, s, Recorded(lane, p.(status := Deleting, inFlight := Some(marker))))
  {
    hide RowsInv;
    ItemStands(w);
  }

  /** The file goes if and only if the bound directory still has it with the planned identity; a file already gone is
      passed only on a retry, and anything else is blocked. */
  lemma UnlinksExactly(w: World)
    requires Inv(w) && w.pc.Unlink?
    ensures w.db.operation.Some?
    ensures var s, index, p := w.pc.s, w.pc.index, LaneOf(w.db.operation.value, w.pc.s).item.progress;
            var key, next := KeyOf(w.db, s), Step(w);
            && p.plan.Some? && p.tombstone.Some? && index < |p.plan.value|
            && ((forall j | 0 <= j < index :: p.plan.value[j].name != p.plan.value[index].name) ==>
                  var e := p.plan.value[index];
                  if key !in w.disk.tombstones then next == w.(pc := Stopped(Failed))
                  else
                    var d := w.disk.tombstones[key];
                    if d.identity.key != p.tombstone.value.directory.key then
                      next == w.(pc := Block(s, AuthorityChanged))
                    else if e.name in d.files && d.files[e.name] == e.identity then
                      next == w.(disk := w.disk.(tombstones := w.disk.tombstones[key :=
                                   Directory(DirectoryIdentity(d.identity.key, d.identity.stamp + 1),
                                             d.files - {e.name})]),
                                 pc := Advance(s, index))
                    else next == w.(pc := if e.name !in d.files && w.pc.retry then Advance(s, index)
                                          else Block(s, AuthorityChanged)))
  {
    hide RowsInv, Planned;
    ItemStands(w);
    var p := LaneOf(w.db.operation.value, w.pc.s).item.progress;
    if forall j | 0 <= j < w.pc.index :: p.plan.value[j].name != p.plan.value[w.pc.index].name {
      FirstPlanned(p.plan.value, w.pc.index);
    }
  }

  lemma {:induction false} FirstPlanned(plan: seq<Entry>, index: nat)
    requires index < |plan| && forall j | 0 <= j < index :: plan[j].name != plan[index].name
    ensures Planned(plan, plan[index].name) == Some(plan[index])
  {
    if index > 0 { FirstPlanned(plan[1..], index - 1); }
  }

  /** The entry is passed in both records, and nothing is in flight. */
  lemma AdvancesExactly(w: World)
    requires Inv(w) && w.pc.Advance?
    ensures w.db.operation.Some?
    ensures var s, index, lane, next := w.pc.s, w.pc.index, LaneOf(w.db.operation.value, w.pc.s), Step(w);
            && next.disk == w.disk && next.pc == (if index < 2 then Mark(s, index + 1) else MarkDirectory(s))
            && OnlyLane(w.db, next.db, s,
                        Recorded(lane, lane.item.progress.(nextEntry := index + 1, inFlight := None)))
  {
    hide RowsInv;
    ItemStands(w);
  }

  /** The directory is marked once, when the plan is through and nothing in flight. */
  lemma MarksDirectoryExactly(w: World)
    requires Inv(w) && w.pc.MarkDirectory?
    ensures w.db.operation.Some?
    ensures var s, lane, next := w.pc.s, LaneOf(w.db.operation.value, w.pc.s), Step(w);
            var p := lane.item.progress;
            && p.plan.Some?
            && if p.nextEntry != |p.plan.value| || p.inFlight.Some? then next == w.(pc := Block(s, AuthorityChanged))
               else if p.directoryUnlinkStarted then next == w.(pc := RemoveTombstone(s, true))
               else
                 && next.disk == w.disk && next.pc == RemoveTombstone(s, false)
                 && OnlyLane(w.db, next.db, s, Recorded(lane, p.(directoryUnlinkStarted := true)))
  {
    hide RowsInv;
    ItemStands(w);
  }

  /** The bound directory goes if and only if it is empty; one already gone is passed only on a retry. */
  lemma RemovesExactly(w: World)
    requires Inv(w) && w.pc.RemoveTombstone?
    ensures w.db.operation.Some?
    ensures var s, p := w.pc.s, LaneOf(w.db.operation.value, w.pc.s).item.progress;
            var key, next := KeyOf(w.db, s), Step(w);
            && p.tombstone.Some?
            && if key in w.disk.tombstones && w.disk.tombstones[key].files == map[]
                  && w.disk.tombstones[key].identity.key == p.tombstone.value.directory.key
               then next == w.(disk := w.disk.(tombstones := w.disk.tombstones - {key}), pc := Complete(s))
               else next == w.(pc := if key !in w.disk.tombstones && w.pc.allowMissing then Complete(s)
                                     else Block(s, AuthorityChanged))
  {
    hide RowsInv;
    ItemStands(w);
  }

  // ----- The end of an item -----

  function Next(s: Surface): Pc { if s == RegistryFinal then Select(SourceFinal) else Finalize }

  /** An item completes in both records, now. */
  lemma FinishesExactly(w: World)
    requires Inv(w) && w.pc.Complete?
    ensures w.db.operation.Some?
    ensures var s, lane, next := w.pc.s, LaneOf(w.db.operation.value, w.pc.s), Step(w);
            && next.disk == w.disk && next.pc == Next(s)
            && OnlyLane(w.db, next.db, s, Recorded(lane, lane.item.progress.(status := Completed,
                                                                             completedAt := Some(w.db.clock))))
  {
    hide RowsInv;
    ItemStands(w);
  }

  /** An item that has not completed is blocked, with the code of the error, in both records; what it had recorded of
      the move stays. */
  lemma BlocksExactly(w: World)
    requires Inv(w) && w.pc.Block?
    ensures w.db.operation.Some?
    ensures var s, lane, next := w.pc.s, LaneOf(w.db.operation.value, w.pc.s), Step(w);
            && next.disk == w.disk && next.pc == Next(s)
            && if lane.item.progress.status == Completed then next.db == w.db
               else OnlyLane(w.db, next.db, s, Recorded(lane, lane.item.progress.(status := Blocked,
                                                                                  blockedCode := Some(w.pc.code))))
  {
    hide RowsInv;
    ItemStands(w);
  }

  /** A process marks its operation as deleting once, and begins with the registry. */
  lemma BeginsExactly(w: World)
    requires w.db.operation.Some? && w.pc.MarkOperation?
    ensures var op := w.db.operation.value;
            Step(w) == World(if op.status != OperationRegistered then w.db
                             else w.db.(operation := Some(op.(status := OperationDeleting, version := op.version + 1))),
                             w.disk, Select(RegistryFinal))
  {
  }

  /** The source waits for the completed registry item, and is blocked if that has ended otherwise; an item goes on from
      where its record says. */
  lemma SelectsExactly(w: World)
    requires Inv(w) && (w.pc.Select? || w.pc.Load?)
    ensures w.db.operation.Some?
    ensures var op, s := w.db.operation.value, w.pc.s;
            var p := LaneOf(op, s).item.progress;
            var ended := p.status in {Completed, Blocked};
            Step(w) == w.(pc :=
              if w.pc.Select? then
                if s == SourceFinal && op.registry.item.progress.status != Completed && !ended then
                  Block(s, DependencyActive)
                else if ended then Next(s)
                else Load(s)
              else if p.status == Registered then Capture(s)
              else if p.status == Verified then Reauthorize(s)
              else Mark(s, 0))
  {
    hide RowsInv;
    ItemStands(w);
  }
}
