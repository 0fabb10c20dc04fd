/** What a reconciliation item does to the disk, whatever else happens there (adapter_artifact_maintenance.py,
    adapter_maintenance_artifacts.py): deletion safety over all histories with outside changes, and exactly when each
    storage call goes ahead. */
module ReconcileSafety {
  import opened Common
  import opened ArtifactStore
  import opened ReconcileResume

  // ----- Histories with outside changes -----

  /** A step, a crash or a restart, or any change of the disk by someone else. */
  datatype Deed = Do(event: Event) | Outside(disk: Storage)

  function Play(w: World, deeds: seq<Deed>): World
  {
    if deeds == [] then w
    else
      var before := Play(w, deeds[..|deeds| - 1]);
      match deeds[|deeds| - 1]
      case Do(e) => Apply(before, e)
      case Outside(disk) => before.(disk := disk)
  }

  /** A registered item that no process has begun. */
  predicate Fresh(w: World) { w.row == FRESH && w.pc == Idle }

  // ----- The invariant -----

  /** Only names of the allowlist, and for a final surface all of them. */
  predicate OnlyAllowed(w: World, entries: seq<Entry>)
  {
    && (forall e | e in entries :: e.name in w.names)
    && (!w.stage ==> forall n | n in w.names :: exists e | e in entries :: e.name == n)
  }

  predicate SameSurface(bound: Observation, observed: Observation)
  {
    bound.entries == observed.entries && bound.directory.key == observed.directory.key
  }

  predicate RowShape(w: World)
  {
    var row := w.row;
    && (row.observed.Some? ==> OnlyAllowed(w, row.observed.value.entries))
    && match row.status
       case Registered => row == FRESH
       case Verified => row == Row(Verified, row.observed, row.authorized, None, 0, None, false) && row.observed.Some?
       case Bound => Under(row)
       case Deleting => Under(row)
       case _ => true
  }

  predicate Under(row: Row)
  {
    && row.authorized && row.observed.Some? && row.bound.Some? && row.next <= |row.bound.value.entries|
    && SameSurface(row.bound.value, row.observed.value)
  }

  predicate AtBound(row: Row, bound: Observation)
  {
    (row.status == Bound || row.status == Deleting) && row.bound == Some(bound)
  }

  /** What the process remembers is what the row records. */
  predicate PcShape(w: World)
  {
    var row := w.row;
    match w.pc
    case Inspect => row.status == Registered
    case Verify(inspected) => row.status == Registered && OnlyAllowed(w, inspected.entries)
    case Authorize => row.status == Verified
    case Probe(inspected, authorized) =>
      row.status == Verified && row.observed == Some(inspected) && authorized == row.authorized
    case Reauthorize(inspected, _) => row.status == Verified && row.observed == Some(inspected)
    case Move(inspected) => row.status == Verified && row.authorized && row.observed == Some(inspected)
    case Recover(inspected) => row.status == Verified && row.authorized && row.observed == Some(inspected)
    case Bind(bound) =>
      row.status == Verified && row.authorized && row.observed.Some? && SameSurface(bound, row.observed.value)
    case Reload => row.status == Bound || row.status == Deleting
    case Open(bound, next) => AtBound(row, bound) && next == row.next
    case Mark(bound, index) => AtBound(row, bound) && index < |bound.entries|
    case Unlink(bound, index, _) =>
      && row.status == Deleting && AtBound(row, bound) && row.next == index < |bound.entries|
      && row.inFlight == Some(bound.entries[index].name)
    case Advance(bound, index) =>
      row.status == Deleting && AtBound(row, bound) && row.next == index < |bound.entries|
    case MarkDirectory(bound) => AtBound(row, bound) && row.next == |bound.entries|
    case Remove(bound, _) => AtBound(row, bound) && row.next == |bound.entries| && row.started
    case _ => true
  }

  predicate Shape(w: World) { RowShape(w) && PcShape(w) }

  lemma EntriesAllowed(d: Directory, w: World)
    requires Inspectable(d, w.names, w.stage)
    ensures OnlyAllowed(w, Entries(d, w.names))
  {
    NamesOfEntries(d, w.names);
    forall n | n in w.names && !w.stage ensures exists e | e in Entries(d, w.names) :: e.name == n {
      assert n in d.files.Keys;
    }
  }

  lemma {:induction false} NamesOfEntries(d: Directory, names: seq<FileName>)
    ensures forall e | e in Entries(d, names) :: e.name in names && e.name in d.files && d.files[e.name] == e.identity
    ensures forall n | n in names && n in d.files :: exists e | e in Entries(d, names) :: e.name == n
  {
    if names != [] {
      var rest := Entries(d, names[1..]);
      NamesOfEntries(d, names[1..]);
      assert names == [names[0]] + names[1..] && forall e | e in rest :: e in Entries(d, names);
      if names[0] in d.files { assert Entries(d, names)[0] == Entry(names[0], d.files[names[0]]); }
    }
  }

  lemma InspectKeepsShape(w: World)
    requires Shape(w) && w.pc.Inspect?
    ensures Shape(Step(w))
  {
    hide Entries, Inspectable, OnlyAllowed;
    SameAllowed(w, Step(w));
    if w.disk.live.Some? && Inspectable(w.disk.live.value, w.names, w.stage) { EntriesAllowed(w.disk.live.value, w); }
  }

  lemma MoveKeepsShape(w: World)
    requires Shape(w) && (w.pc.Move? || w.pc.Recover?)
    ensures Shape(Step(w))
  {
    hide SameEntries, Names, OnlyAllowed;
    SameAllowed(w, Step(w));
  }

  predicate InLoop(pc: Pc) { pc.Open? || pc.Mark? || pc.Unlink? || pc.Advance? || pc.MarkDirectory? || pc.Remove? }

  lemma LoopKeepsShape(w: World)
    requires Shape(w) && InLoop(w.pc)
    ensures Shape(Step(w))
  {
    hide Entries, Whole, UnlinkIn, Retained, Inspectable, OnlyAllowed, Removes, SameSurface;
    SameAllowed(w, Step(w));
  }

  lemma RestKeepsShape(w: World)
    requires Shape(w) && !InLoop(w.pc) && !w.pc.Inspect? && !w.pc.Move? && !w.pc.Recover?
    ensures Shape(Step(w))
  {
    hide Entries, Whole, UnlinkIn, Retained, Inspectable, OnlyAllowed, Removes, SameSurface;
    SameAllowed(w, Step(w));
  }

  lemma StepKeepsShape(w: World)
    requires Shape(w)
    ensures Shape(Step(w))
  {
    hide Step, Shape;
    if w.pc.Inspect? {
      InspectKeepsShape(w);
    } else if w.pc.Move? || w.pc.Recover? {
      MoveKeepsShape(w);
    } else if InLoop(w.pc) {
      LoopKeepsShape(w);
    } else {
      RestKeepsShape(w);
    }
  }

  lemma SameAllowed(w: World, next: World)
    requires next.names == w.names && next.stage == w.stage
    ensures forall entries :: OnlyAllowed(w, entries) <==> OnlyAllowed(next, entries)
  {
  }

  lemma {:induction false} PlayKeepsShape(w: World, deeds: seq<Deed>)
    requires Fresh(w)
    ensures Shape(Play(w, deeds))
  {
    hide Step, OnlyAllowed;
    if deeds != [] {
      var before, deed := Play(w, deeds[..|deeds| - 1]), deeds[|deeds| - 1];
      PlayKeepsShape(w, deeds[..|deeds| - 1]);
      if deed.Outside? {
        SameAllowed(before, before.(disk := deed.disk));
      } else if deed.event.Run? {
        StepKeepsShape(before);
      } else {
        SameAllowed(before, Apply(before, deed.event));
      }
    }
  }

  // ----- Exactly when -----

  /** A tombstone, an unknown name, or for a final surface a missing one is an error; a surface that is not there is
      done; any other is recorded with its directory and every file, in the order of the names. */
  lemma InspectsExactly(w: World)
    requires w.pc.Inspect?
    ensures Step(w) == w.(pc :=
              if w.disk.tomb.Some? then Fail
              else if w.disk.live.None? then Complete
              else
                var d := w.disk.live.value;
                if (forall n | n in d.files :: n in w.names)
                   && (w.stage || forall n | n in w.names :: n in d.files) then
                  Verify(Observation(d.identity, Entries(d, w.names)))
                else Fail)
    ensures w.disk.live.Some? ==> forall e: Entry ::
              e in Entries(w.disk.live.value, w.names) <==>
              e.name in w.names && e.name in w.disk.live.value.files && w.disk.live.value.files[e.name] == e.identity
  {
    if w.disk.live.Some? {
      var d := w.disk.live.value;
      NamesOfEntries(d, w.names);
      assert forall n :: n in (set m | m in w.names) <==> n in w.names;
      assert forall n :: n in d.files.Keys <==> n in d.files;
      forall e: Entry | e.name in w.names && e.name in d.files && d.files[e.name] == e.identity
        ensures e in Entries(d, w.names)
      {
        var other :| other in Entries(d, w.names) && other.name == e.name;
      }
    }
  }

  lemma MovesExactly(w: World)
    requires Shape(w) && w.pc.Move?
    ensures var observed := w.pc.inspected;
            if w.disk.tomb.None? && w.disk.live.Some? && w.disk.live.value.identity == observed.directory
               && Holds(w.disk.live.value, observed.entries) then
              var identity := DirectoryIdentity(observed.directory.key, observed.directory.stamp + 1);
              Step(w) == w.(disk := Storage(None, Some(Directory(identity, w.disk.live.value.files))),
                            pc := Bind(Observation(identity, observed.entries)))
            else Step(w) == w.(pc := Fail)
  {
    hide Holds, Names, SameEntries, RowShape, OnlyAllowed;
    if w.disk.live.Some? { NamesAgree(w.disk.live.value, w.pc.inspected.entries); }
  }

  lemma RecoversExactly(w: World)
    requires Shape(w) && w.pc.Recover?
    ensures var observed := w.pc.inspected;
            Step(w) == w.(pc :=
              if w.disk.live.None? && w.disk.tomb.Some? && w.disk.tomb.value.identity.key == observed.directory.key
                 && Holds(w.disk.tomb.value, observed.entries)
              then Bind(Observation(w.disk.tomb.value.identity, observed.entries)) else Fail)
  {
    hide Holds, Names, SameEntries, RowShape, OnlyAllowed;
    if w.disk.tomb.Some? { NamesAgree(w.disk.tomb.value, w.pc.inspected.entries); }
  }

  lemma UnlinksExactly(w: World)
    requires Shape(w) && w.pc.Unlink?
    ensures var bound, e, tomb := w.pc.bound, w.pc.bound.entries[w.pc.index], w.disk.tomb;
            if tomb.None? || tomb.value.identity.key != bound.directory.key then Step(w) == w.(pc := Fail)
            else if e.name in tomb.value.files && tomb.value.files[e.name] == e.identity then
              Step(w) == w.(disk := Storage(w.disk.live, Some(Directory(
                              DirectoryIdentity(bound.directory.key, tomb.value.identity.stamp + 1),
                              tomb.value.files - {e.name}))),
                            pc := Advance(bound, w.pc.index))
            else Step(w) == w.(pc := if e.name !in tomb.value.files && w.pc.retry then Advance(bound, w.pc.index)
                                     else Fail)
  {
    hide RowShape, OnlyAllowed;
  }

  lemma RemovesExactly(w: World)
    requires w.pc.Remove?
    ensures if w.disk.tomb.Some? && w.disk.tomb.value.files == map[]
               && w.disk.tomb.value.identity.key == w.pc.bound.directory.key
            then Step(w) == w.(disk := Storage(w.disk.live, None), pc := Complete)
            else Step(w) == w.(pc := if w.disk.tomb.None? && w.pc.allowMissing then Complete else Fail)
  {
  }

  /** After an error the item is blocked, unless its move can be taken up exactly as it is recorded: the surface is gone
      and the tombstone is the one moved or bound, with every file of the plan. */
  lemma FailsExactly(w: World)
    requires Shape(w) && w.pc.Fail?
    ensures var row, tomb := w.row, w.disk.tomb;
            Step(w) == w.(pc :=
              if && w.disk.live.None? && tomb.Some?
                 && ((row.status == Verified && row.authorized
                      && tomb.value.identity.key == row.observed.value.directory.key
                      && Holds(tomb.value, row.observed.value.entries))
                     || (row.status in {Bound, Deleting} && tomb.value.identity == row.bound.value.directory
                         && Holds(tomb.value, row.bound.value.entries)))
              then Stopped else ReconcileResume.Block)
  {
    hide Holds, Names, SameEntries, OnlyAllowed;
    if w.disk.tomb.Some? {
      if w.row.status == Verified { NamesAgree(w.disk.tomb.value, w.row.observed.value.entries); }
      if w.row.status in {Bound, Deleting} { NamesAgree(w.disk.tomb.value, w.row.bound.value.entries); }
    }
  }

  /** What the transactions write: the inspection, the authority to move, the bound tombstone, each entry in flight and
      passed, the directory, and the end.  A retry is told apart by what was recorded before. */
  lemma RecordsExactly(w: World)
    requires Shape(w)
    ensures var row, pc, next := w.row, w.pc, Step(w);
            match pc
            case Verify(inspected) =>
              next == w.(row := Row(Verified, Some(inspected), false, None, 0, None, false), pc := Authorize)
            case Authorize =>
              next == w.(row := row.(authorized := true), pc := Probe(row.observed.value, true))
            case Reauthorize(inspected, preexisting) =>
              next == w.(row := row.(authorized := true),
                         pc := if preexisting then Recover(inspected) else Move(inspected))
            case Bind(bound) =>
              next == w.(row := row.(status := Bound, bound := Some(bound)), pc := Reload)
            case Mark(bound, index) =>
              var name := bound.entries[index].name;
              if row.next != index || (row.inFlight.Some? && row.inFlight != Some(name)) then next == w.(pc := Fail)
              else next == w.(row := row.(status := Deleting, inFlight := Some(name)),
                              pc := Unlink(bound, index, row.inFlight.Some?))
            case Advance(bound, index) =>
              next == w.(row := row.(next := index + 1, inFlight := None),
                         pc := if index + 1 < |bound.entries| then Mark(bound, index + 1) else MarkDirectory(bound))
            case MarkDirectory(bound) =>
              next == w.(row := row.(started := true), pc := Remove(bound, row.started))
            case Complete => next == w.(row := row.(status := Completed, inFlight := None), pc := Stopped)
            case Block => next == w.(row := row.(status := Blocked), pc := Stopped)
            case _ => next.row == row
  {
    hide OnlyAllowed, SameSurface;
  }

  /** Where a process goes on: from what the row records, behind a tombstone only if the move was authorized, and into
      the loop only with the whole tombstone as long as nothing of it is recorded as passed. */
  lemma GoesOnExactly(w: World)
    requires Shape(w)
    ensures w.pc.Load? ==>
              Step(w) == w.(pc := if w.row.status == Registered then Inspect
                                  else if w.row.status == Verified then Probe(w.row.observed.value, w.row.authorized)
                                  else if w.row.status in {Bound, Deleting} then Reload
                                  else Stopped)
    ensures w.pc.Probe? ==>
              Step(w) == w.(pc := if w.disk.tomb.Some? && !w.row.authorized then Fail
                                  else Reauthorize(w.row.observed.value, w.disk.tomb.Some?))
    ensures w.pc.Reload? ==> Step(w) == w.(pc := Open(w.row.bound.value, w.row.next))
    ensures w.pc.Open? ==>
              var bound, tomb := w.row.bound.value, w.disk.tomb;
              var whole := tomb.Some? && tomb.value.identity == bound.directory && Holds(tomb.value, bound.entries);
              Step(w) == w.(pc := if w.row.next == 0 && !whole then Fail
                                  else if w.row.next < |bound.entries| then Mark(bound, w.row.next)
                                  else MarkDirectory(bound))
  {
    hide OnlyAllowed, SameSurface, Names, SameEntries, Holds;
    if w.pc.Open? && w.disk.tomb.Some? { NamesAgree(w.disk.tomb.value, w.row.bound.value.entries); }
  }

  // ----- Deletion safety -----

  /** The surface as it was inspected goes, whole, to the tombstone. */
  predicate MovesObserved(w: World, after: Storage)
  {
    && w.row.status == Verified && w.row.authorized && w.row.observed.Some?
    && w.disk.live.Some? && w.disk.tomb.None?
    && var d, observed := w.disk.live.value, w.row.observed.value;
       && d.identity == observed.directory && Holds(d, observed.entries) && OnlyAllowed(w, observed.entries)
       && after == Storage(None, Some(Directory(DirectoryIdentity(d.identity.key, d.identity.stamp + 1), d.files)))
  }

  /** The next entry of the plan, marked in flight, leaves the bound tombstone, where it is as it was inspected. */
  predicate UnlinksNext(w: World, after: Storage)
  {
    && w.row.status == Deleting && Under(w.row) && w.row.next < |w.row.bound.value.entries| && w.disk.tomb.Some?
    && var d, e := w.disk.tomb.value, w.row.observed.value.entries[w.row.next];
       && w.row.inFlight == Some(e.name) && d.identity.key == w.row.observed.value.directory.key
       && e.name in d.files && d.files[e.name] == e.identity
       && after == Storage(w.disk.live, Some(Directory(DirectoryIdentity(d.identity.key, d.identity.stamp + 1),
                                                       d.files - {e.name})))
  }

  /** The bound tombstone goes, empty and with its plan through. */
  predicate RemovesEmptied(w: World, after: Storage)
  {
    && Under(w.row) && w.row.next == |w.row.bound.value.entries| && w.row.started && w.disk.tomb.Some?
    && w.disk.tomb.value.files == map[] && w.disk.tomb.value.identity.key == w.row.observed.value.directory.key
    && after == Storage(w.disk.live, None)
  }

  /** Deletion safety: after any steps, crashes and restarts, and whatever others do to the disk, a step changes the
      disk in one of these three ways only, each backed by the row. */
  lemma DeletionSafety(w: World, deeds: seq<Deed>)
    requires Fresh(w)
    ensures var s, after := Play(w, deeds), Step(Play(w, deeds)).disk;
            after == s.disk || MovesObserved(s, after) || UnlinksNext(s, after) || RemovesEmptied(s, after)
  {
    hide Play, OnlyAllowed, Holds;
    PlayKeepsShape(w, deeds);
    ChangesAre(Play(w, deeds));
  }

  lemma ChangesAre(w: World)
    requires Shape(w)
    ensures var after := Step(w).disk;
            after == w.disk || MovesObserved(w, after) || UnlinksNext(w, after) || RemovesEmptied(w, after)
  {
    hide OnlyAllowed, Holds, Names, SameEntries, Entries, Inspectable, Retained;
    if w.pc.Move? {
      MovesExactly(w);
    } else if w.pc.Unlink? {
      UnlinksExactly(w);
    } else if w.pc.Remove? {
      RemovesExactly(w);
    }
  }
}
