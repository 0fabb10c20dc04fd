/** With one runner, and no outside change of the disk but tombstones that the service never issued,
    an interrupted purge always resumes to the same end. */
module PurgeProgress {
  import opened Common
  import opened ArtifactStore
  import opened Purge
  import opened PurgeSafety

  // ----- The baseline -----

  function Lookup<K, V>(m: map<K, V>, k: K): Option<V>
  {
    if k in m then Some(m[k]) else None
  }

  function HomeOf(base: Disk, db: Db, s: Surface): Directory
  {
    var home := Lookup(base.finals, AddressOf(db, s));
    if home.Some? then home.value else Directory(DirectoryIdentity(0, 0), map[])
  }

  /** Both surfaces are exactly as published, and no tombstone of ours is left over. */
  ghost predicate Ready(base: Disk, db: Db)
  {
    && (forall s :: AddressOf(db, s) in base.finals && AddressOf(db, s) !in base.malformed
                    && HasManifest(HomeOf(base, db, s), s, AttemptOf(db, s).manifest))
    && (forall k | k in base.tombstones && k.item.Issued? :: forall s :: k.address != AddressOf(db, s))
    && db.sourceAttempt.authoritative && db.registryAttempt.authoritative
  }

  /** An outside change that only adds or removes tombstones with identifiers never issued. */
  ghost predicate SiblingChange(before: Disk, after: Disk)
  {
    && after.finals == before.finals && after.malformed == before.malformed
    && forall k: TombstoneKey | k.item.Issued? ::
         (k in after.tombstones <==> k in before.tombstones)
         && (k in before.tombstones ==> after.tombstones[k] == before.tombstones[k])
  }

  /** The baseline with the siblings of `disk`. */
  function WithSiblings(base: Disk, disk: Disk): Disk
  {
    base.(tombstones := (map k | k in base.tombstones && k.item.Issued? :: base.tombstones[k])
                        + (map k | k in disk.tombstones && k.item.Foreign? :: disk.tombstones[k]))
  }

  ghost predicate Benign(w: World, e: Event)
  {
    e.Outside? ==> SiblingChange(w.disk, e.disk)
  }

  ghost predicate BenignHistory(w: World, events: seq<Event>)
  {
    events == [] ||
    (BenignHistory(w, events[..|events| - 1]) && Benign(History(w, events[..|events| - 1]), events[|events| - 1]))
  }

  /** What outside changes alone make of the disk. */
  function Baseline(base: Disk, events: seq<Event>): Disk
  {
    if events == [] then base
    else
      var before := Baseline(base, events[..|events| - 1]);
      var e := events[|events| - 1];
      if e.Outside? then WithSiblings(before, e.disk) else before
  }

  /** The disk that a purge is for: the baseline without the two surfaces. */
  function Emptied(base: Disk, db: Db): Disk
  {
    base.(finals := base.finals - {AddressOf(db, RegistryFinal), AddressOf(db, SourceFinal)})
  }

  // ----- One lane and its disk -----

  /** The files that remain when the first `k` entries of the plan are unlinked. */
  function Rest(home: Directory, s: Surface, k: nat): map<FileName, FileIdentity>
    requires k <= 3
  {
    map n | n in FinalFiles(s)[k..] && n in home.files :: home.files[n]
  }

  predicate Complete3(home: Directory, s: Surface)
  {
    home.files.Keys == (set n | n in FinalFiles(s))
  }

  function PlanOf(home: Directory, s: Surface): seq<Entry>
  {
    if Complete3(home, s) then Listing(home, FinalFiles(s)) else []
  }

  predicate Observes(p: Progress, home: Directory, s: Surface)
  {
    && p.observed == Some(Observation(home.identity, PlanOf(home, s)))
    && p.plan == Some(PlanOf(home, s))
  }

  predicate Untouched(p: Progress)
  {
    p.nextEntry == 0 && p.inFlight.None? && !p.directoryUnlinkStarted
  }

  predicate HasKey(d: Option<Directory>, home: Directory)
  {
    d.Some? && d.value.identity.key == home.identity.key
  }

  /** What the recorded progress of a lane promises about its surface and its item tombstone. */
  predicate LaneFits(p: Progress, home: Directory, s: Surface, live: Option<Directory>, tomb: Option<Directory>)
  {
    match p.status
    case Registered => Untouched(p) && live == Some(home) && tomb.None?
    case Verified =>
      && Untouched(p) && Observes(p, home, s)
      && ((live == Some(home) && tomb.None?) || (live.None? && tomb == Some(Renamed(home))))
    case Completed => live.None? && tomb.None?
    case Blocked => false
    case _ =>
      && Observes(p, home, s) && live.None? && p.nextEntry <= 3
      && p.tombstone.Some? && p.tombstone.value.directory.key == home.identity.key
      && (p.inFlight.Some? ==> p.nextEntry < 3 && p.inFlight.value == InFlight(FinalFiles(s)[p.nextEntry], p.nextEntry))
      && (tomb.Some? ==> HasKey(tomb, home))
      && if p.directoryUnlinkStarted then
           p.nextEntry == 3 && (tomb.Some? ==> tomb.value.files == map[])
         else
           && tomb.Some?
           && (tomb.value.files == Rest(home, s, p.nextEntry)
               || (p.inFlight.Some? && tomb.value.files == Rest(home, s, p.nextEntry + 1)))
  }

  /** What the process has found out about the lane it works on is still so. */
  predicate PcFits(authority: Snapshot, lane: Lane, home: Directory, s: Surface, live: Option<Directory>,
                   tomb: Option<Directory>, pc: Pc)
  {
    var p := lane.item.progress;
    var bound := p.status == TombstoneBound || p.status == Deleting;
    match pc
    case Capture(_) => p.status == Registered
    case Inspect(_, c) =>
      p.status == Registered && c == MoveContext(lane.item.version, lane.reservation.version, authority)
    case Persist(_, c, inspected) =>
      && p.status == Registered && c == MoveContext(lane.item.version, lane.reservation.version, authority)
      && inspected == Observation(home.identity, PlanOf(home, s))
    case Reauthorize(_) => p.status == Verified
    case Move(_) => p.status == Verified
    case Recover(_) => p.status == Verified && live.None?
    case Bind(_, b) => p.status == Verified && live.None? && b == Observation(Renamed(home).identity, PlanOf(home, s))
    case Mark(_, i) => bound && i <= p.nextEntry && i < 3
    case Unlink(_, i, retry) =>
      p.status == Deleting && p.nextEntry == i && i < 3 && p.inFlight.Some?
      && (retry || (tomb.Some? && tomb.value.files == Rest(home, s, i)))
    case Advance(_, i) =>
      p.status == Deleting && p.nextEntry == i && i < 3 && tomb.Some? && tomb.value.files == Rest(home, s, i + 1)
    case MarkDirectory(_) => bound && p.nextEntry == 3
    case RemoveTombstone(_, allowMissing) => bound && p.directoryUnlinkStarted && (allowMissing || tomb.Some?)
    case Complete(_) => bound && p.directoryUnlinkStarted && tomb.None?
    case Block(_, _) => false
    case _ => true
  }

  // ----- The whole state -----

  function LiveAt(w: World, s: Surface): Option<Directory> { Lookup(w.disk.finals, AddressOf(w.db, s)) }

  function TombAt(w: World, s: Surface): Option<Directory>
    requires w.db.operation.Some?
  {
    Lookup(w.disk.tombstones, KeyOf(w.db, s))
  }

  /** An operation is registered that has not ended blocked; until then the next process registers one. */
  predicate Begun(db: Db) { db.operation.Some? && db.operation.value.status != CompletedWithBlocks }

  function OwnKeys(db: Db): set<TombstoneKey>
  {
    if !Begun(db) then {} else {KeyOf(db, RegistryFinal), KeyOf(db, SourceFinal)}
  }

  /** Everything on the disk but our two surfaces and our two tombstones is as in the baseline. */
  ghost predicate Background(w: World, base: Disk)
  {
    && w.disk.malformed == base.malformed
    && (forall a | a != AddressOf(w.db, RegistryFinal) && a != AddressOf(w.db, SourceFinal) ::
          Lookup(w.disk.finals, a) == Lookup(base.finals, a))
    && (forall k | k !in OwnKeys(w.db) :: Lookup(w.disk.tombstones, k) == Lookup(base.tombstones, k))
  }

  ghost predicate FitsAt(w: World, base: Disk, s: Surface)
    requires w.db.operation.Some?
  {
    && KeyOf(w.db, s).item.Issued?
    && LaneFits(ItemProgress(w.db, s), HomeOf(base, w.db, s), s, LiveAt(w, s), TombAt(w, s))
  }

  ghost predicate PcFitsAt(w: World, base: Disk, s: Surface)
    requires w.db.operation.Some?
  {
    PcFits(AuthoritySnapshot(w.db), LaneOf(w.db.operation.value, s), HomeOf(base, w.db, s), s, LiveAt(w, s),
           TombAt(w, s), w.pc)
  }

  ghost predicate Fit(w: World, base: Disk)
  {
    && Ready(base, w.db) && Background(w, base)
    && if !Begun(w.db) then
         && LiveAt(w, RegistryFinal) == Some(HomeOf(base, w.db, RegistryFinal))
         && LiveAt(w, SourceFinal) == Some(HomeOf(base, w.db, SourceFinal))
         && w.pc != Stopped(Failed)
       else
         && FitsAt(w, base, RegistryFinal) && FitsAt(w, base, SourceFinal)
         && if AtItem(w.pc) && !w.pc.Select? then PcFitsAt(w, base, w.pc.s)
            else
              && (w.pc == Select(SourceFinal) ==> ItemProgress(w.db, RegistryFinal).status == Completed)
              && (w.pc.Finalize? ==>
                    ItemProgress(w.db, RegistryFinal).status == ItemProgress(w.db, SourceFinal).status == Completed)
              && w.pc != Stopped(Failed)
  }

  ghost predicate Resumable(w: World, base: Disk) { Inv(w) && Fit(w, base) }

  // ----- The storage calls on a lane that fits -----

  lemma HomeVerifies(home: Directory, s: Surface)
    requires Complete3(home, s)
    ensures VerifyEntries(home, PlanOf(home, s), home.identity) == None
    ensures VerifyEntries(Renamed(home), PlanOf(home, s), Renamed(home).identity) == None
    ensures |PlanOf(home, s)| == 3 && forall i: nat | i < 3 :: PlanOf(home, s)[i].name == FinalFiles(s)[i]
  {
    var plan := PlanOf(home, s);
    forall n ensures n in Names(plan) <==> n in home.files {
      if n in home.files {
        var i :| 0 <= i < 3 && FinalFiles(s)[i] == n;
        assert plan[i] in plan;
      }
    }
    assert Names(plan) == home.files.Keys;
  }

  lemma InspectFinds(disk: Disk, a: Address, manifest: OwnershipManifest)
    requires a in disk.finals && HasManifest(disk.finals[a], a.surface, manifest)
    ensures InspectSurface(disk, a, manifest)
            == Found(Observation(disk.finals[a].identity, PlanOf(disk.finals[a], a.surface)))
  {
  }

  lemma MoveFinds(disk: Disk, key: TombstoneKey, home: Directory)
    requires Complete3(home, key.address.surface) && key.address !in disk.malformed
    requires Lookup(disk.finals, key.address) == Some(home) && key !in disk.tombstones
    ensures var plan := PlanOf(home, key.address.surface);
            var (after, outcome) := MoveSurface(disk, key, Observation(home.identity, plan), plan, Some(key));
            if Namespace(disk, key.address) == {} then
              && Lookup(after.finals, key.address) == None && Lookup(after.tombstones, key) == Some(Renamed(home))
              && outcome == Found(Observation(Renamed(home).identity, plan))
            else after == disk && outcome == Retryable
  {
    HomeVerifies(home, key.address.surface);
  }

  lemma RecoverFinds(disk: Disk, key: TombstoneKey, home: Directory)
    requires Complete3(home, key.address.surface) && key.address !in disk.malformed
    requires key.address !in disk.finals && Lookup(disk.tombstones, key) == Some(Renamed(home))
    ensures var plan := PlanOf(home, key.address.surface);
            RecoverTombstone(disk, key, Observation(home.identity, plan), plan, Some(key))
            == if Namespace(disk, key.address) == {key.item} then Found(Observation(Renamed(home).identity, plan))
               else Retryable
  {
    HomeVerifies(home, key.address.surface);
  }

  lemma TailStep(s: Surface, i: nat)
    requires i < 3
    ensures var names := FinalFiles(s);
            |names| == 3 && names[i..] == [names[i]] + names[i + 1..] && names[i] in names
              && names[i] !in names[i + 1..]
  {
    var names := FinalFiles(s);
    forall j | i < j < 3 ensures names[i] != names[j] {}
  }

  lemma RestStep(home: Directory, s: Surface, i: nat)
    requires Complete3(home, s) && i < 3
    ensures FinalFiles(s)[i] in Rest(home, s, i) && FinalFiles(s)[i] in home.files
    ensures Rest(home, s, i)[FinalFiles(s)[i]] == home.files[FinalFiles(s)[i]]
    ensures Rest(home, s, i) - {FinalFiles(s)[i]} == Rest(home, s, i + 1)
    ensures FinalFiles(s)[i] !in Rest(home, s, i + 1)
  {
    hide FinalFiles;
    TailStep(s, i);
    var names := FinalFiles(s);
    assert names[i] in home.files;
    var rest, next := Rest(home, s, i), Rest(home, s, i + 1);
    forall n ensures n in rest - {names[i]} <==> n in next {
      assert n in names[i..] <==> n == names[i] || n in names[i + 1..];
    }
  }

  lemma RestAll(home: Directory, s: Surface)
    requires Complete3(home, s)
    ensures Rest(home, s, 0) == home.files && Rest(home, s, 3) == map[]
  {
    assert FinalFiles(s)[0..] == FinalFiles(s);
  }

  lemma PlannedFinds(home: Directory, s: Surface, i: nat)
    requires Complete3(home, s) && i < 3
    ensures Planned(PlanOf(home, s), FinalFiles(s)[i])
            == Some(Entry(FinalFiles(s)[i], home.files[FinalFiles(s)[i]]))
  {
    var plan := PlanOf(home, s);
    var name := FinalFiles(s)[i];
    assert plan[1..][0] == plan[1] && plan[1..][1..] == plan[2..] && plan[2..][0] == plan[2];
    if i == 1 {
      assert Planned(plan[1..], name) == Some(plan[1]);
    } else if i == 2 {
      assert Planned(plan[2..], name) == Some(plan[2]);
      assert Planned(plan[1..], name) == Planned(plan[2..], name);
    }
  }

  lemma UnlinkFinds(disk: Disk, key: TombstoneKey, bound: Observation, home: Directory, i: nat, allowMissing: bool)
    requires Complete3(home, key.address.surface) && i < 3 && key in disk.tombstones
    requires disk.tombstones[key].identity.key == home.identity.key == bound.directory.key
    requires disk.tombstones[key].files == Rest(home, key.address.surface, i)
             || (allowMissing && disk.tombstones[key].files == Rest(home, key.address.surface, i + 1))
    ensures var (after, outcome) := UnlinkEntry(disk, key, bound, PlanOf(home, key.address.surface),
                                                FinalFiles(key.address.surface)[i], allowMissing);
            && outcome == Found(())
            && key in after.tombstones
            && after == disk.(tombstones := disk.tombstones[key := after.tombstones[key]])
            && after.tombstones[key].identity.key == home.identity.key
            && after.tombstones[key].files == Rest(home, key.address.surface, i + 1)
  {
    PlannedFinds(home, key.address.surface, i);
    RestStep(home, key.address.surface, i);
    assert disk.tombstones == disk.tombstones[key := disk.tombstones[key]];
  }

  lemma RemoveFinds(disk: Disk, key: TombstoneKey, bound: Observation, allowMissing: bool)
    requires if key in disk.tombstones then
               disk.tombstones[key].files == map[] && disk.tombstones[key].identity.key == bound.directory.key
             else allowMissing
    ensures RemoveDirectory(disk, key, bound, allowMissing)
            == (disk.(tombstones := disk.tombstones - {key}), Found(()))
  {
    assert key !in disk.tombstones ==> disk.tombstones - {key} == disk.tombstones;
  }

  // ----- Every step keeps the fit -----

  function Other(s: Surface): Surface
  {
    match s case RegistryFinal => SourceFinal case SourceFinal => RegistryFinal
  }

  /** The step at a lane touches that lane, its surface and its tombstone, and nothing else. */
  ghost predicate LocalChange(w: World, next: World, s: Surface)
    requires w.db.operation.Some?
  {
    && next.db.operation.Some?
    && next.db.department == w.db.department && next.db.adapter == w.db.adapter && next.db.source == w.db.source
    && next.db.sourceAttempt == w.db.sourceAttempt && next.db.registryAttempt == w.db.registryAttempt
    && next.db.operation.value.status == w.db.operation.value.status && next.db.past == w.db.past
    && LaneOf(next.db.operation.value, s).item.id == LaneOf(w.db.operation.value, s).item.id
    && LaneOf(next.db.operation.value, Other(s)) == LaneOf(w.db.operation.value, Other(s))
    && next.disk.malformed == w.disk.malformed
    && (forall a | a != AddressOf(w.db, s) :: Lookup(next.disk.finals, a) == Lookup(w.disk.finals, a))
    && (forall k | k != KeyOf(w.db, s) :: Lookup(next.disk.tombstones, k) == Lookup(w.disk.tombstones, k))
  }

  /** Where the process stands after a step at the lane `s`. */
  ghost predicate GoesOn(w: World, base: Disk, s: Surface)
    requires w.db.operation.Some?
  {
    || (w.pc == After(s) && ItemProgress(w.db, s).status == Completed)
    || w.pc == Stopped(Refused)
    || (AtItem(w.pc) && w.pc.s == s && !w.pc.Select? && PcFitsAt(w, base, s))
  }

  lemma OtherLaneFits(w: World, next: World, base: Disk, s: Surface)
    requires w.db.operation.Some? && LocalChange(w, next, s) && FitsAt(w, base, Other(s))
    ensures FitsAt(next, base, Other(s))
  {
    hide LaneFits;
    var t := Other(s);
    assert LiveAt(next, t) == LiveAt(w, t) && TombAt(next, t) == TombAt(w, t);
  }

  lemma LocalChangeFits(w: World, next: World, base: Disk, s: Surface)
    requires Fit(w, base) && Begun(w.db) && LocalChange(w, next, s)
    requires s == SourceFinal ==> ItemProgress(w.db, RegistryFinal).status == Completed
    requires LaneFits(ItemProgress(next.db, s), HomeOf(base, w.db, s), s, LiveAt(next, s), TombAt(next, s))
    requires GoesOn(next, base, s)
    ensures Fit(next, base)
  {
    hide LaneFits, HasManifest, Lookup;
    OtherLaneFits(w, next, base, s);
    assert FitsAt(next, base, s);
    assert Background(next, base);
  }

  /** What holds of the lane, the surface and the tombstone that the process works on. */
  lemma AtLane(w: World, base: Disk, s: Surface)
    requires Resumable(w, base) && AtItem(w.pc) && w.pc.s == s && !w.pc.Select?
    ensures w.db.operation.Some? && Begun(w.db) && Fit(w, base)
    ensures AuthoritySnapshot(w.db) == LaneOf(w.db.operation.value, s).reservation.authority.snapshot
    ensures HasManifest(HomeOf(base, w.db, s), s, AttemptOf(w.db, s).manifest)
    ensures Complete3(HomeOf(base, w.db, s), s) && AddressOf(w.db, s) !in w.disk.malformed
    ensures LaneFits(ItemProgress(w.db, s), HomeOf(base, w.db, s), s, LiveAt(w, s), TombAt(w, s))
    ensures PcFits(AuthoritySnapshot(w.db), LaneOf(w.db.operation.value, s), HomeOf(base, w.db, s), s, LiveAt(w, s),
                   TombAt(w, s), w.pc)
    ensures LaneShape(LaneOf(w.db.operation.value, s), KeyOf(w.db, s))
    ensures s == SourceFinal ==> ItemProgress(w.db, RegistryFinal).status == Completed
  {
    LaneIsShaped(w.db, s);
  }

  lemma WriteIsLocal(w: World, s: Surface, lane: Lane, pc: Pc)
    requires w.db.operation.Some? && lane.item.id == LaneOf(w.db.operation.value, s).item.id
    ensures var next := World(WithLane(w.db, s, lane), w.disk, pc);
            LocalChange(w, next, s) && LaneOf(next.db.operation.value, s) == lane
            && LiveAt(next, s) == LiveAt(w, s) && TombAt(next, s) == TombAt(w, s)
            && AuthoritySnapshot(next.db) == AuthoritySnapshot(w.db)
  {
  }

  lemma InspectFits(w: World, base: Disk, s: Surface, context: MoveContext)
    requires Resumable(w, base) && w.pc == Inspect(s, context)
    ensures Fit(InspectItem(w, s, context), base)
  {
    hide Resumable, Fit, Inv;
    AtLane(w, base, s);
    InspectFinds(w.disk, AddressOf(w.db, s), AttemptOf(w.db, s).manifest);
    hide InspectSurface;
    LocalChangeFits(w, InspectItem(w, s, context), base, s);
  }

  lemma PersistFits(w: World, base: Disk, s: Surface, context: MoveContext, inspected: Observation)
    requires Resumable(w, base) && w.pc == Persist(s, context, inspected)
    ensures Fit(PersistMoveIntent(w, s, context, inspected), base)
  {
    hide KeyOf, WithLane, FinalFiles, AddressOf, HomeOf, Resumable, Fit, Inv, HasManifest, PlanOf, Eligible,
         PendingAuthority, Rest, Lookup;
    AtLane(w, base, s);
    WriteIsLocal(w, s, IntendMove(LaneOf(w.db.operation.value, s), inspected, KeyOf(w.db, s)), Reauthorize(s));
    LocalChangeFits(w, PersistMoveIntent(w, s, context, inspected), base, s);
  }

  /** The rename happens unless a sibling is there; when it has happened before, recovery is next. */
  lemma MoveGoes(w: World, s: Surface, home: Directory)
    requires w.db.operation.Some? && Observes(ItemProgress(w.db, s), home, s) && Complete3(home, s)
    requires ItemProgress(w.db, s).namespace == Some(KeyOf(w.db, s)) && AddressOf(w.db, s) !in w.disk.malformed
    requires (LiveAt(w, s) == Some(home) && TombAt(w, s).None?) || LiveAt(w, s).None?
    ensures var next := MoveItem(w, s);
            && next.db == w.db && LocalChange(w, next, s)
            && if LiveAt(w, s).None? then
                 next.pc == Recover(s) && LiveAt(next, s) == None && TombAt(next, s) == TombAt(w, s)
               else if Namespace(w.disk, AddressOf(w.db, s)) == {} then
                 next.pc == Bind(s, Observation(Renamed(home).identity, PlanOf(home, s)))
                 && LiveAt(next, s) == None && TombAt(next, s) == Some(Renamed(home))
               else next == Stop(w, Refused)
  {
    if AddressOf(w.db, s) in w.disk.finals {
      MoveFinds(w.disk, KeyOf(w.db, s), home);
    }
    hide VerifyEntries, HasManifest, PlanOf, Namespace;
  }

  lemma MoveFits(w: World, base: Disk, s: Surface)
    requires Resumable(w, base) && w.pc == Move(s)
    ensures Fit(MoveItem(w, s), base)
  {
    hide Resumable, Fit, Inv, MoveItem, HasManifest, PlanOf, LocalChange, Namespace, Lookup, AuthoritySnapshot,
         FinalFiles;
    AtLane(w, base, s);
    MoveGoes(w, s, HomeOf(base, w.db, s));
    LocalChangeFits(w, MoveItem(w, s), base, s);
  }

  lemma RecoverFits(w: World, base: Disk, s: Surface)
    requires Resumable(w, base) && w.pc == Recover(s)
    ensures Fit(RecoverItem(w, s), base)
  {
    hide Resumable, Fit, Inv, RecoverTombstone, HasManifest, PlanOf;
    AtLane(w, base, s);
    RecoverFinds(w.disk, KeyOf(w.db, s), HomeOf(base, w.db, s));
    LocalChangeFits(w, RecoverItem(w, s), base, s);
  }

  lemma BindFits(w: World, base: Disk, s: Surface, bound: Observation)
    requires Resumable(w, base) && w.pc == Bind(s, bound)
    ensures Fit(BindMoveIntent(w, s, bound), base)
  {
    hide PlanOf, Resumable, Fit, Inv;
    AtLane(w, base, s);
    var lane := LaneOf(w.db.operation.value, s);
    RestAll(HomeOf(base, w.db, s), s);
    var next := BindMoveIntent(w, s, bound);
    WriteIsLocal(w, s, BindTombstone(lane, bound), next.pc);
    LocalChangeFits(w, next, base, s);
  }

  // Where the loop over the plan goes on.

  lemma AtMark(w: World, base: Disk, s: Surface, i: nat)
    requires w.db.operation.Some? && w.pc == (if i < 3 then Mark(s, i) else MarkDirectory(s))
    requires var p := ItemProgress(w.db, s);
             (p.status == TombstoneBound || p.status == Deleting) && i <= p.nextEntry <= 3
    ensures GoesOn(w, base, s)
  {
  }

  lemma AtUnlink(w: World, base: Disk, s: Surface, i: nat, retry: bool)
    requires w.db.operation.Some? && w.pc == Unlink(s, i, retry) && i < 3
    requires var p := ItemProgress(w.db, s); p.status == Deleting && p.nextEntry == i && p.inFlight.Some?
    requires retry || (TombAt(w, s).Some? && TombAt(w, s).value.files == Rest(HomeOf(base, w.db, s), s, i))
    ensures GoesOn(w, base, s)
  {
  }

  lemma AtAdvance(w: World, base: Disk, s: Surface, i: nat)
    requires w.db.operation.Some? && w.pc == Advance(s, i) && i < 3
    requires var p := ItemProgress(w.db, s); p.status == Deleting && p.nextEntry == i
    requires TombAt(w, s).Some? && TombAt(w, s).value.files == Rest(HomeOf(base, w.db, s), s, i + 1)
    ensures GoesOn(w, base, s)
  {
  }

  lemma MarkGoes(w: World, s: Surface, home: Directory, live: Option<Directory>, tomb: Option<Directory>, i: nat)
    requires w.db.operation.Some? && LaneFits(ItemProgress(w.db, s), home, s, live, tomb) && Complete3(home, s)
    requires var p := ItemProgress(w.db, s);
             (p.status == TombstoneBound || p.status == Deleting) && i <= p.nextEntry && i < 3
    ensures i < PlanSize(w.db, s)
    ensures var lane := LaneOf(w.db.operation.value, s);
            var p := lane.item.progress;
            MarkEntry(w, s, i) == if p.nextEntry > i then Goto(w, if i < 2 then Mark(s, i + 1) else MarkDirectory(s))
                                  else World(WithLane(w.db, s, MarkInFlight(lane, InFlight(FinalFiles(s)[i], i))),
                                             w.disk, Unlink(s, i, p.inFlight.Some?))
  {
    HomeVerifies(home, s);
    hide PlanOf, Rest, WithLane;
  }

  lemma MarkLane(lane: Lane, home: Directory, s: Surface, live: Option<Directory>, tomb: Option<Directory>, i: nat)
    requires LaneFits(lane.item.progress, home, s, live, tomb)
    requires var p := lane.item.progress; (p.status == TombstoneBound || p.status == Deleting) && p.nextEntry == i < 3
    ensures LaneFits(MarkInFlight(lane, InFlight(FinalFiles(s)[i], i)).item.progress, home, s, live, tomb)
    ensures lane.item.progress.inFlight.None? ==> tomb.Some? && tomb.value.files == Rest(home, s, i)
  {
    hide PlanOf, Rest;
  }

  lemma MarkFits(w: World, base: Disk, s: Surface, i: nat)
    requires Resumable(w, base) && w.pc == Mark(s, i)
    ensures i < PlanSize(w.db, s) && Fit(MarkEntry(w, s, i), base)
  {
    hide Resumable, Fit, Inv, MarkEntry, HasManifest, LocalChange, WithLane, PlanOf, Rest, AuthoritySnapshot, LaneShape,
         GoesOn;
    AtLane(w, base, s);
    assert ItemProgress(w.db, s).nextEntry <= 3;
    var lane, home, next := LaneOf(w.db.operation.value, s), HomeOf(base, w.db, s), MarkEntry(w, s, i);
    MarkGoes(w, s, home, LiveAt(w, s), TombAt(w, s), i);
    if lane.item.progress.nextEntry > i {
      SameLane(w.db, s);
      WriteIsLocal(w, s, lane, next.pc);
      AtMark(next, base, s, i + 1);
    } else {
      MarkLane(lane, home, s, LiveAt(w, s), TombAt(w, s), i);
      WriteIsLocal(w, s, MarkInFlight(lane, InFlight(FinalFiles(s)[i], i)), next.pc);
      AtUnlink(next, base, s, i, lane.item.progress.inFlight.Some?);
    }
    LocalChangeFits(w, next, base, s);
  }

  lemma SameLane(db: Db, s: Surface)
    requires db.operation.Some?
    ensures WithLane(db, s, LaneOf(db.operation.value, s)) == db
  {
  }

  lemma UnlinkIsLocal(w: World, s: Surface, i: nat, retry: bool)
    requires w.db.operation.Some? && i < PlanSize(w.db, s)
    ensures var next := UnlinkItemEntry(w, s, i, retry);
            next.db == w.db && LocalChange(w, next, s) && LiveAt(next, s) == LiveAt(w, s)
  {
    hide Planned;
  }

  lemma UnlinkGoes(w: World, s: Surface, home: Directory, i: nat, retry: bool)
    requires w.db.operation.Some? && Observes(ItemProgress(w.db, s), home, s) && Complete3(home, s) && i < 3
    requires HasKey(TombAt(w, s), home)
    requires var p := ItemProgress(w.db, s); p.tombstone.Some? && p.tombstone.value.directory.key == home.identity.key
    requires TombAt(w, s).value.files == Rest(home, s, i) || (retry && TombAt(w, s).value.files == Rest(home, s, i + 1))
    ensures i < PlanSize(w.db, s)
    ensures var next := UnlinkItemEntry(w, s, i, retry);
            && next.db == w.db && next.pc == Advance(s, i) && HasKey(TombAt(next, s), home)
            && TombAt(next, s).value.files == Rest(home, s, i + 1)
  {
    HomeVerifies(home, s);
    UnlinkFinds(w.disk, KeyOf(w.db, s), ItemProgress(w.db, s).tombstone.value, home, i, retry);
    hide UnlinkEntry, Rest, PlanOf;
  }

  lemma UnlinkLane(p: Progress, home: Directory, s: Surface, live: Option<Directory>, tomb: Option<Directory>,
                   after: Option<Directory>, i: nat, retry: bool)
    requires LaneFits(p, home, s, live, tomb) && p.status == Deleting && p.nextEntry == i && i < 3 && p.inFlight.Some?
    requires retry || (tomb.Some? && tomb.value.files == Rest(home, s, i))
    ensures Observes(p, home, s) && HasKey(tomb, home)
    ensures p.tombstone.Some? && p.tombstone.value.directory.key == home.identity.key
    ensures tomb.value.files == Rest(home, s, i) || (retry && tomb.value.files == Rest(home, s, i + 1))
    ensures HasKey(after, home) && after.value.files == Rest(home, s, i + 1) ==> LaneFits(p, home, s, live, after)
  {
    hide Rest, PlanOf;
  }

  lemma UnlinkFits(w: World, base: Disk, s: Surface, i: nat, retry: bool)
    requires Resumable(w, base) && w.pc == Unlink(s, i, retry)
    ensures i < PlanSize(w.db, s) && Fit(UnlinkItemEntry(w, s, i, retry), base)
  {
    hide Resumable, Fit, Inv;
    AtLane(w, base, s);
    hide HasManifest, UnlinkItemEntry, PlanOf, Rest, AuthoritySnapshot, LocalChange, Lookup, LaneShape, LaneFits,
         GoesOn;
    var home, p, next := HomeOf(base, w.db, s), ItemProgress(w.db, s), UnlinkItemEntry(w, s, i, retry);
    UnlinkLane(p, home, s, LiveAt(w, s), TombAt(w, s), TombAt(w, s), i, retry);
    UnlinkGoes(w, s, home, i, retry);
    UnlinkIsLocal(w, s, i, retry);
    UnlinkLane(p, home, s, LiveAt(w, s), TombAt(w, s), TombAt(next, s), i, retry);
    AtAdvance(next, base, s, i);
    LocalChangeFits(w, next, base, s);
  }

  lemma AdvanceLane(lane: Lane, home: Directory, s: Surface, live: Option<Directory>, tomb: Option<Directory>, i: nat)
    requires LaneFits(lane.item.progress, home, s, live, tomb)
    requires var p := lane.item.progress; p.status == Deleting && p.nextEntry == i < 3
    requires tomb.Some? && tomb.value.files == Rest(home, s, i + 1)
    ensures LaneFits(AdvancePast(lane, i).item.progress, home, s, live, tomb)
  {
    hide PlanOf, Rest;
  }

  lemma AdvanceFits(w: World, base: Disk, s: Surface, i: nat)
    requires Resumable(w, base) && w.pc == Advance(s, i)
    ensures Fit(AdvanceEntry(w, s, i), base)
  {
    hide Resumable, Fit, Inv;
    AtLane(w, base, s);
    var lane, home, next := LaneOf(w.db.operation.value, s), HomeOf(base, w.db, s), AdvanceEntry(w, s, i);
    HomeVerifies(home, s);
    AdvanceLane(lane, home, s, LiveAt(w, s), TombAt(w, s), i);
    WriteIsLocal(w, s, AdvancePast(lane, i), next.pc);
    hide HasManifest, LocalChange, WithLane, PlanOf, Rest, AuthoritySnapshot, LaneShape, GoesOn;
    AtMark(next, base, s, i + 1);
    hide LaneFits;
    LocalChangeFits(w, next, base, s);
  }

  lemma MarkDirectoryFits(w: World, base: Disk, s: Surface)
    requires Resumable(w, base) && w.pc == MarkDirectory(s)
    ensures Fit(MarkDirectoryUnlink(w, s), base)
  {
    hide Resumable, Fit, Inv, HasManifest, PlanOf, Rest, AuthoritySnapshot, LocalChange, LaneShape, WithLane,
         CanProceed, HomeOf, Lookup, Complete3;
    AtLane(w, base, s);
    HomeVerifies(HomeOf(base, w.db, s), s);
    RestAll(HomeOf(base, w.db, s), s);
    var lane, next := LaneOf(w.db.operation.value, s), MarkDirectoryUnlink(w, s);
    assert lane.item.progress.nextEntry == 3 && lane.item.progress.inFlight.None?;
    WriteIsLocal(w, s, StartDirectoryUnlink(lane), next.pc);
    LocalChangeFits(w, next, base, s);
  }

  lemma RemoveGoes(w: World, s: Surface, home: Directory, allowMissing: bool)
    requires w.db.operation.Some?
    requires var p := ItemProgress(w.db, s); p.tombstone.Some? && p.tombstone.value.directory.key == home.identity.key
    requires if TombAt(w, s).Some? then HasKey(TombAt(w, s), home)
             && TombAt(w, s).value.files == map[] else allowMissing
    ensures var next := RemoveItemTombstone(w, s, allowMissing);
            && next.db == w.db && LocalChange(w, next, s) && next.pc == Purge.Complete(s)
            && LiveAt(next, s) == LiveAt(w, s) && TombAt(next, s).None?
  {
    RemoveFinds(w.disk, KeyOf(w.db, s), ItemProgress(w.db, s).tombstone.value, allowMissing);
    hide RemoveDirectory;
  }

  lemma RemoveTombstoneFits(w: World, base: Disk, s: Surface, allowMissing: bool)
    requires Resumable(w, base) && w.pc == RemoveTombstone(s, allowMissing)
    ensures Fit(RemoveItemTombstone(w, s, allowMissing), base)
  {
    hide FinalFiles, Resumable, Fit, Inv, HasManifest, PlanOf, Rest, AuthoritySnapshot, LocalChange, Lookup,
         RemoveItemTombstone;
    AtLane(w, base, s);
    RemoveGoes(w, s, HomeOf(base, w.db, s), allowMissing);
    LocalChangeFits(w, RemoveItemTombstone(w, s, allowMissing), base, s);
  }

  lemma CompleteFits(w: World, base: Disk, s: Surface)
    requires Resumable(w, base) && w.pc == Complete(s)
    ensures Fit(CompleteItem(w, s), base)
  {
    hide Resumable, Fit, Inv;
    AtLane(w, base, s);
    var lane, next := LaneOf(w.db.operation.value, s), CompleteItem(w, s);
    WriteIsLocal(w, s, Finish(lane, w.db.clock), next.pc);
    hide HasManifest, LocalChange, WithLane, PlanOf, Rest, AuthoritySnapshot;
    LocalChangeFits(w, next, base, s);
  }

  lemma LoadGoes(w: World, s: Surface, home: Directory, live: Option<Directory>, tomb: Option<Directory>)
    requires w.db.operation.Some? && LaneFits(ItemProgress(w.db, s), home, s, live, tomb) && Complete3(home, s)
    requires LaneShape(LaneOf(w.db.operation.value, s), KeyOf(w.db, s))
    ensures var p, next := ItemProgress(w.db, s), LoadItem(w, s);
            next == Goto(w, match p.status
                            case Registered => Capture(s)
                            case Verified => Reauthorize(s)
                            case Completed => After(s)
                            case _ => Mark(s, 0))
  {
    HomeVerifies(home, s);
    hide PlanOf, Rest;
  }

  lemma LoadFits(w: World, base: Disk, s: Surface)
    requires Resumable(w, base) && w.pc == Load(s)
    ensures Fit(LoadItem(w, s), base)
  {
    hide Resumable, Fit, Inv;
    AtLane(w, base, s);
    LoadGoes(w, s, HomeOf(base, w.db, s), LiveAt(w, s), TombAt(w, s));
    hide LoadItem, HasManifest, PlanOf, Rest, AuthoritySnapshot, LaneShape;
    LocalChangeFits(w, LoadItem(w, s), base, s);
  }

  lemma CaptureFits(w: World, base: Disk, s: Surface)
    requires Resumable(w, base) && w.pc == Capture(s)
    ensures Fit(CaptureContext(w, s), base)
  {
    hide Resumable, Fit, Inv;
    AtLane(w, base, s);
    hide HasManifest, PlanOf, Rest, CanProceed, AuthoritySnapshot;
    LocalChangeFits(w, CaptureContext(w, s), base, s);
  }

  lemma ReauthorizeFits(w: World, base: Disk, s: Surface)
    requires Resumable(w, base) && w.pc == Reauthorize(s)
    ensures Fit(ReauthorizeMove(w, s), base)
  {
    hide Resumable, Fit, Inv, HasManifest, PlanOf, Rest, CanProceed, AuthoritySnapshot, FinalFiles, Lookup, LaneShape,
         Complete3;
    AtLane(w, base, s);
    LocalChangeFits(w, ReauthorizeMove(w, s), base, s);
  }

  lemma SelectFits(w: World, base: Disk, s: Surface)
    requires Resumable(w, base) && w.pc == Select(s)
    ensures Fit(SelectItem(w, s), base)
  {
    hide RowsInv, PcInv, ItemAtPc, Ready, HasManifest, AuthoritySnapshot;
  }

  /** The rows differ in nothing that places or lanes depend on. */
  predicate SameLanes(db: Db, next: Db)
  {
    && db.operation.Some? && next.operation.Some?
    && next.operation.value.registry == db.operation.value.registry
    && next.operation.value.source == db.operation.value.source
    && next.department == db.department && next.adapter.id == db.adapter.id && next.source.id == db.source.id
    && next.sourceAttempt == db.sourceAttempt && next.registryAttempt == db.registryAttempt
  }

  lemma SameLaneFits(w: World, next: World, base: Disk, s: Surface)
    requires SameLanes(w.db, next.db) && next.disk == w.disk
    ensures FitsAt(next, base, s) == FitsAt(w, base, s)
    ensures ItemProgress(next.db, s) == ItemProgress(w.db, s)
  {
    hide LaneFits;
  }

  lemma SameBackground(w: World, next: World, base: Disk)
    requires SameLanes(w.db, next.db) && next.disk == w.disk && Begun(w.db) == Begun(next.db)
    requires Ready(base, w.db) && Background(w, base)
    ensures Ready(base, next.db) && Background(next, base)
  {
    hide HasManifest;
    assert forall s :: AddressOf(next.db, s) == AddressOf(w.db, s) && AttemptOf(next.db, s) == AttemptOf(w.db, s);
  }

  /** A transaction between the items: the operation moves on, and the lanes stay as they are. */
  lemma BetweenItemsFits(w: World, next: World, base: Disk)
    requires Fit(w, base) && SameLanes(w.db, next.db) && next.disk == w.disk && Begun(w.db) && Begun(next.db)
    requires next.pc == MarkOperation || next.pc == Select(RegistryFinal) || next.pc == Stopped(Returned)
             || next.pc == Stopped(Refused)
    ensures Fit(next, base)
  {
    hide Ready, Background, FitsAt, PcFitsAt, ItemProgress, SameLanes, Begun;
    SameBackground(w, next, base);
    SameLaneFits(w, next, base, RegistryFinal);
    SameLaneFits(w, next, base, SourceFinal);
  }

  lemma MarkOperationFits(w: World, base: Disk)
    requires Resumable(w, base) && w.pc.MarkOperation?
    ensures Fit(MarkOperationDeleting(w), base)
  {
    hide Fit, RowsInv;
    BetweenItemsFits(w, MarkOperationDeleting(w), base);
  }

  lemma NewOperationFits(w: World, base: Disk)
    requires Resumable(w, base) && !Begun(w.db)
    ensures Fit(World(NewOperation(w.db), w.disk, MarkOperation), base)
  {
    hide HasManifest;
    var next := World(NewOperation(w.db), w.disk, MarkOperation);
    assert Ready(base, next.db) && Background(next, base);
    forall s: Surface ensures FitsAt(next, base, s) {
      assert KeyOf(next.db, s) !in base.tombstones;
    }
  }

  lemma ResumeFits(w: World, base: Disk)
    requires Resumable(w, base) && w.pc.Register? && Begun(w.db)
    ensures Fit(RegisterOrResume(w), base)
  {
    hide Fit, NewOperation, OperationAuthorities, Lanes;
    BetweenItemsFits(w, RegisterOrResume(w), base);
  }

  lemma RegisterFits(w: World, base: Disk)
    requires Resumable(w, base) && w.pc.Register?
    ensures Fit(RegisterOrResume(w), base)
  {
    hide NewOperation, HasManifest, Inv, FitsAt;
    if Begun(w.db) {
      ResumeFits(w, base);
    } else {
      NewOperationFits(w, base);
    }
  }

  lemma AllCompleted(w: World, base: Disk)
    requires Resumable(w, base) && w.pc.Finalize?
    ensures Begun(w.db) && BlockedItems(w.db.operation.value) == 0
  {
    hide RowsInv, Ready, Background, FitsAt, PcFitsAt;
  }

  lemma FinalizeFits(w: World, base: Disk)
    requires Resumable(w, base) && w.pc.Finalize?
    ensures Fit(FinalizeOperation(w), base)
  {
    hide Fit, RowsInv, NamespaceEmpty, OperationAuthority;
    AllCompleted(w, base);
    BetweenItemsFits(w, FinalizeOperation(w), base);
  }

  lemma ItemHasOperation(w: World)
    requires Inv(w) && AtItem(w.pc)
    ensures w.db.operation.Some?
  {
  }

  predicate Deletes(pc: Pc)
  {
    pc.Mark? || pc.Unlink? || pc.Advance? || pc.MarkDirectory? || pc.RemoveTombstone? || pc.Complete?
  }

  lemma DeletionStepFits(w: World, base: Disk)
    requires Resumable(w, base) && Deletes(w.pc)
    ensures Fit(Step(w), base)
  {
    hide Fit, Inv, MarkEntry, UnlinkItemEntry, AdvanceEntry, MarkDirectoryUnlink, RemoveItemTombstone, CompleteItem;
    ItemHasOperation(w);
    match w.pc
    case Mark(s, i) => MarkFits(w, base, s, i);
    case Unlink(s, i, retry) => UnlinkFits(w, base, s, i, retry);
    case Advance(s, i) => AdvanceFits(w, base, s, i);
    case MarkDirectory(s) => MarkDirectoryFits(w, base, s);
    case RemoveTombstone(s, allowMissing) => RemoveTombstoneFits(w, base, s, allowMissing);
    case Complete(s) => CompleteFits(w, base, s);
  }

  predicate Moves(pc: Pc)
  {
    pc.Load? || pc.Capture? || pc.Inspect? || pc.Persist? || pc.Reauthorize? || pc.Move? || pc.Recover? || pc.Bind?
  }

  lemma MoveStepFits(w: World, base: Disk)
    requires Resumable(w, base) && Moves(w.pc)
    ensures Fit(Step(w), base)
  {
    hide Fit, Inv, LoadItem, CaptureContext, InspectItem, PersistMoveIntent, ReauthorizeMove, MoveItem, RecoverItem,
         BindMoveIntent;
    ItemHasOperation(w);
    match w.pc
    case Load(s) => LoadFits(w, base, s);
    case Capture(s) => CaptureFits(w, base, s);
    case Inspect(s, context) => InspectFits(w, base, s, context);
    case Persist(s, context, inspected) => PersistFits(w, base, s, context, inspected);
    case Reauthorize(s) => ReauthorizeFits(w, base, s);
    case Move(s) => MoveFits(w, base, s);
    case Recover(s) => RecoverFits(w, base, s);
    case Bind(s, bound) => BindFits(w, base, s, bound);
  }

  lemma StepKeepsFit(w: World, base: Disk)
    requires Resumable(w, base)
    ensures Resumable(Step(w), base)
  {
    hide Fit, RowsInv, ItemAtPc, RegisterOrResume, MarkOperationDeleting, SelectItem, LoadItem, CaptureContext,
         InspectItem, PersistMoveIntent, ReauthorizeMove, MoveItem, RecoverItem, BindMoveIntent, MarkEntry,
         UnlinkItemEntry, AdvanceEntry, MarkDirectoryUnlink, RemoveItemTombstone, CompleteItem, BlockItem,
         FinalizeOperation;
    StepKeepsInv(w);
    if Moves(w.pc) {
      MoveStepFits(w, base);
    } else if Deletes(w.pc) {
      DeletionStepFits(w, base);
    } else {
      match w.pc
      case Idle =>
      case Stopped(_) =>
      case Register => RegisterFits(w, base);
      case MarkOperation => MarkOperationFits(w, base);
      case Select(s) => SelectFits(w, base, s);
      case Block(s, _) => AtLane(w, base, s); assert false;
      case Finalize => FinalizeFits(w, base);
    }
  }

  // ----- Every benign event keeps the fit, against the moving baseline -----

  lemma SiblingsInBackground(w: World, base: Disk, disk: Disk)
    requires Background(w, base) && Ready(base, w.db) && SiblingChange(w.disk, disk)
    ensures Background(w.(disk := disk), WithSiblings(base, disk)) && Ready(WithSiblings(base, disk), w.db)
  {
    hide HasManifest;
    var next, shifted := w.(disk := disk), WithSiblings(base, disk);
    forall k | k !in OwnKeys(w.db) ensures Lookup(disk.tombstones, k) == Lookup(shifted.tombstones, k) {
      assert Lookup(w.disk.tombstones, k) == Lookup(base.tombstones, k);
    }
  }

  lemma SiblingsFit(w: World, base: Disk, disk: Disk)
    requires Resumable(w, base) && SiblingChange(w.disk, disk)
    ensures Resumable(w.(disk := disk), WithSiblings(base, disk))
  {
    hide RowsInv, PcInv, LaneFits, PcFits, Background, Ready, HasManifest;
    SiblingsInBackground(w, base, disk);
    var next, shifted := w.(disk := disk), WithSiblings(base, disk);
    assert w.db.operation.Some? ==> forall s :: KeyOf(w.db, s).item.Issued? ==> TombAt(next, s) == TombAt(w, s);
    assert forall s :: LiveAt(next, s) == LiveAt(w, s) && HomeOf(shifted, w.db, s) == HomeOf(base, w.db, s);
  }

  lemma RestartFits(w: World, base: Disk, pc: Pc)
    requires Resumable(w, base) && (pc.Idle? || pc.Register?)
    ensures Resumable(Goto(w, pc), base)
  {
    hide RowsInv, LaneFits, HasManifest;
    assert Begun(w.db) ==> FitsAt(Goto(w, pc), base, RegistryFinal) && FitsAt(Goto(w, pc), base, SourceFinal);
  }

  /** Clock and fences are no part of what a lane, the background or the baseline say. */
  lemma AmbientLane(w: World, base: Disk, clock: nat, fences: Fences, s: Surface)
    requires w.db.operation.Some?
    ensures var next := w.(db := w.db.(clock := clock, fences := fences));
            && (FitsAt(w, base, s) ==> FitsAt(next, base, s))
            && (PcFitsAt(w, base, s) ==> PcFitsAt(next, base, s))
            && ItemProgress(next.db, s) == ItemProgress(w.db, s)
  {
    hide LaneFits, PcFits;
    var next := w.(db := w.db.(clock := clock, fences := fences));
    assert AuthoritySnapshot(next.db) == AuthoritySnapshot(w.db);
    assert LiveAt(next, s) == LiveAt(w, s) && TombAt(next, s) == TombAt(w, s)
           && HomeOf(base, next.db, s) == HomeOf(base, w.db, s);
  }

  lemma AmbientBackground(w: World, base: Disk, clock: nat, fences: Fences)
    requires Background(w, base) && Ready(base, w.db)
    ensures var next := w.(db := w.db.(clock := clock, fences := fences));
            && Background(next, base) && Ready(base, next.db)
            && forall s :: LiveAt(next, s) == LiveAt(w, s) && HomeOf(base, next.db, s) == HomeOf(base, w.db, s)
  {
    hide HasManifest;
    var next := w.(db := w.db.(clock := clock, fences := fences));
    assert forall s :: AddressOf(next.db, s) == AddressOf(w.db, s) && AttemptOf(next.db, s) == AttemptOf(w.db, s);
  }

  lemma AmbientFits(w: World, base: Disk, clock: nat, fences: Fences)
    requires Resumable(w, base)
    ensures Resumable(w.(db := w.db.(clock := clock, fences := fences)), base)
  {
    hide Inv, FitsAt, PcFitsAt, Background, Ready, HomeOf, LiveAt, ItemProgress;
    AmbientKeepsInv(w, clock, fences);
    AmbientBackground(w, base, clock, fences);
    if w.db.operation.Some? {
      AmbientLane(w, base, clock, fences, RegistryFinal);
      AmbientLane(w, base, clock, fences, SourceFinal);
      if AtItem(w.pc) { AmbientLane(w, base, clock, fences, w.pc.s); }
    }
  }

  lemma EventKeepsFit(w: World, base: Disk, e: Event)
    requires Resumable(w, base) && Benign(w, e)
    ensures Resumable(Apply(w, e), if e.Outside? then WithSiblings(base, e.disk) else base)
  {
    hide Resumable, Inv, Fit;
    match e
    case Run => StepKeepsFit(w, base);
    case Crash => RestartFits(w, base, Idle);
    case Start => RestartFits(w, base, Register);
    case Tick => AmbientFits(w, base, w.db.clock + 1, w.db.fences);
    case SetFences(fences) => AmbientFits(w, base, w.db.clock, fences);
    case Outside(disk) => SiblingsFit(w, base, disk);
  }

  /** No process is running, and the next one registers an operation: there is none, or the last one has
      ended blocked. */
  predicate Startable(w: World)
  {
    Inv(w) && !Begun(w.db) && !Running(w.pc) && w.pc != Stopped(Failed)
  }

  lemma InitialIsStartable(w: World)
    requires Initial(w)
    ensures Startable(w)
  {
  }

  lemma {:induction false} HistoryKeepsFit(w: World, events: seq<Event>)
    requires Startable(w) && Ready(w.disk, w.db) && BenignHistory(w, events)
    ensures Resumable(History(w, events), Baseline(w.disk, events))
  {
    if events != [] {
      var before := events[..|events| - 1];
      HistoryKeepsFit(w, before);
      EventKeepsFit(History(w, before), Baseline(w.disk, before), events[|events| - 1]);
    }
  }
}
