/** One reconciliation item, step by step, through any crashes (adapter_artifact_maintenance.py,
    `_execute_item`).  A step is one transaction or one storage call.  Unlike the purge, the reconciliation
    opens the whole committed tombstone again whenever no entry is recorded as advanced past. */
module ReconcileResume {
  import opened Common
  import opened ArtifactStore

  // ----- Rows, disk and process -----

  datatype ItemStatus = Registered | Verified | Bound | Deleting | Completed | Blocked

  /** `inFlight` and `next` record the deletion; `authorized` the move, `started` the directory removal. */
  datatype Row = Row(
    status: ItemStatus, observed: Option<Observation>, authorized: bool, bound: Option<Observation>,
    next: nat, inFlight: Option<FileName>, started: bool)

  const FRESH := Row(Registered, None, false, None, 0, None, false)

  /** The surface and its item tombstone. */
  datatype Storage = Storage(live: Option<Directory>, tomb: Option<Directory>)

  datatype Pc =
    | Idle
    | Load
    | Inspect
    | Verify(inspected: Observation)
    | Authorize
    | Probe(inspected: Observation, authorized: bool)
    | Reauthorize(inspected: Observation, preexisting: bool)
    | Move(inspected: Observation)
    | Recover(inspected: Observation)
    | Bind(bound: Observation)
    | Reload
    | Open(bound: Observation, next: nat)
    | Mark(bound: Observation, index: nat)
    | Unlink(bound: Observation, index: nat, retry: bool)
    | Advance(bound: Observation, index: nat)
    | MarkDirectory(bound: Observation)
    | Remove(bound: Observation, allowMissing: bool)
    | Complete
    | Fail
    | Block
    | Stopped

  /** `names` is the surface's allowlist in name order, `stage` says whether names may be missing. */
  datatype World = World(names: seq<FileName>, stage: bool, row: Row, disk: Storage, pc: Pc)

  function Goto(w: World, pc: Pc): World { w.(pc := pc) }

  // ----- Storage calls -----

  /** The entries of `d` in the order of `names`. */
  function Entries(d: Directory, names: seq<FileName>): seq<Entry>
  {
    if names == [] then []
    else (if names[0] in d.files then [Entry(names[0], d.files[names[0]])] else []) + Entries(d, names[1..])
  }

  /** `_inspect`: no unknown name, and for a final no missing one. */
  predicate Inspectable(d: Directory, names: seq<FileName>, stage: bool)
  {
    d.files.Keys <= (set n | n in names) && (!stage ==> d.files.Keys == set n | n in names)
  }

  function Observe(d: Directory, names: seq<FileName>): Observation { Observation(d.identity, Entries(d, names)) }

  /** `open_committed_tombstone`, and the same check before the move and at recovery. */
  predicate Whole(d: Option<Directory>, bound: Observation)
  {
    d.Some? && VerifyEntries(d.value, bound.entries, bound.directory).None?
  }

  /** An unlink of one planned entry; no value is the artifact error. */
  function UnlinkIn(d: Option<Directory>, bound: Observation, index: nat, allowMissing: bool): Option<Directory>
    requires index < |bound.entries|
  {
    var e := bound.entries[index];
    if d.None? || d.value.identity.key != bound.directory.key then None
    else if e.name !in d.value.files then if allowMissing then d else None
    else if d.value.files[e.name] != e.identity then None
    else Some(Directory(Renamed(d.value).identity, d.value.files - {e.name}))
  }

  /** Whether the removal of the tombstone directory succeeds. */
  predicate Removes(d: Option<Directory>, bound: Observation, allowMissing: bool)
  {
    if d.None? then allowMissing else d.value.files == map[] && d.value.identity.key == bound.directory.key
  }

  // ----- Steps -----

  function EntryAt(bound: Observation, index: nat): Pc
  {
    if index < |bound.entries| then Mark(bound, index) else MarkDirectory(bound)
  }

  function Step(w: World): World
  {
    var row, disk := w.row, w.disk;
    match w.pc
    case Idle => w
    case Stopped => w
    case Load =>
      (match row.status
       case Registered => Goto(w, Inspect)
       case Verified => if row.observed.None? then Goto(w, Fail) else Goto(w, Probe(row.observed.value, row.authorized))
       case Bound => Goto(w, Reload)
       case Deleting => Goto(w, Reload)
       case _ => Goto(w, Stopped))
    case Inspect =>
      if disk.tomb.Some? then Goto(w, Fail)
      else if disk.live.None? then Goto(w, Complete)
      else if !Inspectable(disk.live.value, w.names, w.stage) then Goto(w, Fail)
      else Goto(w, Verify(Observe(disk.live.value, w.names)))
    case Verify(inspected) =>
      if row.status != Registered then Goto(w, Stopped)
      else World(w.names, w.stage, row.(status := Verified, observed := Some(inspected)), disk, Authorize)
    case Authorize =>
      if row.status != Verified || row.observed.None? then Goto(w, Stopped)
      else World(w.names, w.stage, row.(authorized := true), disk, Probe(row.observed.value, true))
    case Probe(inspected, authorized) =>
      Goto(w, if disk.tomb.Some? && !authorized then Fail else Reauthorize(inspected, disk.tomb.Some?))
    case Reauthorize(_, preexisting) =>
      if row.status != Verified || row.observed.None? then Goto(w, Stopped)
      else World(w.names, w.stage, row.(authorized := true), disk,
                 if preexisting then Recover(row.observed.value) else Move(row.observed.value))
    case Recover(inspected) =>
      if disk.live.Some? then Goto(w, Fail)
      else if disk.tomb.None? || disk.tomb.value.identity.key != inspected.directory.key
              || !Whole(disk.tomb, inspected.(directory := disk.tomb.value.identity))
      then Goto(w, Fail)
      else Goto(w, Bind(inspected.(directory := disk.tomb.value.identity)))
    case Move(inspected) =>
      if disk.tomb.Some? || !Whole(disk.live, inspected) then Goto(w, Fail)
      else
        var moved := Renamed(disk.live.value);
        World(w.names, w.stage, row, Storage(None, Some(moved)), Bind(inspected.(directory := moved.identity)))
    case Bind(bound) =>
      if row.status != Verified || row.bound.Some? then Goto(w, Stopped)
      else World(w.names, w.stage, row.(status := Bound, bound := Some(bound)), disk, Reload)
    case Reload =>
      if (row.status != Bound && row.status != Deleting) || row.bound.None? then Goto(w, Stopped)
      else Goto(w, Open(row.bound.value, row.next))
    case Open(bound, next) =>
      Goto(w, if next == 0 && !Whole(disk.tomb, bound) then Fail else EntryAt(bound, next))
    case Mark(bound, index) =>
      if index >= |bound.entries| then Goto(w, MarkDirectory(bound))
      else
        var name := bound.entries[index].name;
        if (row.inFlight.Some? && row.inFlight.value != name) || row.next != index then Goto(w, Fail)
        else World(w.names, w.stage, row.(status := Deleting, inFlight := Some(name)), disk,
                   Unlink(bound, index, row.inFlight.Some?))
    case Unlink(bound, index, retry) =>
      if index >= |bound.entries| then Goto(w, Fail)
      else
        var left := UnlinkIn(disk.tomb, bound, index, retry);
        if left.None? then Goto(w, Fail) else World(w.names, w.stage, row, disk.(tomb := left), Advance(bound, index))
    case Advance(bound, index) =>
      World(w.names, w.stage, row.(next := row.next + 1, inFlight := None), disk, EntryAt(bound, index + 1))
    case MarkDirectory(bound) =>
      World(w.names, w.stage, row.(started := true), disk, Remove(bound, row.started))
    case Remove(bound, allowMissing) =>
      if Removes(disk.tomb, bound, allowMissing) then World(w.names, w.stage, row, disk.(tomb := None), Complete)
      else Goto(w, Fail)
    case Complete => World(w.names, w.stage, row.(status := Completed, inFlight := None), disk, Stopped)
    case Fail => Goto(w, if Retained(w) then Stopped else Block)
    case Block => World(w.names, w.stage, row.(status := Blocked), disk, Stopped)
  }

  /** `_retain_active_after_artifact_error`: only an exactly recoverable move leaves the item active. */
  predicate Retained(w: World)
  {
    && w.disk.live.None? && w.disk.tomb.Some?
    && match w.row.status
       case Verified =>
         && w.row.authorized && w.row.observed.Some?
         && w.disk.tomb.value.identity.key == w.row.observed.value.directory.key
         && Whole(w.disk.tomb, w.row.observed.value.(directory := w.disk.tomb.value.identity))
       case Bound => w.row.bound.Some? && Whole(w.disk.tomb, w.row.bound.value)
       case Deleting => w.row.bound.Some? && Whole(w.disk.tomb, w.row.bound.value)
       case _ => false
  }

  // ----- Runs -----

  datatype Event = Run | Crash | Start

  function Apply(w: World, e: Event): World
  {
    match e
    case Run => Step(w)
    case Crash => Goto(w, Idle)
    case Start => Goto(w, Load)
  }

  function History(w: World, events: seq<Event>): World
  {
    if events == [] then w else Apply(History(w, events[..|events| - 1]), events[|events| - 1])
  }

  function Steps(w: World, n: nat): World
    decreases n
  {
    if n == 0 then w else Steps(Step(w), n - 1)
  }

  predicate Distinct(names: seq<FileName>) { forall i, j | 0 <= i < j < |names| :: names[i] != names[j] }

  /** A registered item, and its surface as an earlier process left it, or none. */
  predicate Initial(w: World)
  {
    && w.row == FRESH && w.pc == Idle && w.disk.tomb.None? && Distinct(w.names)
    && (w.disk.live.Some? ==> Inspectable(w.disk.live.value, w.names, w.stage))
  }

  /** The recorded progress is behind the disk where it matters: nothing is advanced past, and the first
      entry is unlinked, or there is no entry and the directory is removed. */
  predicate Stuck(w: World)
  {
    && (w.row.status == Bound || w.row.status == Deleting) && w.row.next == 0 && w.row.bound.Some?
    && var plan := w.row.bound.value.entries;
       if plan == [] then w.disk.tomb.None?
       else w.disk.tomb.Some? && plan[0].name !in w.disk.tomb.value.files
  }

  // ----- The tombstone along the plan -----

  /** The tombstone after the first `n` unlinks of the plan. */
  function Deleted(d: Directory, plan: seq<Entry>, n: nat): Directory
    requires n <= |plan|
  {
    if n == 0 then d
    else
      var before := Deleted(d, plan, n - 1);
      Directory(Renamed(before).identity, before.files - {plan[n - 1].name})
  }

  predicate Planned(d: Directory, bound: Observation)
  {
    && d.identity == bound.directory && d.files.Keys == Names(bound.entries) && SameEntries(d, bound.entries)
    && forall i, j | 0 <= i < j < |bound.entries| :: bound.entries[i].name != bound.entries[j].name
  }

  lemma {:induction false} EntriesAre(d: Directory, names: seq<FileName>)
    requires Distinct(names)
    ensures var plan := Entries(d, names);
            && |plan| <= |names|
            && (forall e | e in plan :: e.name in names && e.name in d.files && d.files[e.name] == e.identity)
            && (forall n | n in names && n in d.files :: n in Names(plan))
            && forall i, j | 0 <= i < j < |plan| :: plan[i].name != plan[j].name
  {
    if names != [] {
      var rest := Entries(d, names[1..]);
      EntriesAre(d, names[1..]);
      assert names[0] !in names[1..];
      assert names == [names[0]] + names[1..];
      if names[0] in d.files {
        var plan := Entries(d, names);
        assert plan == [Entry(names[0], d.files[names[0]])] + rest;
        assert Names(plan) == {names[0]} + Names(rest) by {
          assert forall e | e in plan :: e == plan[0] || e in rest;
          assert plan[0] in plan;
        }
        assert forall e | e in rest :: e.name != names[0];
      }
    }
  }

  /** The bound that a moved surface is given. */
  function BoundOf(home: Directory, names: seq<FileName>): Observation
  {
    Observation(Renamed(home).identity, Entries(home, names))
  }

  lemma HomeIsPlanned(home: Directory, names: seq<FileName>, stage: bool)
    requires Distinct(names) && Inspectable(home, names, stage)
    ensures Planned(home, Observe(home, names)) && Planned(Renamed(home), BoundOf(home, names))
    ensures Whole(Some(home), Observe(home, names)) && Whole(Some(Renamed(home)), BoundOf(home, names))
    ensures |Entries(home, names)| <= |names|
  {
    EntriesAre(home, names);
    assert Names(Entries(home, names)) == home.files.Keys;
  }

  lemma {:induction false} DeletedIs(d: Directory, bound: Observation, n: nat)
    requires Planned(d, bound) && n <= |bound.entries|
    ensures var now := Deleted(d, bound.entries, n);
            && now.identity.key == d.identity.key && now.identity.stamp == d.identity.stamp + n
            && (forall i | 0 <= i < n :: bound.entries[i].name !in now.files)
            && (forall i | n <= i < |bound.entries| ::
                  bound.entries[i].name in now.files && now.files[bound.entries[i].name] == bound.entries[i].identity)
            && now.files.Keys <= d.files.Keys
  {
    if n > 0 {
      DeletedIs(d, bound, n - 1);
    } else {
      assert forall i | 0 <= i < |bound.entries| :: bound.entries[i] in bound.entries;
    }
  }

  /** Every entry is gone at the end. */
  lemma NothingRemains(d: Directory, bound: Observation)
    requires Planned(d, bound)
    ensures Deleted(d, bound.entries, |bound.entries|).files == map[]
    ensures Deleted(d, bound.entries, |bound.entries|).identity.key == d.identity.key
  {
    DeletedIs(d, bound, |bound.entries|);
    var end := Deleted(d, bound.entries, |bound.entries|);
    forall n ensures n !in end.files {
      if n in Names(bound.entries) {
        var e :| e in bound.entries && e.name == n;
        var i :| 0 <= i < |bound.entries| && bound.entries[i] == e;
      }
    }
  }

  /** One unlink takes the tombstone from `i` to `i + 1` deletions, and a retry leaves it there. */
  lemma UnlinkGoes(d: Directory, bound: Observation, i: nat, retry: bool)
    requires Planned(d, bound) && i < |bound.entries|
    ensures UnlinkIn(Some(Deleted(d, bound.entries, i)), bound, i, retry) == Some(Deleted(d, bound.entries, i + 1))
    ensures retry ==>
              UnlinkIn(Some(Deleted(d, bound.entries, i + 1)), bound, i, retry)
              == Some(Deleted(d, bound.entries, i + 1))
  {
    DeletedIs(d, bound, i);
    DeletedIs(d, bound, i + 1);
    hide Planned;
  }

  // ----- What every undisturbed run keeps -----

  predicate BoundStatus(row: Row) { row.status == Bound || row.status == Deleting }

  /** The deletion is where the row says it is, or one recorded step further. */
  predicate Progressed(row: Row, tomb: Option<Directory>, d: Directory, plan: seq<Entry>)
  {
    && row.next <= |plan|
    && (row.inFlight.Some? ==> row.next < |plan| && row.inFlight.value == plan[row.next].name)
    && if row.started then row.next == |plan| && (tomb.None? || tomb.value == Deleted(d, plan, |plan|))
       else
         && tomb.Some?
         && (tomb.value == Deleted(d, plan, row.next)
             || (row.inFlight.Some? && tomb.value == Deleted(d, plan, row.next + 1)))
  }

  predicate RowFits(w: World, home: Option<Directory>)
  {
    var row := w.row;
    match row.status
    case Registered => row == FRESH && w.disk == Storage(home, None)
    case Verified =>
      && home.Some? && row == Row(Verified, Some(Observe(home.value, w.names)), row.authorized, None, 0, None, false)
      && (w.disk == Storage(home, None) || (row.authorized && w.disk == Storage(None, Some(Renamed(home.value)))))
    case Completed => w.disk == Storage(None, None)
    case Blocked => true
    case _ =>
      && home.Some? && w.disk.live.None? && row.bound == Some(BoundOf(home.value, w.names))
      && Progressed(row, w.disk.tomb, Renamed(home.value), row.bound.value.entries)
  }

  predicate PcFits(w: World, home: Option<Directory>)
  {
    var row := w.row;
    match w.pc
    case Inspect => row.status == Registered
    case Verify(i) => row.status == Registered && home.Some? && i == Observe(home.value, w.names)
    case Authorize => row.status == Verified
    case Probe(i, authorized) => row.status == Verified && Some(i) == row.observed && authorized == row.authorized
    case Reauthorize(_, preexisting) => row.status == Verified && preexisting == w.disk.tomb.Some?
    case Move(i) => row.status == Verified && row.authorized && Some(i) == row.observed && w.disk.tomb.None?
    case Recover(i) => row.status == Verified && row.authorized && Some(i) == row.observed && w.disk.tomb.Some?
    case Bind(b) =>
      && row.status == Verified && row.authorized && home.Some? && b == BoundOf(home.value, w.names)
      && w.disk == Storage(None, Some(Renamed(home.value)))
    case Reload => BoundStatus(row)
    case Open(b, next) => BoundStatus(row) && row.bound == Some(b) && next == row.next
    case Mark(b, i) => BoundStatus(row) && row.bound == Some(b) && i == row.next < |b.entries| && !Stuck(w)
    case Unlink(b, i, retry) =>
      && row.status == Deleting && row.bound == Some(b) && i == row.next < |b.entries| && row.inFlight.Some?
      && home.Some? && (retry || w.disk.tomb == Some(Deleted(Renamed(home.value), b.entries, i)))
    case Advance(b, i) =>
      && row.status == Deleting && row.bound == Some(b) && i == row.next < |b.entries| && !row.started
      && home.Some? && w.disk.tomb == Some(Deleted(Renamed(home.value), b.entries, i + 1))
    case MarkDirectory(b) => BoundStatus(row) && row.bound == Some(b) && row.next == |b.entries| && !Stuck(w)
    case Remove(b, allowMissing) => BoundStatus(row) && row.bound == Some(b) && row.started
      && (allowMissing || w.disk.tomb.Some?)
    case Complete => (row.status == Registered || BoundStatus(row)) && w.disk == Storage(None, None)
    case Fail => Stuck(w)
    case Block => Stuck(w)
    case _ => true
  }

  predicate Fit(w: World, home: Option<Directory>)
  {
    && Distinct(w.names) && (home.Some? ==> Inspectable(home.value, w.names, w.stage))
    && RowFits(w, home) && PcFits(w, home)
  }

  // ----- Every step keeps it -----

  /** Up to the bind. */
  lemma MoveFits(w: World, home: Option<Directory>)
    requires Fit(w, home)
    requires w.pc.Load? || w.pc.Inspect? || w.pc.Verify? || w.pc.Authorize? || w.pc.Probe? || w.pc.Reauthorize?
             || w.pc.Move? || w.pc.Recover?
    ensures Fit(Step(w), home)
  {
    hide Inspectable, VerifyEntries, Distinct, Entries, Planned, Deleted;
    if home.Some? { HomeIsPlanned(home.value, w.names, w.stage); }
  }

  lemma BindFits(w: World, home: Option<Directory>)
    requires Fit(w, home) && w.pc.Bind?
    ensures Fit(Step(w), home)
  {
    hide Inspectable, VerifyEntries, Distinct, Entries, Planned;
    assert Deleted(Renamed(home.value), Entries(home.value, w.names), 0) == Renamed(home.value);
  }

  lemma ReloadFits(w: World, home: Option<Directory>)
    requires Fit(w, home) && w.pc.Reload?
    ensures Fit(Step(w), home)
  {
    hide Inspectable, VerifyEntries, Distinct, Entries, Planned, Deleted;
  }

  /** Opening the tombstone succeeds exactly when the item is not stuck. */
  lemma OpenFits(w: World, home: Option<Directory>)
    requires Fit(w, home) && w.pc.Open?
    ensures Fit(Step(w), home) && (Step(w).pc.Fail? <==> Stuck(w))
  {
    hide Inspectable, Distinct, Entries, VerifyEntries, Planned;
    HomeIsPlanned(home.value, w.names, w.stage);
    if w.pc.next == 0 {
      WholeUntilUnlinked(Renamed(home.value), w.pc.bound);
    }
  }

  lemma WholeUntilUnlinked(d: Directory, bound: Observation)
    requires Planned(d, bound) && Whole(Some(d), bound)
    ensures Deleted(d, bound.entries, 0) == d
    ensures bound.entries != [] ==> bound.entries[0].name in d.files
    ensures bound.entries != [] ==>
              !Whole(Some(Deleted(d, bound.entries, 1)), bound)
                && bound.entries[0].name !in Deleted(d, bound.entries, 1).files
  {
    DeletedIs(d, bound, 0);
    if bound.entries != [] { DeletedIs(d, bound, 1); }
    hide Deleted;
  }

  lemma MarkFits(w: World, home: Option<Directory>)
    requires Fit(w, home) && w.pc.Mark?
    ensures Fit(Step(w), home)
  {
    hide Inspectable, Distinct, Entries, Deleted, Planned;
    HomeIsPlanned(home.value, w.names, w.stage);
  }

  lemma UnlinkFits(w: World, home: Option<Directory>)
    requires Fit(w, home) && w.pc.Unlink?
    ensures Fit(Step(w), home)
  {
    hide Inspectable, Distinct, Entries, Deleted, Planned, UnlinkIn;
    HomeIsPlanned(home.value, w.names, w.stage);
    UnlinkGoes(Renamed(home.value), w.pc.bound, w.pc.index, w.pc.retry);
  }

  lemma AdvanceFits(w: World, home: Option<Directory>)
    requires Fit(w, home) && w.pc.Advance?
    ensures Fit(Step(w), home)
  {
    hide Inspectable, Distinct, Entries, Deleted;
  }

  lemma DirectoryFits(w: World, home: Option<Directory>)
    requires Fit(w, home) && (w.pc.MarkDirectory? || w.pc.Remove? || w.pc.Complete?)
    ensures Fit(Step(w), home)
  {
    hide Inspectable, Distinct, Entries, Deleted, Planned;
    if home.Some? {
      HomeIsPlanned(home.value, w.names, w.stage);
      NothingRemains(Renamed(home.value), BoundOf(home.value, w.names));
    }
  }

  /** A stuck item is not retained. */
  lemma FailFits(w: World, home: Option<Directory>)
    requires Fit(w, home) && (w.pc.Fail? || w.pc.Block?)
    ensures Fit(Step(w), home) && (w.pc.Fail? ==> Step(w).pc.Block?)
  {
    hide Inspectable, Distinct, Entries, Deleted;
    assert Stuck(w);
    if w.row.bound.value.entries != [] {
      assert w.row.bound.value.entries[0] in w.row.bound.value.entries;
    }
  }

  lemma StepFits(w: World, home: Option<Directory>)
    requires Fit(w, home)
    ensures Fit(Step(w), home)
  {
    if w.pc.Idle? || w.pc.Stopped? {
      assert Step(w) == w;
      return;
    }
    hide Fit, Step;
    match w.pc
    case Mark(_, _) => MarkFits(w, home);
    case Unlink(_, _, _) => UnlinkFits(w, home);
    case Advance(_, _) => AdvanceFits(w, home);
    case Bind(_) => BindFits(w, home);
    case Reload => ReloadFits(w, home);
    case Open(_, _) => OpenFits(w, home);
    case MarkDirectory(_) => DirectoryFits(w, home);
    case Remove(_, _) => DirectoryFits(w, home);
    case Complete => DirectoryFits(w, home);
    case Fail => FailFits(w, home);
    case Block => FailFits(w, home);
    case _ => MoveFits(w, home);
  }

  lemma {:induction false} HistoryFits(w: World, events: seq<Event>)
    requires Initial(w)
    ensures Fit(History(w, events), w.disk.live)
    ensures History(w, events).names == w.names
  {
    if events != [] {
      var before := History(w, events[..|events| - 1]);
      HistoryFits(w, events[..|events| - 1]);
      StepFits(before, w.disk.live);
      StepKeepsNames(before);
      hide Inspectable, Distinct, Step, Stuck, Progressed;
    }
  }

  lemma StepKeepsNames(w: World)
    ensures Step(w).names == w.names
  {
    hide Whole, UnlinkIn, Removes, Retained, Inspectable, Entries;
  }

  // ----- How a process ends -----

  /** An upper bound of the steps that are left. */
  function Left(w: World): nat
  {
    var whole := 3 * |w.names|;
    match w.pc
    case Idle => 0
    case Stopped => 0
    case Load => whole + 14
    case Inspect => whole + 13
    case Verify(_) => whole + 12
    case Authorize => whole + 11
    case Probe(_, _) => whole + 10
    case Reauthorize(_, _) => whole + 9
    case Move(_) => whole + 8
    case Recover(_) => whole + 8
    case Bind(_) => whole + 7
    case Reload => whole + 6
    case Open(b, _) => 3 * |b.entries| + 5
    case Mark(b, i) => if i < |b.entries| then 3 * (|b.entries| - i) + 4 else 5
    case Unlink(b, i, _) => if i < |b.entries| then 3 * (|b.entries| - i) + 3 else 3
    case Advance(b, i) => if i < |b.entries| then 3 * (|b.entries| - i) + 2 else 5
    case MarkDirectory(_) => 4
    case Remove(_, _) => 3
    case Complete => 2
    case Fail => 2
    case Block => 1
  }

  /** A running process that no open of the tombstone will refuse. */
  predicate OnTrack(w: World)
  {
    && !w.pc.Idle? && !w.pc.Stopped? && !w.pc.Fail? && !w.pc.Block? && w.row.status != Blocked
       && w.row.status != Completed
    && (w.pc.Load? || w.pc.Reload? || w.pc.Open? ==> !Stuck(w))
  }

  predicate Done(w: World) { w.pc.Stopped? && w.row.status == Completed && w.disk == Storage(None, None) }

  lemma BoundIsSmall(w: World, home: Option<Directory>)
    requires Fit(w, home) && w.pc.Reload?
    ensures w.row.bound.Some? && |w.row.bound.value.entries| <= |w.names|
  {
    hide Inspectable, Distinct, Entries, Progressed, Stuck;
    HomeIsPlanned(home.value, w.names, w.stage);
  }

  lemma TrackReads(w: World, home: Option<Directory>)
    requires Fit(w, home) && OnTrack(w)
    requires w.pc.Load? || w.pc.Inspect? || w.pc.Verify? || w.pc.Authorize? || w.pc.Probe?
    ensures OnTrack(Step(w)) && Left(Step(w)) < Left(w)
  {
    hide VerifyEntries, Distinct, Entries, Planned, Deleted, Inspectable;
    if home.Some? { HomeIsPlanned(home.value, w.names, w.stage); }
  }

  lemma TrackMoves(w: World, home: Option<Directory>)
    requires Fit(w, home) && OnTrack(w) && (w.pc.Reauthorize? || w.pc.Move? || w.pc.Recover? || w.pc.Reload?)
    ensures OnTrack(Step(w)) && Left(Step(w)) < Left(w)
  {
    hide Inspectable, VerifyEntries, Distinct, Entries, Planned, Deleted;
    if home.Some? { HomeIsPlanned(home.value, w.names, w.stage); }
    if w.pc.Reload? { BoundIsSmall(w, home); }
  }

  lemma TrackBinds(w: World, home: Option<Directory>)
    requires Fit(w, home) && OnTrack(w) && w.pc.Bind?
    ensures OnTrack(Step(w)) && Left(Step(w)) < Left(w)
  {
    hide Inspectable, VerifyEntries, Distinct, Entries, Planned, Deleted;
    HomeIsPlanned(home.value, w.names, w.stage);
    WholeUntilUnlinked(Renamed(home.value), w.pc.bound);
  }

  predicate Looping(pc: Pc) { pc.Open? || pc.Mark? || pc.Unlink? || pc.Advance? }

  lemma TrackUnlinks(w: World, home: Option<Directory>)
    requires Fit(w, home) && OnTrack(w) && w.pc.Unlink?
    ensures OnTrack(Step(w)) && Left(Step(w)) < Left(w)
  {
    hide Inspectable, Distinct, Entries, Planned, Deleted, UnlinkIn, Whole;
    HomeIsPlanned(home.value, w.names, w.stage);
    UnlinkGoes(Renamed(home.value), w.pc.bound, w.pc.index, w.pc.retry);
  }

  lemma TrackLoops(w: World, home: Option<Directory>)
    requires Fit(w, home) && OnTrack(w) && Looping(w.pc)
    ensures OnTrack(Step(w)) && Left(Step(w)) < Left(w)
  {
    hide Inspectable, Distinct, Entries, Planned, Deleted, UnlinkIn, Whole;
    if w.pc.Open? { OpenFits(w, home); }
    if w.pc.Unlink? { TrackUnlinks(w, home); }
  }

  lemma TrackRemoves(w: World, home: Option<Directory>)
    requires Fit(w, home) && OnTrack(w) && (w.pc.MarkDirectory? || w.pc.Remove? || w.pc.Complete?)
    ensures OnTrack(Step(w)) || (w.pc.Complete? && Done(Step(w)))
    ensures Left(Step(w)) < Left(w)
  {
    hide Whole, UnlinkIn, EntryAt, Inspectable, Distinct, Entries, Planned, Deleted;
    if home.Some? {
      HomeIsPlanned(home.value, w.names, w.stage);
      NothingRemains(Renamed(home.value), BoundOf(home.value, w.names));
    }
  }

  lemma {:induction false} TrackEnds(w: World, home: Option<Directory>, n: nat)
    requires Fit(w, home) && (OnTrack(w) || Done(w)) && n >= Left(w)
    ensures Done(Steps(w, n))
    decreases n
  {
    hide Fit, Step, Stuck, Left;
    if OnTrack(w) {
      StepFits(w, home);
      if Looping(w.pc) {
        TrackLoops(w, home);
      } else if w.pc.MarkDirectory? || w.pc.Remove? || w.pc.Complete? {
        TrackRemoves(w, home);
      } else if w.pc.Bind? {
        TrackBinds(w, home);
      } else if w.pc.Load? || w.pc.Inspect? || w.pc.Verify? || w.pc.Authorize? || w.pc.Probe? {
        TrackReads(w, home);
      } else {
        TrackMoves(w, home);
      }
      TrackEnds(Step(w), home, n - 1);
    } else {
      StoppedStays(w, n);
    }
  }

  lemma {:induction false} StoppedStays(w: World, n: nat)
    requires w.pc.Stopped?
    ensures Steps(w, n) == w
    decreases n
  {
    if n > 0 { StoppedStays(w, n - 1); }
  }

  lemma StuckReloads(w: World, home: Option<Directory>)
    requires Fit(w, home) && w.pc.Load? && Stuck(w)
    ensures Step(w) == Goto(w, Reload) && Fit(Step(w), home) && Stuck(Step(w))
  {
    hide Inspectable, Distinct, Entries, Deleted, Whole, Progressed;
  }

  lemma StuckOpens(w: World, home: Option<Directory>)
    requires Fit(w, home) && w.pc.Reload? && Stuck(w)
    ensures w.row.bound.Some? && Step(w) == Goto(w, Open(w.row.bound.value, w.row.next))
    ensures Fit(Step(w), home) && Stuck(Step(w))
  {
    hide Inspectable, Distinct, Entries, Deleted, Whole, Progressed;
  }

  /** The first three steps of a process that finds the item stuck. */
  lemma StuckFails(w: World, home: Option<Directory>)
    requires Fit(w, home) && w.pc.Load? && Stuck(w)
    ensures Steps(w, 3) == Goto(w, Fail) && Fit(Goto(w, Fail), home)
  {
    hide Step, Fit, Stuck;
    StuckReloads(w, home);
    var reloading := Step(w);
    StuckOpens(reloading, home);
    var opening := Step(reloading);
    OpenFits(opening, home);
    OpenOnlyMoves(opening);
    assert Steps(w, 3) == Steps(reloading, 2) == Steps(opening, 1) == Step(opening);
  }

  lemma OpenOnlyMoves(w: World)
    requires w.pc.Open?
    ensures Step(w) == Goto(w, Step(w).pc)
  {
    hide Whole, Retained;
  }

  lemma BlockEnds(w: World)
    requires w.pc.Block?
    ensures Step(w) == World(w.names, w.stage, w.row.(status := Blocked), w.disk, Stopped)
  {
    hide Retained, Whole, Removes, UnlinkIn, Inspectable;
  }

  lemma FailOnlyMoves(w: World)
    requires w.pc.Fail?
    ensures Step(w) == Goto(w, Step(w).pc)
  {
    hide Retained;
  }

  lemma FailBlocks(w: World, home: Option<Directory>)
    requires Fit(w, home) && w.pc.Fail?
    ensures Steps(w, 2) == World(w.names, w.stage, w.row.(status := Blocked), w.disk, Stopped)
  {
    hide Fit, Step;
    FailFits(w, home);
    FailOnlyMoves(w);
    BlockEnds(Step(w));
    assert Steps(w, 2) == Steps(Step(w), 1) == Step(Step(w));
  }

  /** A stuck item is blocked by the next process. */
  lemma StuckIsBlocked(w: World, home: Option<Directory>, n: nat)
    requires Fit(w, home) && w.pc.Load? && Stuck(w) && n >= 5
    ensures Steps(w, n).row.status == Blocked
  {
    hide Fit, Stuck, Step, Steps;
    StuckFails(w, home);
    var failing := Goto(w, Fail);
    FailBlocks(failing, home);
    StoppedStays(Steps(failing, 2), n - 5);
    StepsAdd(w, 3, n - 3);
    StepsAdd(failing, 2, n - 5);
  }

  lemma {:induction false} StepsAdd(w: World, m: nat, n: nat)
    ensures Steps(w, m + n) == Steps(Steps(w, m), n)
    decreases m
  {
    hide Step;
    if m > 0 { StepsAdd(Step(w), m - 1, n); }
  }

  // ----- Both ways to get stuck -----

  lemma {:induction false} RunsAreSteps(w: World, n: nat)
    ensures History(w, [Start] + seq(n, _ => Run)) == Steps(Goto(w, Load), n)
  {
    var events := [Start] + seq(n, _ => Run);
    if n == 0 {
      assert events[..0] == [] && events[0] == Start;
    } else {
      assert events[..n] == [Start] + seq(n - 1, _ => Run) && events[n] == Run;
      RunsAreSteps(w, n - 1);
      StepsSnoc(Goto(w, Load), n - 1);
      hide Step;
    }
  }

  lemma {:induction false} StepsSnoc(w: World, n: nat)
    ensures Steps(w, n + 1) == Step(Steps(w, n))
    decreases n
  {
    hide Step;
    if n > 0 { StepsSnoc(Step(w), n - 1); }
  }

  /** The item as verified, and as bound. */
  function VerifiedRow(home: Directory, names: seq<FileName>): Row
  {
    Row(Verified, Some(Observe(home, names)), true, None, 0, None, false)
  }

  function BoundRow(home: Directory, names: seq<FileName>): Row
  {
    VerifiedRow(home, names).(status := Bound, bound := Some(BoundOf(home, names)))
  }

  lemma ReachesAuthorize(w: World)
    requires Initial(w) && w.disk.live.Some?
    ensures var row := VerifiedRow(w.disk.live.value, w.names).(authorized := false);
            Steps(Goto(w, Load), 3) == World(w.names, w.stage, row, w.disk, Authorize)
  {
    hide Whole, Entries, Inspectable, Distinct;
    assert Steps(Goto(w, Load), 3) == Steps(Step(Goto(w, Load)), 2);
  }

  lemma ReachesMove(w: World)
    requires w.pc.Authorize? && w.row.status == Verified && w.row.observed.Some? && w.disk.tomb.None?
    ensures Steps(w, 3) == World(w.names, w.stage, w.row.(authorized := true), w.disk, Move(w.row.observed.value))
  {
    hide Whole;
    assert Steps(w, 3) == Steps(Step(w), 2);
  }

  lemma ReachesReload(w: World, home: Directory)
    requires w.disk == Storage(Some(home), None) && Whole(Some(home), Observe(home, w.names))
    requires w.row == VerifiedRow(home, w.names) && w.pc == Move(Observe(home, w.names))
    ensures Steps(w, 2) == World(w.names, w.stage, BoundRow(home, w.names), Storage(None, Some(Renamed(home))), Reload)
  {
    hide Whole, Entries;
  }

  lemma ReachesEntries(w: World, home: Directory)
    requires w.disk == Storage(None, Some(Renamed(home))) && Whole(Some(Renamed(home)), BoundOf(home, w.names))
    requires w.row == BoundRow(home, w.names) && w.pc == Reload
    ensures Steps(w, 2) == Goto(w, EntryAt(BoundOf(home, w.names), 0))
  {
    hide Whole, Entries;
  }

  /** Up to the bound tombstone, opened and found whole. */
  lemma ReachesTheLoop(w: World)
    requires Initial(w) && w.disk.live.Some?
    ensures var home := w.disk.live.value;
            Steps(Goto(w, Load), 10)
            == World(w.names, w.stage, BoundRow(home, w.names), Storage(None, Some(Renamed(home))),
                     EntryAt(BoundOf(home, w.names), 0))
  {
    var home, begun := w.disk.live.value, Goto(w, Load);
    HomeIsPlanned(home, w.names, w.stage);
    ReachesAuthorize(w);
    hide Whole, Entries, Steps, Inspectable, Distinct, Step;
    var w3 := Steps(begun, 3);
    ReachesMove(w3);
    var w6 := Steps(w3, 3);
    assert w6.disk == Storage(Some(home), None);
    ReachesReload(w6, home);
    var w8 := Steps(w6, 2);
    ReachesEntries(w8, home);
    StepsAdd(begun, 3, 7);
    StepsAdd(w3, 3, 4);
    StepsAdd(w6, 2, 2);
  }

  lemma CrashAfterTwelve(w: World)
    requires w.pc == Idle
    ensures Stuck(History(w, [Start] + seq(12, _ => Run) + [Crash])) == Stuck(Steps(Goto(w, Load), 12))
  {
    hide Step, Steps;
    var events := [Start] + seq(12, _ => Run) + [Crash];
    assert events[..13] == [Start] + seq(12, _ => Run) && events[13] == Crash;
    RunsAreSteps(w, 12);
  }

  /** Every surface, with or without files in it, can be left stuck: by a crash after the twelfth step,
      which unlinks the first file or, if there is none, removes the directory. */
  lemma EverySurfaceCanGetStuck(w: World)
    requires Initial(w) && w.disk.live.Some?
    ensures Stuck(History(w, [Start] + seq(12, _ => Run) + [Crash]))
  {
    hide History, Step, Steps, Stuck, Entries, Distinct, Inspectable, Planned;
    var home := w.disk.live.value;
    ReachesTheLoop(w);
    HomeIsPlanned(home, w.names, w.stage);
    var begun := Goto(w, Load);
    StepsSnoc(begun, 10);
    StepsSnoc(begun, 11);
    CrashAfterTwelve(w);
    TwoMore(Steps(begun, 10), home);
  }

  lemma TwoMore(w: World, home: Directory)
    requires Planned(Renamed(home), BoundOf(home, w.names)) && w.row.status == Bound
             && w.row.bound == Some(BoundOf(home, w.names))
    requires w.row.next == 0 && w.row.inFlight.None? && !w.row.started && w.disk == Storage(None, Some(Renamed(home)))
    requires w.pc == EntryAt(BoundOf(home, w.names), 0)
    ensures Stuck(Step(Step(w)))
  {
    var b := BoundOf(home, w.names);
    hide Entries;
    if b.entries != [] {
      UnlinkGoes(Renamed(home), b, 0, false);
      DeletedIs(Renamed(home), b, 1);
    } else {
      NothingRemains(Renamed(home), b);
    }
  }

  // ----- The theorem -----

  lemma LoadingFits(w: World, home: Option<Directory>)
    requires Fit(w, home)
    ensures Fit(Goto(w, Load), home) && (Stuck(Goto(w, Load)) <==> Stuck(w))
  {
  }

  /** Resumption, exactly: take any crashes and restarts of an item that nothing else disturbs.  If the
      item is not blocked yet, one more process ends with it blocked if and only if it is stuck when that
      process begins; otherwise it ends completed, with the surface and the tombstone gone. */
  lemma ResumesExactlyUnlessStuck(w: World, events: seq<Event>, n: nat)
    requires Initial(w) && n >= 3 * |w.names| + 14 && History(w, events).row.status != Blocked
    ensures var now := History(w, events);
            var end := Steps(Goto(now, Load), n);
            if Stuck(now) then end.row.status == Blocked
            else end.row.status == Completed && end.disk == Storage(None, None)
  {
    var now := History(w, events);
    var begun := Goto(now, Load);
    HistoryFits(w, events);
    hide History, RowFits, Stuck, Steps;
    LoadingFits(now, w.disk.live);
    if Stuck(now) {
      StuckIsBlocked(begun, w.disk.live, n);
    } else if now.row.status == Completed {
      CompletedStays(begun, w.disk.live, n);
    } else {
      TrackEnds(begun, w.disk.live, n);
    }
  }

  lemma CompletedStays(w: World, home: Option<Directory>, n: nat)
    requires Fit(w, home) && w.pc.Load? && w.row.status == Completed && n >= 1
    ensures Done(Steps(w, n))
  {
    StoppedStays(Step(w), n - 1);
  }
}
