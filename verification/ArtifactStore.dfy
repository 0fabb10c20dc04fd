/** The external adapter storage as the purge sees it (adapter_maintenance_artifacts.py).

    A directory identity has a `key` (device, inode, mode, owner), which survives a rename and the
    unlink of a child, and a `stamp` (link count, size, times), which does not.  A file identity is
    the whole stat record; its digest is the SHA-256 that inspection computes.

    Each function below is one descriptor-bound storage call, and is atomic. */
module ArtifactStore {
  import opened Common

  datatype Surface = RegistryFinal | SourceFinal

  datatype FileName = AdapterConfig | AdapterModel | RegistryManifest | IntakeManifest | OtherFile(tag: nat)

  datatype Address = Address(surface: Surface, department: Uuid, resource: Uuid)

  /** The item-scoped tombstone of one address; it doubles as the durable namespace record. */
  datatype TombstoneKey = TombstoneKey(address: Address, item: Uuid)

  datatype DirectoryIdentity = DirectoryIdentity(key: nat, stamp: nat)

  datatype FileIdentity = FileIdentity(node: nat, digest: nat)

  datatype Entry = Entry(name: FileName, identity: FileIdentity)

  datatype Directory = Directory(identity: DirectoryIdentity, files: map<FileName, FileIdentity>)

  /** `malformed` holds the addresses whose tombstone namespace has an entry that is not a private
      directory with a canonical UUID name. */
  datatype Disk = Disk(
    finals: map<Address, Directory>,
    tombstones: map<TombstoneKey, Directory>,
    malformed: set<Address>)

  /** What inspection or binding records: a directory identity and its entries in name order. */
  datatype Observation = Observation(directory: DirectoryIdentity, entries: seq<Entry>)

  /** The digests that the persisted ownership manifest fixes for a final surface. */
  type OwnershipManifest = map<FileName, nat>

  datatype Code =
    | OwnershipMismatch
    | ManifestInvalid
    | AuthorityChanged
    | TombstoneConflict
    | DependencyActive

  /** `Retryable` is the operator-resolvable namespace conflict; `Uncaught` is an exception that the
      purge does not translate into a blocked item. */
  datatype Outcome<+T> = Found(value: T) | Missing | Retryable | Rejected(code: Code) | Uncaught

  function FinalFiles(surface: Surface): seq<FileName>
  {
    match surface
    case RegistryFinal => [AdapterConfig, AdapterModel, RegistryManifest]
    case SourceFinal => [AdapterConfig, AdapterModel, IntakeManifest]
  }

  function Names(entries: seq<Entry>): set<FileName>
  {
    set e | e in entries :: e.name
  }

  /** The entries of `directory` in the order of `names`. */
  function Listing(directory: Directory, names: seq<FileName>): seq<Entry>
    requires forall n | n in names :: n in directory.files
  {
    seq(|names|, i requires 0 <= i < |names| => Entry(names[i], directory.files[names[i]]))
  }

  predicate HasManifest(directory: Directory, surface: Surface, manifest: OwnershipManifest)
  {
    && directory.files.Keys == (set n | n in FinalFiles(surface))
    && forall n | n in FinalFiles(surface) ::
         n in directory.files && n in manifest && directory.files[n].digest == manifest[n]
  }

  function InspectSurface(disk: Disk, a: Address, manifest: OwnershipManifest): Outcome<Observation>
  {
    if a !in disk.finals then Missing
    else if !HasManifest(disk.finals[a], a.surface, manifest) then Rejected(ManifestInvalid)
    else Found(Observation(disk.finals[a].identity, Listing(disk.finals[a], FinalFiles(a.surface))))
  }

  predicate SameEntries(directory: Directory, entries: seq<Entry>)
  {
    forall e | e in entries :: e.name in directory.files && directory.files[e.name] == e.identity
  }

  /** `_verify_entries`: the exact directory identity, then the name set, then every file. */
  function VerifyEntries(directory: Directory, entries: seq<Entry>, expected: DirectoryIdentity): Option<Code>
  {
    if directory.identity != expected then Some(AuthorityChanged)
    else if directory.files.Keys != Names(entries) then Some(ManifestInvalid)
    else if !SameEntries(directory, entries) then Some(AuthorityChanged)
    else None
  }

  function Namespace(disk: Disk, a: Address): set<Uuid>
  {
    set k | k in disk.tombstones && k.address == a :: k.item
  }

  predicate NamespaceEmpty(disk: Disk, a: Address)
  {
    a !in disk.malformed && Namespace(disk, a) == {}
  }

  /** A rename keeps the directory key and every child, and refreshes the directory stamp. */
  function Renamed(directory: Directory): Directory
  {
    directory.(identity := directory.identity.(stamp := directory.identity.stamp + 1))
  }

  function MoveSurface(disk: Disk, key: TombstoneKey, observed: Observation, plan: seq<Entry>,
                       namespace: Option<TombstoneKey>): (Disk, Outcome<Observation>)
  {
    if namespace != Some(key) then (disk, Rejected(OwnershipMismatch))
    else if key.address !in disk.finals then (disk, Missing)
    else
      var directory := disk.finals[key.address];
      if Observation(directory.identity, plan) != observed then (disk, Rejected(AuthorityChanged))
      else
        var verified := VerifyEntries(directory, plan, observed.directory);
        if verified.Some? then (disk, Rejected(verified.value))
        else if key.address in disk.malformed then (disk, Rejected(TombstoneConflict))
        else if Namespace(disk, key.address) != {} then
          (disk, if key.item in Namespace(disk, key.address) then Rejected(AuthorityChanged) else Retryable)
        else
          var moved := Renamed(directory);
          (disk.(finals := disk.finals - {key.address}, tombstones := disk.tombstones[key := moved]),
           Found(Observation(moved.identity, plan)))
  }

  /** Rebind a move that was authorized but never bound; nothing on disk changes. */
  function RecoverTombstone(disk: Disk, key: TombstoneKey, observed: Observation, plan: seq<Entry>,
                            namespace: Option<TombstoneKey>): Outcome<Observation>
  {
    if namespace != Some(key) then Rejected(OwnershipMismatch)
    else if key.address in disk.finals then Rejected(AuthorityChanged)
    else if key.address in disk.malformed then Rejected(TombstoneConflict)
    else if key !in disk.tombstones then Rejected(AuthorityChanged)
    else if Namespace(disk, key.address) != {key.item} then Retryable
    else
      var directory := disk.tombstones[key];
      if directory.identity.key != observed.directory.key then Rejected(AuthorityChanged)
      else
        var verified := VerifyEntries(directory, plan, directory.identity);
        if verified.Some? then Rejected(verified.value)
        else Found(Observation(directory.identity, plan))
  }

  /** The first planned entry with the given name. */
  function Planned(plan: seq<Entry>, name: FileName): Option<Entry>
  {
    if plan == [] then None
    else if plan[0].name == name then Some(plan[0])
    else Planned(plan[1..], name)
  }

  function UnlinkEntry(disk: Disk, key: TombstoneKey, bound: Observation, plan: seq<Entry>,
                       name: FileName, allowMissing: bool): (Disk, Outcome<()>)
  {
    var planned := Planned(plan, name);
    if planned.None? then (disk, Rejected(OwnershipMismatch))
    else if key !in disk.tombstones then (disk, Uncaught)
    else
      var directory := disk.tombstones[key];
      if directory.identity.key != bound.directory.key then (disk, Rejected(AuthorityChanged))
      else if name !in directory.files then
        (disk, if allowMissing then Found(()) else Rejected(AuthorityChanged))
      else if directory.files[name] != planned.value.identity then (disk, Rejected(AuthorityChanged))
      else
        (disk.(tombstones := disk.tombstones[key := Directory(Renamed(directory).identity, directory.files - {name})]),
         Found(()))
  }

  function RemoveDirectory(disk: Disk, key: TombstoneKey, bound: Observation, allowMissing: bool): (Disk, Outcome<()>)
  {
    if key !in disk.tombstones then
      (disk, if allowMissing then Found(()) else Rejected(AuthorityChanged))
    else if disk.tombstones[key].files != map[] then (disk, Rejected(AuthorityChanged))
    else if disk.tombstones[key].identity.key != bound.directory.key then (disk, Rejected(AuthorityChanged))
    else (disk.(tombstones := disk.tombstones - {key}), Found(()))
  }

  // ----- What the checks mean -----

  /** The directory has exactly the files of the plan, each with its identity. */
  predicate Holds(d: Directory, plan: seq<Entry>)
  {
    SameNames(d, plan) && forall e | e in plan :: e.name in d.files && d.files[e.name] == e.identity
  }

  predicate SameNames(d: Directory, plan: seq<Entry>)
  {
    && (forall e | e in plan :: e.name in d.files)
    && (forall name | name in d.files :: exists e | e in plan :: e.name == name)
  }

  lemma NamesAgree(d: Directory, plan: seq<Entry>)
    ensures d.files.Keys == Names(plan) <==> SameNames(d, plan)
    ensures d.files.Keys == Names(plan) && SameEntries(d, plan) <==> Holds(d, plan)
  {
    if SameNames(d, plan) {
      forall name | name in d.files ensures name in Names(plan) {
        var e :| e in plan && e.name == name;
      }
    }
  }

  /** The tombstones at the address, apart from the item's own. */
  predicate OthersAt(disk: Disk, key: TombstoneKey)
  {
    exists k | k in disk.tombstones :: k.address == key.address && k.item != key.item
  }

  lemma NamespaceIs(disk: Disk, key: TombstoneKey)
    ensures key.item in Namespace(disk, key.address) <==> key in disk.tombstones
    ensures Namespace(disk, key.address) == {} <==> key !in disk.tombstones && !OthersAt(disk, key)
    ensures key in disk.tombstones ==> (Namespace(disk, key.address) != {key.item} <==> OthersAt(disk, key))
  {
    assert key == TombstoneKey(key.address, key.item);
    if OthersAt(disk, key) {
      var k :| k in disk.tombstones && k.address == key.address && k.item != key.item;
      assert k.item in Namespace(disk, key.address);
    }
    if item :| item in Namespace(disk, key.address) && item != key.item {
      var k :| k in disk.tombstones && k.address == key.address && k.item == item;
    }
  }

  /** No tombstone is at the address, and its namespace can be listed. */
  predicate NoTombstone(disk: Disk, a: Address)
  {
    a !in disk.malformed && forall k | k in disk.tombstones :: k.address != a
  }

  lemma EmptyIsNoTombstone(disk: Disk, a: Address)
    ensures NamespaceEmpty(disk, a) <==> NoTombstone(disk, a)
  {
    if NamespaceEmpty(disk, a) {
      forall k | k in disk.tombstones ensures k.address != a {
        assert k.address == a ==> k.item in Namespace(disk, a);
      }
    }
  }
}
