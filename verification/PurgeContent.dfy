/** What a purge deletes is what the ownership manifest lists: the committed plan names exactly the files of the
    surface, each with the recorded digest, for any number of processes and whatever happens to the disk. */
module PurgeContent {
  import opened Common
  import opened ArtifactStore
  import opened PurgeFleet
  import opened PurgeFleetSafety
  import opened PurgeFleetSteps
  import P = Purge
  import S = PurgeSafety

  predicate Listed(entries: seq<Entry>, s: Surface, manifest: OwnershipManifest)
  {
    && |entries| == |FinalFiles(s)|
    && forall i | 0 <= i < |entries| ::
         entries[i].name == FinalFiles(s)[i] && entries[i].name in manifest
         && entries[i].identity.digest == manifest[entries[i].name]
  }

  /** The item carries the manifest of its attempt, and its plan is listed there. */
  predicate LaneListed(lane: P.Lane, s: Surface, manifest: OwnershipManifest)
  {
    lane.item.manifest == manifest
      && (lane.item.progress.plan.Some? ==> Listed(lane.item.progress.plan.value, s, manifest))
  }

  predicate PcListed(pc: P.Pc, db: P.Db)
  {
    pc.Persist? ==> Listed(pc.inspected.entries, pc.s, P.AttemptOf(db, pc.s).manifest)
  }

  predicate ViewListed(w: P.World)
  {
    && w.db.operation.Some? && PcListed(w.pc, w.db)
    && LaneListed(w.db.operation.value.registry, RegistryFinal, w.db.registryAttempt.manifest)
    && LaneListed(w.db.operation.value.source, SourceFinal, w.db.sourceAttempt.manifest)
  }

  // ----- One step of the machine -----

  lemma InspectionIsListed(w: P.World)
    requires ViewListed(w) && w.pc.Inspect?
    ensures ViewListed(P.Step(w)) && P.Step(w).db == w.db
  {
    var s := w.pc.s;
    var a, manifest := P.AddressOf(w.db, s), P.AttemptOf(w.db, s).manifest;
    if a in w.disk.finals && HasManifest(w.disk.finals[a], s, manifest) {
      ListingIsListed(w.disk.finals[a], s, manifest);
    }
    hide Listed, Listing;
  }

  lemma ListingIsListed(d: Directory, s: Surface, manifest: OwnershipManifest)
    requires HasManifest(d, s, manifest)
    ensures Listed(Listing(d, FinalFiles(s)), s, manifest)
  {
    forall n | n in FinalFiles(s) ensures n in d.files {}
  }

  lemma OthersOnlyRead(w: P.World)
    requires w.db.operation.Some?
    requires w.pc.Select? || w.pc.Load? || w.pc.Capture? || w.pc.Reauthorize? || w.pc.Move? || w.pc.Recover?
             || w.pc.Unlink? || w.pc.RemoveTombstone?
    ensures P.Step(w).db == w.db && !P.Step(w).pc.Persist?
  {
    hide InspectSurface, MoveSurface, RecoverTombstone, UnlinkEntry, RemoveDirectory, P.CanProceed, P.AuthoritySnapshot,
         P.KeyOf;
  }

  /** The plan of a lane is written only with the inspection that was listed. */
  lemma WritesKeepPlan(w: P.World)
    requires w.db.operation.Some? && (w.pc.Persist? || w.pc.Bind? || w.pc.Mark? || w.pc.Advance?)
    ensures LaneWritten(w, P.Step(w))
  {
    hide P.Step, P.CanProceed, P.AuthoritySnapshot, P.KeyOf;
    S.StepIs(w);
  }

  lemma EndsKeepPlan(w: P.World)
    requires w.db.operation.Some? && (w.pc.MarkDirectory? || w.pc.Complete? || w.pc.Block?)
    ensures LaneWritten(w, P.Step(w))
  {
    hide P.Step, P.KeyOf;
    S.StepIs(w);
  }

  /** At most the lane of the position changes: its manifest stays, and its plan stays or is the inspection. */
  predicate LaneWritten(w: P.World, next: P.World)
    requires w.db.operation.Some? && AtLane(w.pc)
  {
    && !next.pc.Persist? && next.db.operation.Some?
    && next.db == w.db.(operation := next.db.operation)
    && var before, after := w.db.operation.value, next.db.operation.value;
       forall s :: var i, j := P.LaneOf(before, s).item, P.LaneOf(after, s).item;
         && j.manifest == i.manifest
         && (j.progress.plan == i.progress.plan
             || (w.pc.Persist? && s == w.pc.s && j.progress.plan == Some(w.pc.inspected.entries)))
  }

  predicate AtLane(pc: P.Pc)
  {
    pc.Persist? || pc.Bind? || pc.Mark? || pc.Advance? || pc.MarkDirectory? || pc.Complete? || pc.Block?
  }

  lemma WrittenStaysListed(w: P.World, next: P.World)
    requires ViewListed(w) && AtLane(w.pc) && LaneWritten(w, next)
    ensures ViewListed(next)
  {
    hide Listed;
    var before, after := w.db.operation.value, next.db.operation.value;
    assert P.LaneOf(after, RegistryFinal).item.manifest == P.LaneOf(before, RegistryFinal).item.manifest;
    assert P.LaneOf(after, SourceFinal).item.manifest == P.LaneOf(before, SourceFinal).item.manifest;
  }

  lemma OperationStaysListed(w: P.World)
    requires ViewListed(w) && (w.pc.MarkOperation? || w.pc.Finalize?)
    ensures var next := P.Step(w);
            ViewListed(next) && next.db.sourceAttempt == w.db.sourceAttempt
            && next.db.registryAttempt == w.db.registryAttempt
  {
    hide Listed, P.OperationAuthority, NamespaceEmpty, P.ActiveItem, P.BlockedItems, P.CompletedItems;
  }

  lemma StepKeepsListed(w: P.World)
    requires ViewListed(w) && P.Running(w.pc) && !w.pc.Register?
    ensures var next := P.Step(w);
            ViewListed(next) && next.db.sourceAttempt == w.db.sourceAttempt
            && next.db.registryAttempt == w.db.registryAttempt
  {
    hide P.Step, Listed, LaneWritten;
    if w.pc.Inspect? {
      InspectionIsListed(w);
    } else if w.pc.MarkOperation? || w.pc.Finalize? {
      OperationStaysListed(w);
    } else if AtLane(w.pc) {
      if w.pc.MarkDirectory? || w.pc.Complete? || w.pc.Block? { EndsKeepPlan(w); } else { WritesKeepPlan(w); }
      WrittenStaysListed(w, P.Step(w));
      LaneWrittenKeepsRows(w, P.Step(w));
    } else {
      OthersOnlyRead(w);
    }
  }

  lemma LaneWrittenKeepsRows(w: P.World, next: P.World)
    requires w.db.operation.Some? && AtLane(w.pc) && LaneWritten(w, next)
    ensures next.db == w.db.(operation := next.db.operation)
  {
  }

  // ----- Any number of processes -----

  predicate OpListed(f: Fleet, op: P.Operation)
  {
    && LaneListed(op.registry, RegistryFinal, f.db.registryAttempt.manifest)
    && LaneListed(op.source, SourceFinal, f.db.sourceAttempt.manifest)
  }

  predicate FleetListed(f: Fleet)
  {
    && (forall n | 0 <= n < |f.ops| :: OpListed(f, f.ops[n]))
    && (forall k | 0 <= k < |f.processes| :: PcListed(Bare(f.processes[k].pc), f.db))
  }

  lemma FleetStepKeepsListed(f: Fleet, k: nat)
    requires Inv(f) && FleetListed(f) && k < |f.processes|
    ensures FleetListed(Step(f, k))
  {
    hide Inv, Listed, Step, P.Step, Follows, FleetListed;
    var pc := f.processes[k].pc;
    if pc.Register? {
      RegistrationStaysListed(f, k);
    } else if AtOperation(pc) {
      StepIsMachineStep(f, k);
      ViewIsListed(f, k);
      StepKeepsListed(View(f, k));
      FollowerStaysListed(f, Step(f, k), k, P.Step(View(f, k)));
    } else {
      RestStaysListed(f, k);
    }
  }

  lemma ViewIsListed(f: Fleet, k: nat)
    requires FleetListed(f) && k < |f.processes| && f.processes[k].op < |f.ops|
    ensures ViewListed(View(f, k))
  {
    hide LaneListed;
    assert PcListed(Bare(f.processes[k].pc), f.db) && OpListed(f, f.ops[f.processes[k].op]);
  }

  lemma RestStaysListed(f: Fleet, k: nat)
    requires Inv(f) && FleetListed(f) && k < |f.processes|
    requires f.processes[k].pc.Idle? || f.processes[k].pc.Stopped? || f.processes[k].pc.Reload?
    ensures FleetListed(Step(f, k))
  {
    hide Inv, Listed;
    if f.processes[k].pc.Reload? { ReloadOnlyReads(f, k); }
  }

  lemma FollowerStaysListed(f: Fleet, after: Fleet, k: nat, next: P.World)
    requires FleetListed(f) && k < |f.processes| && f.processes[k].op < |f.ops| && Follows(f, after, k, next)
    requires ViewListed(next) && next.db.sourceAttempt == f.db.sourceAttempt
    requires next.db.registryAttempt == f.db.registryAttempt
    ensures FleetListed(after)
  {
    hide Listed;
    assert after.db.sourceAttempt == f.db.sourceAttempt && after.db.registryAttempt == f.db.registryAttempt;
    forall n | 0 <= n < |after.ops| ensures OpListed(after, after.ops[n]) {
      if n != f.processes[k].op { assert OpListed(f, f.ops[n]); }
    }
    forall j | 0 <= j < |after.processes| ensures PcListed(Bare(after.processes[j].pc), after.db) {
      if j != k { assert PcListed(Bare(f.processes[j].pc), f.db); }
    }
  }

  lemma RegistrationStaysListed(f: Fleet, k: nat)
    requires FleetListed(f) && k < |f.processes| && f.processes[k].pc.Register?
    ensures FleetListed(Step(f, k))
  {
    hide Listed, P.AuthoritySnapshot, P.Eligible;
    var next := Step(f, k);
    assert next.db.sourceAttempt == f.db.sourceAttempt && next.db.registryAttempt == f.db.registryAttempt;
    forall n | 0 <= n < |next.ops| ensures OpListed(next, next.ops[n]) {
      if n < |f.ops| { assert OpListed(f, f.ops[n]); }
    }
    forall j | 0 <= j < |next.processes| ensures PcListed(Bare(next.processes[j].pc), next.db) {
      if j != k { assert PcListed(Bare(f.processes[j].pc), f.db); }
    }
  }

  lemma {:induction false} HistoryIsListed(f: Fleet, events: seq<Event>)
    requires Initial(f)
    ensures FleetListed(History(f, events))
  {
    if events != [] {
      var n := |events| - 1;
      var before := History(f, events[..n]);
      HistoryIsListed(f, events[..n]);
      ReachableInv(f, events[..n]);
      EventStaysListed(before, events[n]);
    }
  }

  lemma EventStaysListed(f: Fleet, e: Event)
    requires Inv(f) && FleetListed(f)
    ensures FleetListed(Apply(f, e))
  {
    hide Listed, Inv;
    var next := Apply(f, e);
    if e.Run? {
      if e.process < |f.processes| { FleetStepKeepsListed(f, e.process); }
    } else {
      assert next.ops == f.ops && next.db.sourceAttempt == f.db.sourceAttempt
             && next.db.registryAttempt == f.db.registryAttempt;
      forall n | 0 <= n < |next.ops| ensures OpListed(next, next.ops[n]) { assert OpListed(f, f.ops[n]); }
      forall j | 0 <= j < |next.processes| ensures PcListed(Bare(next.processes[j].pc), next.db) {
        if j < |f.processes| { assert PcListed(Bare(f.processes[j].pc), f.db); }
      }
    }
  }

  // ----- What is deleted -----

  /** Content safety: the step of any process renames only a surface that holds exactly the files of its kind, each
      with the digest of the ownership manifest, and unlinks only a file with the digest that the manifest gives
      it. */
  lemma DeletesOnlyListedFiles(f: Fleet, events: seq<Event>, k: nat, n: nat, s: Surface)
    requires Initial(f) && k < |History(f, events).processes| && n < |History(f, events).ops|
    ensures var now, after := History(f, events), Step(History(f, events), k).disk;
            var manifest := P.AttemptOf(now.db, s).manifest;
            && (MovesCommittedSurface(now, after, n, s)
                ==> HasManifest(now.disk.finals[P.AddressOf(now.db, s)], s, manifest))
            && forall e | UnlinksPlannedEntry(now, after, n, s, e) ::
                 e.name in FinalFiles(s) && e.name in manifest && e.identity.digest == manifest[e.name]
  {
    HistoryIsListed(f, events);
    hide Inv, Step, History, Initial;
    var now := History(f, events);
    assert OpListed(now, now.ops[n]);
    var row, manifest := RowAt(now, n, s), P.AttemptOf(now.db, s).manifest;
    if row.plan.Some? {
      assert Listed(row.plan.value, s, manifest);
      forall e | e in row.plan.value
        ensures e.name in FinalFiles(s) && e.name in manifest && e.identity.digest == manifest[e.name]
      {
      }
      PlanIsSurface(row.plan.value, s, manifest);
    }
  }

  lemma PlanIsSurface(plan: seq<Entry>, s: Surface, manifest: OwnershipManifest)
    requires Listed(plan, s, manifest)
    ensures Names(plan) == set n | n in FinalFiles(s)
    ensures forall d: Directory | d.files.Keys == Names(plan) && SameEntries(d, plan) :: HasManifest(d, s, manifest)
  {
    var names := FinalFiles(s);
    forall n | n in names ensures n in Names(plan) {
      var i :| 0 <= i < |names| && names[i] == n;
      assert plan[i] in plan;
    }
    forall n | n in Names(plan) ensures n in names {
      var e :| e in plan && e.name == n;
    }
    forall d: Directory | d.files.Keys == Names(plan) && SameEntries(d, plan) ensures HasManifest(d, s, manifest) {
      forall n | n in names ensures n in d.files && n in manifest && d.files[n].digest == manifest[n] {
        var i :| 0 <= i < |names| && names[i] == n;
        assert plan[i] in plan;
      }
    }
  }
}
