/** What the reconciliation registers, and when it confirms that an attempt's artifacts are gone
    (adapter_artifact_maintenance.py), for the import sources and their attempts. */
module Reconciliation {
  import opened Common

  // ----- Rows -----

  /** `Protected` is committed, claimed, consumed, purge_pending or purged. */
  datatype SourceStatus = Staging | SourceFailed | SourceAbandoned | Protected

  datatype AttemptStatus = Registered | Validated | Staged | Published | Committed | Failed | Abandoned

  datatype Source = Source(status: SourceStatus, authoritative: Option<nat>, version: nat)

  /** The persisted ownership manifest: none, one that parses, or one that does not. */
  datatype Manifest = NoManifest | Valid | Invalid

  datatype Attempt = Attempt(
    source: nat, status: AttemptStatus, createdAt: nat, manifest: Manifest, confirmedAt: Option<nat>, version: nat)

  datatype Rows = Rows(sources: seq<Source>, attempts: seq<Attempt>)

  predicate Terminal(a: Attempt) { a.status == Failed || a.status == Abandoned }

  // ----- The structural window -----

  predicate HasCommitted(attempts: seq<Attempt>, s: nat)
  {
    exists j | 0 <= j < |attempts| :: attempts[j].source == s && attempts[j].status == Committed
  }

  predicate OtherActive(attempts: seq<Attempt>, i: nat)
    requires i < |attempts|
  {
    exists j | 0 <= j < |attempts| :: j != i && attempts[j].source == attempts[i].source && !Terminal(attempts[j])
  }

  /** An attempt that may be reconciled: its source is unprotected and undecided, no sibling is committed
      or still active, and if it is itself active it is stale. */
  predicate Eligible(rows: Rows, i: nat, cutoff: nat)
  {
    && i < |rows.attempts| && rows.attempts[i].source < |rows.sources|
    && var a := rows.attempts[i];
       && rows.sources[a.source].status != Protected && rows.sources[a.source].authoritative.None?
       && !HasCommitted(rows.attempts, a.source) && !OtherActive(rows.attempts, i)
       && (Terminal(a) || (rows.sources[a.source].status == Staging && a.createdAt <= cutoff))
  }

  /** The window as it is computed: siblings are counted once, and an active attempt does not count
      against itself. */
  method StructuralWindow(rows: Rows, window: seq<nat>, cutoff: nat) returns (eligible: seq<nat>)
    requires forall i | i in window :: i < |rows.attempts|
    ensures forall i :: i in eligible <==> i in window && Eligible(rows, i, cutoff)
  {
    eligible := [];
    for k := 0 to |window|
      invariant forall i :: i in eligible <==> i in window[..k] && Eligible(rows, i, cutoff)
    {
      assert window[..k + 1] == window[..k] + [window[k]];
      var i := window[k];
      assert i in window;
      var a := rows.attempts[i];
      var committed, active := 0, 0;
      for j := 0 to |rows.attempts|
        invariant committed >= 0 && active >= 0
        invariant committed == 0
                  <==> forall m | 0 <= m < j ::
                    !(rows.attempts[m].source == a.source && rows.attempts[m].status == Committed)
        invariant active - (if i < j && !Terminal(a) then 1 else 0) >= 0
        invariant active - (if i < j && !Terminal(a) then 1 else 0) == 0
                  <==> forall m | 0 <= m < j ::
                         m == i || rows.attempts[m].source != a.source || Terminal(rows.attempts[m])
      {
        if rows.attempts[j].source == a.source {
          if rows.attempts[j].status == Committed { committed := committed + 1; }
          if !Terminal(rows.attempts[j]) { active := active + 1; }
        }
      }
      if a.source < |rows.sources| && rows.sources[a.source].status != Protected
         && rows.sources[a.source].authoritative.None? && committed == 0
      {
        if !Terminal(a) { active := active - 1; }
        if active == 0 && (Terminal(a) || (rows.sources[a.source].status == Staging && a.createdAt <= cutoff)) {
          eligible := eligible + [i];
        }
      }
    }
    assert window[..|window|] == window;
  }

  // ----- Registration -----

  datatype Surface = StageSurface | FinalSurface

  /** A candidate, and the item registered for it: the versions that later steps are fenced by. */
  datatype Candidate = Candidate(surface: Surface, attempt: nat, expectedSource: nat, expectedAttempt: nat)

  predicate Selected(rows: Rows, c: Candidate, cutoff: nat)
  {
    && Eligible(rows, c.attempt, cutoff) && rows.attempts[c.attempt].status != Committed
    && c.expectedSource == rows.sources[rows.attempts[c.attempt].source].version
    && c.expectedAttempt == rows.attempts[c.attempt].version
  }

  /** `_abandon_stale_source_if_needed`; no value is the 409. */
  function AbandonIfNeeded(rows: Rows, c: Candidate): Option<(Rows, Candidate)>
  {
    if c.attempt >= |rows.attempts| || rows.attempts[c.attempt].source >= |rows.sources| then None
    else
      var a := rows.attempts[c.attempt];
      var s := rows.sources[a.source];
      if Terminal(a) then Some((rows, c.(expectedSource := s.version, expectedAttempt := a.version)))
      else if a.status == Committed || s.status != Staging || s.authoritative.Some? then None
      else
        Some((Rows(rows.sources[a.source := s.(status := SourceAbandoned, version := s.version + 1)],
                   rows.attempts[c.attempt := a.(status := Abandoned, version := a.version + 1)]),
              c.(expectedSource := s.version + 1, expectedAttempt := a.version + 1)))
  }

  function RegisterItems(rows: Rows, candidates: seq<Candidate>): Option<(Rows, seq<Candidate>)>
  {
    if candidates == [] then Some((rows, []))
    else
      var n := |candidates| - 1;
      var earlier := RegisterItems(rows, candidates[..n]);
      if earlier.None? then None
      else
        var last := AbandonIfNeeded(earlier.value.0, candidates[n]);
        if last.None? then None else Some((last.value.0, earlier.value.1 + [last.value.1]))
  }

  /** `_check_authority`, at every later load of the item. */
  predicate AuthorityHolds(rows: Rows, item: Candidate)
  {
    && item.attempt < |rows.attempts| && rows.attempts[item.attempt].source < |rows.sources|
    && var a := rows.attempts[item.attempt];
       var s := rows.sources[a.source];
       && s.version == item.expectedSource && a.version == item.expectedAttempt
       && s.status != Protected && s.authoritative.None? && Terminal(a)
       && !HasCommitted(rows.attempts, a.source)
  }

  /** An active attempt that is selected is its source's only eligible attempt. */
  lemma ActiveIsAlone(rows: Rows, i: nat, j: nat, cutoff: nat)
    requires Eligible(rows, i, cutoff) && Eligible(rows, j, cutoff) && !Terminal(rows.attempts[i])
    requires rows.attempts[i].source == rows.attempts[j].source
    ensures i == j
  {
  }

  /** The item that a candidate ends up as, whatever was registered before it. */
  function ItemOf(rows: Rows, c: Candidate): Candidate
  {
    if c.attempt >= |rows.attempts| || Terminal(rows.attempts[c.attempt]) then c
    else c.(expectedSource := c.expectedSource + 1, expectedAttempt := c.expectedAttempt + 1)
  }

  /** The attempts that the first candidates abandon. */
  function AbandonedBy(rows: Rows, candidates: seq<Candidate>): set<nat>
  {
    set c | c in candidates && c.attempt < |rows.attempts| && !Terminal(rows.attempts[c.attempt]) :: c.attempt
  }

  /** `after` is `before` with the given attempts, and their sources, abandoned. */
  predicate Abandons(before: Rows, after: Rows, gone: set<nat>)
  {
    && |after.attempts| == |before.attempts| && |after.sources| == |before.sources|
    && (forall i | 0 <= i < |before.attempts| ::
          after.attempts[i] == if i in gone
            then before.attempts[i].(status := Abandoned, version := before.attempts[i].version + 1)
                               else before.attempts[i])
    && (forall s | 0 <= s < |before.sources| ::
          after.sources[s] == if (exists i | i in gone :: i < |before.attempts| && before.attempts[i].source == s)
                              then before.sources[s].(status := SourceAbandoned,
                                                      version := before.sources[s].version + 1)
                              else before.sources[s])
  }

  lemma AbandonStep(rows: Rows, between: Rows, gone: set<nat>, c: Candidate, cutoff: nat)
    requires Abandons(rows, between, gone) && Selected(rows, c, cutoff)
    requires forall i | i in gone :: Eligible(rows, i, cutoff) && !Terminal(rows.attempts[i])
    ensures var step := AbandonIfNeeded(between, c);
            && step.Some? && step.value.1 == ItemOf(rows, c)
            && Abandons(rows, step.value.0, gone + (if Terminal(rows.attempts[c.attempt]) then {} else {c.attempt}))
  {
    var a := rows.attempts[c.attempt];
    forall i | i in gone && rows.attempts[i].source == a.source ensures i == c.attempt {
      ActiveIsAlone(rows, i, c.attempt, cutoff);
    }
    hide Eligible;
    assert Eligible(rows, c.attempt, cutoff) && !Terminal(a) ==> rows.sources[a.source].status == Staging by {
      StaleIsStaging(rows, c.attempt, cutoff);
    }
  }

  lemma StaleIsStaging(rows: Rows, i: nat, cutoff: nat)
    requires Eligible(rows, i, cutoff)
    ensures rows.attempts[i].source < |rows.sources| && rows.sources[rows.attempts[i].source].authoritative.None?
    ensures !Terminal(rows.attempts[i]) ==> rows.sources[rows.attempts[i].source].status == Staging
  {
  }

  lemma AbandonedByLast(rows: Rows, candidates: seq<Candidate>, c: Candidate)
    requires c.attempt < |rows.attempts|
    ensures AbandonedBy(rows, candidates + [c])
            == AbandonedBy(rows, candidates) + (if Terminal(rows.attempts[c.attempt]) then {} else {c.attempt})
  {
  }

  lemma AbandonedAreActive(rows: Rows, candidates: seq<Candidate>, cutoff: nat)
    requires forall c | c in candidates :: Selected(rows, c, cutoff)
    ensures forall i | i in AbandonedBy(rows, candidates) ::
              i < |rows.attempts| && Eligible(rows, i, cutoff) && !Terminal(rows.attempts[i])
  {
    hide Eligible;
  }

  lemma {:induction false} RegistrationIs(rows: Rows, candidates: seq<Candidate>, cutoff: nat)
    requires forall c | c in candidates :: Selected(rows, c, cutoff)
    ensures var r := RegisterItems(rows, candidates);
            && r.Some? && |r.value.1| == |candidates|
            && (forall k | 0 <= k < |candidates| :: r.value.1[k] == ItemOf(rows, candidates[k]))
            && Abandons(rows, r.value.0, AbandonedBy(rows, candidates))
  {
    if candidates == [] {
      assert AbandonedBy(rows, candidates) == {};
    } else {
      var n := |candidates| - 1;
      var earlier, c := candidates[..n], candidates[n];
      assert candidates == earlier + [c] && c in candidates;
      assert c.attempt < |rows.attempts|;
      hide Abandons, Selected, AbandonedBy, Eligible, AbandonIfNeeded;
      RegistrationIs(rows, earlier, cutoff);
      AbandonedAreActive(rows, earlier, cutoff);
      AbandonStep(rows, RegisterItems(rows, earlier).value.0, AbandonedBy(rows, earlier), c, cutoff);
      AbandonedByLast(rows, earlier, c);
    }
  }

  /** Registration fences: whatever the candidates selected from one state, in whatever order, with
      stale sources abandoned on the way, registration never refuses, and afterwards every item's
      expected versions are those of the live rows.  `ReconciliationTheorems` carries this to all later loads. */
  lemma RegistrationFencesHold(rows: Rows, candidates: seq<Candidate>, cutoff: nat)
    requires forall c | c in candidates :: Selected(rows, c, cutoff)
    ensures var r := RegisterItems(rows, candidates);
            && r.Some? && |r.value.1| == |candidates|
            && forall k | 0 <= k < |candidates| ::
                 r.value.1[k].attempt == candidates[k].attempt && AuthorityHolds(r.value.0, r.value.1[k])
  {
    RegistrationIs(rows, candidates, cutoff);
    var r := RegisterItems(rows, candidates).value;
    var gone := AbandonedBy(rows, candidates);
    forall k | 0 <= k < |candidates| ensures AuthorityHolds(r.0, r.1[k]) {
      var c := candidates[k];
      assert c in candidates;
      assert !Terminal(rows.attempts[c.attempt]) ==> c.attempt in gone;
      AbandonedAreActive(rows, candidates, cutoff);
      ItemHolds(rows, r.0, gone, c, cutoff);
    }
  }

  lemma ItemHolds(rows: Rows, after: Rows, gone: set<nat>, c: Candidate, cutoff: nat)
    requires Abandons(rows, after, gone) && Selected(rows, c, cutoff)
    requires forall i | i in gone :: i < |rows.attempts| && Eligible(rows, i, cutoff) && !Terminal(rows.attempts[i])
    requires !Terminal(rows.attempts[c.attempt]) ==> c.attempt in gone
    ensures AuthorityHolds(after, ItemOf(rows, c))
  {
    var a := rows.attempts[c.attempt];
    forall i | i in gone && rows.attempts[i].source == a.source ensures i == c.attempt {
      ActiveIsAlone(rows, i, c.attempt, cutoff);
    }
    assert !HasCommitted(after.attempts, a.source);
  }
}
