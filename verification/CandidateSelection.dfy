/** Which of the scanned attempts a reconciliation operation registers items for, and why no attempt is
    starved (adapter_artifact_maintenance.py).  An operation is finished before the next one selects, so
    that every earlier item has either completed or been blocked. */
module CandidateSelection {
  // ----- Rows and their history -----

  /** The items of one surface of one attempt; confirmation retries are kept on the stage surface. */
  datatype History = History(
    completed: bool, blocked: nat, latestBlocked: nat, confirmationBlocked: nat, latestConfirmation: nat)

  datatype SurfaceState = Untried | Completed | Blocked

  datatype Manifest = NoManifest | Valid | Invalid

  /** An eligible attempt.  Sources and adapters are numbered together; an attempt is its index. */
  datatype Attempt = Attempt(resource: nat, createdAt: nat, manifest: Manifest, stage: History, final: History)

  datatype Kind = StageItem | FinalItem | ConfirmationItem

  datatype Candidate = Candidate(attempt: nat, kind: Kind)

  /** `_surface_item_state`. */
  function StateOf(h: History): SurfaceState
  {
    if h.completed then Completed else if h.blocked + h.confirmationBlocked == 0 then Untried else Blocked
  }

  // ----- The order of selection -----

  datatype Rank = Rank(lane: nat, count: nat, latest: nat)

  /** `_row_fairness_key`, up to the creation time and the identifier that break its ties. */
  function RankOf(a: Attempt): Rank
  {
    var stage, last := StateOf(a.stage), StateOf(a.final);
    if stage == Untried || (a.manifest == Valid && last == Untried) then Rank(0, 0, 0)
    else if a.manifest == Valid && last == Blocked then Rank(1, a.final.blocked, a.final.latestBlocked)
    else if stage == Blocked then Rank(1, a.stage.blocked, a.stage.latestBlocked)
    else if a.stage.confirmationBlocked > 0 then Rank(2, a.stage.confirmationBlocked, a.stage.latestConfirmation)
    else Rank(2, 0, 0)
  }

  predicate NotAfter(rows: seq<Attempt>, i: nat, j: nat)
    requires i < |rows| && j < |rows|
  {
    var a, b := RankOf(rows[i]), RankOf(rows[j]);
    if a.lane != b.lane then a.lane < b.lane
    else if a.count != b.count then a.count < b.count
    else if a.latest != b.latest then a.latest < b.latest
    else if rows[i].createdAt != rows[j].createdAt then rows[i].createdAt < rows[j].createdAt
    else i <= j
  }

  predicate Within(rows: seq<Attempt>, window: seq<nat>) { forall k | 0 <= k < |window| :: window[k] < |rows| }

  predicate Ranked(rows: seq<Attempt>, ordered: seq<nat>)
    requires Within(rows, ordered)
  {
    forall m, k | 0 <= m < k < |ordered| :: NotAfter(rows, ordered[m], ordered[k])
  }

  function Place(rows: seq<Attempt>, ordered: seq<nat>, i: nat): (placed: seq<nat>)
    requires Within(rows, ordered) && i < |rows|
    ensures Within(rows, placed) && forall j :: j in placed <==> j in ordered || j == i
  {
    if ordered == [] then [i]
    else
      var n := |ordered| - 1;
      assert ordered == ordered[..n] + [ordered[n]];
      if NotAfter(rows, ordered[n], i) then ordered + [i] else Place(rows, ordered[..n], i) + [ordered[n]]
  }

  lemma {:induction false} PlaceRanks(rows: seq<Attempt>, ordered: seq<nat>, i: nat)
    requires Within(rows, ordered) && i < |rows| && Ranked(rows, ordered)
    ensures Ranked(rows, Place(rows, ordered, i))
  {
    if ordered != [] {
      var n := |ordered| - 1;
      var last := ordered[n];
      if NotAfter(rows, last, i) {
        forall m | 0 <= m < |ordered| ensures NotAfter(rows, ordered[m], i) {
          assert m < n ==> NotAfter(rows, ordered[m], last);
        }
      } else {
        var rest := Place(rows, ordered[..n], i);
        PlaceRanks(rows, ordered[..n], i);
        forall m | 0 <= m < |rest| ensures NotAfter(rows, rest[m], last) {
          assert rest[m] in rest;
          if rest[m] != i {
            var k :| 0 <= k < n && ordered[k] == rest[m];
          }
        }
      }
    }
  }

  /** `family_rows.sort(key=family_row_rank)`. */
  function SortByRank(rows: seq<Attempt>, window: seq<nat>): (ordered: seq<nat>)
    requires Within(rows, window)
    ensures Within(rows, ordered) && forall i :: i in ordered <==> i in window
  {
    if window == [] then []
    else
      var n := |window| - 1;
      assert window == window[..n] + [window[n]];
      Place(rows, SortByRank(rows, window[..n]), window[n])
  }

  lemma {:induction false} SortRanks(rows: seq<Attempt>, window: seq<nat>)
    requires Within(rows, window)
    ensures Ranked(rows, SortByRank(rows, window))
  {
    if window != [] {
      var n := |window| - 1;
      assert window == window[..n] + [window[n]];
      SortRanks(rows, window[..n]);
      PlaceRanks(rows, SortByRank(rows, window[..n]), window[n]);
    }
  }

  // ----- The selection -----

  /** What the loop has gathered: items, resources with a final item, and the number of attempts taken. */
  datatype Selection = Selection(items: seq<Candidate>, finals: set<nat>, attempts: nat)

  predicate Skipped(rows: seq<Attempt>, quarantined: set<nat>, i: nat)
    requires i < |rows|
  {
    i in quarantined && rows[i].stage.completed
  }

  predicate UntriedFinal(a: Attempt) { a.manifest == Valid && StateOf(a.final) == Untried }

  predicate UntriedSibling(rows: seq<Attempt>, window: seq<nat>, resource: nat)
  {
    exists j | j in window :: j < |rows| && rows[j].resource == resource && UntriedFinal(rows[j])
  }

  predicate WantsFinal(rows: seq<Attempt>, window: seq<nat>, quarantined: set<nat>, i: nat)
    requires i < |rows|
  {
    var a := rows[i];
    || UntriedFinal(a)
    || (a.manifest == Valid && StateOf(a.final) == Blocked && !UntriedSibling(rows, window, a.resource))
    || (a.manifest == Invalid && i !in quarantined)
  }

  predicate ConfirmationReady(a: Attempt)
  {
    a.manifest != Invalid && a.stage.completed && (a.manifest == Valid ==> a.final.completed)
  }

  function ItemsOf(rows: seq<Attempt>, window: seq<nat>, quarantined: set<nat>, i: nat,
                   finals: set<nat>): seq<Candidate>
    requires i < |rows|
  {
    var a := rows[i];
    if Skipped(rows, quarantined, i) then []
    else
      var work := (if a.stage.completed then [] else [Candidate(i, StageItem)])
                  + (if WantsFinal(rows, window, quarantined, i)
                     && a.resource !in finals then [Candidate(i, FinalItem)] else []);
      if work == [] && ConfirmationReady(a) then [Candidate(i, ConfirmationItem)] else work
  }

  function Consider(rows: seq<Attempt>, window: seq<nat>, quarantined: set<nat>, i: nat, sel: Selection): Selection
    requires i < |rows|
  {
    var items := ItemsOf(rows, window, quarantined, i, sel.finals);
    Selection(sel.items + items,
              if Candidate(i, FinalItem) in items then sel.finals + {rows[i].resource} else sel.finals,
              if items == [] then sel.attempts else sel.attempts + 1)
  }

  function SelectFrom(rows: seq<Attempt>, window: seq<nat>, quarantined: set<nat>, limit: nat,
                      ordered: seq<nat>): Selection
    requires Within(rows, ordered)
  {
    if ordered == [] then Selection([], {}, 0)
    else
      var n := |ordered| - 1;
      assert ordered == ordered[..n] + [ordered[n]];
      var sel := SelectFrom(rows, window, quarantined, limit, ordered[..n]);
      if sel.attempts >= limit then sel else Consider(rows, window, quarantined, ordered[n], sel)
  }

  function Select(rows: seq<Attempt>, window: seq<nat>, quarantined: set<nat>, limit: nat): seq<Candidate>
    requires Within(rows, window)
  {
    SelectFrom(rows, window, quarantined, limit, SortByRank(rows, window)).items
  }

  method SortRows(rows: seq<Attempt>, window: seq<nat>) returns (ordered: seq<nat>)
    requires Within(rows, window)
    ensures ordered == SortByRank(rows, window)
  {
    ordered := [];
    for k := 0 to |window|
      invariant Within(rows, ordered) && ordered == SortByRank(rows, window[..k])
    {
      assert window[..k + 1][..k] == window[..k];
      ordered := Place(rows, ordered, window[k]);
    }
    assert window[..|window|] == window;
  }

  /** The loop of `_select_candidates` over the rows of one window. */
  method SelectCandidates(rows: seq<Attempt>, window: seq<nat>, quarantined: set<nat>, limit: nat)
    returns (result: seq<Candidate>)
    requires Within(rows, window)
    ensures result == Select(rows, window, quarantined, limit)
  {
    hide Skipped, WantsFinal, ConfirmationReady, SortByRank;
    var ordered := SortRows(rows, window);
    var finals: set<nat> := {};
    var selected, n := 0, 0;
    result := [];
    while n < |ordered| && selected < limit
      invariant 0 <= n <= |ordered|
      invariant Selection(result, finals, selected) == SelectFrom(rows, window, quarantined, limit, ordered[..n])
    {
      assert ordered[..n + 1][..n] == ordered[..n];
      var i := ordered[n];
      var taken := false;
      if !Skipped(rows, quarantined, i) {
        if !rows[i].stage.completed {
          result := result + [Candidate(i, StageItem)];
          taken := true;
        }
        if rows[i].resource !in finals && WantsFinal(rows, window, quarantined, i) {
          result := result + [Candidate(i, FinalItem)];
          finals := finals + {rows[i].resource};
          taken := true;
        }
        if !taken && ConfirmationReady(rows[i]) {
          result := result + [Candidate(i, ConfirmationItem)];
          taken := true;
        }
      }
      if taken { selected := selected + 1; }
      n := n + 1;
    }
    Break(rows, window, quarantined, limit, ordered, n);
  }

  /** Once the limit is reached, or nothing is left, the selection is what it is. */
  lemma {:induction false} Break(rows: seq<Attempt>, window: seq<nat>, quarantined: set<nat>, limit: nat,
                                 ordered: seq<nat>, n: nat)
    requires Within(rows, ordered) && n <= |ordered|
    requires n == |ordered| || SelectFrom(rows, window, quarantined, limit, ordered[..n]).attempts >= limit
    ensures SelectFrom(rows, window, quarantined, limit, ordered)
            == SelectFrom(rows, window, quarantined, limit, ordered[..n])
    decreases |ordered|
  {
    if n == |ordered| {
      assert ordered[..n] == ordered;
    } else {
      var shorter := ordered[..|ordered| - 1];
      assert shorter[..n] == ordered[..n];
      Break(rows, window, quarantined, limit, shorter, n);
    }
  }
}
