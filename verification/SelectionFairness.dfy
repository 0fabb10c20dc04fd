/** Attempts that are scanned and whose stage, or valid final surface, has work left are not starved,
    whatever windows are scanned and however the registered items end. */
module SelectionFairness {
  import opened CandidateSelection

  // ----- Rounds -----

  /** One operation: the eligible rows of its scan, the quarantined ones, and the items that complete. */
  datatype Round = Round(window: seq<nat>, quarantined: set<nat>, limit: nat, completed: set<Candidate>, now: nat)

  /** A quarantined attempt has a blocked item on its final surface. */
  predicate Legal(rows: seq<Attempt>, r: Round)
  {
    && Within(rows, r.window) && r.limit >= 1
    && forall i | i in r.quarantined :: i < |rows| ==> rows[i].final.blocked > 0
  }

  function Tried(h: History, done: bool, now: nat): History
  {
    if done then h.(completed := true) else h.(blocked := h.blocked + 1, latestBlocked := now)
  }

  function Confirmed(h: History, done: bool, now: nat): History
  {
    if done then h else h.(confirmationBlocked := h.confirmationBlocked + 1, latestConfirmation := now)
  }

  function NewRow(a: Attempt, i: nat, items: seq<Candidate>, r: Round): Attempt
  {
    var s, f, c := Candidate(i, StageItem), Candidate(i, FinalItem), Candidate(i, ConfirmationItem);
    a.(stage := if s in items then Tried(a.stage, s in r.completed, r.now)
                else if c in items then Confirmed(a.stage, c in r.completed, r.now)
                else a.stage,
       final := if f in items then Tried(a.final, f in r.completed, r.now) else a.final)
  }

  function Registered(rows: seq<Attempt>, r: Round): seq<Candidate>
    requires Legal(rows, r)
  {
    Select(rows, r.window, r.quarantined, r.limit)
  }

  function Play(rows: seq<Attempt>, r: Round): (after: seq<Attempt>)
    requires Legal(rows, r)
    ensures |after| == |rows|
  {
    seq(|rows|, i requires 0 <= i < |rows| => NewRow(rows[i], i, Registered(rows, r), r))
  }

  predicate LegalRun(rows: seq<Attempt>, rounds: seq<Round>)
    decreases |rounds|
  {
    rounds != [] ==> Legal(rows, rounds[0]) && LegalRun(Play(rows, rounds[0]), rounds[1..])
  }

  // ----- What the selection has taken -----

  /** Every item comes from a row of the order, for a reason; every taken resource has a final item. */
  ghost predicate Owned(rows: seq<Attempt>, window: seq<nat>, quarantined: set<nat>, ordered: seq<nat>, sel: Selection)
  {
    && (forall c | c in sel.items ::
          && c.attempt in ordered && c.attempt < |rows| && !Skipped(rows, quarantined, c.attempt)
          && (c.kind == StageItem ==> !rows[c.attempt].stage.completed)
          && (c.kind == ConfirmationItem ==> ConfirmationReady(rows[c.attempt]))
          && (c.kind == FinalItem ==>
                && WantsFinal(rows, window, quarantined, c.attempt) && rows[c.attempt].resource in sel.finals
                && (!rows[c.attempt].stage.completed ==> Candidate(c.attempt, StageItem) in sel.items)))
    && (forall f | f in sel.finals ::
          exists j: nat :: Candidate(j, FinalItem) in sel.items && j < |rows| && rows[j].resource == f)
  }

  lemma ConsiderOwns(rows: seq<Attempt>, window: seq<nat>, quarantined: set<nat>, ordered: seq<nat>, i: nat,
                     sel: Selection)
    requires Owned(rows, window, quarantined, ordered, sel) && i < |rows|
    ensures Owned(rows, window, quarantined, ordered + [i], Consider(rows, window, quarantined, i, sel))
  {
    ItemsAre(rows, window, quarantined, i, sel.finals);
    hide WantsFinal, ConfirmationReady, Skipped, ItemsOf;
    var next := Consider(rows, window, quarantined, i, sel);
    forall f | f in next.finals
      ensures exists j: nat :: Candidate(j, FinalItem) in next.items && j < |rows| && rows[j].resource == f
    {
      if f in sel.finals {
        var j: nat :| Candidate(j, FinalItem) in sel.items && j < |rows| && rows[j].resource == f;
        assert Candidate(j, FinalItem) in next.items;
      } else {
        assert Candidate(i, FinalItem) in next.items;
      }
    }
  }

  lemma {:induction false} SelectionOwns(rows: seq<Attempt>, window: seq<nat>, quarantined: set<nat>, limit: nat,
                                         ordered: seq<nat>)
    requires Within(rows, ordered)
    ensures Owned(rows, window, quarantined, ordered, SelectFrom(rows, window, quarantined, limit, ordered))
  {
    if ordered != [] {
      var n := |ordered| - 1;
      assert ordered == ordered[..n] + [ordered[n]];
      SelectionOwns(rows, window, quarantined, limit, ordered[..n]);
      var sel := SelectFrom(rows, window, quarantined, limit, ordered[..n]);
      ConsiderOwns(rows, window, quarantined, ordered[..n], ordered[n], sel);
      hide WantsFinal, ConfirmationReady, Consider;
    }
  }

  /** A longer prefix of the order has taken whatever a shorter one has. */
  lemma {:induction false} SelectionGrows(rows: seq<Attempt>, window: seq<nat>, quarantined: set<nat>, limit: nat,
                                          ordered: seq<nat>, k: nat)
    requires Within(rows, ordered) && k <= |ordered|
    ensures var now := SelectFrom(rows, window, quarantined, limit, ordered[..k]);
            var end := SelectFrom(rows, window, quarantined, limit, ordered);
            && now.attempts <= end.attempts && now.finals <= end.finals
            && forall c | c in now.items :: c in end.items
    decreases |ordered|
  {
    if k == |ordered| {
      assert ordered[..k] == ordered;
    } else {
      var n := |ordered| - 1;
      assert ordered[..n][..k] == ordered[..k];
      SelectionGrows(rows, window, quarantined, limit, ordered[..n], k);
      hide ItemsOf;
    }
  }

  /** Whatever was taken, some reached row had items. */
  lemma {:induction false} SomeTaken(rows: seq<Attempt>, window: seq<nat>, quarantined: set<nat>, limit: nat,
                                     ordered: seq<nat>) returns (m: nat)
    requires Within(rows, ordered) && SelectFrom(rows, window, quarantined, limit, ordered).attempts > 0
    ensures m < |ordered| && Reached(rows, window, quarantined, limit, ordered, m)
            && !Skipped(rows, quarantined, ordered[m])
  {
    var n := |ordered| - 1;
    var sel := SelectFrom(rows, window, quarantined, limit, ordered[..n]);
    if sel.attempts > 0 {
      m := SomeTaken(rows, window, quarantined, limit, ordered[..n]);
      assert ordered[..n][..m] == ordered[..m];
    } else {
      m := n;
    }
  }

  lemma ItemsAre(rows: seq<Attempt>, window: seq<nat>, quarantined: set<nat>, i: nat, finals: set<nat>)
    requires i < |rows|
    ensures var items := ItemsOf(rows, window, quarantined, i, finals);
            && (Candidate(i, StageItem) in items <==> !Skipped(rows, quarantined, i) && !rows[i].stage.completed)
            && (Candidate(i, FinalItem) in items <==>
                  !Skipped(rows, quarantined, i) && WantsFinal(rows, window, quarantined, i)
                    && rows[i].resource !in finals)
            && (Candidate(i, ConfirmationItem) in items
                <==> !Skipped(rows, quarantined, i) && ConfirmationReady(rows[i]))
            && (forall c | c in items :: c.attempt == i)
  {
    ReadyWantsNothing(rows, window, quarantined, i);
    hide Skipped, WantsFinal, ConfirmationReady;
  }

  lemma ReadyWantsNothing(rows: seq<Attempt>, window: seq<nat>, quarantined: set<nat>, i: nat)
    requires i < |rows|
    ensures ConfirmationReady(rows[i]) ==> rows[i].stage.completed && !WantsFinal(rows, window, quarantined, i)
  {
  }

  /** The loop arrives at position `k` with room left. */
  predicate Reached(rows: seq<Attempt>, window: seq<nat>, quarantined: set<nat>, limit: nat, ordered: seq<nat>, k: nat)
    requires Within(rows, ordered)
  {
    k < |ordered| && SelectFrom(rows, window, quarantined, limit, ordered[..k]).attempts < limit
  }

  lemma ReachedAdds(rows: seq<Attempt>, window: seq<nat>, quarantined: set<nat>, limit: nat, ordered: seq<nat>, k: nat)
    requires Within(rows, ordered) && Reached(rows, window, quarantined, limit, ordered, k)
    ensures var sel := SelectFrom(rows, window, quarantined, limit, ordered[..k]);
            var end := SelectFrom(rows, window, quarantined, limit, ordered);
            && (forall c | c in sel.items :: c in end.items)
            && (!Skipped(rows, quarantined, ordered[k]) ==>
                  && (!rows[ordered[k]].stage.completed ==> Candidate(ordered[k], StageItem) in end.items)
                  && (WantsFinal(rows, window, quarantined, ordered[k]) && rows[ordered[k]].resource !in sel.finals ==>
                        Candidate(ordered[k], FinalItem) in end.items))
  {
    hide WantsFinal, Skipped, ConfirmationReady;
    var sel := SelectFrom(rows, window, quarantined, limit, ordered[..k]);
    ItemsAre(rows, window, quarantined, ordered[k], sel.finals);
    SelectionGrows(rows, window, quarantined, limit, ordered, k + 1);
    assert ordered[..k + 1][..k] == ordered[..k];
    hide ItemsOf;
  }

  // ----- Progress -----

  /** What is left of a surface before it has been tried more than `bound` times. */
  function SurfaceWeight(h: History, bound: nat): nat
  {
    if h.completed then 0 else if StateOf(h) == Untried then bound + 2 else if h.blocked <= bound
       then bound + 1 - h.blocked else 0
  }

  function RowWeight(a: Attempt, bound: nat): (w: nat)
    ensures w <= 2 * (bound + 2)
  {
    SurfaceWeight(a.stage, bound) + (if a.manifest == Valid then SurfaceWeight(a.final, bound) else 0)
  }

  function Weight(rows: seq<Attempt>, bound: nat): nat
  {
    if rows == [] then 0 else RowWeight(rows[0], bound) + Weight(rows[1..], bound)
  }

  /** An item on a surface that has been tried at most `bound` times. */
  predicate Useful(rows: seq<Attempt>, c: Candidate, bound: nat)
  {
    && c.attempt < |rows|
    && var a := rows[c.attempt];
       || (c.kind == StageItem && !a.stage.completed && a.stage.blocked <= bound)
       || (c.kind == FinalItem && a.manifest == Valid && !a.final.completed && a.final.blocked <= bound)
  }

  predicate Progress(rows: seq<Attempt>, items: seq<Candidate>, bound: nat)
  {
    exists c | c in items :: Useful(rows, c, bound)
  }

  /** A scanned row that still has work, and has been tried at most `bound` times. */
  predicate Waiting(rows: seq<Attempt>, r: Round, x: nat, bound: nat)
  {
    && x < |rows| && x in r.window && !Skipped(rows, r.quarantined, x)
    && RankOf(rows[x]).lane <= 1 && RankOf(rows[x]).count <= bound
  }

  lemma InOrder(rows: seq<Attempt>, window: seq<nat>, x: nat) returns (k: nat)
    requires Within(rows, window) && x in window
    ensures var ordered := SortByRank(rows, window); k < |ordered| && ordered[k] == x
  {
    k :| 0 <= k < |SortByRank(rows, window)| && SortByRank(rows, window)[k] == x;
  }

  /** The attempt whose final item has taken a resource comes earlier in the order. */
  lemma OwnerOf(rows: seq<Attempt>, r: Round, ordered: seq<nat>, k: nat, f: nat) returns (j: nat)
    requires Within(rows, ordered) && Ranked(rows, ordered) && k < |ordered|
    requires f in SelectFrom(rows, r.window, r.quarantined, r.limit, ordered[..k]).finals
    ensures var sel := SelectFrom(rows, r.window, r.quarantined, r.limit, ordered[..k]);
            && j < |rows| && NotAfter(rows, j, ordered[k]) && rows[j].resource == f
            && Candidate(j, FinalItem) in sel.items && WantsFinal(rows, r.window, r.quarantined, j)
            && (!rows[j].stage.completed ==> Candidate(j, StageItem) in sel.items)
  {
    hide WantsFinal, NotAfter, SelectFrom;
    SelectionOwns(rows, r.window, r.quarantined, r.limit, ordered[..k]);
    var sel := SelectFrom(rows, r.window, r.quarantined, r.limit, ordered[..k]);
    j :| Candidate(j, FinalItem) in sel.items && j < |rows| && rows[j].resource == f;
    var m :| 0 <= m < k && ordered[..k][m] == j;
  }

  /** An attempt whose final item is registered and that is not after `bound` makes progress. */
  lemma OwnerIsUseful(rows: seq<Attempt>, window: seq<nat>, quarantined: set<nat>, j: nat, items: seq<Candidate>,
                      bound: nat)
    requires j < |rows| && RankOf(rows[j]).lane <= 1 && RankOf(rows[j]).count <= bound
    requires Candidate(j, FinalItem) in items && WantsFinal(rows, window, quarantined, j)
    requires !rows[j].stage.completed ==> Candidate(j, StageItem) in items
    ensures Progress(rows, items, bound)
  {
    var s, f := Candidate(j, StageItem), Candidate(j, FinalItem);
    assert Useful(rows, f, bound) || (s in items && Useful(rows, s, bound));
  }

  /** A reached row with an untried surface registers it, unless a sibling just did. */
  lemma UntriedProgresses(rows: seq<Attempt>, r: Round, ordered: seq<nat>, k: nat, bound: nat)
    requires Within(rows, ordered) && Ranked(rows, ordered)
    requires Reached(rows, r.window, r.quarantined, r.limit, ordered, k) && !Skipped(rows, r.quarantined, ordered[k])
    requires RankOf(rows[ordered[k]]).lane == 0
    ensures Progress(rows, SelectFrom(rows, r.window, r.quarantined, r.limit, ordered).items, bound)
  {
    var x := ordered[k];
    var sel := SelectFrom(rows, r.window, r.quarantined, r.limit, ordered[..k]);
    var end := SelectFrom(rows, r.window, r.quarantined, r.limit, ordered).items;
    ReachedAdds(rows, r.window, r.quarantined, r.limit, ordered, k);
    hide SelectFrom, Ranked, ItemsOf, Progress, Reached;
    if StateOf(rows[x].stage) == Untried {
      assert Candidate(x, StageItem) in end && Useful(rows, Candidate(x, StageItem), bound);
    } else if rows[x].resource in sel.finals {
      var j := OwnerOf(rows, r, ordered, k, rows[x].resource);
      OwnerIsUseful(rows, r.window, r.quarantined, j, end, bound);
    } else {
      assert Candidate(x, FinalItem) in end && Useful(rows, Candidate(x, FinalItem), bound);
    }
  }

  lemma LanesAscend(rows: seq<Attempt>, ordered: seq<nat>, k: nat, m: nat)
    requires Within(rows, ordered) && Ranked(rows, ordered) && m < |ordered| && k < |ordered|
    ensures k <= m ==> RankOf(rows[ordered[k]]).lane <= RankOf(rows[ordered[m]]).lane
  {
    assert k < m ==> NotAfter(rows, ordered[k], ordered[m]);
  }

  /** A sibling with an untried final surface comes first. */
  lemma SiblingProgresses(rows: seq<Attempt>, r: Round, ordered: seq<nat>, k: nat, bound: nat)
    requires Legal(rows, r) && Within(rows, ordered) && Ranked(rows, ordered)
             && forall i | i in r.window :: i in ordered
    requires Reached(rows, r.window, r.quarantined, r.limit, ordered, k) && RankOf(rows[ordered[k]]).lane == 1
    requires UntriedSibling(rows, r.window, rows[ordered[k]].resource)
    ensures Progress(rows, SelectFrom(rows, r.window, r.quarantined, r.limit, ordered).items, bound)
  {
    hide Progress, SelectFrom, Ranked;
    var w :| w in r.window && w < |rows| && rows[w].resource == rows[ordered[k]].resource && UntriedFinal(rows[w]);
    var m :| 0 <= m < |ordered| && ordered[m] == w;
    LanesAscend(rows, ordered, k, m);
    SelectionGrows(rows, r.window, r.quarantined, r.limit, ordered[..k], m);
    assert ordered[..k][..m] == ordered[..m];
    UntriedProgresses(rows, r, ordered, m, bound);
  }

  /** A reached row that has been blocked registers the surface that ranks it, unless a sibling that is
      not after it did. */
  lemma BlockedProgresses(rows: seq<Attempt>, r: Round, ordered: seq<nat>, k: nat, bound: nat)
    requires Legal(rows, r) && Within(rows, ordered) && Ranked(rows, ordered)
             && forall i | i in r.window :: i in ordered
    requires Reached(rows, r.window, r.quarantined, r.limit, ordered, k) && !Skipped(rows, r.quarantined, ordered[k])
    requires RankOf(rows[ordered[k]]).lane == 1 && RankOf(rows[ordered[k]]).count <= bound
    ensures Progress(rows, SelectFrom(rows, r.window, r.quarantined, r.limit, ordered).items, bound)
  {
    var x := ordered[k];
    var sel := SelectFrom(rows, r.window, r.quarantined, r.limit, ordered[..k]);
    var end := SelectFrom(rows, r.window, r.quarantined, r.limit, ordered).items;
    ReachedAdds(rows, r.window, r.quarantined, r.limit, ordered, k);
    hide SelectFrom, Ranked, ItemsOf, Progress, Reached, Legal, UntriedSibling, NotAfter;
    if !(rows[x].manifest == Valid && StateOf(rows[x].final) == Blocked) {
      StageProgresses(rows, end, x, bound);
    } else if UntriedSibling(rows, r.window, rows[x].resource) {
      SiblingProgresses(rows, r, ordered, k, bound);
    } else if rows[x].resource in sel.finals {
      var j := OwnerOf(rows, r, ordered, k, rows[x].resource);
      EarlierIsLower(rows, j, x);
      OwnerIsUseful(rows, r.window, r.quarantined, j, end, bound);
    } else {
      OwnerIsUseful(rows, r.window, r.quarantined, x, end, bound);
    }
  }

  lemma EarlierIsLower(rows: seq<Attempt>, j: nat, x: nat)
    requires j < |rows| && x < |rows| && NotAfter(rows, j, x) && RankOf(rows[x]).lane == 1
    ensures RankOf(rows[j]).lane <= 1 && RankOf(rows[j]).count <= RankOf(rows[x]).count
  {
  }

  lemma StageProgresses(rows: seq<Attempt>, items: seq<Candidate>, x: nat, bound: nat)
    requires x < |rows| && RankOf(rows[x]).lane == 1 && RankOf(rows[x]).count <= bound
    requires !(rows[x].manifest == Valid && StateOf(rows[x].final) == Blocked)
    requires !rows[x].stage.completed ==> Candidate(x, StageItem) in items
    ensures Progress(rows, items, bound)
  {
    assert Useful(rows, Candidate(x, StageItem), bound);
  }

  /** As long as a scanned row waits, every round tries some surface that was tried at most as often. */
  lemma RoundProgresses(rows: seq<Attempt>, r: Round, x: nat, bound: nat)
    requires Legal(rows, r) && Waiting(rows, r, x, bound)
    ensures Progress(rows, Registered(rows, r), bound)
  {
    var ordered := SortByRank(rows, r.window);
    SortRanks(rows, r.window);
    var k := InOrder(rows, r.window, x);
    hide SortByRank, Progress;
    var m := k;
    if !Reached(rows, r.window, r.quarantined, r.limit, ordered, k) {
      m := SomeTaken(rows, r.window, r.quarantined, r.limit, ordered[..k]);
      assert ordered[..k][..m] == ordered[..m];
      assert NotAfter(rows, ordered[m], ordered[k]);
    }
    hide SelectFrom;
    if RankOf(rows[ordered[m]]).lane == 0 {
      UntriedProgresses(rows, r, ordered, m, bound);
    } else {
      BlockedProgresses(rows, r, ordered, m, bound);
    }
  }

  // ----- The weight -----

  lemma RowNeverGains(a: Attempt, i: nat, items: seq<Candidate>, r: Round, bound: nat)
    requires Candidate(i, ConfirmationItem) in items ==> ConfirmationReady(a)
    ensures RowWeight(NewRow(a, i, items, r), bound) <= RowWeight(a, bound)
    ensures (Candidate(i, StageItem) in items && !a.stage.completed && a.stage.blocked <= bound)
            || (Candidate(i, FinalItem) in items && a.manifest == Valid && !a.final.completed
                && a.final.blocked <= bound)
            ==> RowWeight(NewRow(a, i, items, r), bound) < RowWeight(a, bound)
  {
  }

  lemma RowGains(rows: seq<Attempt>, items: seq<Candidate>, r: Round, i: nat, bound: nat)
    requires i < |rows| && (Candidate(i, ConfirmationItem) in items ==> ConfirmationReady(rows[i]))
    ensures var after := NewRow(rows[i], i, items, r);
            && RowWeight(after, bound) <= RowWeight(rows[i], bound)
            && ((exists c :: c in items && c.attempt == i && Useful(rows, c, bound))
                ==> RowWeight(after, bound) < RowWeight(rows[i], bound))
  {
    RowNeverGains(rows[i], i, items, r, bound);
    hide NewRow, RowWeight, ConfirmationReady;
    if c :| c in items && c.attempt == i && Useful(rows, c, bound) {
      assert c == Candidate(i, c.kind);
    }
  }

  lemma {:induction false} WeightCompares(before: seq<Attempt>, after: seq<Attempt>, bound: nat, x: nat)
    requires |before| == |after|
             && forall i | 0 <= i < |before| :: RowWeight(after[i], bound) <= RowWeight(before[i], bound)
    ensures Weight(after, bound) <= Weight(before, bound)
    ensures x < |before| && RowWeight(after[x], bound) < RowWeight(before[x], bound)
            ==> Weight(after, bound) < Weight(before, bound)
  {
    hide RowWeight;
    if before != [] {
      WeightCompares(before[1..], after[1..], bound, if x == 0 then |before| else x - 1);
    }
  }

  lemma {:induction false} WeightBound(rows: seq<Attempt>, bound: nat)
    ensures Weight(rows, bound) <= 2 * (bound + 2) * |rows|
  {
    if rows != [] {
      WeightBound(rows[1..], bound);
      hide RowWeight;
      assert 2 * (bound + 2) * |rows| == 2 * (bound + 2) * (|rows| - 1) + 2 * (bound + 2);
    }
  }

  lemma RoundLowers(rows: seq<Attempt>, r: Round, x: nat, bound: nat)
    requires Legal(rows, r)
    ensures Weight(Play(rows, r), bound) <= Weight(rows, bound)
    ensures Waiting(rows, r, x, bound) ==> Weight(Play(rows, r), bound) < Weight(rows, bound)
  {
    hide SelectFrom, SortByRank, WantsFinal, ConfirmationReady, RowWeight, Weight, NewRow, Useful, Waiting;
    var items, after := Registered(rows, r), Play(rows, r);
    SelectionOwns(rows, r.window, r.quarantined, r.limit, SortByRank(rows, r.window));
    forall i | 0 <= i < |rows|
      ensures RowWeight(after[i], bound) <= RowWeight(rows[i], bound)
      ensures (exists c :: c in items && c.attempt == i && Useful(rows, c, bound))
              ==> RowWeight(after[i], bound) < RowWeight(rows[i], bound)
    {
      RowGains(rows, items, r, i, bound);
    }
    WeightCompares(rows, after, bound, 0);
    if Waiting(rows, r, x, bound) {
      RoundProgresses(rows, r, x, bound);
      var c :| c in items && Useful(rows, c, bound);
      WeightCompares(rows, after, bound, c.attempt);
    }
  }

  // ----- No starvation -----

  /** In how many rounds the row is scanned while it has been tried at most `bound` times. */
  function Waits(rows: seq<Attempt>, rounds: seq<Round>, x: nat, bound: nat): nat
    requires LegalRun(rows, rounds)
    decreases |rounds|
  {
    if rounds == [] then 0
    else (if Waiting(rows, rounds[0], x, bound) then 1 else 0) + Waits(Play(rows, rounds[0]), rounds[1..], x, bound)
  }

  lemma {:induction false} WaitsUseWeight(rows: seq<Attempt>, rounds: seq<Round>, x: nat, bound: nat)
    requires LegalRun(rows, rounds)
    ensures Waits(rows, rounds, x, bound) <= Weight(rows, bound)
    decreases |rounds|
  {
    hide Waiting, Weight, Play, Legal;
    if rounds != [] {
      RoundLowers(rows, rounds[0], x, bound);
      WaitsUseWeight(Play(rows, rounds[0]), rounds[1..], x, bound);
    }
  }

  /** Fairness: over any rounds, with any windows and any outcomes, a row is scanned only a bounded
      number of times before it has been tried more than `bound` times or has no work left. */
  lemma ScannedRowsAreTried(rows: seq<Attempt>, rounds: seq<Round>, x: nat, bound: nat)
    requires LegalRun(rows, rounds)
    ensures Waits(rows, rounds, x, bound) <= 2 * (bound + 2) * |rows|
  {
    WaitsUseWeight(rows, rounds, x, bound);
    WeightBound(rows, bound);
  }

  /** The surface that gives a row its rank. */
  function RankingSurface(a: Attempt): Kind
  {
    if StateOf(a.stage) != Untried && a.manifest == Valid && StateOf(a.final) != Completed then FinalItem else StageItem
  }

  /** Every round scans the row, and it is not quarantined away. */
  predicate Scanned(rows: seq<Attempt>, rounds: seq<Round>, x: nat)
    requires LegalRun(rows, rounds)
    decreases |rounds|
  {
    rounds != [] ==>
      && x < |rows| && x in rounds[0].window && !Skipped(rows, rounds[0].quarantined, x)
      && Scanned(Play(rows, rounds[0]), rounds[1..], x)
  }

  /** Some round registers the item. */
  predicate Registers(rows: seq<Attempt>, rounds: seq<Round>, c: Candidate)
    requires LegalRun(rows, rounds)
    decreases |rounds|
  {
    rounds != [] && (c in Registered(rows, rounds[0]) || Registers(Play(rows, rounds[0]), rounds[1..], c))
  }

  lemma UnregisteredKeepsRank(rows: seq<Attempt>, r: Round, x: nat)
    requires Legal(rows, r) && x < |rows| && RankOf(rows[x]).lane <= 1
    requires Candidate(x, RankingSurface(rows[x])) !in Registered(rows, r)
    ensures var after := Play(rows, r)[x];
            && RankOf(after).lane == RankOf(rows[x]).lane && RankOf(after).count == RankOf(rows[x]).count
            && RankingSurface(after) == RankingSurface(rows[x])
  {
    SelectionOwns(rows, r.window, r.quarantined, r.limit, SortByRank(rows, r.window));
    hide SelectFrom, SortByRank, WantsFinal;
  }

  lemma {:induction false} UnregisteredWaits(rows: seq<Attempt>, rounds: seq<Round>, x: nat)
    requires LegalRun(rows, rounds) && Scanned(rows, rounds, x) && x < |rows| && RankOf(rows[x]).lane <= 1
    requires !Registers(rows, rounds, Candidate(x, RankingSurface(rows[x])))
    ensures Waits(rows, rounds, x, RankOf(rows[x]).count) == |rounds|
    decreases |rounds|
  {
    hide Play, RankOf, RankingSurface, Registered, Legal, Skipped;
    if rounds != [] {
      UnregisteredKeepsRank(rows, rounds[0], x);
      UnregisteredWaits(Play(rows, rounds[0]), rounds[1..], x);
    }
  }

  /** No starvation: a row whose stage, or final surface with a valid manifest, has work left and that is
      scanned often enough, for a bound that depends only on its own count and on the number of rows, is
      registered for the surface that ranks it.  All else ranks last, in lane 2: see `ConfirmationRetry`. */
  lemma NoRowIsStarved(rows: seq<Attempt>, rounds: seq<Round>, x: nat)
    requires LegalRun(rows, rounds) && Scanned(rows, rounds, x) && x < |rows| && RankOf(rows[x]).lane <= 1
    requires |rounds| > 2 * (RankOf(rows[x]).count + 2) * |rows|
    ensures Registers(rows, rounds, Candidate(x, RankingSurface(rows[x])))
  {
    if !Registers(rows, rounds, Candidate(x, RankingSurface(rows[x]))) {
      UnregisteredWaits(rows, rounds, x);
      ScannedRowsAreTried(rows, rounds, x, RankOf(rows[x]).count);
    }
  }

  // ----- What one operation registers -----

  /** At most `limit` attempts, all of them scanned, and at most one final item for each resource. */
  lemma RegistrationIsBounded(rows: seq<Attempt>, r: Round)
    requires Legal(rows, r)
    ensures var items := Registered(rows, r);
            && (forall c | c in items :: c.attempt in r.window)
            && |set c | c in items :: c.attempt| <= r.limit
            && forall i: nat, j: nat | i < |rows| && j < |rows| && rows[i].resource == rows[j].resource
                             && Candidate(i, FinalItem) in items && Candidate(j, FinalItem) in items :: i == j
  {
    var ordered := SortByRank(rows, r.window);
    SelectionOwns(rows, r.window, r.quarantined, r.limit, ordered);
    AttemptsAreCounted(rows, r, ordered);
    hide SelectFrom, SortByRank, WantsFinal, ConfirmationReady;
  }

  lemma {:induction false} AttemptsAreCounted(rows: seq<Attempt>, r: Round, ordered: seq<nat>)
    requires Within(rows, ordered)
    ensures var sel := SelectFrom(rows, r.window, r.quarantined, r.limit, ordered);
            && |set c | c in sel.items :: c.attempt| <= sel.attempts <= r.limit
            && forall i: nat, j: nat | i < |rows| && j < |rows| && rows[i].resource == rows[j].resource
                             && Candidate(i, FinalItem) in sel.items && Candidate(j, FinalItem) in sel.items :: i == j
  {
    if ordered != [] {
      var n := |ordered| - 1;
      AttemptsAreCounted(rows, r, ordered[..n]);
      SelectionOwns(rows, r.window, r.quarantined, r.limit, ordered[..n]);
      var sel := SelectFrom(rows, r.window, r.quarantined, r.limit, ordered[..n]);
      ItemsAre(rows, r.window, r.quarantined, ordered[n], sel.finals);
      hide SelectFrom, ItemsOf, WantsFinal, ConfirmationReady;
      if sel.attempts < r.limit {
        var items := ItemsOf(rows, r.window, r.quarantined, ordered[n], sel.finals);
        var before, after := set c | c in sel.items :: c.attempt, set c | c in sel.items + items :: c.attempt;
        assert after <= before + {ordered[n]} && (items == [] ==> after == before);
        SetSize(after, before, ordered[n], items == []);
      }
    }
  }

  lemma SetSize(after: set<nat>, before: set<nat>, x: nat, same: bool)
    requires after <= before + {x} && (same ==> after == before)
    ensures |after| <= |before| + if same then 0 else 1
  {
    var wider := before + {x};
    assert wider == after + (wider - after);
  }
}
