/** Exactly when the selection registers an item of a scanned attempt.  Confirmation retries, and final
    surfaces with an invalid manifest behind a completed stage, rank after every attempt with other work
    left, so that the fairness of the selection does not reach them. */
module ConfirmationRetry {
  import opened CandidateSelection
  import opened SelectionFairness

  // ----- Exactly when an item is registered -----

  /** Whether row `i` takes one of the operation's places when the rows of `before` rank ahead of it: it
      has an unfinished stage, is ready for confirmation, or wants its final surface before any sibling. */
  predicate TakesPlace(rows: seq<Attempt>, r: Round, before: seq<nat>, i: nat)
    requires Within(rows, before) && i < |rows|
  {
    && !Skipped(rows, r.quarantined, i)
    && (|| !rows[i].stage.completed
        || ConfirmationReady(rows[i])
        || (WantsFinal(rows, r.window, r.quarantined, i) && !FinalAmong(rows, r, before, rows[i].resource)))
  }

  predicate FinalAmong(rows: seq<Attempt>, r: Round, before: seq<nat>, resource: nat)
    requires Within(rows, before)
  {
    exists k | 0 <= k < |before| ::
      rows[before[k]].resource == resource && !Skipped(rows, r.quarantined, before[k])
      && WantsFinal(rows, r.window, r.quarantined, before[k])
  }

  /** How many places the given rows take, in their order. */
  function Places(rows: seq<Attempt>, r: Round, ordered: seq<nat>): nat
    requires Within(rows, ordered)
  {
    if ordered == [] then 0
    else
      var n := |ordered| - 1;
      Places(rows, r, ordered[..n]) + (if TakesPlace(rows, r, ordered[..n], ordered[n]) then 1 else 0)
  }

  lemma ItemsOrPlace(rows: seq<Attempt>, r: Round, before: seq<nat>, i: nat, finals: set<nat>)
    requires Within(rows, before) && i < |rows|
    requires forall f :: f in finals <==> FinalAmong(rows, r, before, f)
    ensures ItemsOf(rows, r.window, r.quarantined, i, finals) != [] <==> TakesPlace(rows, r, before, i)
  {
    ItemsAre(rows, r.window, r.quarantined, i, finals);
    hide FinalAmong;
    if ConfirmationReady(rows[i]) && !Skipped(rows, r.quarantined, i) {
      assert !WantsFinal(rows, r.window, r.quarantined, i);
    }
  }

  lemma FinalAmongMore(rows: seq<Attempt>, r: Round, before: seq<nat>, i: nat, f: nat)
    requires Within(rows, before) && i < |rows|
    ensures FinalAmong(rows, r, before + [i], f)
            <==> FinalAmong(rows, r, before, f)
                 || (rows[i].resource == f && !Skipped(rows, r.quarantined, i)
                     && WantsFinal(rows, r.window, r.quarantined, i))
  {
    hide Skipped, WantsFinal;
    var all := before + [i];
    assert all[|before|] == i && forall k | 0 <= k < |before| :: all[k] == before[k];
  }

  /** Up to the limit, the selection takes exactly the places, and the finals are those wanted so far. */
  lemma {:induction false} SelectionTakesPlaces(rows: seq<Attempt>, r: Round, ordered: seq<nat>)
    requires Within(rows, ordered)
    ensures var sel := SelectFrom(rows, r.window, r.quarantined, r.limit, ordered);
            && sel.attempts == (if Places(rows, r, ordered) < r.limit then Places(rows, r, ordered) else r.limit)
            && (sel.attempts < r.limit ==> forall f :: f in sel.finals <==> FinalAmong(rows, r, ordered, f))
  {
    if ordered != [] {
      var n := |ordered| - 1;
      var i, before := ordered[n], ordered[..n];
      assert ordered == before + [i];
      SelectionTakesPlaces(rows, r, before);
      var sel := SelectFrom(rows, r.window, r.quarantined, r.limit, before);
      hide TakesPlace, FinalAmong;
      if sel.attempts < r.limit {
        ItemsOrPlace(rows, r, before, i, sel.finals);
        ItemsAre(rows, r.window, r.quarantined, i, sel.finals);
        FinalsGrow(rows, r, before, i, sel);
      }
      hide ItemsOf, SelectFrom;
    }
  }

  lemma FinalsGrow(rows: seq<Attempt>, r: Round, before: seq<nat>, i: nat, sel: Selection)
    requires Within(rows, before) && i < |rows| && forall f :: f in sel.finals <==> FinalAmong(rows, r, before, f)
    ensures forall f ::
              f in Consider(rows, r.window, r.quarantined, i, sel).finals <==> FinalAmong(rows, r, before + [i], f)
  {
    ItemsAre(rows, r.window, r.quarantined, i, sel.finals);
    hide ItemsOf, FinalAmong, Skipped, WantsFinal;
    forall f ensures f in Consider(rows, r.window, r.quarantined, i, sel).finals
      <==> FinalAmong(rows, r, before + [i], f) {
      FinalAmongMore(rows, r, before, i, f);
    }
  }

  /** The rows that rank ahead of `x`. */
  function Ahead(ordered: seq<nat>, x: nat): (before: seq<nat>)
    ensures |before| <= |ordered| && before == ordered[..|before|] && x !in before
    ensures x in ordered <==> |before| < |ordered|
    ensures x in ordered ==> ordered[|before|] == x
  {
    if ordered == [] then []
    else if ordered[0] == x then [] else
      assert ordered == [ordered[0]] + ordered[1..];
      [ordered[0]] + Ahead(ordered[1..], x)
  }

  /** The row has that item to register, when the rows of `before` rank ahead of it. */
  predicate Wanted(rows: seq<Attempt>, r: Round, before: seq<nat>, c: Candidate)
    requires Within(rows, before) && c.attempt < |rows|
  {
    match c.kind
    case StageItem => !rows[c.attempt].stage.completed
    case FinalItem =>
      && WantsFinal(rows, r.window, r.quarantined, c.attempt)
      && !FinalAmong(rows, r, before, rows[c.attempt].resource)
    case ConfirmationItem => ConfirmationReady(rows[c.attempt])
  }

  /** The row is scanned and has that item to register, and the rows ahead of it leave a place. */
  predicate Admitted(rows: seq<Attempt>, r: Round, c: Candidate)
    requires Legal(rows, r)
  {
    && c.attempt in r.window && c.attempt < |rows| && !Skipped(rows, r.quarantined, c.attempt)
    && var ahead := Ahead(SortByRank(rows, r.window), c.attempt);
       Within(rows, ahead) && Wanted(rows, r, ahead, c) && Places(rows, r, ahead) < r.limit
  }

  lemma WantedIs(rows: seq<Attempt>, r: Round, before: seq<nat>, c: Candidate, finals: set<nat>)
    requires Within(rows, before) && c.attempt < |rows|
    requires forall f :: f in finals <==> FinalAmong(rows, r, before, f)
    ensures c in ItemsOf(rows, r.window, r.quarantined, c.attempt, finals)
            <==> !Skipped(rows, r.quarantined, c.attempt) && Wanted(rows, r, before, c)
  {
    hide ItemsOf, Skipped, WantsFinal, ConfirmationReady, FinalAmong;
    ItemsAre(rows, r.window, r.quarantined, c.attempt, finals);
    match c.kind
    case StageItem => assert c == Candidate(c.attempt, StageItem);
    case FinalItem => assert c == Candidate(c.attempt, FinalItem);
    case ConfirmationItem => assert c == Candidate(c.attempt, ConfirmationItem);
  }

  /** For every operation, every scanned row and every kind of item: the item is registered if and only if
      the row has it to register and fewer than `limit` places are taken by the rows that rank ahead. */
  lemma RegisteredExactly(rows: seq<Attempt>, r: Round, c: Candidate)
    requires Legal(rows, r)
    ensures c in Registered(rows, r) <==> Admitted(rows, r, c)
  {
    hide SortByRank, Places, Wanted, ConfirmationReady, Skipped, WantsFinal, SelectFrom, FinalAmong, ItemsOf,
         TakesPlace;
    var ordered := SortByRank(rows, r.window);
    var ahead := Ahead(ordered, c.attempt);
    AheadIsPrefix(rows, ordered, c.attempt);
    SelectionTakesPlaces(rows, r, ahead);
    if c in Registered(rows, r) {
      RegisteredIsReached(rows, r, ordered, c);
      WantedIs(rows, r, ahead, c, SelectFrom(rows, r.window, r.quarantined, r.limit, ahead).finals);
    }
    if Admitted(rows, r, c) {
      WantedIs(rows, r, ahead, c, SelectFrom(rows, r.window, r.quarantined, r.limit, ahead).finals);
      ReachedIsRegistered(rows, r, ordered, c);
    }
  }

  lemma AheadIsPrefix(rows: seq<Attempt>, ordered: seq<nat>, x: nat)
    requires Within(rows, ordered)
    ensures Within(rows, Ahead(ordered, x))
  {
    var before := Ahead(ordered, x);
    assert forall k | 0 <= k < |before| :: before[k] == ordered[k];
  }

  /** With fewer resources taken, a row has no fewer items. */
  lemma FewerFinals(rows: seq<Attempt>, r: Round, c: Candidate, finals: set<nat>, more: set<nat>)
    requires c.attempt < |rows| && finals <= more && c in ItemsOf(rows, r.window, r.quarantined, c.attempt, more)
    ensures c in ItemsOf(rows, r.window, r.quarantined, c.attempt, finals)
  {
    hide ItemsOf, Skipped, WantsFinal, ConfirmationReady;
    ItemsAre(rows, r.window, r.quarantined, c.attempt, finals);
    ItemsAre(rows, r.window, r.quarantined, c.attempt, more);
    match c.kind
    case StageItem => assert c == Candidate(c.attempt, StageItem);
    case FinalItem => assert c == Candidate(c.attempt, FinalItem);
    case ConfirmationItem => assert c == Candidate(c.attempt, ConfirmationItem);
  }

  /** What was registered for a row was to be had when the row first came. */
  lemma RegisteredIsReached(rows: seq<Attempt>, r: Round, ordered: seq<nat>, c: Candidate)
    requires Within(rows, ordered) && c in SelectFrom(rows, r.window, r.quarantined, r.limit, ordered).items
    ensures c.attempt in ordered && c.attempt < |rows|
    ensures var ahead := Ahead(ordered, c.attempt);
            && Reached(rows, r.window, r.quarantined, r.limit, ordered, |ahead|)
            && c in ItemsOf(rows, r.window, r.quarantined, c.attempt,
                            SelectFrom(rows, r.window, r.quarantined, r.limit, ahead).finals)
  {
    hide ItemsOf, SelectFrom, Skipped, WantsFinal, ConfirmationReady;
    var ahead := Ahead(ordered, c.attempt);
    var k := ItemsAreReached(rows, r, ordered, c);
    assert |ahead| <= k && ordered[..k][..|ahead|] == ahead by {
      assert ordered[..k][..|ahead|] == ordered[..|ahead|];
    }
    SelectionGrows(rows, r.window, r.quarantined, r.limit, ordered[..k], |ahead|);
    FewerFinals(rows, r, c, SelectFrom(rows, r.window, r.quarantined, r.limit, ahead).finals,
                SelectFrom(rows, r.window, r.quarantined, r.limit, ordered[..k]).finals);
  }

  lemma ReachedIsRegistered(rows: seq<Attempt>, r: Round, ordered: seq<nat>, c: Candidate)
    requires Within(rows, ordered) && c.attempt in ordered && c.attempt < |rows|
    requires var ahead := Ahead(ordered, c.attempt);
             && Reached(rows, r.window, r.quarantined, r.limit, ordered, |ahead|)
             && c in ItemsOf(rows, r.window, r.quarantined, c.attempt,
                             SelectFrom(rows, r.window, r.quarantined, r.limit, ahead).finals)
    ensures c in SelectFrom(rows, r.window, r.quarantined, r.limit, ordered).items
  {
    hide ItemsOf;
    var k := |Ahead(ordered, c.attempt)|;
    SelectionGrows(rows, r.window, r.quarantined, r.limit, ordered, k + 1);
    assert ordered[..k + 1][..k] == ordered[..k];
  }

  /** In some round the item is admitted, as the rows are by then. */
  predicate EverAdmitted(rows: seq<Attempt>, rounds: seq<Round>, c: Candidate)
    requires LegalRun(rows, rounds)
    decreases |rounds|
  {
    rounds != [] && (Admitted(rows, rounds[0], c) || EverAdmitted(Play(rows, rounds[0]), rounds[1..], c))
  }

  /** The same over runs, with any windows, limits and outcomes. */
  lemma {:induction false} RegisteredOverRuns(rows: seq<Attempt>, rounds: seq<Round>, c: Candidate)
    requires LegalRun(rows, rounds)
    ensures Registers(rows, rounds, c) <==> EverAdmitted(rows, rounds, c)
    decreases |rounds|
  {
    hide Admitted, Registered, Play, Legal;
    if rounds != [] {
      RegisteredExactly(rows, rounds[0], c);
      RegisteredOverRuns(Play(rows, rounds[0]), rounds[1..], c);
    }
  }

  // ----- A backlog keeps it out -----

  function Among(backlog: set<nat>, ordered: seq<nat>): set<nat> { set b | b in backlog && b in ordered }

  lemma AmongAppend(backlog: set<nat>, ordered: seq<nat>, last: nat)
    ensures |Among(backlog, ordered + [last])| <= |Among(backlog, ordered)| + if last in backlog then 1 else 0
  {
    SetSize(Among(backlog, ordered + [last]), Among(backlog, ordered), last, last !in backlog);
  }

  /** While there is room, every considered row of the backlog has taken a place. */
  lemma {:induction false} BacklogIsTaken(rows: seq<Attempt>, r: Round, ordered: seq<nat>, backlog: set<nat>)
    requires Within(rows, ordered) && forall b | b in backlog :: b < |rows| && !rows[b].stage.completed
    requires SelectFrom(rows, r.window, r.quarantined, r.limit, ordered).attempts < r.limit
    ensures |Among(backlog, ordered)| <= SelectFrom(rows, r.window, r.quarantined, r.limit, ordered).attempts
  {
    if ordered == [] {
      assert Among(backlog, ordered) == {};
    } else {
      var n := |ordered| - 1;
      var last := ordered[n];
      hide ItemsOf, Among;
      BacklogIsTaken(rows, r, ordered[..n], backlog);
      var sel := SelectFrom(rows, r.window, r.quarantined, r.limit, ordered[..n]);
      if last in backlog { BacklogHasItems(rows, r, last, sel.finals); }
      AmongAppend(backlog, ordered[..n], last);
      assert ordered == ordered[..n] + [last];
    }
  }

  lemma BacklogHasItems(rows: seq<Attempt>, r: Round, b: nat, finals: set<nat>)
    requires b < |rows| && !rows[b].stage.completed
    ensures ItemsOf(rows, r.window, r.quarantined, b, finals) != []
  {
    ItemsAre(rows, r.window, r.quarantined, b, finals);
    hide ItemsOf;
  }

  lemma {:induction false} ItemsAreReached(rows: seq<Attempt>, r: Round, ordered: seq<nat>, c: Candidate)
    returns (k: nat)
    requires Within(rows, ordered) && c in SelectFrom(rows, r.window, r.quarantined, r.limit, ordered).items
    ensures Reached(rows, r.window, r.quarantined, r.limit, ordered, k) && ordered[k] == c.attempt
    ensures c in ItemsOf(rows, r.window, r.quarantined, ordered[k],
                         SelectFrom(rows, r.window, r.quarantined, r.limit, ordered[..k]).finals)
  {
    var n := |ordered| - 1;
    var sel := SelectFrom(rows, r.window, r.quarantined, r.limit, ordered[..n]);
    if c in sel.items {
      k := ItemsAreReached(rows, r, ordered[..n], c);
      assert ordered[..n][..k] == ordered[..k];
    } else {
      ItemsAre(rows, r.window, r.quarantined, ordered[n], sel.finals);
      hide ItemsOf;
      k := n;
    }
  }

  lemma BacklogComesBefore(rows: seq<Attempt>, ordered: seq<nat>, backlog: set<nat>, k: nat)
    requires Within(rows, ordered) && Ranked(rows, ordered) && k < |ordered| && RankOf(rows[ordered[k]]).lane == 2
    requires forall b | b in backlog :: b in ordered && b < |rows| && !rows[b].stage.completed
    ensures forall b | b in backlog :: b in ordered[..k]
  {
    hide Ranked;
    forall b | b in backlog ensures b in ordered[..k] {
      var m :| 0 <= m < |ordered| && ordered[m] == b;
      LanesAscend(rows, ordered, k, m);
      assert m < k ==> ordered[..k][m] == b;
    }
  }

  /** The last lane: confirmations, and final surfaces with an invalid manifest behind a completed stage. */
  lemma LastLane(a: Attempt)
    ensures RankOf(a).lane <= 2
    ensures RankOf(a).lane == 2 <==> ConfirmationReady(a) || (a.manifest == Invalid && a.stage.completed)
  {
  }

  /** Fairness stops at the last lane: as many scanned rows with an unfinished stage as one operation may
      take keep every item of a row of that lane out of it. */
  lemma BacklogKeepsLastLaneOut(rows: seq<Attempt>, r: Round, backlog: set<nat>, x: nat)
    requires Legal(rows, r) && x < |rows| && RankOf(rows[x]).lane == 2 && |backlog| >= r.limit
    requires forall b | b in backlog :: b in r.window && b < |rows| && !rows[b].stage.completed
    ensures forall kind :: Candidate(x, kind) !in Registered(rows, r)
  {
    var ordered := SortByRank(rows, r.window);
    SortRanks(rows, r.window);
    forall kind ensures Candidate(x, kind) !in Registered(rows, r) {
      if Candidate(x, kind) in Registered(rows, r) {
        var k := ItemsAreReached(rows, r, ordered, Candidate(x, kind));
        hide SortByRank, SelectFrom, Ranked;
        BacklogComesBefore(rows, ordered, backlog, k);
        assert Among(backlog, ordered[..k]) == backlog;
        BacklogIsTaken(rows, r, ordered[..k], backlog);
      }
    }
  }

  /** While nothing of such a backlog is repaired, no operation ever registers anything for such a row. */
  lemma {:induction false} LastLaneWaitsForRepair(rows: seq<Attempt>, rounds: seq<Round>, backlog: set<nat>, x: nat)
    requires LegalRun(rows, rounds) && x < |rows| && RankOf(rows[x]).lane == 2
    requires forall b | b in backlog :: b < |rows| && !rows[b].stage.completed
    requires forall r | r in rounds ::
               |backlog| >= r.limit && r.completed == {} && forall b | b in backlog :: b in r.window
    ensures forall kind :: !Registers(rows, rounds, Candidate(x, kind))
    decreases |rounds|
  {
    if rounds != [] {
      var r := rounds[0];
      assert r in rounds;
      BacklogKeepsLastLaneOut(rows, r, backlog, x);
      hide RankOf, Select, Legal;
      assert Play(rows, r)[x] == rows[x];
      LastLaneWaitsForRepair(Play(rows, r), rounds[1..], backlog, x);
    }
  }

  // ----- A confirmation that waits forever -----

  /** An attempt whose stage has been blocked once, and one whose stage is cleaned up. */
  const BLOCKED_AND_READY := [
    Attempt(0, 0, NoManifest, History(false, 1, 0, 0, 0), History(false, 0, 0, 0, 0)),
    Attempt(1, 1, NoManifest, History(true, 0, 0, 0, 0), History(false, 0, 0, 0, 0))]

  /** An operation of limit 1 that scans both and repairs nothing. */
  const NOTHING_REPAIRED := Round([0, 1], {}, 1, {}, 0)

  lemma {:induction false} BothAreScanned(rows: seq<Attempt>, rounds: seq<Round>)
    requires |rows| == 2 && forall r | r in rounds :: r == NOTHING_REPAIRED
    ensures LegalRun(rows, rounds)
    decreases |rounds|
  {
    hide Registered;
    if rounds != [] {
      assert rounds[0] in rounds && forall r | r in rounds[1..] :: r in rounds;
      BothAreScanned(Play(rows, rounds[0]), rounds[1..]);
    }
  }

  /** The second attempt is ready for confirmation, is scanned by every one of `n` operations, and its
      confirmation is retried by none of them, for every `n`. */
  lemma ReadyAttemptWaitsForever(n: nat)
    ensures var rounds := seq(n, _ => NOTHING_REPAIRED);
            && LegalRun(BLOCKED_AND_READY, rounds) && ConfirmationReady(BLOCKED_AND_READY[1])
            && (forall r | r in rounds :: 1 in r.window && 1 !in r.quarantined)
            && !Registers(BLOCKED_AND_READY, rounds, Candidate(1, ConfirmationItem))
  {
    var rounds := seq(n, _ => NOTHING_REPAIRED);
    BothAreScanned(BLOCKED_AND_READY, rounds);
    hide LegalRun, Registers;
    LastLaneWaitsForRepair(BLOCKED_AND_READY, rounds, {0}, 1);
  }

  // ----- A final surface that waits forever -----

  const FRESH := History(false, 0, 0, 0, 0)

  /** An attempt without a manifest, and two of one resource whose manifests are invalid; all are new. */
  const THREE_NEW := [Attempt(0, 0, NoManifest, FRESH, FRESH), Attempt(1, 1, Invalid, FRESH, FRESH),
                      Attempt(1, 2, Invalid, FRESH, FRESH)]

  /** The first operation takes all three, with one final surface for the resource of the two.  Their stages
      complete; everything else is blocked. */
  const FIRST := Round([0, 1, 2], {}, 3, {Candidate(1, StageItem), Candidate(2, StageItem)}, 0)

  const AFTER_FIRST := [
    Attempt(0, 0, NoManifest, History(false, 1, 0, 0, 0), FRESH),
    Attempt(1, 1, Invalid, History(true, 0, 0, 0, 0), History(false, 1, 0, 0, 0)),
    Attempt(1, 2, Invalid, History(true, 0, 0, 0, 0), FRESH)]

  /** The blocked final surface is quarantined from then on; the limit is 1, and nothing is repaired. */
  const THEN := Round([0, 1, 2], {1}, 1, {}, 0)

  lemma AppendInOrder(rows: seq<Attempt>, window: seq<nat>, i: nat)
    requires Within(rows, window) && i < |rows|
    requires window != [] ==> SortByRank(rows, window) == window && NotAfter(rows, window[|window| - 1], i)
    ensures Within(rows, window + [i]) && SortByRank(rows, window + [i]) == window + [i]
  {
    hide NotAfter;
    assert (window + [i])[..|window|] == window;
  }

  lemma NewRowsByAge()
    ensures NotAfter(THREE_NEW, 0, 1) && NotAfter(THREE_NEW, 1, 2)
  {
  }

  lemma NewRowsInOrder()
    ensures SortByRank(THREE_NEW, [0, 1, 2]) == [0, 1, 2]
  {
    hide SortByRank, Place, NotAfter;
    NewRowsByAge();
    AppendInOrder(THREE_NEW, [], 0);
    assert [] + [0] == [0];
    AppendInOrder(THREE_NEW, [0], 1);
    assert [0] + [1] == [0, 1];
    AppendInOrder(THREE_NEW, [0, 1], 2);
    assert [0, 1] + [2] == [0, 1, 2];
  }

  lemma FirstRegisters()
    ensures Legal(THREE_NEW, FIRST)
    ensures Registered(THREE_NEW, FIRST)
            == [Candidate(0, StageItem), Candidate(1, StageItem), Candidate(1, FinalItem), Candidate(2, StageItem)]
  {
    NewRowsInOrder();
    hide SortByRank;
    assert [0, 1, 2][..2] == [0, 1] && [0, 1][..1] == [0] && [0][..0] == [];
    assert SelectFrom(THREE_NEW, [0, 1, 2], {}, 3, [0]) == Selection([Candidate(0, StageItem)], {}, 1);
    assert SelectFrom(THREE_NEW, [0, 1, 2], {}, 3, [0, 1])
           == Selection([Candidate(0, StageItem), Candidate(1, StageItem), Candidate(1, FinalItem)], {1}, 2);
  }

  lemma FirstPlays()
    ensures Legal(THREE_NEW, FIRST) && Play(THREE_NEW, FIRST) == AFTER_FIRST
  {
    FirstRegisters();
    hide Registered;
    var after := Play(THREE_NEW, FIRST);
    assert after[0] == AFTER_FIRST[0] && after[1] == AFTER_FIRST[1] && after[2] == AFTER_FIRST[2];
  }

  lemma {:induction false} AllAreScanned(rows: seq<Attempt>, rounds: seq<Round>)
    requires |rows| == 3 && rows[1].final.blocked > 0 && forall r | r in rounds :: r == THEN
    ensures LegalRun(rows, rounds)
    decreases |rounds|
  {
    hide Registered;
    if rounds != [] {
      assert rounds[0] in rounds && forall r | r in rounds[1..] :: r in rounds;
      AllAreScanned(Play(rows, rounds[0]), rounds[1..]);
    }
  }

  /** From new rows: after the first operation the third attempt wants its final surface, is scanned by
      every one of `n` operations and is not quarantined, and none of them registers anything for it. */
  lemma InvalidFinalWaitsForever(n: nat)
    ensures var rounds := seq(n, _ => THEN);
            && LegalRun(THREE_NEW, [FIRST] + rounds) && Play(THREE_NEW, FIRST) == AFTER_FIRST
            && WantsFinal(AFTER_FIRST, THEN.window, THEN.quarantined, 2)
            && !Skipped(AFTER_FIRST, THEN.quarantined, 2)
            && LegalRun(AFTER_FIRST, rounds) && forall kind :: !Registers(AFTER_FIRST, rounds, Candidate(2, kind))
  {
    hide Play, Registers, Legal, FinalAmong;
    var rounds := seq(n, _ => THEN);
    FirstPlays();
    AllAreScanned(AFTER_FIRST, rounds);
    assert ([FIRST] + rounds)[1..] == rounds;
    LastLaneWaitsForRepair(AFTER_FIRST, rounds, {0}, 2);
  }
}
