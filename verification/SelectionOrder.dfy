/** The order and the terms of the selection, from the histories of the surfaces that apply to an attempt
    (adapter_artifact_maintenance.py): its stage, and its final surface if the manifest is valid. */
module SelectionOrder {
  import opened CandidateSelection

  /** The surfaces that belong to the attempt's cleanup, the stage first. */
  function Applicable(a: Attempt): seq<History>
  {
    if a.manifest == Valid then [a.stage, a.final] else [a.stage]
  }

  predicate NeverTried(h: History) { !h.completed && h.blocked == h.confirmationBlocked == 0 }

  /** 0: some surface was never tried; 1: all were, and some is not done; 2: only the confirmation is left. */
  function Class(a: Attempt): nat
  {
    if exists h | h in Applicable(a) :: NeverTried(h) then 0
    else if exists h | h in Applicable(a) :: !h.completed then 1
    else 2
  }

  /** The failures that count, and when the last one was: those of the surface that is not done, the final one first,
      and those of the confirmation if all are. */
  function Failures(a: Attempt): (nat, nat)
  {
    match Class(a)
    case 0 => (0, 0)
    case 1 =>
      var h := Applicable(a)[|Applicable(a)| - 1];
      if h.completed then (a.stage.blocked, a.stage.latestBlocked) else (h.blocked, h.latestBlocked)
    case _ => (a.stage.confirmationBlocked, if a.stage.confirmationBlocked > 0 then a.stage.latestConfirmation else 0)
  }

  function Key(rows: seq<Attempt>, i: nat): seq<nat>
    requires i < |rows|
  {
    [Class(rows[i]), Failures(rows[i]).0, Failures(rows[i]).1, rows[i].createdAt, i]
  }

  /** The first difference decides. */
  predicate AtMost(a: seq<nat>, b: seq<nat>)
    requires |a| == |b|
  {
    a == b || exists n | 0 <= n < |a| :: a[n] < b[n] && forall m | 0 <= m < n :: a[m] == b[m]
  }

  lemma RankIsKey(a: Attempt)
    ensures RankOf(a) == Rank(Class(a), Failures(a).0, Failures(a).1)
  {
    assert a.stage in Applicable(a) && (a.manifest == Valid ==> a.final in Applicable(a));
  }

  /** Rows are taken by class, then by the number of failures, then by the time of the last one, so that what failed
      most and last comes last in its class; ties go by creation and identifier. */
  lemma OrderExactly(rows: seq<Attempt>, i: nat, j: nat)
    requires i < |rows| && j < |rows|
    ensures NotAfter(rows, i, j) <==> AtMost(Key(rows, i), Key(rows, j))
  {
    hide RankOf, Class, Failures;
    RankIsKey(rows[i]);
    RankIsKey(rows[j]);
    var a, b := Key(rows, i), Key(rows, j);
    if NotAfter(rows, i, j) && a != b {
      var n := if a[0] != b[0] then 0 else if a[1] != b[1] then 1 else if a[2] != b[2] then 2
               else if a[3] != b[3] then 3 else 4;
      assert a[n] < b[n] && forall m | 0 <= m < n :: a[m] == b[m];
    }
    if n :| 0 <= n < |a| && a[n] < b[n] && forall m | 0 <= m < n :: a[m] == b[m] {
      assert n == 0 || n == 1 || n == 2 || n == 3 || n == 4;
    }
  }

  /** A row wants its final surface if the manifest is valid and the surface is not done, and either it was never tried
      or every sibling in the window was; with an invalid manifest, unless it is quarantined.  It is ready for
      confirmation once all that applies is done, and passed over if it is quarantined behind a completed stage. */
  lemma WantsExactly(rows: seq<Attempt>, window: seq<nat>, quarantined: set<nat>, i: nat)
    requires Within(rows, window) && i < |rows|
    ensures var a := rows[i];
            && (WantsFinal(rows, window, quarantined, i) <==>
                  || (a.manifest == Valid && !a.final.completed
                      && (NeverTried(a.final)
                          || forall j | j in window && rows[j].resource == a.resource && rows[j].manifest == Valid ::
                               !NeverTried(rows[j].final)))
                  || (a.manifest == Invalid && i !in quarantined))
            && (ConfirmationReady(a) <==> a.manifest != Invalid && forall h | h in Applicable(a) :: h.completed)
            && (Skipped(rows, quarantined, i) <==> i in quarantined && a.stage.completed)
  {
    assert rows[i].stage in Applicable(rows[i]) && (rows[i].manifest == Valid ==> rows[i].final in Applicable(rows[i]));
  }
}
