/** The circular scan and the fair selection together: work on a stage, or on a final surface with a valid
    manifest, in a stream of fixed rows is registered within a bound of operations. */
module ScanFairness {
  import opened Common
  import opened ScanWindows
  import opened CandidateSelection
  import opened SelectionFairness

  /** How many of the next `n` windows of the stream read the key. */
  ghost function Scans(stream: set<nat>, cursor: Option<nat>, q: nat, key: nat, n: nat): nat
    decreases n
  {
    if n == 0 then 0
    else
      (if key in Window(stream, cursor, q) then 1 else 0)
      + Scans(stream, Boundary(Window(stream, cursor, q), cursor), q, key, n - 1)
  }

  ghost function CursorAfter(stream: set<nat>, cursor: Option<nat>, q: nat, n: nat): Option<nat>
    decreases n
  {
    if n == 0 then cursor else CursorAfter(stream, Boundary(Window(stream, cursor, q), cursor), q, n - 1)
  }

  lemma {:induction false} ScansAdd(stream: set<nat>, cursor: Option<nat>, q: nat, key: nat, m: nat, n: nat)
    ensures Scans(stream, cursor, q, key, m + n)
            == Scans(stream, cursor, q, key, m) + Scans(stream, CursorAfter(stream, cursor, q, m), q, key, n)
    decreases m
  {
    hide Window, Boundary;
    if m > 0 {
      ScansAdd(stream, Boundary(Window(stream, cursor, q), cursor), q, key, m - 1, n);
    }
  }

  lemma {:induction false} InspectedIsScanned(streams: seq<set<nat>>, stream: set<nat>, cursor: Option<nat>, q: nat,
                                              key: nat)
    requires (forall s | s in streams :: s == stream) && Inspected(streams, cursor, q, key)
    ensures Scans(stream, cursor, q, key, |streams|) >= 1
    decreases |streams|
  {
    hide Window, Boundary;
    assert streams[0] in streams && forall s | s in streams[1..] :: s in streams;
    if key !in Window(stream, cursor, q) {
      InspectedIsScanned(streams[1..], stream, Boundary(Window(stream, cursor, q), cursor), q, key);
    }
  }

  /** Every ceil(N / q) + 1 windows read the key once more. */
  lemma {:induction false} ScansGrow(stream: set<nat>, cursor: Option<nat>, q: nat, key: nat, n: nat)
    requires q > 0 && key in stream
    ensures Scans(stream, cursor, q, key, n * (CeilDiv(|stream|, q) + 1)) >= n
    decreases n
  {
    if n > 0 {
      var turn := CeilDiv(|stream|, q) + 1;
      var streams := seq(turn, _ => stream);
      CircularCoverage(streams, cursor, q, key);
      InspectedIsScanned(streams, stream, cursor, q, key);
      hide Scans;
      var next := CursorAfter(stream, cursor, q, turn);
      ScansGrow(stream, next, q, key, n - 1);
      ScansAdd(stream, cursor, q, key, turn, (n - 1) * turn);
      assert turn + (n - 1) * turn == n * turn;
    }
  }

  /** The operations scan the stream: whenever a window reads the key, row `x` is among the rows that the
      operation selects from, and is not quarantined away. */
  ghost predicate Follows(rows: seq<Attempt>, rounds: seq<Round>, stream: set<nat>, cursor: Option<nat>, q: nat,
                          key: nat, x: nat)
    requires LegalRun(rows, rounds)
    decreases |rounds|
  {
    rounds != [] ==>
      && (key in Window(stream, cursor, q) ==>
            x < |rows| && x in rounds[0].window && !Skipped(rows, rounds[0].quarantined, x))
      && Follows(Play(rows, rounds[0]), rounds[1..], stream, Boundary(Window(stream, cursor, q), cursor), q, key, x)
  }

  lemma {:induction false} UnregisteredScansWait(rows: seq<Attempt>, rounds: seq<Round>, stream: set<nat>,
                                                 cursor: Option<nat>, q: nat, key: nat, x: nat)
    requires LegalRun(rows, rounds) && Follows(rows, rounds, stream, cursor, q, key, x) && x < |rows|
    requires RankOf(rows[x]).lane <= 1 && !Registers(rows, rounds, Candidate(x, RankingSurface(rows[x])))
    ensures Waits(rows, rounds, x, RankOf(rows[x]).count) >= Scans(stream, cursor, q, key, |rounds|)
    decreases |rounds|
  {
    hide Play, RankOf, RankingSurface, Registered, Legal, Skipped, Window, Boundary;
    if rounds != [] {
      UnregisteredKeepsRank(rows, rounds[0], x);
      UnregisteredScansWait(Play(rows, rounds[0]), rounds[1..], stream, Boundary(Window(stream, cursor, q), cursor), q,
                            key, x);
    }
  }

  /** Work is registered in time: a row whose stage, or final surface with a valid manifest, has work left,
      in a stream of N fixed rows of which each operation reads `q`, is registered for the surface that
      ranks it by one of the next (2 * (count + 2) * rows + 1) * (ceil(N / q) + 1) operations, however
      their items end. */
  lemma WorkIsRegisteredInTime(rows: seq<Attempt>, rounds: seq<Round>, stream: set<nat>, cursor: Option<nat>, q: nat,
                               key: nat, x: nat)
    requires LegalRun(rows, rounds) && q > 0 && key in stream && Follows(rows, rounds, stream, cursor, q, key, x)
    requires x < |rows| && RankOf(rows[x]).lane <= 1
    requires |rounds| == (2 * (RankOf(rows[x]).count + 2) * |rows| + 1) * (CeilDiv(|stream|, q) + 1)
    ensures Registers(rows, rounds, Candidate(x, RankingSurface(rows[x])))
  {
    hide LegalRun, Follows, Scans, Waits, Registers, RankingSurface;
    if !Registers(rows, rounds, Candidate(x, RankingSurface(rows[x]))) {
      var tries := 2 * (RankOf(rows[x]).count + 2) * |rows|;
      ScansGrow(stream, cursor, q, key, tries + 1);
      UnregisteredScansWait(rows, rounds, stream, cursor, q, key, x);
      ScannedRowsAreTried(rows, rounds, x, RankOf(rows[x]).count);
    }
  }
}
