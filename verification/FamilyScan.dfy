/** The merged scan of one family: a cursor, a quota and a window for each status stream. */
module FamilyScan {
  import opened Common
  import opened ScanWindows

  // ----- Quotas -----

  /** `divmod(scan_limit, status_count)`, the remainder going to the first streams. */
  function Quota(limit: nat, streams: nat, i: nat): nat
    requires streams > 0
  {
    limit / streams + (if i < limit % streams then 1 else 0)
  }

  function QuotaSum(limit: nat, streams: nat, n: nat): nat
    requires streams > 0 && n <= streams
  {
    if n == 0 then 0 else QuotaSum(limit, streams, n - 1) + Quota(limit, streams, n - 1)
  }

  lemma {:induction false} QuotaSumIs(limit: nat, streams: nat, n: nat)
    requires streams > 0 && n <= streams
    ensures QuotaSum(limit, streams, n) == n * (limit / streams) + (if n < limit % streams then n else limit % streams)
  {
    if n > 0 {
      QuotaSumIs(limit, streams, n - 1);
      assert n * (limit / streams) == (n - 1) * (limit / streams) + limit / streams;
    }
  }

  /** For every legal limit and both families, the quotas sum to eight times the limit, at most 1000; each stream has
      one, and they differ by at most one, the earlier streams having the larger. */
  lemma QuotasCoverTheLimit(limit: nat, streams: nat)
    requires 1 <= limit <= 1000 && (streams == 6 || streams == 3)
    ensures QuotaSum(ScanLimit(limit), streams, streams) == ScanLimit(limit) == if limit <= 125 then 8 * limit else 1000
    ensures forall i | 0 <= i < streams :: Quota(ScanLimit(limit), streams, i) >= 1
    ensures forall i, j | 0 <= i <= j < streams ::
              Quota(ScanLimit(limit), streams, j) <= Quota(ScanLimit(limit), streams, i)
              <= Quota(ScanLimit(limit), streams, j) + 1
  {
    QuotaSumIs(ScanLimit(limit), streams, streams);
  }

  // ----- One window, read from the index -----

  lemma FirstIsLeast(keys: seq<nat>, s: set<nat>)
    requires ComesFirst(keys, s) && keys != []
    ensures IsLeast(keys[0], s)
  {
    assert keys[0] in keys;
    forall j | j in s ensures keys[0] <= j {
      if j in keys {
        var i :| 0 <= i < |keys| && keys[i] == j;
        assert keys[0] <= keys[i];
      }
    }
  }

  lemma RestComesFirst(keys: seq<nat>, s: set<nat>)
    requires ComesFirst(keys, s) && keys != []
    ensures ComesFirst(keys[1..], s - {keys[0]})
  {
    var rest := keys[1..];
    forall m | m in rest ensures m in keys && m != keys[0] {
      var i :| 0 <= i < |rest| && rest[i] == m;
      assert keys[i + 1] == m && keys[0] < keys[i + 1];
    }
    assert forall m | m in keys :: m == keys[0] || m in rest;
  }

  lemma {:induction false} SmallestUnique(keys: seq<nat>, s: set<nat>, q: nat)
    requires ComesFirst(keys, s) && |keys| == (if |s| < q then |s| else q)
    ensures keys == Smallest(s, q)
    decreases q
  {
    hide ComesFirst;
    if q > 0 && s != {} {
      assert |s| > 0;
      FirstIsLeast(keys, s);
      assert keys[0] == Least(s);
      RestComesFirst(keys, s);
      SmallestUnique(keys[1..], s - {keys[0]}, q - 1);
    }
  }

  lemma {:induction false} AscendingSize(keys: seq<nat>)
    requires Ascending(keys)
    ensures |Elements(keys)| == |keys|
  {
    if keys != [] {
      var n := |keys| - 1;
      AscendingSize(keys[..n]);
      assert keys == keys[..n] + [keys[n]];
      assert Elements(keys) == Elements(keys[..n]) + {keys[n]};
    }
  }

  lemma ComesFirstOfAll(all: seq<nat>, from: nat, upTo: nat)
    requires Ascending(all) && from <= upTo <= |all|
    ensures ComesFirst(all[from..upTo], Elements(all[from..]))
  {
    var keys, rest := all[from..upTo], all[from..];
    assert forall b | 0 <= b < |keys| :: rest[b] == keys[b] && keys[b] in keys;
    forall k, j | k in keys && j in Elements(rest) && j !in keys ensures k < j {
      var a :| 0 <= a < |keys| && keys[a] == k;
      var b :| 0 <= b < |rest| && rest[b] == j;
      assert all[from + a] == k && all[from + b] == j;
    }
  }

  /** The index scan: the rows of the stream come in key order. */
  method KeysetWindow(rows: seq<nat>, cursor: Option<nat>, q: nat) returns (window: seq<nat>)
    requires Ascending(rows)
    ensures window == Window(Elements(rows), cursor, q)
  {
    var from := 0;
    while from < |rows| && cursor.Some? && rows[from] <= cursor.value
      invariant 0 <= from <= |rows|
      invariant forall i | 0 <= i < from :: cursor.Some? && rows[i] <= cursor.value
    {
      from := from + 1;
    }
    assert After(Elements(rows), cursor) == Elements(rows[from..]) by { Suffix(rows, cursor, from); }
    if from == |rows| {
      from := 0;
      assert rows[0..] == rows;
    } else {
      assert rows[from] in Elements(rows[from..]);
    }
    var upTo := if |rows| - from < q then |rows| else from + q;
    window := rows[from..upTo];
    AscendingSize(rows[from..]);
    ComesFirstOfAll(rows, from, upTo);
    SmallestUnique(window, Elements(rows[from..]), q);
  }

  lemma Suffix(rows: seq<nat>, cursor: Option<nat>, from: nat)
    requires Ascending(rows) && from <= |rows|
    requires forall i | 0 <= i < from :: cursor.Some? && rows[i] <= cursor.value
    requires from < |rows| && cursor.Some? ==> rows[from] > cursor.value
    ensures After(Elements(rows), cursor) == Elements(rows[from..])
  {
    forall k ensures k in After(Elements(rows), cursor) <==> k in Elements(rows[from..]) {
      if k in After(Elements(rows), cursor) {
        var i :| 0 <= i < |rows| && rows[i] == k;
        assert rows[from..][i - from] == k;
      }
      if k in Elements(rows[from..]) {
        var i :| 0 <= i < |rows[from..]| && rows[from..][i] == k;
        assert rows[from + i] == k && (i > 0 ==> rows[from] < rows[from + i]);
      }
    }
  }

  // ----- The merged window -----

  function Insert(keys: seq<nat>, k: nat): seq<nat>
  {
    if keys == [] || keys[|keys| - 1] <= k then keys + [k] else Insert(keys[..|keys| - 1], k) + [keys[|keys| - 1]]
  }

  predicate Sorted(keys: seq<nat>)
  {
    forall i, j | 0 <= i < j < |keys| :: keys[i] <= keys[j]
  }

  lemma {:induction false} InsertAdds(keys: seq<nat>, k: nat)
    ensures multiset(Insert(keys, k)) == multiset(keys) + multiset{k} && |Insert(keys, k)| == |keys| + 1
  {
    if keys != [] && keys[|keys| - 1] > k {
      var n := |keys| - 1;
      InsertAdds(keys[..n], k);
      assert keys == keys[..n] + [keys[n]];
    }
  }

  lemma {:induction false} InsertSorts(keys: seq<nat>, k: nat)
    requires Sorted(keys)
    ensures Sorted(Insert(keys, k))
  {
    if keys != [] && keys[|keys| - 1] > k {
      var n := |keys| - 1;
      var rest := Insert(keys[..n], k);
      InsertSorts(keys[..n], k);
      InsertAdds(keys[..n], k);
      assert keys == keys[..n] + [keys[n]];
      hide Insert;
      forall i | 0 <= i < |rest| ensures rest[i] <= keys[n] {
        assert rest[i] in multiset(rest);
        assert rest[i] == k || rest[i] in multiset(keys[..n]);
      }
    } else {
      assert forall i | 0 <= i < |keys| :: keys[i] <= k;
    }
  }

  ghost function WindowAt(streams: seq<seq<nat>>, cursors: seq<Option<nat>>, limit: nat, i: nat): seq<nat>
    requires i < |streams| == |cursors|
  {
    Window(Elements(streams[i]), cursors[i], Quota(limit, |streams|, i))
  }

  ghost function Windows(streams: seq<seq<nat>>, cursors: seq<Option<nat>>, limit: nat, n: nat): multiset<nat>
    requires n <= |streams| == |cursors|
  {
    if n == 0 then multiset{}
    else Windows(streams, cursors, limit, n - 1) + multiset(WindowAt(streams, cursors, limit, n - 1))
  }

  /** The persisted cursors of one family. */
  class FamilyCursors {
    var cursors: seq<Option<nat>>

    constructor (n: nat)
      ensures cursors == seq(n, _ => None)
    {
      cursors := seq(n, _ => None);
    }

    /** `_bounded_family_attempt_window` in apply mode: the merged rows are exactly the windows of all
        streams, in order, and the final truncation to the scan limit drops none of them, so that each
        cursor has passed only rows that are returned. */
    method FamilyWindow(streams: seq<seq<nat>>, limit: nat) returns (rows: seq<nat>)
      requires 0 < |streams| == |cursors| && forall s | s in streams :: Ascending(s)
      modifies this
      ensures |cursors| == |old(cursors)|
      ensures forall i | 0 <= i < |streams| ::
                cursors[i] == Boundary(WindowAt(streams, old(cursors), limit, i), old(cursors)[i])
      ensures Sorted(rows) && |rows| <= limit
      ensures multiset(rows) == Windows(streams, old(cursors), limit, |streams|)
    {
      hide Window, Boundary, Quota;
      rows := [];
      var count := |streams|;
      for i := 0 to count
        invariant |cursors| == count
        invariant forall j | 0 <= j < i ::
                  cursors[j] == Boundary(WindowAt(streams, old(cursors), limit, j), old(cursors)[j])
        invariant forall j | i <= j < count :: cursors[j] == old(cursors)[j]
        invariant Sorted(rows) && |rows| <= QuotaSum(limit, count, i)
        invariant multiset(rows) == Windows(streams, old(cursors), limit, i)
      {
        var quota := Quota(limit, count, i);
        assert streams[i] in streams;
        var window := KeysetWindow(streams[i], cursors[i], quota);
        WindowSize(Elements(streams[i]), cursors[i], quota);
        rows := Merge(rows, window);
        cursors := cursors[i := Boundary(window, cursors[i])];
      }
      QuotaSumIs(limit, count, count);
      assert rows[..|rows|] == rows;
      assert QuotaSum(limit, count, count) == limit;
      rows := rows[..if |rows| < limit then |rows| else limit];
    }
  }

  lemma WindowSize(s: set<nat>, cursor: Option<nat>, q: nat)
    ensures |Window(s, cursor, q)| <= q
  {
    SmallestSpec(After(s, cursor), q);
    SmallestSpec(s, q);
  }

  method Merge(rows: seq<nat>, window: seq<nat>) returns (merged: seq<nat>)
    requires Sorted(rows)
    ensures Sorted(merged) && |merged| == |rows| + |window|
    ensures multiset(merged) == multiset(rows) + multiset(window)
  {
    merged := rows;
    for i := 0 to |window|
      invariant Sorted(merged) && |merged| == |rows| + i
      invariant multiset(merged) == multiset(rows) + multiset(window[..i])
    {
      assert window[..i + 1] == window[..i] + [window[i]];
      InsertSorts(merged, window[i]);
      InsertAdds(merged, window[i]);
      merged := Insert(merged, window[i]);
    }
    assert window[..|window|] == window;
  }
}
