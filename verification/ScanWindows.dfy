/** The circular keyset scan of the reconciliation (adapter_artifact_maintenance.py).  A status stream
    is the set of its rows' keys; a key stands for the pair of creation time and identifier. */
module ScanWindows {
  import opened Common

  const MAX_SCAN_ROWS := 1000
  const SCAN_MULTIPLIER := 8

  function ScanLimit(limit: nat): nat
  {
    if limit * SCAN_MULTIPLIER < MAX_SCAN_ROWS then limit * SCAN_MULTIPLIER else MAX_SCAN_ROWS
  }

  // ----- One window -----

  predicate Ascending(keys: seq<nat>)
  {
    forall i, j | 0 <= i < j < |keys| :: keys[i] < keys[j]
  }

  function Elements(keys: seq<nat>): set<nat> { set k | k in keys }

  predicate IsLeast(k: nat, s: set<nat>)
  {
    k in s && forall j | j in s :: k <= j
  }

  lemma {:induction false} HasLeast(s: set<nat>) returns (k: nat)
    requires s != {}
    ensures IsLeast(k, s)
    decreases |s|
  {
    var m :| m in s;
    k := m;
    if s != {m} {
      var least := HasLeast(s - {m});
      k := if m < least then m else least;
      assert forall j | j in s :: j == m || j in s - {m};
    }
  }

  ghost function Least(s: set<nat>): (k: nat)
    requires s != {}
    ensures IsLeast(k, s)
  {
    assert exists k :: IsLeast(k, s) by { var k := HasLeast(s); }
    var k :| IsLeast(k, s);
    k
  }

  /** `ORDER BY created_at, id LIMIT q`. */
  ghost function Smallest(s: set<nat>, q: nat): seq<nat>
    decreases q
  {
    if q == 0 || s == {} then [] else [Least(s)] + Smallest(s - {Least(s)}, q - 1)
  }

  /** Keys in order that come before every other key of `s`. */
  predicate ComesFirst(keys: seq<nat>, s: set<nat>)
  {
    && Ascending(keys) && (forall k | k in keys :: k in s)
    && (forall k, j | k in keys && j in s && j !in keys :: k < j)
  }

  lemma Prepend(k: nat, rest: seq<nat>, s: set<nat>)
    requires IsLeast(k, s) && ComesFirst(rest, s - {k})
    ensures ComesFirst([k] + rest, s)
  {
    var keys := [k] + rest;
    forall i, j | 0 <= i < j < |keys| ensures keys[i] < keys[j] {
      assert keys[j] == rest[j - 1] && rest[j - 1] in rest;
      if i > 0 { assert keys[i] == rest[i - 1]; }
    }
    forall m | m in keys ensures m in s && forall j | j in s && j !in keys :: m < j {
      assert m == k || m in rest;
      assert forall j | j in s && j !in keys :: j in s - {k} && j !in rest && k <= j && j != k;
    }
  }

  lemma {:induction false} SmallestComesFirst(s: set<nat>, q: nat)
    ensures ComesFirst(Smallest(s, q), s)
    decreases q
  {
    if q > 0 && s != {} {
      SmallestComesFirst(s - {Least(s)}, q - 1);
      Prepend(Least(s), Smallest(s - {Least(s)}, q - 1), s);
    }
  }

  lemma LeastIsFresh(s: set<nat>, q: nat)
    requires s != {}
    ensures Least(s) in s && Least(s) !in Elements(Smallest(s - {Least(s)}, q))
  {
    SmallestComesFirst(s - {Least(s)}, q);
    hide Smallest;
  }

  lemma ElementsPrepend(k: nat, rest: seq<nat>)
    requires k !in Elements(rest)
    ensures |Elements([k] + rest)| == |Elements(rest)| + 1
  {
    assert Elements([k] + rest) == {k} + Elements(rest);
  }

  lemma NoElements()
    ensures Elements([]) == {}
  {
  }

  lemma {:induction false} SmallestSize(s: set<nat>, q: nat)
    ensures var keys := Smallest(s, q);
            |keys| == |Elements(keys)| == (if |s| < q then |s| else q)
    decreases q
  {
    hide Least, IsLeast, Elements;
    if q > 0 && s != {} {
      var k, rest := Least(s), Smallest(s - {Least(s)}, q - 1);
      SmallestSize(s - {k}, q - 1);
      LeastIsFresh(s, q - 1);
      ElementsPrepend(k, rest);
    } else {
      NoElements();
    }
  }

  lemma SmallestSpec(s: set<nat>, q: nat)
    ensures var keys := Smallest(s, q);
            && Ascending(keys) && Elements(keys) <= s
            && |keys| == |Elements(keys)| == (if |s| < q then |s| else q)
            && (forall k, j | k in keys && j in s && j !in keys :: k < j)
  {
    SmallestComesFirst(s, q);
    SmallestSize(s, q);
    hide Smallest;
  }

  lemma FullWindow(s: set<nat>, q: nat, x: nat)
    requires x in s && x !in Smallest(s, q)
    ensures |Smallest(s, q)| == q
  {
    SmallestSpec(s, q);
    var keys := Smallest(s, q);
    hide Smallest;
    assert Elements(keys) <= s - {x};
    SubsetSize(Elements(keys), s - {x});
  }

  function After(s: set<nat>, cursor: Option<nat>): set<nat>
  {
    if cursor.None? then s else set k | k in s && k > cursor.value
  }

  /** One apply window: the next keys after the cursor, or, when there are none, the first keys. */
  ghost function Window(s: set<nat>, cursor: Option<nat>, q: nat): seq<nat>
  {
    if After(s, cursor) != {} then Smallest(After(s, cursor), q) else Smallest(s, q)
  }

  /** The boundary that the window persists. */
  function Boundary(keys: seq<nat>, cursor: Option<nat>): Option<nat>
  {
    if keys == [] then cursor else Some(keys[|keys| - 1])
  }

  // ----- Coverage -----

  /** Rounding up, without division. */
  function CeilDiv(n: nat, q: nat): nat
    requires q > 0
  {
    if n == 0 then 0 else 1 + CeilDiv(if n < q then 0 else n - q, q)
  }

  lemma {:induction false} CeilDivIsCeiling(n: nat, q: nat)
    requires q > 0
    ensures (CeilDiv(n, q) - 1) * q < n <= CeilDiv(n, q) * q || n == CeilDiv(n, q) == 0
  {
    if n > 0 { CeilDivIsCeiling(if n < q then 0 else n - q, q); }
  }

  lemma {:induction false} CeilDivMonotone(m: nat, n: nat, q: nat)
    requires q > 0 && m <= n
    ensures CeilDiv(m, q) <= CeilDiv(n, q)
  {
    if m > 0 { CeilDivMonotone(if m < q then 0 else m - q, if n < q then 0 else n - q, q); }
  }

  lemma {:induction false} CeilDivSplit(m: nat, n: nat, q: nat)
    requires q > 0
    ensures CeilDiv(m, q) + CeilDiv(n, q) <= CeilDiv(m + n, q) + 1
  {
    if m > q {
      CeilDivSplit(m - q, n, q);
    } else if m > 0 {
      CeilDivMonotone(n, m + n, q);
      assert CeilDiv(m, q) == 1;
    }
  }

  /** The rows that are read before `x` is: up to `x`, or to the end and then from the start to `x`. */
  function UpTo(s: set<nat>, cursor: Option<nat>, x: nat): set<nat>
  {
    set k | k in After(s, cursor) && k <= x
  }

  /** More windows than it takes to inspect `x`. */
  function WindowsFor(s: set<nat>, cursor: Option<nat>, x: nat, q: nat): nat
    requires q > 0
  {
    if cursor.None? || cursor.value < x then CeilDiv(|UpTo(s, cursor, x)|, q)
    else CeilDiv(|After(s, cursor)|, q) + CeilDiv(|UpTo(s, None, x)|, q)
  }

  lemma SubsetSize(s: set<nat>, t: set<nat>)
    requires s <= t
    ensures |s| <= |t|
  {
    assert t == s + (t - s);
  }

  lemma WindowsForShrinks(s: set<nat>, t: set<nat>, cursor: Option<nat>, x: nat, q: nat)
    requires q > 0 && t <= s
    ensures WindowsFor(t, cursor, x, q) <= WindowsFor(s, cursor, x, q)
  {
    SubsetSize(UpTo(t, cursor, x), UpTo(s, cursor, x));
    SubsetSize(After(t, cursor), After(s, cursor));
    SubsetSize(UpTo(t, None, x), UpTo(s, None, x));
    CeilDivMonotone(|UpTo(t, cursor, x)|, |UpTo(s, cursor, x)|, q);
    CeilDivMonotone(|After(t, cursor)|, |After(s, cursor)|, q);
    CeilDivMonotone(|UpTo(t, None, x)|, |UpTo(s, None, x)|, q);
  }

  /** Reading `q` keys of `from` that all come before `x` leaves `q` fewer before `x`. */
  lemma ReadBefore(from: set<nat>, x: nat, q: nat, s: set<nat>, cursor: Option<nat>)
    requires q > 0 && x in from && from <= s && x !in Smallest(from, q)
    requires from == After(s, cursor)
    ensures var keys := Smallest(from, q);
            && keys != [] && keys[|keys| - 1] < x
            && |UpTo(s, Some(keys[|keys| - 1]), x)| == |UpTo(s, cursor, x)| - q
            && |UpTo(s, cursor, x)| > q
  {
    var keys := Smallest(from, q);
    SmallestSpec(from, q);
    FullWindow(from, q, x);
    hide Smallest;
    var b := keys[q - 1];
    assert b in keys;
    var before, after := UpTo(s, cursor, x), UpTo(s, Some(b), x);
    assert Elements(keys) !! after;
    forall k ensures k in before <==> k in Elements(keys) || k in after {
      if k in before && k !in keys { assert b < k; }
      if k in Elements(keys) { assert k < x; }
    }
    assert before == Elements(keys) + after;
    assert x in after;
  }

  /** Reading the last keys of the stream leaves that many fewer to its end. */
  lemma ReadToEnd(s: set<nat>, cursor: Option<nat>, q: nat)
    requires q > 0 && After(s, cursor) != {}
    ensures var keys := Smallest(After(s, cursor), q);
            && keys != [] && keys[|keys| - 1] in s && (cursor.Some? ==> keys[|keys| - 1] > cursor.value)
            && |After(s, Some(keys[|keys| - 1]))|
               == if |After(s, cursor)| < q then 0 else |After(s, cursor)| - q
  {
    var from := After(s, cursor);
    var keys := Smallest(from, q);
    SmallestSpec(from, q);
    hide Smallest;
    assert |from| > 0;
    var b := keys[|keys| - 1];
    assert b in keys && b in Elements(keys);
    var rest := After(s, Some(b));
    assert Elements(keys) !! rest;
    forall k ensures k in from <==> k in Elements(keys) || k in rest {
      if k in from && k !in keys { assert b < k; }
    }
    assert from == Elements(keys) + rest;
  }

  /** A window that does not read `x` brings it one window nearer. */
  lemma WindowApproaches(s: set<nat>, cursor: Option<nat>, x: nat, q: nat)
    requires q > 0 && x in s && x !in Window(s, cursor, q)
    ensures var next := Boundary(Window(s, cursor, q), cursor);
            WindowsFor(s, next, x, q) < WindowsFor(s, cursor, x, q)
  {
    if cursor.None? || cursor.value < x {
      assert x in After(s, cursor);
      ReadBefore(After(s, cursor), x, q, s, cursor);
    } else if After(s, cursor) == {} {
      assert After(s, None) == s;
      ReadBefore(s, x, q, s, None);
    } else {
      ReadToEnd(s, cursor, q);
    }
    hide UpTo, Smallest;
  }

  /** The state of a stream at successive windows: rows may be confirmed and leave, none arrives. */
  predicate Shrinking(streams: seq<set<nat>>)
  {
    forall i | 0 < i < |streams| :: streams[i] <= streams[i - 1]
  }

  /** Some window among those of the given streams reads `x`. */
  ghost predicate Inspected(streams: seq<set<nat>>, cursor: Option<nat>, q: nat, x: nat)
  {
    streams != [] &&
    (x in Window(streams[0], cursor, q)
     || Inspected(streams[1..], Boundary(Window(streams[0], cursor, q), cursor), q, x))
  }

  lemma {:induction false} InspectedInTime(streams: seq<set<nat>>, cursor: Option<nat>, q: nat, x: nat)
    requires q > 0 && streams != [] && Shrinking(streams) && forall s | s in streams :: x in s
    requires WindowsFor(streams[0], cursor, x, q) <= |streams|
    ensures Inspected(streams, cursor, q, x)
  {
    var s := streams[0];
    if x !in Window(s, cursor, q) {
      WindowApproaches(s, cursor, x, q);
      var next, rest := Boundary(Window(s, cursor, q), cursor), streams[1..];
      assert 0 < WindowsFor(s, next, x, q) by {
        assert x in UpTo(s, None, x);
        assert next.None? || next.value < x ==> x in UpTo(s, next, x);
      }
      assert rest[0] == streams[1] <= s;
      assert forall i | 0 < i < |rest| :: rest[i] == streams[i + 1] && rest[i - 1] == streams[i];
      WindowsForShrinks(s, rest[0], next, x, q);
      InspectedInTime(rest, next, q, x);
    }
  }

  /** Circular coverage: from any cursor, every row that stays in a stream of N rows is inspected by one
      of the next ceil(N / q) + 1 apply windows, even while other rows are confirmed and leave. */
  lemma CircularCoverage(streams: seq<set<nat>>, cursor: Option<nat>, q: nat, x: nat)
    requires q > 0 && streams != [] && Shrinking(streams) && forall s | s in streams :: x in s
    requires |streams| == CeilDiv(|streams[0]|, q) + 1
    ensures Inspected(streams, cursor, q, x)
  {
    var s := streams[0];
    assert x in s;
    if cursor.None? || cursor.value < x {
      SubsetSize(UpTo(s, cursor, x), s);
      CeilDivMonotone(|UpTo(s, cursor, x)|, |s|, q);
    } else {
      assert After(s, cursor) !! UpTo(s, None, x);
      SubsetSize(After(s, cursor) + UpTo(s, None, x), s);
      CeilDivSplit(|After(s, cursor)|, |UpTo(s, None, x)|, q);
      CeilDivMonotone(|After(s, cursor)| + |UpTo(s, None, x)|, |s|, q);
    }
    InspectedInTime(streams, cursor, q, x);
  }
}
