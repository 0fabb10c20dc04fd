/** The safetensors layout validator (adapter_contract.py): it reads the bounded header and proves that
    the declared ranges tile the payload, without reading a tensor. */
module Safetensors {
  import opened Common

  // ----- The contract -----

  const LAYERS := 28
  const RANK := 16
  const EXPECTED_ELEMENTS := 10092544
  const MAX_HEADER_BYTES := 1048576
  const MAX_FILE_BYTES := 44040192

  datatype Module = QProj | KProj | VProj | OProj | GateProj | UpProj | DownProj

  datatype Component = A | B

  /** `base_model.model.model.layers.<layer>.<family>.<module>.lora_<component>.weight`. */
  datatype TensorName = TensorName(layer: nat, target: Module, component: Component)

  const MODULES := [QProj, KProj, VProj, OProj, GateProj, UpProj, DownProj]

  datatype Dtype = F16 | BF16 | F32

  function DtypeBytes(dtype: Dtype): nat
  {
    match dtype case F32 => 4 case _ => 2
  }

  /** Rows and columns of the base layer that a module adapts. */
  function BaseShape(target: Module): (nat, nat)
  {
    match target
    case QProj => (2048, 1024)
    case KProj => (1024, 1024)
    case VProj => (1024, 1024)
    case OProj => (1024, 2048)
    case GateProj => (3072, 1024)
    case UpProj => (3072, 1024)
    case DownProj => (1024, 3072)
  }

  function ExpectedShape(name: TensorName): seq<int>
  {
    match name.component
    case A => [RANK, BaseShape(name.target).1]
    case B => [BaseShape(name.target).0, RANK]
  }

  function Elements(shape: seq<int>): int
  {
    if shape == [] then 1 else Elements(shape[..|shape| - 1]) * shape[|shape| - 1]
  }

  // ----- Names -----

  function LayerNames(layer: nat, n: nat): seq<TensorName>
    requires n <= |MODULES|
  {
    if n == 0 then []
    else LayerNames(layer, n - 1) + [TensorName(layer, MODULES[n - 1], A), TensorName(layer, MODULES[n - 1], B)]
  }

  function AllOfLayer(layer: nat): seq<TensorName> { LayerNames(layer, |MODULES|) }

  function NamesUpTo(layers: nat): seq<TensorName>
  {
    if layers == 0 then [] else NamesUpTo(layers - 1) + AllOfLayer(layers - 1)
  }

  function ExpectedNames(): seq<TensorName> { NamesUpTo(LAYERS) }

  method BuildExpectedNames() returns (names: seq<TensorName>)
    ensures names == ExpectedNames()
  {
    names := [];
    for layer := 0 to LAYERS
      invariant names == NamesUpTo(layer)
    {
      ghost var start := names;
      for i := 0 to |MODULES|
        invariant names == start + LayerNames(layer, i)
      {
        names := names + [TensorName(layer, MODULES[i], A), TensorName(layer, MODULES[i], B)];
      }
    }
  }

  function ModuleIndex(target: Module): (i: nat)
    ensures i < |MODULES| && MODULES[i] == target
  {
    match target
    case QProj => 0
    case KProj => 1
    case VProj => 2
    case OProj => 3
    case GateProj => 4
    case UpProj => 5
    case DownProj => 6
  }

  /** Where a name stands in the list. */
  function Position(t: TensorName): nat
  {
    14 * t.layer + 2 * ModuleIndex(t.target) + (if t.component == A then 0 else 1)
  }

  /** Every entry stands at its position, and every position of a name up to the last layer is taken by it. */
  ghost predicate Indexed(names: seq<TensorName>, from: nat)
  {
    && (forall k | 0 <= k < |names| :: Position(names[k]) == from + k)
    && (forall t: TensorName | from <= Position(t) < from + |names| :: names[Position(t) - from] == t)
  }

  lemma IndexedAppend(names: seq<TensorName>, more: seq<TensorName>, from: nat)
    requires Indexed(names, from) && Indexed(more, from + |names|)
    ensures Indexed(names + more, from)
  {
    hide Position;
  }

  lemma PairIndexed(layer: nat, n: nat)
    requires n < |MODULES|
    ensures Indexed([TensorName(layer, MODULES[n], A), TensorName(layer, MODULES[n], B)], 14 * layer + 2 * n)
  {
    assert ModuleIndex(MODULES[n]) == n;
    forall t: TensorName | 14 * layer + 2 * n <= Position(t) < 14 * layer + 2 * n + 2
      ensures t.layer == layer && t.target == MODULES[n]
    {
    }
  }

  lemma {:induction false} LayerIndexed(layer: nat, n: nat)
    requires n <= |MODULES|
    ensures |LayerNames(layer, n)| == 2 * n && Indexed(LayerNames(layer, n), 14 * layer)
  {
    hide Indexed, Position;
    EmptyIndexed(14 * layer);
    if n > 0 {
      LayerIndexed(layer, n - 1);
      PairIndexed(layer, n - 1);
      IndexedAppend(LayerNames(layer, n - 1),
                    [TensorName(layer, MODULES[n - 1], A), TensorName(layer, MODULES[n - 1], B)],
                    14 * layer);
    }
  }

  lemma WholeLayerIndexed(layer: nat)
    ensures |AllOfLayer(layer)| == 14 && Indexed(AllOfLayer(layer), 14 * layer)
  {
    hide Indexed, LayerNames;
    LayerIndexed(layer, |MODULES|);
  }

  lemma EmptyIndexed(from: nat)
    ensures Indexed([], from)
  {
  }

  lemma {:induction false} NamesIndexed(layers: nat)
    ensures |NamesUpTo(layers)| == 14 * layers && Indexed(NamesUpTo(layers), 0)
  {
    hide Indexed, AllOfLayer, Position, LayerNames;
    if layers == 0 {
      EmptyIndexed(0);
    } else {
      NamesIndexed(layers - 1);
      WholeLayerIndexed(layers - 1);
      var names, more := NamesUpTo(layers - 1), AllOfLayer(layers - 1);
      IndexedAppend(names, more, 0);
      assert NamesUpTo(layers) == names + more;
    }
  }

  /** The expected names are complete and distinct. */
  lemma ExpectedNamesAreExact()
    ensures |ExpectedNames()| == 392
    ensures forall t: TensorName :: t in ExpectedNames() <==> t.layer < LAYERS
    ensures forall i, j | 0 <= i < j < 392 :: ExpectedNames()[i] != ExpectedNames()[j]
  {
    NamesIndexed(LAYERS);
    var names := ExpectedNames();
    hide NamesUpTo;
    forall t: TensorName ensures t in names <==> t.layer < LAYERS {
      if t.layer < LAYERS { assert names[Position(t)] == t; }
      if t in names {
        var k :| 0 <= k < |names| && names[k] == t;
        assert Position(t) == k;
      }
    }
    forall i, j | 0 <= i < j < 392 ensures names[i] != names[j] {
      assert Position(names[i]) == i && Position(names[j]) == j;
    }
  }

  // ----- The element total -----

  function TotalElements(names: seq<TensorName>): int
  {
    if names == [] then 0
    else TotalElements(names[..|names| - 1]) + Elements(ExpectedShape(names[|names| - 1]))
  }

  lemma {:induction false} TotalOfAppend(names: seq<TensorName>, more: seq<TensorName>)
    ensures TotalElements(names + more) == TotalElements(names) + TotalElements(more)
  {
    if more == [] {
      assert names + more == names;
    } else {
      var k := |more| - 1;
      assert (names + more)[..|names + more| - 1] == names + more[..k];
      TotalOfAppend(names, more[..k]);
    }
  }

  lemma PairElements(t: Module)
    ensures Elements([RANK, BaseShape(t).1]) == RANK * BaseShape(t).1
    ensures Elements([BaseShape(t).0, RANK]) == BaseShape(t).0 * RANK
  {
    TwoElements(RANK, BaseShape(t).1);
    TwoElements(BaseShape(t).0, RANK);
  }

  lemma TwoElements(a: int, b: int)
    ensures Elements([a, b]) == a * b
  {
    assert [a, b][..1] == [a] && [a][..0] == [];
    assert Elements([a]) == Elements([]) * a;
    assert Elements([a, b]) == Elements([a, b][..1]) * b;
  }

  function ModuleSum(n: nat): int
    requires n <= |MODULES|
  {
    if n == 0 then 0
    else ModuleSum(n - 1) + RANK * BaseShape(MODULES[n - 1]).1 + BaseShape(MODULES[n - 1]).0 * RANK
  }

  lemma {:induction false} LayerTotal(layer: nat, n: nat)
    requires n <= |MODULES|
    ensures TotalElements(LayerNames(layer, n)) == ModuleSum(n)
  {
    if n > 0 {
      LayerTotal(layer, n - 1);
      var a, b := TensorName(layer, MODULES[n - 1], A), TensorName(layer, MODULES[n - 1], B);
      TotalOfAppend(LayerNames(layer, n - 1), [a, b]);
      PairElements(MODULES[n - 1]);
      assert [a, b][..1] == [a] && [a][..0] == [];
      assert TotalElements([a]) == TotalElements([]) + Elements(ExpectedShape(a));
      assert TotalElements([a, b]) == TotalElements([a, b][..1]) + Elements(ExpectedShape(b));
    }
  }

  lemma WholeLayerTotal(layer: nat)
    ensures TotalElements(AllOfLayer(layer)) == 360448
  {
    hide LayerNames, TotalElements;
    LayerTotal(layer, |MODULES|);
    assert ModuleSum(1) == 49152 && ModuleSum(2) == 81920 && ModuleSum(3) == 114688 && ModuleSum(4) == 163840;
    assert ModuleSum(5) == 229376 && ModuleSum(6) == 294912 && ModuleSum(7) == 360448;
  }

  lemma NothingTotal()
    ensures TotalElements(NamesUpTo(0)) == 0
  {
    hide AllOfLayer;
  }

  lemma OneMoreLayer(layers: nat)
    ensures NamesUpTo(layers + 1) == NamesUpTo(layers) + AllOfLayer(layers)
  {
    hide AllOfLayer;
  }

  lemma {:induction false} LayersTotal(layers: nat)
    ensures TotalElements(NamesUpTo(layers)) == 360448 * layers
  {
    hide AllOfLayer, NamesUpTo, TotalElements;
    if layers == 0 {
      NothingTotal();
    } else {
      LayersTotal(layers - 1);
      OneMoreLayer(layers - 1);
      TotalOfAppend(NamesUpTo(layers - 1), AllOfLayer(layers - 1));
      WholeLayerTotal(layers - 1);
    }
  }

  /** For the fixed shapes the element total is always 28 x 360448, so that the validator's check of the
      total follows from its checks of the single shapes. */
  lemma ElementTotalIsFixed()
    ensures TotalElements(ExpectedNames()) == LAYERS * 360448 == EXPECTED_ELEMENTS
  {
    LayersTotal(LAYERS);
  }

  // ----- Tiling -----

  datatype Range = Range(begin: nat, end: nat)

  predicate Covers(r: Range, byte: nat) { r.begin <= byte < r.end }

  /** In how many ranges the byte lies. */
  function Coverage(ranges: seq<Range>, byte: nat): nat
  {
    if ranges == [] then 0
    else Coverage(ranges[..|ranges| - 1], byte) + (if Covers(ranges[|ranges| - 1], byte) then 1 else 0)
  }

  /** Every byte of the payload lies in exactly one range, and no range leaves the payload. */
  ghost predicate Tiles(ranges: seq<Range>, payload: nat)
  {
    && (forall r | r in ranges :: r.end <= payload)
    && (forall byte: nat | byte < payload :: Coverage(ranges, byte) == 1)
  }

  predicate Before(r: Range, s: Range)
  {
    r.begin < s.begin || (r.begin == s.begin && r.end <= s.end)
  }

  predicate Ordered(ranges: seq<Range>)
  {
    forall i, j | 0 <= i < j < |ranges| :: Before(ranges[i], ranges[j])
  }

  predicate Nonempty(ranges: seq<Range>)
  {
    forall r | r in ranges :: r.begin < r.end
  }

  function InsertRange(ranges: seq<Range>, r: Range): seq<Range>
  {
    if ranges == [] || Before(ranges[|ranges| - 1], r) then ranges + [r]
    else InsertRange(ranges[..|ranges| - 1], r) + [ranges[|ranges| - 1]]
  }

  function SortRanges(ranges: seq<Range>): seq<Range>
  {
    if ranges == [] then [] else InsertRange(SortRanges(ranges[..|ranges| - 1]), ranges[|ranges| - 1])
  }

  /** The scan over ordered ranges: each begins where the one before it ended, the first at zero. */
  function ScanEnd(ordered: seq<Range>): Option<nat>
  {
    if ordered == [] then Some(0)
    else
      var before := ScanEnd(ordered[..|ordered| - 1]);
      var r := ordered[|ordered| - 1];
      if before == Some(r.begin) then Some(r.end) else None
  }

  lemma {:induction false} InsertCovers(ranges: seq<Range>, r: Range, byte: nat)
    ensures Coverage(InsertRange(ranges, r), byte) == Coverage(ranges, byte) + (if Covers(r, byte) then 1 else 0)
  {
    var n := |ranges| - 1;
    if ranges == [] || Before(ranges[n], r) {
      assert (ranges + [r])[..|ranges|] == ranges;
    } else {
      InsertCovers(ranges[..n], r, byte);
      var rest := InsertRange(ranges[..n], r);
      assert (rest + [ranges[n]])[..|rest|] == rest;
    }
  }

  lemma {:induction false} InsertHolds(ranges: seq<Range>, r: Range)
    ensures forall s :: s in InsertRange(ranges, r) <==> s in ranges || s == r
  {
    var n := |ranges| - 1;
    if ranges != [] && !Before(ranges[n], r) {
      InsertHolds(ranges[..n], r);
      assert ranges == ranges[..n] + [ranges[n]];
    }
  }

  lemma {:induction false} InsertKeepsOrder(ranges: seq<Range>, r: Range)
    requires Ordered(ranges)
    ensures Ordered(InsertRange(ranges, r))
  {
    var n := |ranges| - 1;
    if ranges != [] && !Before(ranges[n], r) {
      InsertKeepsOrder(ranges[..n], r);
      InsertHolds(ranges[..n], r);
      var rest := InsertRange(ranges[..n], r);
      hide InsertRange;
      forall i | 0 <= i < |rest| ensures Before(rest[i], ranges[n]) {
        assert rest[i] in rest;
        assert rest[i] == r || rest[i] in ranges[..n];
      }
      assert InsertRange(ranges, r) == rest + [ranges[n]] by { InsertUnfold(ranges, r); }
    } else {
      InsertUnfold(ranges, r);
    }
  }

  lemma InsertUnfold(ranges: seq<Range>, r: Range)
    ensures ranges != [] && !Before(ranges[|ranges| - 1], r) ==>
              InsertRange(ranges, r) == InsertRange(ranges[..|ranges| - 1], r) + [ranges[|ranges| - 1]]
    ensures ranges == [] || Before(ranges[|ranges| - 1], r) ==> InsertRange(ranges, r) == ranges + [r]
  {
  }

  /** Sorting orders the ranges and changes nothing about what they cover. */
  lemma {:induction false} SortSpec(ranges: seq<Range>)
    ensures var sorted := SortRanges(ranges);
            forall i, j | 0 <= i < j < |sorted| ::
              || sorted[i].begin < sorted[j].begin
              || (sorted[i].begin == sorted[j].begin && sorted[i].end <= sorted[j].end)
    ensures Ordered(SortRanges(ranges)) && (forall r :: r in SortRanges(ranges) <==> r in ranges)
    ensures forall byte: nat :: Coverage(SortRanges(ranges), byte) == Coverage(ranges, byte)
  {
    if ranges != [] {
      var n := |ranges| - 1;
      SortSpec(ranges[..n]);
      var sorted := SortRanges(ranges[..n]);
      InsertKeepsOrder(sorted, ranges[n]);
      InsertHolds(sorted, ranges[n]);
      assert ranges == ranges[..n] + [ranges[n]];
      forall byte: nat ensures Coverage(SortRanges(ranges), byte) == Coverage(ranges, byte) {
        InsertCovers(sorted, ranges[n], byte);
      }
    }
  }

  lemma {:induction false} ScanTiles(ordered: seq<Range>)
    requires ScanEnd(ordered).Some? && Nonempty(ordered)
    ensures Tiles(ordered, ScanEnd(ordered).value)
    ensures forall byte: nat | byte >= ScanEnd(ordered).value :: Coverage(ordered, byte) == 0
  {
    if ordered != [] {
      var n := |ordered| - 1;
      assert forall r | r in ordered[..n] :: r in ordered;
      ScanTiles(ordered[..n]);
      assert ordered[n] in ordered && ordered == ordered[..n] + [ordered[n]];
    }
  }

  lemma {:induction false} CoveredBySome(ranges: seq<Range>, byte: nat)
    ensures Coverage(ranges, byte) > 0 <==> exists i :: 0 <= i < |ranges| && Covers(ranges[i], byte)
  {
    if ranges != [] {
      var n := |ranges| - 1;
      CoveredBySome(ranges[..n], byte);
      if i :| 0 <= i < |ranges| && Covers(ranges[i], byte) {
        assert i < n ==> Covers(ranges[..n][i], byte);
      }
      if i :| 0 <= i < n && Covers(ranges[..n][i], byte) {
        assert Covers(ranges[i], byte);
      }
    }
  }

  /** In a tiling, the last range in order is the last of the payload, and the others tile what is before it. */
  lemma LastRange(ordered: seq<Range>, payload: nat)
    requires Ordered(ordered) && Nonempty(ordered) && Tiles(ordered, payload) && ordered != []
    ensures var n := |ordered| - 1;
            ordered[n].end == payload && Tiles(ordered[..n], ordered[n].begin)
  {
    var n := |ordered| - 1;
    var earlier, last := ordered[..n], ordered[n];
    assert last in ordered;
    assert Coverage(ordered, last.begin) == 1 && Coverage(earlier, last.begin) == 0;
    forall i | 0 <= i < n ensures ordered[i].end <= last.begin {
      assert Before(ordered[i], last);
      if ordered[i].end > last.begin {
        assert Covers(earlier[i], last.begin);
        CoveredBySome(earlier, last.begin);
      }
    }
    assert Coverage(ordered, payload - 1) == 1;
    CoveredBySome(ordered, payload - 1);
    var whole :| 0 <= whole < |ordered| && Covers(ordered[whole], payload - 1);
    assert whole == n;
    assert forall byte: nat | byte < last.begin :: Coverage(ordered, byte) == Coverage(earlier, byte);
    forall r | r in earlier ensures r.end <= last.begin {
      var i :| 0 <= i < n && earlier[i] == r;
      assert ordered[i] == r;
    }
  }

  lemma {:induction false} TilesScan(ordered: seq<Range>, payload: nat)
    requires Ordered(ordered) && Nonempty(ordered) && Tiles(ordered, payload)
    ensures ScanEnd(ordered) == Some(payload)
  {
    if ordered == [] {
      assert payload > 0 ==> Coverage(ordered, 0) == 1;
    } else {
      var n := |ordered| - 1;
      LastRange(ordered, payload);
      assert forall r | r in ordered[..n] :: r in ordered;
      TilesScan(ordered[..n], ordered[n].begin);
    }
  }

  /** Exact tiling: for any nonempty ranges in any order, sorting and scanning accepts a payload if and
      only if every byte of it lies in exactly one range and no range leaves it. */
  lemma ScanAcceptsExactlyTilings(ranges: seq<Range>, payload: nat)
    requires Nonempty(ranges)
    ensures ScanEnd(SortRanges(ranges)) == Some(payload) <==> Tiles(ranges, payload)
  {
    SortSpec(ranges);
    var ordered := SortRanges(ranges);
    assert Tiles(ordered, payload) <==> Tiles(ranges, payload);
    if ScanEnd(ordered) == Some(payload) { ScanTiles(ordered); }
    if Tiles(ordered, payload) { TilesScan(ordered, payload); }
  }

  // ----- The header -----

  datatype Code =
    | HeaderInvalid | HeaderTooLarge | FileTooLarge | TensorSetInvalid
    | TensorShapeInvalid | TensorDtypeInvalid | TensorOffsetsInvalid | TensorSizeInvalid

  /** A tensor's descriptor; no dtype is an unsupported one. */
  datatype Descriptor = Descriptor(dtype: Option<Dtype>, shape: seq<int>, begin: int, end: int)

  /** The parsed header: its tensors, whether it has keys that are neither tensor names nor metadata, and
      whether its metadata is exactly the format "pt". */
  datatype Header = Header(tensors: map<TensorName, Descriptor>, otherKeys: bool, formatIsPt: bool)

  datatype Summary = Summary(dtype: Dtype, elements: int, bytes: nat)

  datatype Verdict = Accepted(summary: Summary) | Rejected(code: Code)

  /** The accumulators of the loop over the expected names. */
  datatype Progress = Progress(dtype: Option<Dtype>, elements: int, ranges: seq<Range>)

  function CheckTensor(d: Descriptor, name: TensorName, dtype: Option<Dtype>): Option<Code>
  {
    if d.dtype.None? || (dtype.Some? && dtype != d.dtype) then Some(TensorDtypeInvalid)
    else if d.shape == [] || (exists i | 0 <= i < |d.shape| :: d.shape[i] <= 0) then Some(TensorShapeInvalid)
    else if d.shape != ExpectedShape(name) then Some(TensorShapeInvalid)
    else if d.begin < 0 || d.end < 0 || d.begin >= d.end then Some(TensorOffsetsInvalid)
    else if d.end - d.begin != Elements(d.shape) * DtypeBytes(d.dtype.value) then Some(TensorSizeInvalid)
    else None
  }

  function CheckTensors(h: Header, names: seq<TensorName>): (Option<Code>, Progress)
  {
    if names == [] then (None, Progress(None, 0, []))
    else
      var (code, p) := CheckTensors(h, names[..|names| - 1]);
      var name := names[|names| - 1];
      if code.Some? then (code, p)
      else if name !in h.tensors then (Some(TensorSetInvalid), p)
      else
        var d := h.tensors[name];
        var fault := CheckTensor(d, name, p.dtype);
        if fault.Some? then (fault, p)
        else
          (None, Progress(d.dtype, p.elements + Elements(d.shape),
                          p.ranges + [Range(if d.begin < 0 then 0 else d.begin, if d.end < 0 then 0 else d.end)]))
  }

  function ValidateHeader(h: Header, fileSize: nat, headerLength: nat): Verdict
  {
    if h.tensors.Keys != (set t | t in ExpectedNames()) || h.otherKeys || !h.formatIsPt then Rejected(TensorSetInvalid)
    else
      var (code, p) := CheckTensors(h, ExpectedNames());
      if code.Some? then Rejected(code.value)
      else if p.dtype.None? || p.elements != EXPECTED_ELEMENTS then Rejected(TensorSizeInvalid)
      else
        var end := ScanEnd(SortRanges(p.ranges));
        if end != Some(EXPECTED_ELEMENTS * DtypeBytes(p.dtype.value)) || fileSize != 8 + headerLength + end.value
        then Rejected(TensorOffsetsInvalid)
        else Accepted(Summary(p.dtype.value, p.elements, end.value))
  }

  // ----- What acceptance means -----

  predicate TensorValid(d: Descriptor, name: TensorName, dtype: Dtype)
  {
    && d.dtype == Some(dtype) && d.shape == ExpectedShape(name)
    && 0 <= d.begin < d.end && d.end - d.begin == Elements(d.shape) * DtypeBytes(dtype)
  }

  function RangeOf(d: Descriptor): Range
  {
    Range(if d.begin < 0 then 0 else d.begin, if d.end < 0 then 0 else d.end)
  }

  function RangesOf(h: Header, names: seq<TensorName>): seq<Range>
    requires forall t | t in names :: t in h.tensors
  {
    seq(|names|, i requires 0 <= i < |names| => RangeOf(h.tensors[names[i]]))
  }

  /** Exactly the expected tensors, all of one type, each of its shape and size, their ranges tiling the
      payload, and the file holding the header and the payload and nothing else. */
  ghost predicate LayoutValid(h: Header, fileSize: nat, headerLength: nat, dtype: Dtype)
  {
    && h.tensors.Keys == (set t | t in ExpectedNames()) && !h.otherKeys && h.formatIsPt
    && (forall t | t in ExpectedNames() :: TensorValid(h.tensors[t], t, dtype))
    && var payload := EXPECTED_ELEMENTS * DtypeBytes(dtype);
       Tiles(RangesOf(h, ExpectedNames()), payload) && fileSize == 8 + headerLength + payload
  }

  lemma ShapePositive(name: TensorName)
    ensures forall i | 0 <= i < |ExpectedShape(name)| :: ExpectedShape(name)[i] > 0
  {
  }

  lemma CheckTensorIs(d: Descriptor, name: TensorName, before: Option<Dtype>, dtype: Dtype)
    ensures CheckTensor(d, name, before).None?
            <==> d.dtype.Some? && (before.Some? ==> before == d.dtype) && TensorValid(d, name, d.dtype.value)
    ensures TensorValid(d, name, dtype) ==> d.dtype == Some(dtype) && d.begin >= 0
  {
    ShapePositive(name);
    hide Elements;
  }

  /** The loop accepts exactly when all tensors are valid for the type of the first. */
  lemma {:induction false} TensorsChecked(h: Header, names: seq<TensorName>, dtype: Dtype)
    requires forall t | t in names :: t in h.tensors
    ensures var (code, p) := CheckTensors(h, names);
            && (code.None? && (names == [] || p.dtype == Some(dtype))
                <==> forall t | t in names :: TensorValid(h.tensors[t], t, dtype))
            && (code.None? ==> (p.dtype.None? <==> names == []))
  {
    if names != [] {
      var n := |names| - 1;
      var earlier, name := names[..n], names[n];
      assert name in names && names == earlier + [name];
      assert forall t | t in earlier :: t in names;
      TensorsChecked(h, earlier, dtype);
      CheckTensorIs(h.tensors[name], name, CheckTensors(h, earlier).1.dtype, dtype);
      hide CheckTensor, TensorValid, Elements;
      assert (forall t | t in names :: TensorValid(h.tensors[t], t, dtype))
             <==>
             (forall t | t in earlier :: TensorValid(h.tensors[t], t, dtype))
             && TensorValid(h.tensors[name], name, dtype);
    }
  }

  /** What the loop has gathered when it accepts. */
  lemma {:induction false} TensorsGathered(h: Header, names: seq<TensorName>)
    requires (forall t | t in names :: t in h.tensors) && CheckTensors(h, names).0.None?
    ensures var p := CheckTensors(h, names).1;
            p.ranges == RangesOf(h, names) && p.elements == TotalElements(names) && Nonempty(p.ranges)
  {
    hide Elements, ExpectedShape, CheckTensor, DtypeBytes;
    if names != [] {
      var n := |names| - 1;
      var earlier, name := names[..n], names[n];
      assert name in names && names == earlier + [name];
      assert forall t | t in earlier :: t in names;
      TensorsGathered(h, earlier);
      CheckTensorIs(h.tensors[name], name, CheckTensors(h, earlier).1.dtype, F16);
    }
  }

  /** Acceptance: for every header, the validator accepts if and only if the layout is valid for some type,
      and then it reports that type, the fixed element total and the payload's size. */
  lemma AcceptsExactlyValidLayouts(h: Header, fileSize: nat, headerLength: nat, d: Dtype)
    ensures ValidateHeader(h, fileSize, headerLength)
            == Accepted(Summary(d, EXPECTED_ELEMENTS, EXPECTED_ELEMENTS * DtypeBytes(d)))
            <==> LayoutValid(h, fileSize, headerLength, d)
    ensures ValidateHeader(h, fileSize, headerLength).Accepted? ==>
              LayoutValid(h, fileSize, headerLength, ValidateHeader(h, fileSize, headerLength).summary.dtype)
  {
    var names := ExpectedNames();
    var verdict := ValidateHeader(h, fileSize, headerLength);
    if h.tensors.Keys == (set t | t in names) {
      NamesNonempty();
      assert forall t | t in names :: t in h.tensors;
      HeaderAccepted(h, fileSize, headerLength, d);
      if verdict.Accepted? { HeaderAccepted(h, fileSize, headerLength, verdict.summary.dtype); }
    }
    hide LayoutValid, ValidateHeader, ExpectedNames;
    LayoutHasNames(h, fileSize, headerLength, d);
  }

  lemma NamesNonempty()
    ensures ExpectedNames() != []
  {
    ExpectedNamesAreExact();
    hide ExpectedNames;
  }

  lemma LayoutHasNames(h: Header, fileSize: nat, headerLength: nat, d: Dtype)
    ensures LayoutValid(h, fileSize, headerLength, d) ==> h.tensors.Keys == (set t | t in ExpectedNames())
    ensures ValidateHeader(h, fileSize, headerLength).Accepted? ==> h.tensors.Keys == (set t | t in ExpectedNames())
  {
    hide ExpectedNames, CheckTensors, Tiles;
  }

  lemma HeaderAccepted(h: Header, fileSize: nat, headerLength: nat, d: Dtype)
    requires h.tensors.Keys == (set t | t in ExpectedNames()) && ExpectedNames() != []
    requires forall t | t in ExpectedNames() :: t in h.tensors
    ensures var verdict := ValidateHeader(h, fileSize, headerLength);
            && (verdict.Accepted? && verdict.summary.dtype == d <==> LayoutValid(h, fileSize, headerLength, d))
            && (verdict.Accepted? && verdict.summary.dtype == d ==>
                  verdict.summary == Summary(d, EXPECTED_ELEMENTS, EXPECTED_ELEMENTS * DtypeBytes(d)))
  {
    ElementTotalIsFixed();
    hide ExpectedNames, CheckTensors, TensorValid, ScanEnd, SortRanges, Tiles, TotalElements, RangesOf, Nonempty;
    var names := ExpectedNames();
    TensorsChecked(h, names, d);
    var p := CheckTensors(h, names).1;
    if CheckTensors(h, names).0.None? {
      TensorsGathered(h, names);
      ScanAcceptsExactlyTilings(p.ranges, EXPECTED_ELEMENTS * DtypeBytes(d));
    }
  }

  // ----- As it runs -----

  /** What successive reads of the file return: bytes, or anything else. */
  datatype Chunk = Bytes(bytes: seq<bv8>) | NotBytes

  class Reader {
    const chunks: seq<Chunk>
    var at: nat

    constructor (chunks: seq<Chunk>)
      ensures this.chunks == chunks && at == 0
    {
      this.chunks, at := chunks, 0;
    }

    /** The end of the file reads as no bytes. */
    method Read() returns (chunk: Chunk)
      modifies this
      ensures chunk == (if old(at) < |chunks| then chunks[old(at)] else Bytes([])) && at == old(at) + 1
    {
      chunk := if at < |chunks| then chunks[at] else Bytes([]);
      at := at + 1;
    }

    /** `_read_exact`: exactly `size` bytes, put together from the next reads, or a failure. */
    method ReadExact(size: nat) returns (bytes: Option<seq<bv8>>)
      modifies this
      ensures at >= old(at)
      ensures bytes.Some? ==> Reads(chunks, old(at), at, size) && bytes == Joined(chunks, old(at), at)
      ensures bytes.Some? <==> exists end :: Reads(chunks, old(at), end, size)
    {
      var start, read := at, [];
      while |read| < size
        invariant start <= at && (at <= |chunks| || at == start) && |read| <= size
        invariant Joined(chunks, start, at) == Some(read)
        invariant forall end | start <= end < at ::
                    Joined(chunks, start, end).Some? && |Joined(chunks, start, end).value| < size
        decreases size - |read|
      {
        ghost var before := at;
        var chunk := Read();
        if chunk.NotBytes? || chunk.bytes == [] || |chunk.bytes| > size - |read| {
          TooMuch(chunks, start, before, size);
          return None;
        }
        read := read + chunk.bytes;
      }
      assert Reads(chunks, start, at, size);
      return Some(read);
    }
  }

  /** The reads from `start` up to `end`, joined; no value if one of them is empty or not bytes. */
  function Joined(chunks: seq<Chunk>, start: nat, end: nat): Option<seq<bv8>>
    requires start <= end
  {
    if start == end then Some([])
    else if end > |chunks| || chunks[end - 1].NotBytes? || chunks[end - 1].bytes == [] then None
    else
      var before := Joined(chunks, start, end - 1);
      if before.None? then None else Some(before.value + chunks[end - 1].bytes)
  }

  /** After a read that fails or returns too much, no later end gives exactly `size` bytes. */
  lemma TooMuch(chunks: seq<Chunk>, from: nat, k: nat, size: nat)
    requires from <= k && Joined(chunks, from, k).Some? && |Joined(chunks, from, k).value| < size
    requires forall end | from <= end < k :: Joined(chunks, from, end).Some? && |Joined(chunks, from, end).value| < size
    requires k >= |chunks| || chunks[k].NotBytes? || chunks[k].bytes == []
             || |chunks[k].bytes| > size - |Joined(chunks, from, k).value|
    ensures forall end :: !Reads(chunks, from, end, size)
  {
    forall end | from <= end && Joined(chunks, from, end).Some?
      ensures |Joined(chunks, from, end).value| != size
    {
      if end > k { Longer(chunks, from, k + 1, end); }
    }
  }

  lemma {:induction false} Longer(chunks: seq<Chunk>, from: nat, k: nat, end: nat)
    requires from <= k <= end && Joined(chunks, from, end).Some?
    ensures Joined(chunks, from, k).Some? && |Joined(chunks, from, k).value| <= |Joined(chunks, from, end).value|
    decreases end
  {
    if k < end { Longer(chunks, from, k, end - 1); }
  }

  /** The reads from `from` up to `to` give exactly `size` bytes. */
  predicate Reads(chunks: seq<Chunk>, from: nat, to: nat, size: nat)
  {
    from <= to && Joined(chunks, from, to).Some? && |Joined(chunks, from, to).value| == size
  }

  lemma ReadsOnce(chunks: seq<Chunk>, from: nat, a: nat, b: nat, size: nat)
    requires Reads(chunks, from, a, size) && Reads(chunks, from, b, size)
    ensures a == b
  {
    if a < b {
      Longer(chunks, from, a + 1, b);
    } else if b < a {
      Longer(chunks, from, b + 1, a);
    }
  }

  function Little(bytes: seq<bv8>): nat
  {
    if bytes == [] then 0 else (bytes[0] as nat) + 256 * Little(bytes[1..])
  }

  /** A prefix of eight bytes is their little-endian value. */
  lemma LittleExactly(b: seq<bv8>)
    requires |b| == 8
    ensures Little(b)
            == b[0] as nat + 0x100 * b[1] as nat + 0x1_0000 * b[2] as nat + 0x100_0000 * b[3] as nat
               + 0x1_0000_0000 * b[4] as nat + 0x100_0000_0000 * b[5] as nat + 0x1_0000_0000_0000 * b[6] as nat
               + 0x100_0000_0000_0000 * b[7] as nat
  {
    LittleStep(b, 7);
    LittleStep(b, 6);
    LittleStep(b, 5);
    LittleStep(b, 4);
    LittleStep(b, 3);
    LittleStep(b, 2);
    LittleStep(b, 1);
    LittleStep(b, 0);
    hide Little;
    assert b[0..] == b && Little(b[8..]) == 0 by { assert b[8..] == []; LittleOfNothing(); }
  }

  lemma LittleStep(b: seq<bv8>, i: nat)
    requires i < |b|
    ensures Little(b[i..]) == b[i] as nat + 256 * Little(b[i + 1..])
  {
    assert b[i..][1..] == b[i + 1..];
  }

  lemma LittleOfNothing()
    ensures Little([]) == 0
  {
  }

  method InsertInOrder(ordered: seq<Range>, r: Range) returns (next: seq<Range>)
    ensures next == InsertRange(ordered, r)
  {
    var k := |ordered|;
    assert ordered[..k] == ordered && ordered[k..] == [];
    while k > 0 && !Before(ordered[k - 1], r)
      invariant 0 <= k <= |ordered|
      invariant InsertRange(ordered, r) == InsertRange(ordered[..k], r) + ordered[k..]
    {
      assert ordered[..k][..k - 1] == ordered[..k - 1];
      assert ordered[k - 1..] == [ordered[k - 1]] + ordered[k..];
      k := k - 1;
    }
    next := ordered[..k] + [r] + ordered[k..];
  }

  method Sort(ranges: seq<Range>) returns (ordered: seq<Range>)
    ensures ordered == SortRanges(ranges)
  {
    ordered := [];
    for i := 0 to |ranges|
      invariant ordered == SortRanges(ranges[..i])
    {
      assert ranges[..i + 1][..i] == ranges[..i];
      ordered := InsertInOrder(ordered, ranges[i]);
    }
    assert ranges[..|ranges|] == ranges;
  }

  method Scan(ordered: seq<Range>) returns (end: Option<nat>)
    ensures end == ScanEnd(ordered)
  {
    var previousEnd := 0;
    for i := 0 to |ordered|
      invariant ScanEnd(ordered[..i]) == Some(previousEnd)
    {
      assert ordered[..i + 1][..i] == ordered[..i];
      if ordered[i].begin != previousEnd {
        Broken(ordered, i + 1);
        return None;
      }
      previousEnd := ordered[i].end;
    }
    assert ordered[..|ordered|] == ordered;
    return Some(previousEnd);
  }

  lemma {:induction false} Broken(ordered: seq<Range>, n: nat)
    requires n <= |ordered| && ScanEnd(ordered[..n]).None?
    ensures ScanEnd(ordered).None?
    decreases |ordered|
  {
    if n < |ordered| {
      assert ordered[..|ordered| - 1][..n] == ordered[..n];
      Broken(ordered[..|ordered| - 1], n);
    } else {
      assert ordered[..n] == ordered;
    }
  }

  method ValidateTensors(h: Header, names: seq<TensorName>) returns (code: Option<Code>, p: Progress)
    ensures (code, p) == CheckTensors(h, names)
  {
    hide CheckTensor, Elements, ExpectedShape;
    p := Progress(None, 0, []);
    for i := 0 to |names|
      invariant CheckTensors(h, names[..i]) == (None, p)
    {
      assert names[..i + 1][..i] == names[..i];
      if names[i] !in h.tensors { code := Some(TensorSetInvalid); Faulty(h, names, i + 1); return; }
      var d := h.tensors[names[i]];
      code := CheckTensor(d, names[i], p.dtype);
      if code.Some? { Faulty(h, names, i + 1); return; }
      p := Progress(d.dtype, p.elements + Elements(d.shape), p.ranges + [RangeOf(d)]);
    }
    assert names[..|names|] == names;
    code := None;
  }

  lemma {:induction false} Faulty(h: Header, names: seq<TensorName>, n: nat)
    requires n <= |names| && CheckTensors(h, names[..n]).0.Some?
    ensures CheckTensors(h, names) == CheckTensors(h, names[..n])
    decreases |names|
  {
    if n < |names| {
      assert names[..|names| - 1][..n] == names[..n];
      Faulty(h, names[..|names| - 1], n);
    } else {
      assert names[..n] == names;
    }
  }

  datatype HeaderBytes = HeaderBytes(length: nat, raw: seq<bv8>)

  datatype ReadResult = Read(header: HeaderBytes) | Refused(code: Code)

  /** From `from` on the file has an admissible header: a prefix up to `between` that gives its length, and that many
      bytes up to `to`. */
  predicate HeaderAt(chunks: seq<Chunk>, from: nat, between: nat, to: nat, fileSize: int)
  {
    && 8 <= fileSize <= MAX_FILE_BYTES && Reads(chunks, from, between, 8)
    && var length := Little(Joined(chunks, from, between).value);
       0 < length <= MAX_HEADER_BYTES && 8 + length <= fileSize && Reads(chunks, between, to, length)
  }

  predicate PrefixTooLarge(chunks: seq<Chunk>, from: nat, between: nat)
  {
    Reads(chunks, from, between, 8) && Little(Joined(chunks, from, between).value) > MAX_HEADER_BYTES
  }

  /** The part of the validator up to the header's JSON: it returns a header if and only if the reads give an admissible
      one, and then it is that one; too large a file or prefix is told apart from all else that is invalid. */
  method ReadHeader(reader: Reader, fileSize: int) returns (r: ReadResult)
    modifies reader
    ensures r.Read? <==> exists between, to :: HeaderAt(reader.chunks, old(reader.at), between, to, fileSize)
    ensures r.Read? ==> forall between, to | HeaderAt(reader.chunks, old(reader.at), between, to, fileSize) ::
                          r.header == HeaderBytes(Little(Joined(reader.chunks, old(reader.at), between).value),
                                                  Joined(reader.chunks, between, to).value)
    ensures r == Refused(FileTooLarge) <==> fileSize > MAX_FILE_BYTES
    ensures r == Refused(HeaderTooLarge)
            <==> 8 <= fileSize <= MAX_FILE_BYTES
                 && exists between :: PrefixTooLarge(reader.chunks, old(reader.at), between)
    ensures r.Refused? ==> r.code in {FileTooLarge, HeaderTooLarge, HeaderInvalid}
  {
    ghost var start := reader.at;
    if fileSize <= 0 { return Refused(HeaderInvalid); }
    if fileSize > MAX_FILE_BYTES { return Refused(FileTooLarge); }
    if fileSize < 8 { return Refused(HeaderInvalid); }
    var prefix := reader.ReadExact(8);
    if prefix.None? { return Refused(HeaderInvalid); }
    ghost var between := reader.at;
    forall m | Reads(reader.chunks, start, m, 8) ensures m == between {
      ReadsOnce(reader.chunks, start, m, between, 8);
    }
    var length := Little(prefix.value);
    if length == 0 { return Refused(HeaderInvalid); }
    if length > MAX_HEADER_BYTES {
      assert PrefixTooLarge(reader.chunks, start, between);
      return Refused(HeaderTooLarge);
    }
    if 8 + length > fileSize { return Refused(HeaderInvalid); }
    var raw := reader.ReadExact(length);
    if raw.None? { return Refused(HeaderInvalid); }
    forall to | Reads(reader.chunks, between, to, length) ensures to == reader.at {
      ReadsOnce(reader.chunks, between, to, reader.at, length);
    }
    assert HeaderAt(reader.chunks, start, between, reader.at, fileSize);
    return Read(HeaderBytes(length, raw.value));
  }

  /** The part of the validator after the header is parsed. */
  method Layout(h: Header, fileSize: nat, headerLength: nat) returns (verdict: Verdict)
    ensures verdict == ValidateHeader(h, fileSize, headerLength)
  {
    var names := BuildExpectedNames();
    if h.tensors.Keys != (set t | t in names) || h.otherKeys || !h.formatIsPt { return Rejected(TensorSetInvalid); }
    var code, p := ValidateTensors(h, names);
    hide ExpectedNames, CheckTensors, SortRanges, ScanEnd;
    if code.Some? { return Rejected(code.value); }
    if p.dtype.None? || p.elements != EXPECTED_ELEMENTS { return Rejected(TensorSizeInvalid); }
    var ordered := Sort(p.ranges);
    var end := Scan(ordered);
    if end != Some(EXPECTED_ELEMENTS * DtypeBytes(p.dtype.value)) || fileSize != 8 + headerLength + end.value {
      return Rejected(TensorOffsetsInvalid);
    }
    return Accepted(Summary(p.dtype.value, p.elements, end.value));
  }
}
