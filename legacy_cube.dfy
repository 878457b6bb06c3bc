/**
 * The older cube at the repository root: categorical dimensions over one
 * flat `values` array, no filters and no value dimensions. Strides, the flat
 * index, `_dimension` and `_category_label` are the same code as the
 * packaged engine and use its definitions.
 */
module LegacyCube {
  import opened Common
  import opened FlatIndex
  import opened Cube

  /** `_data`: `dimensions` and one flat `values` array. */
  datatype LegacyData = LegacyData(dimensions: seq<Dimension>, values: seq<Value>)

  /** `_dim_sizes`. */
  function Sizes(d: LegacyData): seq<nat>
  {
    DimSizes(d.dimensions)
  }

  /** The tuples `__iter__` walks: `product(*map(xrange, _dim_sizes))`. */
  function LegacyTuples(d: LegacyData): seq<seq<nat>>
  {
    Cartesian(Ranges(Sizes(d)))
  }

  /** `_flatindex(indices)` over `_dim_magnitudes`. */
  function LegacyFlat(d: LegacyData, t: seq<nat>): nat
  {
    Flat(t, Magnitudes(Sizes(d)))
  }

  /** `list(_Row(cube, indices))`: the labels, then `values[flatindex]`. */
  function LegacyRow(d: LegacyData, t: seq<nat>): Result<seq<Value>>
  {
    var ls :- Labels(d.dimensions, t);
    var v :- PyIndex(d.values, LegacyFlat(d, t));
    Ok(ls + [v])
  }

  /** `toTable()`: one row per tuple, in iteration order. */
  function LegacyRows(d: LegacyData): (rows: seq<Result<seq<Value>>>)
    ensures |rows| == |LegacyTuples(d)|
  {
    var ts := LegacyTuples(d);
    seq(|ts|, k requires 0 <= k < |ts| => LegacyRow(d, ts[k]))
  }

  /**
   * `__iter__` visits every coordinate of the grid exactly once: there are
   * `product(sizes)` tuples, all in range and pairwise different, every
   * in-range tuple occurs, and the k-th one has flat index k (row-major
   * order, the last dimension fastest).
   */
  lemma LegacyIterEnumerates(d: LegacyData)
    ensures |LegacyTuples(d)| == Product(Sizes(d))
    ensures forall k :: 0 <= k < |LegacyTuples(d)| ==>
      InRange(LegacyTuples(d)[k], Sizes(d)) && LegacyFlat(d, LegacyTuples(d)[k]) == k
    ensures Distinct(LegacyTuples(d))
    ensures forall t :: InRange(t, Sizes(d)) ==> t in LegacyTuples(d)
  {
    var sizes := Sizes(d);
    var ts := LegacyTuples(d);
    GridEnumeration(sizes);
    forall k | 0 <= k < |ts|
      ensures InRange(ts[k], sizes)
    {
      FlatIndexOnto(k, sizes);
    }
    forall t | InRange(t, sizes)
      ensures t in ts
    {
      assert ts[Flat(t, Magnitudes(sizes))] == t;
    }
  }

  lemma LegacyTupleAt(d: LegacyData, k: nat)
    requires k < |LegacyTuples(d)|
    ensures InRange(LegacyTuples(d)[k], Sizes(d)) && LegacyFlat(d, LegacyTuples(d)[k]) == k
  {
    GridEnumeration(Sizes(d));
    FlatIndexOnto(k, Sizes(d));
  }

  /** A row at an in-range tuple: its labels, then the value at its flat index. */
  lemma LegacyRowAt(d: LegacyData, t: seq<nat>)
    requires |d.values| == Product(Sizes(d)) && InRange(t, Sizes(d))
    ensures LegacyRow(d, t).Ok?
    ensures var row := LegacyRow(d, t).value;
      && |row| == |d.dimensions| + 1
      && (forall i :: 0 <= i < |d.dimensions| ==> row[i] == VStr(LabelOf(d.dimensions[i].categories[t[i]])))
      && row[|d.dimensions|] == d.values[LegacyFlat(d, t)]
  {
    LabelsOk(d.dimensions, t);
    FlatIndexBound(t, Sizes(d));
  }

  /**
   * With one value per grid cell, the k-th row holds one label (or id) per
   * dimension and then exactly one value, `values[k]`.
   */
  lemma LegacyRowContents(d: LegacyData, k: nat)
    requires |d.values| == Product(Sizes(d)) && k < |LegacyTuples(d)|
    ensures InRange(LegacyTuples(d)[k], Sizes(d)) && k < |d.values|
    ensures LegacyRows(d)[k].Ok?
    ensures var row := LegacyRows(d)[k].value;
      var t := LegacyTuples(d)[k];
      && |row| == |d.dimensions| + 1
      && (forall i :: 0 <= i < |d.dimensions| ==> row[i] == VStr(LabelOf(d.dimensions[i].categories[t[i]])))
      && row[|d.dimensions|] == d.values[k]
  {
    var t := LegacyTuples(d)[k];
    assert LegacyRows(d)[k] == LegacyRow(d, t);
    LegacyTupleAt(d, k);
    LegacyRowAt(d, t);
  }

  /** The cube of the packaged engine holding the same data as one value dimension. */
  function AsCube(d: LegacyData, id: string): DataCube
  {
    DataCube(CubeData(map[], d.dimensions, [ValueDimension(id, None, d.values)]), map[])
  }

  /** At any tuple, the root snapshot's row is the packaged engine's row with one value dimension. */
  lemma LegacyRowAgrees(d: LegacyData, id: string, t: seq<nat>)
    ensures LegacyRow(d, t) == Row(AsCube(d, id), t)
  {
    var vdims := AsCube(d, id).data.valueDimensions;
    var flat := LegacyFlat(d, t);
    assert vdims[..0] == [];
    var v := PyIndex(d.values, flat);
    if v.Ok? {
      assert [] + [v.value] == [v.value];
      assert Payloads(vdims, flat) == Ok([v.value]);
    } else {
      assert Payloads(vdims, flat) == Err(v.error);
    }
  }

  /** The root snapshot's rows are those of the packaged engine with a single value dimension. */
  lemma LegacyRowsAgree(d: LegacyData, id: string)
    ensures LegacyRows(d) == Rows(AsCube(d, id))
  {
    var c := AsCube(d, id);
    assert EnabledRanges(c) == Ranges(Sizes(d));
    forall k | 0 <= k < |LegacyTuples(d)|
      ensures LegacyRows(d)[k] == Rows(c)[k]
    {
      LegacyRowAgrees(d, id, LegacyTuples(d)[k]);
    }
  }
}
