/**
 * What the JSON-stat round trip preserves: `to_cube(to_jsonstat_dataset(cube))`
 * gives back the same cube data for a cube read from JSON-stat, and the same
 * rows for a filtered view of one.
 */
module JsonstatRoundTrip {
  import opened Common
  import opened FlatIndex
  import opened Cube
  import opened Jsonstat

  lemma {:induction false} CatDimsOfCats(a: seq<SpecDim>)
    requires forall k :: 0 <= k < |a| ==> a[k].CatDim?
    ensures CatDims(a) == a && ValDims(a) == []
  {
    if a != [] {
      CatDimsOfCats(a[..|a| - 1]);
      assert a[..|a| - 1] + [a[|a| - 1]] == a;
    }
  }

  /** Splitting categorical entries followed by value entries gives back the two parts. */
  lemma {:induction false} SplitSpecDims(a: seq<SpecDim>, b: seq<SpecDim>)
    requires forall k :: 0 <= k < |a| ==> a[k].CatDim?
    requires forall k :: 0 <= k < |b| ==> b[k].ValDim?
    ensures CatDims(a + b) == a && ValDims(a + b) == b
  {
    if b == [] {
      assert a + b == a;
      CatDimsOfCats(a);
    } else {
      var b' := b[..|b| - 1];
      SplitSpecDims(a, b');
      assert (a + b)[..|a + b| - 1] == a + b';
      assert b' + [b[|b| - 1]] == b;
    }
  }

  /** The categorical entries of `specification()`, one per dimension. */
  function SpecCats(c: DataCube): (cd: seq<SpecDim>)
    requires ValidFilters(c)
    ensures |cd| == |c.data.dimensions| && forall i :: 0 <= i < |cd| ==> cd[i] == CatSpec(c, i)
  {
    seq(|c.data.dimensions|, i requires 0 <= i < |c.data.dimensions| => CatSpec(c, i))
  }

  function SpecVals(c: DataCube): (vd: seq<SpecDim>)
    ensures |vd| == |c.data.valueDimensions|
    ensures forall j :: 0 <= j < |vd| ==> vd[j] == ValSpec(c.data.valueDimensions[j])
  {
    seq(|c.data.valueDimensions|, j requires 0 <= j < |c.data.valueDimensions| => ValSpec(c.data.valueDimensions[j]))
  }

  /** The export's partition of the specification recovers the cube's own two kinds of dimension. */
  lemma SpecPartition(c: DataCube)
    requires ValidFilters(c)
    ensures CatDims(SpecOf(c).dimensions) == SpecCats(c)
    ensures ValDims(SpecOf(c).dimensions) == SpecVals(c)
  {
    assert SpecOf(c).dimensions == SpecCats(c) + SpecVals(c);
    SplitSpecDims(SpecCats(c), SpecVals(c));
  }

  /** A selection from categories whose ids determine them has the same property. */
  lemma SelectConsistent(cats: seq<Category>, idxs: seq<nat>)
    requires Consistent(cats) && ValidPositions(cats, idxs)
    ensures Consistent(Select(cats, idxs))
  {
    var s := Select(cats, idxs);
    forall i, j | 0 <= i < |s| && 0 <= j < |s| && s[i].id == s[j].id
      ensures s[i] == s[j]
    {
      assert s[i] == cats[idxs[i]] && s[j] == cats[idxs[j]];
    }
  }

  /** Reading back one exported entry gives the categories that were written. */
  lemma ReloadCategories(d: SpecDim)
    requires d.CatDim? && Consistent(d.categories)
    ensures CategoryIds(JsDimOf(d).category) == Ok(CatIds(d.categories))
    ensures CategoriesOf(CatIds(d.categories), LabelMap(JsDimOf(d).category)) == d.categories
  {
    var cats := d.categories;
    var od := CatLabels(cats);
    assert LabelMap(JsDimOf(d).category) == od;
    forall k | 0 <= k < |cats|
      ensures CategoriesOf(CatIds(cats), od)[k] == cats[k]
    {
      CatLabelsGet(cats, k);
    }
  }

  /** The dimensions `to_cube` reads back: each with only the categories enabled in the view. */
  function ReloadedDims(c: DataCube): (ds: seq<Dimension>)
    requires ValidFilters(c)
    ensures |ds| == |c.data.dimensions|
    ensures forall i :: 0 <= i < |ds| ==>
      ds[i] == Dimension(c.data.dimensions[i].id, c.data.dimensions[i].title, CatSpec(c, i).categories)
  {
    var dims := c.data.dimensions;
    seq(|dims|, i requires 0 <= i < |dims| => Dimension(dims[i].id, dims[i].title, CatSpec(c, i).categories))
  }

  /** The cube `to_cube` makes of the export of a view: unfiltered, holding the view's values in row order. */
  function Reloaded(c: DataCube): DataCube
    requires ValidFilters(c) && Dense(c.data) && |c.data.valueDimensions| >= 1
  {
    DataCube(CubeData(MetadataOf(TitleOf(c.data.metadata)), ReloadedDims(c),
      [ValueDimension("value", None, ValueColumn(c))]), map[])
  }

  /** Categories whose ids determine them, in every dimension. */
  predicate ConsistentCategories(dims: seq<Dimension>)
  {
    forall i :: 0 <= i < |dims| ==> Consistent(dims[i].categories)
  }

  lemma SpecIdsAreDimIds(c: DataCube)
    requires ValidFilters(c)
    ensures SpecIds(SpecCats(c)) == DimIds(c.data.dimensions)
  {
  }

  /** One dimension of the export is read back, by its id, with its label and its enabled categories. */
  lemma ReloadDimension(c: DataCube, values: seq<Value>, i: nat)
    requires ValidFilters(c) && |c.data.valueDimensions| == 1
    requires Distinct(DimIds(c.data.dimensions)) && ConsistentCategories(c.data.dimensions)
    requires i < |c.data.dimensions|
    ensures DatasetOf(SpecOf(c), values).Ok?
    ensures LoadedDimension(DatasetOf(SpecOf(c), values).value.dimension, c.data.dimensions[i].id) == Ok(ReloadedDims(c)[i])
  {
    ExportedDims(c, values);
    SpecIdsAreDimIds(c);
    var cd := SpecCats(c);
    EntriesAt(cd, map["id" := IdList(SpecIds(cd)), "size" := SizeList(SpecSizes(cd))], i);
    SpecCatConsistent(c, i);
    LoadExportedEntry(DatasetOf(SpecOf(c), values).value.dimension, cd[i]);
  }

  /** The export of a cube: its label, the `dimension` object of its categorical entries, the values. */
  lemma ExportedDims(c: DataCube, values: seq<Value>)
    requires ValidFilters(c) && |c.data.valueDimensions| == 1
    ensures DatasetOf(SpecOf(c), values) == Ok(JsDataset(TitleOf(c.data.metadata), DimensionObject(SpecCats(c)), values))
  {
    var spec := SpecOf(c);
    SpecPartition(c);
    DatasetDims(spec, values);
    var cd := CatDims(spec.dimensions);
    assert cd == SpecCats(c);
  }

  lemma DatasetDims(spec: Spec, values: seq<Value>)
    requires |ValDims(spec.dimensions)| == 1
    ensures DatasetOf(spec, values) == Ok(JsDataset(TitleOf(spec.metadata), DimensionObject(CatDims(spec.dimensions)), values))
  {
  }

  /**
   * The ids `to_cube` reads from an export: the dimension ids, unless a
   * dimension is named `id`, whose entry then stands under `id` and makes
   * the read fail with `KeyError(0)`.
   */
  lemma ExportedIds(c: DataCube, values: seq<Value>)
    requires ValidFilters(c) && |c.data.valueDimensions| == 1
    ensures DatasetOf(SpecOf(c), values).Ok?
    ensures DimensionIdList(DatasetOf(SpecOf(c), values).value.dimension) ==
      if "id" in DimIds(c.data.dimensions) then Err(IntKeyError(0)) else Ok(DimIds(c.data.dimensions))
  {
    ExportedDims(c, values);
    SpecIdsAreDimIds(c);
    DimensionObjectIds(DatasetOf(SpecOf(c), values).value.dimension, SpecCats(c), DimIds(c.data.dimensions));
  }

  lemma SpecCatConsistent(c: DataCube, i: nat)
    requires ValidFilters(c) && ConsistentCategories(c.data.dimensions) && i < |c.data.dimensions|
    ensures Consistent(CatSpec(c, i).categories)
  {
    EnabledRangesValid(c, i);
    SelectConsistent(c.data.dimensions[i].categories, EnabledRanges(c)[i]);
  }

  /** An entry written for a categorical specification dimension loads back as that dimension. */
  lemma LoadExportedEntry(dims: JsDimensions, sd: SpecDim)
    requires sd.CatDim? && Consistent(sd.categories)
    requires sd.id in dims && dims[sd.id] == Entry(JsDimOf(sd))
    ensures LoadedDimension(dims, sd.id) == Ok(Dimension(sd.id, sd.title, sd.categories))
  {
    ReloadCategories(sd);
  }

  /** `to_cube` of a dataset whose ids read back and whose every dimension reads back as `ds`. */
  lemma CubeOfLoaded(js: JsDataset, ds: seq<Dimension>)
    requires DimensionIdList(js.dimension).Ok? && |ds| == |DimensionIdList(js.dimension).value|
    requires forall i :: 0 <= i < |ds| ==> LoadedDimension(js.dimension, DimensionIdList(js.dimension).value[i]) == Ok(ds[i])
    ensures CubeOf(js) == Ok(DataCube(CubeData(MetadataOf(js.title), ds, [ValueDimension("value", None, js.value)]), map[]))
  {
    var ids := DimensionIdList(js.dimension).value;
    assert LoadedDimensions(js.dimension, ids, |ds|).value == ds;
  }

  /**
   * A cube with one value dimension exports with its label, the value column
   * given, and a `dimension` object keyed by `id`, `size` and the dimension ids.
   */
  lemma ExportedDataset(c: DataCube, values: seq<Value>)
    requires ValidFilters(c) && |c.data.valueDimensions| == 1
    ensures DatasetOf(SpecOf(c), values).Ok?
    ensures var js := DatasetOf(SpecOf(c), values).value;
      && js.title == TitleOf(c.data.metadata) && js.value == values
      && forall x :: x in js.dimension <==> x == "id" || x == "size" || x in DimIds(c.data.dimensions)
  {
    ExportedDims(c, values);
    SpecIdsAreDimIds(c);
    DimensionObjectIds(DatasetOf(SpecOf(c), values).value.dimension, SpecCats(c), DimIds(c.data.dimensions));
  }

  /**
   * Exporting a view with exactly one value dimension (and unique dimension
   * ids, and categories determined by their ids) and reading it back gives
   * the unfiltered cube of the view's enabled categories and row-ordered
   * values, with the view's label as its only metadata, unless a dimension
   * is named `id`: its entry replaces the `id` list and the reader fails
   * with `KeyError(0)`. A dimension named `size` does no harm, since the
   * reader never looks at `size`.
   */
  lemma ExportReload(c: DataCube)
    requires ValidFilters(c) && Dense(c.data) && |c.data.valueDimensions| == 1
    requires Distinct(DimIds(c.data.dimensions)) && ConsistentCategories(c.data.dimensions)
    ensures DatasetOf(SpecOf(c), ValueColumn(c)).Ok?
    ensures CubeOf(DatasetOf(SpecOf(c), ValueColumn(c)).value) ==
      if "id" in DimIds(c.data.dimensions) then Err(IntKeyError(0)) else Ok(Reloaded(c))
  {
    ExportedDataset(c, ValueColumn(c));
    ExportedIds(c, ValueColumn(c));
    var js := DatasetOf(SpecOf(c), ValueColumn(c)).value;
    if "id" !in DimIds(c.data.dimensions) {
      var ids := DimensionIdList(js.dimension).value;
      forall i | 0 <= i < |c.data.dimensions|
        ensures LoadedDimension(js.dimension, ids[i]) == Ok(ReloadedDims(c)[i])
      {
        ReloadDimension(c, ValueColumn(c), i);
      }
      CubeOfLoaded(js, ReloadedDims(c));
    }
  }

  /** Without filters every category of every dimension comes back. */
  lemma UnfilteredReloadedDims(c: DataCube)
    requires c.filters == map[]
    ensures ReloadedDims(c) == c.data.dimensions
  {
    forall i | 0 <= i < |c.data.dimensions|
      ensures ReloadedDims(c)[i] == c.data.dimensions[i]
    {
      UnfilteredSpecKeepsCategories(c, i);
      assert SpecOf(c).dimensions[i] == CatSpec(c, i);
    }
  }

  /** Without filters the value column is the payload itself. */
  lemma UnfilteredValueColumn(c: DataCube)
    requires c.filters == map[] && Dense(c.data) && |c.data.valueDimensions| >= 1
    ensures ValueColumn(c) == c.data.valueDimensions[0].values
  {
    UnfilteredTuples(c);
  }

  /**
   * `test_to_jsonstat_and_back`: for an unfiltered cube shaped like one read
   * from JSON-stat (one value dimension `value` without a label, no metadata
   * but a label, unique dimension ids, categories determined by their ids),
   * converting to JSON-stat and back gives the same cube data, unless a
   * dimension is named `id`, which makes the reader fail.
   */
  lemma RoundTrip(c: DataCube)
    requires c.filters == map[] && Dense(c.data)
    requires |c.data.valueDimensions| == 1
    requires c.data.valueDimensions[0].id == "value" && c.data.valueDimensions[0].title == None
    requires forall key :: key in c.data.metadata ==> key == "label"
    requires Distinct(DimIds(c.data.dimensions)) && ConsistentCategories(c.data.dimensions)
    ensures DatasetOf(SpecOf(c), ValueColumn(c)).Ok?
    ensures CubeOf(DatasetOf(SpecOf(c), ValueColumn(c)).value) ==
      if "id" in DimIds(c.data.dimensions) then Err(IntKeyError(0)) else Ok(c)
  {
    ExportReload(c);
    ReloadedIsSelf(c);
  }

  lemma ReloadedIsSelf(c: DataCube)
    requires c.filters == map[] && Dense(c.data)
    requires |c.data.valueDimensions| == 1
    requires c.data.valueDimensions[0].id == "value" && c.data.valueDimensions[0].title == None
    requires forall key :: key in c.data.metadata ==> key == "label"
    ensures Reloaded(c) == c
  {
    UnfilteredReloadedDims(c);
    UnfilteredValueColumn(c);
    assert MetadataOf(TitleOf(c.data.metadata)) == c.data.metadata;
  }

  lemma ReloadedShape(c: DataCube)
    requires ValidFilters(c) && Dense(c.data) && |c.data.valueDimensions| >= 1
    ensures DimSizes(Reloaded(c).data.dimensions) == Lengths(EnabledRanges(c))
    ensures Dense(Reloaded(c).data)
    ensures Tuples(Reloaded(c)) == Cartesian(Ranges(Lengths(EnabledRanges(c))))
  {
    var r := Reloaded(c);
    forall i | 0 <= i < |c.data.dimensions|
      ensures DimSizes(r.data.dimensions)[i] == Lengths(EnabledRanges(c))[i]
    {
      assert r.data.dimensions[i].categories == CatSpec(c, i).categories;
    }
    assert EnabledRanges(r) == Ranges(Lengths(EnabledRanges(c)));
  }

  lemma ReloadedLength(c: DataCube)
    requires ValidFilters(c) && Dense(c.data) && |c.data.valueDimensions| >= 1
    ensures |Tuples(Reloaded(c))| == |Tuples(c)|
  {
    var ls := Lengths(EnabledRanges(c));
    ReloadedShape(c);
    GridEnumeration(ls);
    assert |Tuples(c)| == Product(ls);
  }

  /** The k-th tuple of the reloaded cube is the digit tuple of k over the view's list lengths. */
  lemma ReloadedTupleAt(c: DataCube, k: nat)
    requires ValidFilters(c) && Dense(c.data) && |c.data.valueDimensions| >= 1
    requires k < Product(Lengths(EnabledRanges(c)))
    ensures var u := Unflatten(k, Lengths(EnabledRanges(c)));
      var r := Reloaded(c);
      && k < |Tuples(r)| && Tuples(r)[k] == u
      && InRange(u, DimSizes(r.data.dimensions))
      && FlatOf(r.data.dimensions, u) == k
  {
    var ls := Lengths(EnabledRanges(c));
    ReloadedShape(c);
    GridEnumeration(ls);
  }

  /** The k-th row of the reloaded cube is the k-th row of the view. */
  lemma ReloadedRow(c: DataCube, k: nat)
    requires ValidFilters(c) && Dense(c.data) && |c.data.valueDimensions| == 1
    requires k < |Tuples(c)|
    ensures k < |Tuples(Reloaded(c))|
    ensures Row(Reloaded(c), Tuples(Reloaded(c))[k]) == Row(c, Tuples(c)[k])
  {
    var r := Reloaded(c);
    var u := Unflatten(k, Lengths(EnabledRanges(c)));
    var t := Tuples(c)[k];
    ReloadedTupleAt(c, k);
    ReloadedLabels(c, k);
    ReloadedPayloads(c, k);
    assert Row(r, u) == Row(c, t);
  }

  /** The labels of the reloaded cube's k-th tuple are those of the view's k-th tuple. */
  lemma ReloadedLabels(c: DataCube, k: nat)
    requires ValidFilters(c) && Dense(c.data) && |c.data.valueDimensions| >= 1
    requires k < |Tuples(c)|
    ensures k < Product(Lengths(EnabledRanges(c)))
    ensures Labels(Reloaded(c).data.dimensions, Unflatten(k, Lengths(EnabledRanges(c)))) == Labels(c.data.dimensions, Tuples(c)[k])
  {
    var r := Reloaded(c);
    var rs := EnabledRanges(c);
    var dims := c.data.dimensions;
    CartesianAt(rs, k);
    ReloadedTupleAt(c, k);
    var u := Unflatten(k, Lengths(rs));
    var t := Tuples(c)[k];
    TuplesInRange(c, k);
    forall i | 0 <= i < |dims|
      ensures u[i] < |r.data.dimensions[i].categories|
      ensures r.data.dimensions[i].categories[u[i]] == dims[i].categories[t[i]]
    {
      ReloadedCategoryAt(c, i, u[i]);
    }
    LabelsAgree(r.data.dimensions, u, dims, t);
  }

  /** Position p of a reloaded dimension holds the category at the view's p-th enabled position. */
  lemma ReloadedCategoryAt(c: DataCube, i: nat, p: nat)
    requires ValidFilters(c) && i < |c.data.dimensions| && p < |EnabledRanges(c)[i]|
    ensures p < |ReloadedDims(c)[i].categories|
    ensures EnabledRanges(c)[i][p] < |c.data.dimensions[i].categories|
    ensures ReloadedDims(c)[i].categories[p] == c.data.dimensions[i].categories[EnabledRanges(c)[i][p]]
  {
    assert ReloadedDims(c)[i].categories == CatSpec(c, i).categories;
    EnabledRangesValid(c, i);
  }

  /** Tuples that pick the same categories have the same labels. */
  lemma LabelsAgree(d1: seq<Dimension>, t1: seq<nat>, d2: seq<Dimension>, t2: seq<nat>)
    requires Fits(t1, d1) && Fits(t2, d2) && |t1| == |t2|
    requires forall i :: 0 <= i < |t1| ==> d1[i].categories[t1[i]] == d2[i].categories[t2[i]]
    ensures Labels(d1, t1) == Labels(d2, t2)
  {
    LabelsOk(d1, t1);
    LabelsOk(d2, t2);
  }

  /** The value of the reloaded cube's k-th tuple is the value of the view's k-th tuple. */
  lemma ReloadedPayloads(c: DataCube, k: nat)
    requires ValidFilters(c) && Dense(c.data) && |c.data.valueDimensions| == 1
    requires k < |Tuples(c)|
    ensures Payloads(Reloaded(c).data.valueDimensions, k) == Payloads(c.data.valueDimensions, FlatOf(c.data.dimensions, Tuples(c)[k]))
  {
    var flat := FlatOf(c.data.dimensions, Tuples(c)[k]);
    TuplesInRange(c, k);
    FlatIndexBound(Tuples(c)[k], DimSizes(c.data.dimensions));
    PayloadsOk(Reloaded(c).data.valueDimensions, k);
    PayloadsOk(c.data.valueDimensions, flat);
    assert ValueColumn(c)[k] == c.data.valueDimensions[0].values[flat];
  }

  /**
   * `test_filtered_to_jsonstat`: exporting a filtered view and reading it
   * back succeeds iff no dimension is named `id`, and then gives a cube with
   * the same rows as the view, in the same order.
   */
  lemma FilteredRoundTrip(c: DataCube)
    requires ValidFilters(c) && Dense(c.data) && |c.data.valueDimensions| == 1
    requires Distinct(DimIds(c.data.dimensions)) && ConsistentCategories(c.data.dimensions)
    ensures DatasetOf(SpecOf(c), ValueColumn(c)).Ok?
    ensures var back := CubeOf(DatasetOf(SpecOf(c), ValueColumn(c)).value);
      && (back.Ok? <==> "id" !in DimIds(c.data.dimensions))
      && (back.Ok? ==> Rows(back.value) == Rows(c))
  {
    ExportReload(c);
    ReloadedRows(c);
  }

  /** The reloaded cube iterates the view's rows, in order. */
  lemma ReloadedRows(c: DataCube)
    requires ValidFilters(c) && Dense(c.data) && |c.data.valueDimensions| == 1
    ensures Rows(Reloaded(c)) == Rows(c)
  {
    var r := Reloaded(c);
    ReloadedLength(c);
    forall k | 0 <= k < |Tuples(c)|
      ensures Rows(r)[k] == Rows(c)[k]
    {
      ReloadedRow(c, k);
    }
  }
}
