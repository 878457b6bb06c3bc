/**
 * The older JSON-stat reader at the repository root: the same
 * `_load_dimension`, and a `to_cube` that keeps the `value` array as the
 * cube's flat `values`, with no metadata and no value dimensions.
 */
module LegacyJsonstat {
  import opened Common
  import opened Cube
  import opened Jsonstat
  import opened LegacyCube

  /** `to_cube(js_dataset)` of the root snapshot, as a value. */
  function LegacyCubeOf(js: JsDataset): (r: Result<LegacyData>)
    ensures r.Ok? <==>
      DimensionIdList(js.dimension).Ok? &&
      forall i :: 0 <= i < |DimensionIdList(js.dimension).value| ==> LoadedDimension(js.dimension, DimensionIdList(js.dimension).value[i]).Ok?
    ensures DimensionIdList(js.dimension).Err? ==> r == Err(DimensionIdList(js.dimension).error)
    ensures DimensionIdList(js.dimension).Ok? && r.Err? ==>
      var ids := DimensionIdList(js.dimension).value;
      FirstLoadError(js.dimension, ids, |ids|, r.error)
    ensures r.Ok? ==>
      var ids := DimensionIdList(js.dimension).value;
      && r.value.values == js.value
      && |r.value.dimensions| == |ids|
      && forall i :: 0 <= i < |ids| ==> r.value.dimensions[i] == LoadedDimension(js.dimension, ids[i]).value
  {
    var ids :- DimensionIdList(js.dimension);
    LoadedDimensionsFirstError(js.dimension, ids, |ids|);
    var dims :- LoadedDimensions(js.dimension, ids, |ids|);
    Ok(LegacyData(dims, js.value))
  }

  /** `to_cube`: appends each loaded dimension in `dimension.id` order; the first failure propagates. */
  method LegacyToCube(js: JsDataset) returns (r: Result<LegacyData>)
    ensures r == LegacyCubeOf(js)
  {
    var values := js.value;
    var ids := DimensionIdList(js.dimension);
    if ids.Err? {
      return Err(ids.error);
    }
    var dimensions: seq<Dimension> := [];
    for i := 0 to |ids.value|
      invariant LoadedDimensions(js.dimension, ids.value, i) == Ok(dimensions)
    {
      var dimension := LoadDimension(js.dimension, ids.value[i]);
      if dimension.Err? {
        LoadedDimensionsFail(js.dimension, ids.value, i, |ids.value|);
        assert LegacyCubeOf(js) == Err(dimension.error);
        return Err(dimension.error);
      }
      LoadedDimensionsStep(js.dimension, ids.value, i, dimensions, dimension.value);
      dimensions := dimensions + [dimension.value];
    }
    assert LegacyCubeOf(js) == Ok(LegacyData(dimensions, values));
    r := Ok(LegacyData(dimensions, values));
  }

  /** Both readers load the same dimensions and the same values; only the container differs. */
  lemma ReadersAgree(js: JsDataset)
    ensures LegacyCubeOf(js).Ok? <==> CubeOf(js).Ok?
    ensures LegacyCubeOf(js).Ok? ==>
      CubeOf(js).value.data.dimensions == LegacyCubeOf(js).value.dimensions &&
      CubeOf(js).value.data.valueDimensions == [ValueDimension("value", None, LegacyCubeOf(js).value.values)]
  {
  }

  /** The rows of the root reader's cube are the rows of the packaged reader's cube. */
  lemma ReadersRowsAgree(js: JsDataset)
    requires CubeOf(js).Ok?
    ensures LegacyCubeOf(js).Ok?
    ensures LegacyRows(LegacyCubeOf(js).value) == Rows(CubeOf(js).value)
  {
    ReadersAgree(js);
    var d := LegacyCubeOf(js).value;
    LegacyRowsAgree(d, "value");
    RowsOfParts(AsCube(d, "value"), CubeOf(js).value);
  }
}
