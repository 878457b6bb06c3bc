/**
 * The dense in-memory cube engine of pydatacube/pydatacube.py: categorical
 * dimensions define a row-major grid, value dimensions carry one payload
 * entry per grid cell, and a view's filters restrict each dimension to a list
 * of enabled category indices.
 */
module Cube {
  import opened Common
  import opened FlatIndex

  datatype Category = Category(id: string, title: Option<string>)
  datatype Dimension = Dimension(id: string, title: Option<string>, categories: seq<Category>)
  datatype ValueDimension = ValueDimension(id: string, title: Option<string>, values: seq<Value>)

  /** The `data` dict: `metadata`, `dimensions` and `value_dimensions`. */
  datatype CubeData = CubeData(
    metadata: map<string, string>,
    dimensions: seq<Dimension>,
    valueDimensions: seq<ValueDimension>)

  /**
   * A `_DataCube` view: the shared data and `_filters`, which maps a
   * dimension's position to its enabled category positions.
   */
  datatype DataCube = DataCube(data: CubeData, filters: map<nat, seq<nat>>)

  /** A dimension as `specification()` lists it: categorical, or a value dimension without its values. */
  datatype SpecDim =
    | CatDim(id: string, title: Option<string>, categories: seq<Category>)
    | ValDim(id: string, title: Option<string>)

  datatype Spec = Spec(metadata: map<string, string>, dimensions: seq<SpecDim>, length: Option<nat>)

  // ---------------------------------------------------------------------
  // The lookup tables of __init__
  // ---------------------------------------------------------------------

  /** The ids of specification entries, in order. */
  function SpecIds(ds: seq<SpecDim>): (ids: seq<string>)
    ensures |ids| == |ds| && forall k :: 0 <= k < |ds| ==> ids[k] == ds[k].id
  {
    seq(|ds|, k requires 0 <= k < |ds| => ds[k].id)
  }

  /** `_dim_sizes`. */
  function DimSizes(dims: seq<Dimension>): (sizes: seq<nat>)
    ensures |sizes| == |dims|
    ensures forall i :: 0 <= i < |dims| ==> sizes[i] == |dims[i].categories|
  {
    seq(|dims|, i requires 0 <= i < |dims| => |dims[i].categories|)
  }

  function DimIds(dims: seq<Dimension>): (ids: seq<string>)
    ensures |ids| == |dims| && forall i :: 0 <= i < |dims| ==> ids[i] == dims[i].id
  {
    seq(|dims|, i requires 0 <= i < |dims| => dims[i].id)
  }

  function CatIds(cats: seq<Category>): (ids: seq<string>)
    ensures |ids| == |cats| && forall i :: 0 <= i < |cats| ==> ids[i] == cats[i].id
  {
    seq(|cats|, i requires 0 <= i < |cats| => cats[i].id)
  }

  /** The position `dict`-building gives an id: its last occurrence. */
  function DimIndex(dims: seq<Dimension>, x: string): Option<nat>
  {
    LastIndexOf(DimIds(dims), x)
  }

  /** `_cat_indices[dimId][catId]`: None when either key is missing. */
  function CatIndex(dims: seq<Dimension>, dimId: string, catId: string): (r: Option<nat>)
    ensures r.Some? ==> DimIndex(dims, dimId).Some? && r.value < |dims[DimIndex(dims, dimId).value].categories|
  {
    match DimIndex(dims, dimId)
    case None => None
    case Some(i) => LastIndexOf(CatIds(dims[i].categories), catId)
  }

  /** `{ids[i]: i for i ...}`: each id maps to its last position. */
  function IndexTable(ids: seq<string>): (t: map<string, nat>)
    ensures forall x :: x in t <==> x in ids
    ensures forall x :: x in t ==> Some(t[x]) == LastIndexOf(ids, x)
  {
    map x | x in ids :: LastIndexOf(ids, x).value
  }

  /** The category tables of `__init__`, one per dimension id. */
  function CatIndices(dims: seq<Dimension>): (t: map<string, map<string, nat>>)
    ensures forall x :: x in t <==> DimIndex(dims, x).Some?
    ensures forall x, y :: x in t ==> (y in t[x] <==> CatIndex(dims, x, y).Some?)
    ensures forall x, y :: x in t && y in t[x] ==> Some(t[x][y]) == CatIndex(dims, x, y)
  {
    map x | x in DimIds(dims) :: IndexTable(CatIds(dims[DimIndex(dims, x).value].categories))
  }

  lemma CatIndicesSnoc(dims: seq<Dimension>, d: Dimension)
    ensures CatIndices(dims + [d]) == CatIndices(dims)[d.id := IndexTable(CatIds(d.categories))]
  {
    var ds := dims + [d];
    assert DimIds(ds) == DimIds(dims) + [d.id];
    forall x | x in DimIds(dims) && x != d.id
      ensures DimIndex(ds, x) == DimIndex(dims, x)
    {
      assert LastIndexOf(DimIds(ds), x) == LastIndexOf(DimIds(dims), x);
    }
  }

  /** The loop of `__init__` that fills `_cat_indices`, one dimension at a time (last id wins). */
  method BuildCategoryIndices(dims: seq<Dimension>) returns (t: map<string, map<string, nat>>)
    ensures t == CatIndices(dims)
    ensures forall x :: x in t <==> DimIndex(dims, x).Some?
    ensures forall x, y :: x in t && y in t[x] ==> Some(t[x][y]) == CatIndex(dims, x, y)
  {
    t := map[];
    for i := 0 to |dims|
      invariant t == CatIndices(dims[..i])
    {
      CatIndicesSnoc(dims[..i], dims[i]);
      assert dims[..i + 1] == dims[..i] + [dims[i]];
      t := t[dims[i].id := IndexTable(CatIds(dims[i].categories))];
    }
    assert dims[..|dims|] == dims;
  }

  /** With unique ids, the tables give every dimension and category its own position. */
  lemma IndexTablesOfUniqueIds(dims: seq<Dimension>, i: nat, j: nat)
    requires Distinct(DimIds(dims)) && i < |dims|
    requires Distinct(CatIds(dims[i].categories)) && j < |dims[i].categories|
    ensures DimIndex(dims, dims[i].id) == Some(i)
    ensures CatIndex(dims, dims[i].id, dims[i].categories[j].id) == Some(j)
  {
    LastIndexOfDistinct(DimIds(dims), i);
    LastIndexOfDistinct(CatIds(dims[i].categories), j);
  }

  // ---------------------------------------------------------------------
  // Filters
  // ---------------------------------------------------------------------

  /** A `filter` keyword value: a lone category id, or a list of them. */
  datatype Selection = One(cat: string) | Many(cats: seq<string>)

  function SelectionIds(s: Selection): seq<string>
  {
    match s
    case One(c) => [c]
    case Many(cs) => cs
  }

  /** `[self._cat_indices[dim_id][c] for c in categories]`. */
  function Resolve(dims: seq<Dimension>, dimId: string, cats: seq<string>): (r: Result<seq<nat>>)
    ensures r.Ok? <==> forall c :: c in cats ==> CatIndex(dims, dimId, c).Some?
    ensures r.Ok? ==> |r.value| == |cats|
    ensures r.Ok? ==> forall k :: 0 <= k < |cats| ==> Some(r.value[k]) == CatIndex(dims, dimId, cats[k])
  {
    if cats == [] then Ok([])
    else if DimIndex(dims, dimId).None? then assert CatIndex(dims, dimId, cats[0]).None?; Err(KeyError(dimId))
    else
      match CatIndex(dims, dimId, cats[0])
      case None => Err(KeyError(cats[0]))
      case Some(j) =>
        var rest :- Resolve(dims, dimId, cats[1..]);
        Ok([j] + rest)
  }

  /** True when a keyword of `filter` names a known dimension and known categories of it. */
  predicate Resolvable(dims: seq<Dimension>, kw: (string, Selection))
  {
    DimIndex(dims, kw.0).Some? && forall c :: c in SelectionIds(kw.1) ==> CatIndex(dims, kw.0, c).Some?
  }

  /** One iteration of the loop of `filter` on the copied filters `acc`. */
  function FilterStep(c: DataCube, acc: map<nat, seq<nat>>, kw: (string, Selection)): (r: Result<map<nat, seq<nat>>>)
    ensures r.Ok? <==> Resolvable(c.data.dimensions, kw)
  {
    var dims := c.data.dimensions;
    var resolved :- Resolve(dims, kw.0, SelectionIds(kw.1));
    match DimIndex(dims, kw.0)
    case None => Err(KeyError(kw.0))
    case Some(i) =>
      var prior := if i !in c.filters || i !in acc then [] else acc[i];
      Ok(acc[i := prior + resolved])
  }

  /** The dimension position a keyword names (0 when it names none). */
  function Target(c: DataCube, kw: (string, Selection)): nat
  {
    match DimIndex(c.data.dimensions, kw.0)
    case None => 0
    case Some(i) => i
  }

  /** The category positions a keyword resolves to. */
  function ResolvedOf(dims: seq<Dimension>, kw: (string, Selection)): Result<seq<nat>>
  {
    Resolve(dims, kw.0, SelectionIds(kw.1))
  }

  /** The enabled list a dimension had before `filter` (absent means none yet). */
  function Prior(c: DataCube, i: nat): seq<nat>
  {
    if i in c.filters then c.filters[i] else []
  }

  /** The filters after one more step of the loop on dimension `Target(c, kw)`. */
  function StepFilters(c: DataCube, acc: map<nat, seq<nat>>, kw: (string, Selection)): map<nat, seq<nat>>
    requires Resolvable(c.data.dimensions, kw)
  {
    var i := Target(c, kw);
    var prior := if i !in c.filters || i !in acc then [] else acc[i];
    acc[i := prior + ResolvedOf(c.data.dimensions, kw).value]
  }

  lemma FilterStepIs(c: DataCube, acc: map<nat, seq<nat>>, kw: (string, Selection))
    requires Resolvable(c.data.dimensions, kw)
    ensures FilterStep(c, acc, kw) == Ok(StepFilters(c, acc, kw))
  {
  }

  function FilterFold(c: DataCube, kwargs: seq<(string, Selection)>): Result<map<nat, seq<nat>>>
  {
    if kwargs == [] then Ok(c.filters)
    else
      var acc :- FilterFold(c, kwargs[..|kwargs| - 1]);
      FilterStep(c, acc, kwargs[|kwargs| - 1])
  }

  /** `filter(**kwargs)` as a value: a new view over the same data, or the first lookup error. */
  function FilterResult(c: DataCube, kwargs: seq<(string, Selection)>): Result<DataCube>
  {
    var f :- FilterFold(c, kwargs);
    Ok(DataCube(c.data, f))
  }

  lemma {:induction false} FilterFoldErrorSticks(c: DataCube, kwargs: seq<(string, Selection)>, k: nat)
    requires 0 < k <= |kwargs|
    requires FilterFold(c, kwargs[..k]).Err?
    ensures FilterFold(c, kwargs) == FilterFold(c, kwargs[..k])
    decreases |kwargs|
  {
    if k < |kwargs| {
      var pre := kwargs[..|kwargs| - 1];
      assert pre[..k] == kwargs[..k];
      FilterFoldErrorSticks(c, pre, k);
    } else {
      assert kwargs[..k] == kwargs;
    }
  }

  lemma FilterFoldStep(c: DataCube, kwargs: seq<(string, Selection)>, k: nat)
    requires k < |kwargs| && FilterFold(c, kwargs[..k]).Ok?
    ensures FilterFold(c, kwargs[..k + 1]) == FilterStep(c, FilterFold(c, kwargs[..k]).value, kwargs[k])
  {
    assert kwargs[..k + 1][..k] == kwargs[..k];
  }

  /** The loop of `filter`: deep-copy the filters, then extend one dimension per keyword. */
  method Filter(c: DataCube, kwargs: seq<(string, Selection)>) returns (r: Result<DataCube>)
    ensures r == FilterResult(c, kwargs)
  {
    var filters: map<nat, seq<nat>> := c.filters;
    for k := 0 to |kwargs|
      invariant FilterFold(c, kwargs[..k]) == Ok(filters)
    {
      FilterFoldStep(c, kwargs, k);
      var next := FilterKeyword(c, filters, kwargs[k]);
      if next.Err? {
        FilterFoldErrorSticks(c, kwargs, k + 1);
        return Err(next.error);
      }
      filters := next.value;
    }
    assert kwargs[..|kwargs|] == kwargs;
    r := Ok(DataCube(c.data, filters));
  }

  /** The body of the loop of `filter` for one keyword, on the copied filters. */
  method FilterKeyword(c: DataCube, filters: map<nat, seq<nat>>, kw: (string, Selection)) returns (r: Result<map<nat, seq<nat>>>)
    ensures r == FilterStep(c, filters, kw)
  {
    var dims := c.data.dimensions;
    var dimId := kw.0;
    var resolved := Resolve(dims, dimId, SelectionIds(kw.1));
    if resolved.Err? {
      return Err(resolved.error);
    }
    var dimI := DimIndex(dims, dimId);
    if dimI.None? {
      return Err(KeyError(dimId));
    }
    var i := dimI.value;
    // `filters[dim_i] = []` unless the receiver already restricts it, then extend
    var prior: seq<nat> := [];
    if i in c.filters && i in filters {
      prior := filters[i];
    }
    r := Ok(filters[i := prior + resolved.value]);
  }

  /** `filter` with one keyword is one step of its loop on the receiver's filters. */
  lemma FilterOne(c: DataCube, kw: (string, Selection))
    ensures FilterFold(c, [kw]) == FilterStep(c, c.filters, kw)
    ensures FilterResult(c, [kw]).Ok? <==> Resolvable(c.data.dimensions, kw)
  {
    assert [kw][..0] == [];
  }

  /** Python keyword arguments have distinct names. */
  predicate DistinctKeys(kwargs: seq<(string, Selection)>)
  {
    forall a, b :: 0 <= a < b < |kwargs| ==> kwargs[a].0 != kwargs[b].0
  }

  /** The last step of the loop of `filter` runs only when the earlier ones succeeded. */
  lemma FilterFoldSnoc(c: DataCube, kwargs: seq<(string, Selection)>)
    requires kwargs != []
    ensures FilterFold(c, kwargs).Ok? <==> FilterFold(c, kwargs[..|kwargs| - 1]).Ok? && Resolvable(c.data.dimensions, kwargs[|kwargs| - 1])
    ensures FilterFold(c, kwargs).Ok? ==>
      FilterFold(c, kwargs).value == StepFilters(c, FilterFold(c, kwargs[..|kwargs| - 1]).value, kwargs[|kwargs| - 1])
  {
    if FilterFold(c, kwargs[..|kwargs| - 1]).Ok? && Resolvable(c.data.dimensions, kwargs[|kwargs| - 1]) {
      FilterStepIs(c, FilterFold(c, kwargs[..|kwargs| - 1]).value, kwargs[|kwargs| - 1]);
    }
  }

  predicate AllResolvable(dims: seq<Dimension>, kwargs: seq<(string, Selection)>)
  {
    forall k :: 0 <= k < |kwargs| ==> Resolvable(dims, kwargs[k])
  }

  lemma AllResolvableSnoc(dims: seq<Dimension>, kwargs: seq<(string, Selection)>)
    requires kwargs != []
    ensures AllResolvable(dims, kwargs) <==> AllResolvable(dims, kwargs[..|kwargs| - 1]) && Resolvable(dims, kwargs[|kwargs| - 1])
  {
    var pre := kwargs[..|kwargs| - 1];
    assert forall k :: 0 <= k < |pre| ==> pre[k] == kwargs[k];
  }

  /**
   * `filter` succeeds iff every keyword names a known dimension and known categories of it;
   * otherwise it fails at the first keyword that does not, with that keyword's lookup error.
   */
  lemma {:induction false} FilterSucceedsIff(c: DataCube, kwargs: seq<(string, Selection)>)
    ensures FilterResult(c, kwargs).Ok? <==> forall k :: 0 <= k < |kwargs| ==> Resolvable(c.data.dimensions, kwargs[k])
    ensures FilterResult(c, kwargs).Err? ==>
      exists k :: (0 <= k < |kwargs| && !Resolvable(c.data.dimensions, kwargs[k]) &&
        (forall j :: 0 <= j < k ==> Resolvable(c.data.dimensions, kwargs[j])) &&
        LookupError(c.data.dimensions, kwargs[k].0, SelectionIds(kwargs[k].1), FilterResult(c, kwargs).error))
  {
    FilterFoldSucceedsIff(c, kwargs);
    FilterFoldError(c, kwargs);
  }

  /**
   * The `KeyError` of the first failing lookup of `[self._cat_indices[dimId][c] for c in cats]`
   * followed by `self._dim_indices[dimId]`: the dimension id when it is unknown, else the first
   * unknown category id.
   */
  predicate LookupError(dims: seq<Dimension>, dimId: string, cats: seq<string>, e: Error)
  {
    if DimIndex(dims, dimId).None? then e == KeyError(dimId)
    else exists k :: (0 <= k < |cats| && e == KeyError(cats[k]) && CatIndex(dims, dimId, cats[k]).None? &&
      (forall j :: 0 <= j < k ==> CatIndex(dims, dimId, cats[j]).Some?))
  }

  lemma {:induction false} ResolveError(dims: seq<Dimension>, dimId: string, cats: seq<string>)
    ensures Resolve(dims, dimId, cats).Err? ==> LookupError(dims, dimId, cats, Resolve(dims, dimId, cats).error)
  {
    if cats != [] && DimIndex(dims, dimId).Some? && CatIndex(dims, dimId, cats[0]).Some? {
      var rest := cats[1..];
      ResolveError(dims, dimId, rest);
      if Resolve(dims, dimId, rest).Err? {
        var k :| 0 <= k < |rest| && Resolve(dims, dimId, rest).error == KeyError(rest[k]) &&
          CatIndex(dims, dimId, rest[k]).None? && (forall j :: 0 <= j < k ==> CatIndex(dims, dimId, rest[j]).Some?);
        assert forall j :: 0 < j < k + 1 ==> cats[j] == rest[j - 1];
        assert cats[k + 1] == rest[k];
      }
    } else if cats != [] && DimIndex(dims, dimId).Some? {
      assert Resolve(dims, dimId, cats).error == KeyError(cats[0]);
    }
  }

  lemma FilterStepError(c: DataCube, acc: map<nat, seq<nat>>, kw: (string, Selection))
    ensures FilterStep(c, acc, kw).Err? ==>
      LookupError(c.data.dimensions, kw.0, SelectionIds(kw.1), FilterStep(c, acc, kw).error)
  {
    ResolveError(c.data.dimensions, kw.0, SelectionIds(kw.1));
  }

  lemma {:induction false} FilterFoldError(c: DataCube, kwargs: seq<(string, Selection)>)
    ensures FilterFold(c, kwargs).Err? ==>
      exists k :: (0 <= k < |kwargs| && !Resolvable(c.data.dimensions, kwargs[k]) &&
        (forall j :: 0 <= j < k ==> Resolvable(c.data.dimensions, kwargs[j])) &&
        LookupError(c.data.dimensions, kwargs[k].0, SelectionIds(kwargs[k].1), FilterFold(c, kwargs).error))
  {
    if kwargs != [] {
      var dims := c.data.dimensions;
      var pre := kwargs[..|kwargs| - 1];
      assert forall j :: 0 <= j < |pre| ==> pre[j] == kwargs[j];
      FilterFoldError(c, pre);
      FilterFoldSucceedsIff(c, pre);
      if FilterFold(c, pre).Ok? {
        var last := kwargs[|kwargs| - 1];
        FilterStepError(c, FilterFold(c, pre).value, last);
        if FilterFold(c, kwargs).Err? {
          assert LookupError(dims, last.0, SelectionIds(last.1), FilterFold(c, kwargs).error);
          assert !Resolvable(dims, last);
        }
      }
    }
  }

  lemma {:induction false} FilterFoldSucceedsIff(c: DataCube, kwargs: seq<(string, Selection)>)
    ensures FilterFold(c, kwargs).Ok? <==> AllResolvable(c.data.dimensions, kwargs)
  {
    if kwargs != [] {
      FilterFoldSucceedsIff(c, kwargs[..|kwargs| - 1]);
      FilterFoldSnoc(c, kwargs);
      AllResolvableSnoc(c.data.dimensions, kwargs);
    }
  }

  /** Each named dimension holds its previous list followed by its resolved positions. */
  ghost predicate Appended(c: DataCube, kwargs: seq<(string, Selection)>, f: map<nat, seq<nat>>)
  {
    forall k :: 0 <= k < |kwargs| ==>
      Target(c, kwargs[k]) in f && ResolvedOf(c.data.dimensions, kwargs[k]).Ok? &&
      f[Target(c, kwargs[k])] == Prior(c, Target(c, kwargs[k])) + ResolvedOf(c.data.dimensions, kwargs[k]).value
  }

  /** The restricted dimensions are the previously restricted ones and the named ones. */
  ghost predicate Domain(c: DataCube, kwargs: seq<(string, Selection)>, f: map<nat, seq<nat>>)
  {
    forall i :: i in f <==> i in c.filters || exists k :: 0 <= k < |kwargs| && Target(c, kwargs[k]) == i
  }

  /** A restricted dimension no keyword names keeps its list. */
  ghost predicate Untouched(c: DataCube, kwargs: seq<(string, Selection)>, f: map<nat, seq<nat>>)
  {
    forall i :: i in c.filters && (forall k :: 0 <= k < |kwargs| ==> Target(c, kwargs[k]) != i) ==>
      i in f && f[i] == c.filters[i]
  }

  ghost predicate Extended(c: DataCube, kwargs: seq<(string, Selection)>, f: map<nat, seq<nat>>)
  {
    Appended(c, kwargs, f) && Domain(c, kwargs, f) && Untouched(c, kwargs, f)
  }

  lemma AppendedSnoc(c: DataCube, pre: seq<(string, Selection)>, kw: (string, Selection), acc: map<nat, seq<nat>>)
    requires Extended(c, pre, acc) && Resolvable(c.data.dimensions, kw)
    requires forall k :: 0 <= k < |pre| ==> Target(c, pre[k]) != Target(c, kw)
    ensures Appended(c, pre + [kw], StepFilters(c, acc, kw))
  {
    var kwargs := pre + [kw];
    var i := Target(c, kw);
    var f := StepFilters(c, acc, kw);
    assert i in c.filters ==> i in acc && acc[i] == c.filters[i];
    assert f[i] == Prior(c, i) + ResolvedOf(c.data.dimensions, kw).value;
    forall k | 0 <= k < |pre|
      ensures Target(c, pre[k]) in f && f[Target(c, pre[k])] == acc[Target(c, pre[k])]
    {
    }
    forall k | 0 <= k < |kwargs|
      ensures Target(c, kwargs[k]) in f && ResolvedOf(c.data.dimensions, kwargs[k]).Ok?
      ensures f[Target(c, kwargs[k])] == Prior(c, Target(c, kwargs[k])) + ResolvedOf(c.data.dimensions, kwargs[k]).value
    {
      if k < |pre| {
        assert kwargs[k] == pre[k];
      } else {
        assert kwargs[k] == kw;
      }
    }
  }

  lemma DomainSnoc(c: DataCube, pre: seq<(string, Selection)>, kw: (string, Selection), acc: map<nat, seq<nat>>)
    requires Domain(c, pre, acc) && Resolvable(c.data.dimensions, kw)
    ensures Domain(c, pre + [kw], StepFilters(c, acc, kw))
  {
    var kwargs := pre + [kw];
    var f := StepFilters(c, acc, kw);
    forall j
      ensures j in f <==> j in c.filters || exists k :: 0 <= k < |kwargs| && Target(c, kwargs[k]) == j
    {
      assert kwargs[|pre|] == kw;
      if exists k :: 0 <= k < |pre| && Target(c, pre[k]) == j {
        var k :| 0 <= k < |pre| && Target(c, pre[k]) == j;
        assert kwargs[k] == pre[k];
      }
      if exists k :: 0 <= k < |kwargs| && Target(c, kwargs[k]) == j {
        var k :| 0 <= k < |kwargs| && Target(c, kwargs[k]) == j;
        if k < |pre| {
          assert kwargs[k] == pre[k];
        } else {
          assert kwargs[k] == kw;
        }
      }
    }
  }

  lemma UntouchedSnoc(c: DataCube, pre: seq<(string, Selection)>, kw: (string, Selection), acc: map<nat, seq<nat>>)
    requires Untouched(c, pre, acc) && Resolvable(c.data.dimensions, kw)
    ensures Untouched(c, pre + [kw], StepFilters(c, acc, kw))
  {
    var kwargs := pre + [kw];
    forall j | j in c.filters && (forall k :: 0 <= k < |kwargs| ==> Target(c, kwargs[k]) != j)
      ensures j in StepFilters(c, acc, kw) && StepFilters(c, acc, kw)[j] == c.filters[j]
    {
      assert kwargs[|pre|] == kw;
      forall k | 0 <= k < |pre| ensures Target(c, pre[k]) != j {
        assert kwargs[k] == pre[k];
      }
    }
  }

  /** Distinct keywords that resolve name distinct dimensions. */
  lemma TargetsDiffer(c: DataCube, kwargs: seq<(string, Selection)>)
    requires DistinctKeys(kwargs) && |kwargs| > 0
    requires AllResolvable(c.data.dimensions, kwargs)
    ensures forall k :: 0 <= k < |kwargs| - 1 ==> Target(c, kwargs[k]) != Target(c, kwargs[|kwargs| - 1])
  {
    var dims := c.data.dimensions;
    var n := |kwargs| - 1;
    forall k | 0 <= k < n
      ensures Target(c, kwargs[k]) != Target(c, kwargs[n])
    {
      assert Resolvable(dims, kwargs[k]) && Resolvable(dims, kwargs[n]);
      assert DimIds(dims)[Target(c, kwargs[n])] == kwargs[n].0;
      assert DimIds(dims)[Target(c, kwargs[k])] == kwargs[k].0;
    }
  }

  /** The induction step of `FilterFoldExtends`. */
  lemma ExtendedStep(c: DataCube, kwargs: seq<(string, Selection)>, acc: map<nat, seq<nat>>)
    requires DistinctKeys(kwargs) && kwargs != [] && AllResolvable(c.data.dimensions, kwargs)
    requires Extended(c, kwargs[..|kwargs| - 1], acc)
    ensures Extended(c, kwargs, StepFilters(c, acc, kwargs[|kwargs| - 1]))
  {
    var n := |kwargs| - 1;
    var pre, kw := kwargs[..n], kwargs[n];
    assert pre + [kw] == kwargs;
    TargetsDiffer(c, kwargs);
    forall k | 0 <= k < n ensures Target(c, pre[k]) != Target(c, kw) {
      assert pre[k] == kwargs[k];
    }
    AppendedSnoc(c, pre, kw, acc);
    DomainSnoc(c, pre, kw, acc);
    UntouchedSnoc(c, pre, kw, acc);
  }

  lemma {:induction false} FilterFoldExtends(c: DataCube, kwargs: seq<(string, Selection)>, f: map<nat, seq<nat>>)
    requires DistinctKeys(kwargs) && FilterFold(c, kwargs) == Ok(f)
    ensures Extended(c, kwargs, f)
  {
    if kwargs != [] {
      var n := |kwargs| - 1;
      var pre := kwargs[..n];
      FilterFoldSnoc(c, kwargs);
      FilterFoldSucceedsIff(c, kwargs);
      var acc := FilterFold(c, pre).value;
      assert f == StepFilters(c, acc, kwargs[n]);
      assert forall a :: 0 <= a < |pre| ==> pre[a] == kwargs[a];
      assert DistinctKeys(pre);
      FilterFoldExtends(c, pre, acc);
      ExtendedStep(c, kwargs, acc);
    }
  }

  /**
   * `filter` EXTENDS: with the distinct keywords Python passes, each named
   * dimension's enabled list becomes its previous list followed by the
   * resolved category positions, and every other dimension keeps its
   * restriction (or none). The result shares the receiver's data; the
   * receiver is a value and so is unchanged.
   */
  lemma FilterExtends(c: DataCube, kwargs: seq<(string, Selection)>)
    requires DistinctKeys(kwargs) && FilterResult(c, kwargs).Ok?
    ensures FilterResult(c, kwargs).value.data == c.data
    ensures forall k :: 0 <= k < |kwargs| ==>
      var f := FilterResult(c, kwargs).value.filters;
      Target(c, kwargs[k]) in f && ResolvedOf(c.data.dimensions, kwargs[k]).Ok? &&
      f[Target(c, kwargs[k])] == Prior(c, Target(c, kwargs[k])) + ResolvedOf(c.data.dimensions, kwargs[k]).value
    ensures forall i :: i in FilterResult(c, kwargs).value.filters <==>
      i in c.filters || exists k :: 0 <= k < |kwargs| && Target(c, kwargs[k]) == i
    ensures forall i :: i in c.filters && (forall k :: 0 <= k < |kwargs| ==> Target(c, kwargs[k]) != i) ==>
      FilterResult(c, kwargs).value.filters[i] == c.filters[i]
  {
    FilterFoldExtends(c, kwargs, FilterResult(c, kwargs).value.filters);
  }

  /** Filter positions are valid category positions of the dimension they restrict. */
  predicate ValidFilters(c: DataCube)
  {
    forall i :: i in c.filters ==>
      i < |c.data.dimensions| &&
      forall j :: 0 <= j < |c.filters[i]| ==> c.filters[i][j] < |c.data.dimensions[i].categories|
  }

  /** Filter positions in `f` are valid category positions of `dims`. */
  predicate ValidMap(dims: seq<Dimension>, f: map<nat, seq<nat>>)
  {
    forall i :: i in f ==>
      i < |dims| &&
      forall j :: 0 <= j < |f[i]| ==> f[i][j] < |dims[i].categories|
  }

  lemma StepKeepsValid(c: DataCube, acc: map<nat, seq<nat>>, kw: (string, Selection))
    requires ValidMap(c.data.dimensions, acc) && Resolvable(c.data.dimensions, kw)
    ensures ValidMap(c.data.dimensions, StepFilters(c, acc, kw))
  {
    var dims := c.data.dimensions;
    var i := Target(c, kw);
    var prior := if i !in c.filters || i !in acc then [] else acc[i];
    ResolvedInRange(dims, kw);
    ValidMapUpdate(dims, acc, i, prior + ResolvedOf(dims, kw).value);
  }

  /** The positions a resolvable keyword resolves to are category positions of its dimension. */
  lemma ResolvedInRange(dims: seq<Dimension>, kw: (string, Selection))
    requires Resolvable(dims, kw)
    ensures DimIndex(dims, kw.0).value < |dims|
    ensures forall k :: 0 <= k < |ResolvedOf(dims, kw).value| ==>
      ResolvedOf(dims, kw).value[k] < |dims[DimIndex(dims, kw.0).value].categories|
  {
    var r := ResolvedOf(dims, kw).value;
    forall k | 0 <= k < |r| ensures r[k] < |dims[DimIndex(dims, kw.0).value].categories| {
      assert Some(r[k]) == CatIndex(dims, kw.0, SelectionIds(kw.1)[k]);
    }
  }

  /** Storing in-range positions under a dimension that exists keeps the filters valid. */
  lemma ValidMapUpdate(dims: seq<Dimension>, acc: map<nat, seq<nat>>, i: nat, v: seq<nat>)
    requires ValidMap(dims, acc) && i < |dims|
    requires i in acc ==> forall k :: 0 <= k < |acc[i]| ==> acc[i][k] < |dims[i].categories|
    requires forall k :: 0 <= k < |v| ==> v[k] < |dims[i].categories|
    ensures ValidMap(dims, acc[i := v])
  {
  }

  lemma {:induction false} FoldKeepsValid(c: DataCube, kwargs: seq<(string, Selection)>)
    requires ValidMap(c.data.dimensions, c.filters)
    requires FilterFold(c, kwargs).Ok?
    ensures ValidMap(c.data.dimensions, FilterFold(c, kwargs).value)
  {
    if kwargs != [] {
      FilterFoldSnoc(c, kwargs);
      FoldKeepsValid(c, kwargs[..|kwargs| - 1]);
      StepKeepsValid(c, FilterFold(c, kwargs[..|kwargs| - 1]).value, kwargs[|kwargs| - 1]);
    }
  }

  /** Every view `filter` returns keeps the filters valid. */
  lemma FilterKeepsValid(c: DataCube, kwargs: seq<(string, Selection)>)
    requires ValidFilters(c)
    requires FilterResult(c, kwargs).Ok?
    ensures ValidFilters(FilterResult(c, kwargs).value)
  {
    assert ValidMap(c.data.dimensions, c.filters);
    FoldKeepsValid(c, kwargs);
  }

  /**
   * A view differs from the receiver only in the named dimensions: filters on
   * two different dimensions commute.
   */
  lemma FilterCommutes(c: DataCube, f: (string, Selection), g: (string, Selection))
    requires f.0 != g.0
    requires Resolvable(c.data.dimensions, f) && Resolvable(c.data.dimensions, g)
    ensures FilterResult(c, [f]).Ok? && FilterResult(c, [g]).Ok?
    ensures FilterResult(FilterResult(c, [f]).value, [g]) == FilterResult(FilterResult(c, [g]).value, [f])
  {
    var dims := c.data.dimensions;
    var i, j := Target(c, f), Target(c, g);
    assert DimIds(dims)[i] == f.0 && DimIds(dims)[j] == g.0;
    var a := Prior(c, i) + ResolvedOf(dims, f).value;
    var b := Prior(c, j) + ResolvedOf(dims, g).value;
    FilterThen(c, f, g);
    FilterThen(c, g, f);
    MapUpdatesCommute(c.filters, i, a, j, b);
  }

  /** Filtering on one dimension and then on another sets both lists from the receiver's. */
  lemma FilterThen(c: DataCube, f: (string, Selection), g: (string, Selection))
    requires Resolvable(c.data.dimensions, f) && Resolvable(c.data.dimensions, g)
    requires Target(c, f) != Target(c, g)
    ensures FilterResult(c, [f]).Ok?
    ensures FilterResult(FilterResult(c, [f]).value, [g]) ==
      Ok(DataCube(c.data, c.filters
        [Target(c, f) := Prior(c, Target(c, f)) + ResolvedOf(c.data.dimensions, f).value]
        [Target(c, g) := Prior(c, Target(c, g)) + ResolvedOf(c.data.dimensions, g).value]))
  {
    FilterSingle(c, f);
    var cf := FilterResult(c, [f]).value;
    FilterSingle(cf, g);
    assert Target(cf, g) == Target(c, g);
    assert Prior(cf, Target(c, g)) == Prior(c, Target(c, g));
  }

  lemma MapUpdatesCommute<K, V>(m: map<K, V>, i: K, a: V, j: K, b: V)
    requires i != j
    ensures m[i := a][j := b] == m[j := b][i := a]
  {
  }

  /** A single keyword sets its dimension's list to the previous list followed by the resolved positions. */
  lemma FilterSingle(c: DataCube, kw: (string, Selection))
    requires Resolvable(c.data.dimensions, kw)
    ensures FilterResult(c, [kw]) ==
      Ok(DataCube(c.data, c.filters[Target(c, kw) := Prior(c, Target(c, kw)) + ResolvedOf(c.data.dimensions, kw).value]))
  {
    FilterOne(c, kw);
    FilterStepIs(c, c.filters, kw);
  }

  /**
   * Unlike the SQL engine's overwrite, the dense `filter` is not idempotent:
   * repeating a non-empty restriction on a dimension repeats its positions.
   */
  lemma FilterTwiceRepeats(c: DataCube, kw: (string, Selection))
    requires Resolvable(c.data.dimensions, kw) && SelectionIds(kw.1) != []
    ensures FilterResult(c, [kw]).Ok?
    ensures var once := FilterResult(c, [kw]).value;
      var i := Target(c, kw);
      var r := Resolve(c.data.dimensions, kw.0, SelectionIds(kw.1)).value;
      && FilterResult(once, [kw]).Ok?
      && once.filters[i] == Prior(c, i) + r
      && FilterResult(once, [kw]).value.filters[i] == Prior(c, i) + r + r
      && FilterResult(once, [kw]).value != once
  {
    FilterOne(c, kw);
    var once := FilterResult(c, [kw]).value;
    FilterOne(once, kw);
    var i := Target(c, kw);
    assert |FilterResult(once, [kw]).value.filters[i]| > |once.filters[i]|;
  }

  // ---------------------------------------------------------------------
  // Enabled ranges, iteration and length
  // ---------------------------------------------------------------------

  /** `_enabled_dim_ranges()` as a value. */
  function EnabledRanges(c: DataCube): (rs: seq<seq<nat>>)
    ensures |rs| == |c.data.dimensions|
  {
    var sizes := DimSizes(c.data.dimensions);
    seq(|sizes|, i requires 0 <= i < |sizes| => if i in c.filters then c.filters[i] else Range(sizes[i]))
  }

  /** `_enabled_dim_ranges`: a filtered dimension gets its stored list, any other `range(size)`. */
  method EnabledDimRanges(c: DataCube) returns (rs: seq<seq<nat>>)
    ensures rs == EnabledRanges(c)
    ensures |rs| == |c.data.dimensions|
    ensures forall i :: 0 <= i < |rs| ==> rs[i] == if i in c.filters then c.filters[i] else Range(|c.data.dimensions[i].categories|)
  {
    var sizes := DimSizes(c.data.dimensions);
    rs := [];
    for i := 0 to |sizes|
      invariant |rs| == i
      invariant forall k :: 0 <= k < i ==> rs[k] == if k in c.filters then c.filters[k] else Range(sizes[k])
    {
      if i in c.filters {
        rs := rs + [c.filters[i]];
      } else {
        rs := rs + [Range(sizes[i])];
      }
    }
  }

  /** The index tuples `__iter__` yields, one per row. */
  function Tuples(c: DataCube): seq<seq<nat>>
  {
    Cartesian(EnabledRanges(c))
  }

  /** `__len__`: multiply the enabled list lengths. It is the number of rows `__iter__` yields. */
  method Len(c: DataCube) returns (n: nat)
    ensures n == |Tuples(c)|
    ensures n == Product(Lengths(EnabledRanges(c)))
  {
    var rs := EnabledDimRanges(c);
    var realsizes := Lengths(rs);
    n := 1;
    for i := 0 to |realsizes|
      invariant n == Product(realsizes[..i])
    {
      ProductPrefixStep(realsizes, i);
      n := n * realsizes[i];
    }
    assert realsizes[..|realsizes|] == realsizes;
  }

  lemma ProductPrefixStep(s: seq<nat>, i: nat)
    requires i < |s|
    ensures Product(s[..i + 1]) == Product(s[..i]) * s[i]
  {
    assert s[..i + 1] == s[..i] + [s[i]];
    ProductSnoc(s[..i], s[i]);
  }

  /** With valid filters, every tuple `__iter__` yields is a coordinate of the grid. */
  lemma TuplesInRange(c: DataCube, k: nat)
    requires ValidFilters(c) && k < |Tuples(c)|
    ensures InRange(Tuples(c)[k], DimSizes(c.data.dimensions))
  {
    var rs := EnabledRanges(c);
    CartesianAt(rs, k);
    var u := Unflatten(k, Lengths(rs));
    forall i | 0 <= i < |rs|
      ensures Tuples(c)[k][i] < DimSizes(c.data.dimensions)[i]
    {
      assert Tuples(c)[k][i] == rs[i][u[i]];
    }
  }

  /** Without filters, the k-th row is the grid cell whose flat index is k. */
  lemma UnfilteredTuples(c: DataCube)
    requires c.filters == map[]
    ensures |Tuples(c)| == Product(DimSizes(c.data.dimensions))
    ensures forall k :: 0 <= k < |Tuples(c)| ==>
      Flat(Tuples(c)[k], Magnitudes(DimSizes(c.data.dimensions))) == k
  {
    var sizes := DimSizes(c.data.dimensions);
    assert EnabledRanges(c) == Ranges(sizes);
    GridEnumeration(sizes);
  }

  // ---------------------------------------------------------------------
  // Rows
  // ---------------------------------------------------------------------

  /** The first argument of `_dimension`: a position (an int) or a dimension id. */
  datatype DimRef = ByIndex(index: int) | ById(id: string)

  /**
   * `_dimension(idx)`: an int is a list position, negative ones counting from
   * the end; anything else is looked up in `_dim_indices`, which keeps the
   * last dimension with that id.
   */
  function DimensionAt(dims: seq<Dimension>, ref: DimRef): (r: Result<Dimension>)
    ensures ref.ByIndex? ==> r == PyIndex(dims, ref.index)
    ensures ref.ById? ==> (r.Ok? <==> ref.id in DimIds(dims))
    ensures ref.ById? && r.Err? ==> r.error == KeyError(ref.id)
    ensures ref.ById? && r.Ok? ==>
      r.value.id == ref.id && exists i :: 0 <= i < |dims| && dims[i] == r.value && forall j :: i < j < |dims| ==> dims[j].id != ref.id
  {
    match ref
    case ByIndex(i) => PyIndex(dims, i)
    case ById(x) =>
      match DimIndex(dims, x)
      case None => Err(KeyError(x))
      case Some(i) => Ok(dims[i])
  }

  /** A position and a dimension's own id resolve to the same dimension when ids are unique. */
  lemma DimensionRefsAgree(dims: seq<Dimension>, i: nat)
    requires Distinct(DimIds(dims)) && i < |dims|
    ensures DimensionAt(dims, ByIndex(i)) == Ok(dims[i])
    ensures DimensionAt(dims, ById(dims[i].id)) == Ok(dims[i])
  {
    LastIndexOfDistinct(DimIds(dims), i);
  }

  function LabelOf(cat: Category): string
  {
    match cat.title
    case Some(l) => l
    case None => cat.id
  }

  /**
   * `_category_label`: the label of the category at position `catIdx` of the
   * dimension `_dimension` finds, or its id when it has none. An unknown
   * dimension fails as `_dimension` does; a position outside
   * `-len .. len-1` is an `IndexError`; a negative one counts from the end.
   */
  function CategoryLabel(dims: seq<Dimension>, ref: DimRef, catIdx: int): (r: Result<string>)
    ensures DimensionAt(dims, ref).Err? ==> r == Err(DimensionAt(dims, ref).error)
    ensures DimensionAt(dims, ref).Ok? ==>
      var cats := DimensionAt(dims, ref).value.categories;
      && (r.Ok? <==> -|cats| <= catIdx < |cats|)
      && (r.Err? ==> r.error == IndexError)
      && (r.Ok? ==>
            var cat := cats[if catIdx < 0 then |cats| + catIdx else catIdx];
            r.value == if cat.title.Some? then cat.title.value else cat.id)
  {
    var dim :- DimensionAt(dims, ref);
    var cat :- PyIndex(dim.categories, catIdx);
    Ok(LabelOf(cat))
  }

  /** The label part of `_Row.__iter__`: one label per coordinate, in order. */
  function Labels(dims: seq<Dimension>, t: seq<nat>): Result<seq<Value>>
  {
    if t == [] then Ok([])
    else
      var pre :- Labels(dims, t[..|t| - 1]);
      var l :- CategoryLabel(dims, ByIndex(|t| - 1), t[|t| - 1]);
      Ok(pre + [VStr(l)])
  }

  /** The payload part of `_Row.__iter__`: `values[flat_i]` of every value dimension, in order. */
  function Payloads(vdims: seq<ValueDimension>, flat: nat): Result<seq<Value>>
  {
    if vdims == [] then Ok([])
    else
      var pre :- Payloads(vdims[..|vdims| - 1], flat);
      var v :- PyIndex(vdims[|vdims| - 1].values, flat);
      Ok(pre + [v])
  }

  /** The flat payload offset `_flatindex` gives a tuple of this cube. */
  function FlatOf(dims: seq<Dimension>, t: seq<nat>): nat
  {
    Flat(t, Magnitudes(DimSizes(dims)))
  }

  /** `list(_Row(cube, t))`. */
  function Row(c: DataCube, t: seq<nat>): Result<seq<Value>>
  {
    var ls :- Labels(c.data.dimensions, t);
    var ps :- Payloads(c.data.valueDimensions, FlatOf(c.data.dimensions, t));
    Ok(ls + ps)
  }

  /** `[list(row) for row in cube]`; a row whose payload index is out of range raises when reached. */
  function Rows(c: DataCube): seq<Result<seq<Value>>>
  {
    var ts := Tuples(c);
    seq(|ts|, k requires 0 <= k < |ts| => Row(c, ts[k]))
  }

  /** The rows depend only on the dimensions, the value dimensions and the filters. */
  lemma RowsOfParts(c1: DataCube, c2: DataCube)
    requires c1.data.dimensions == c2.data.dimensions && c1.data.valueDimensions == c2.data.valueDimensions
    requires c1.filters == c2.filters
    ensures Rows(c1) == Rows(c2)
  {
    assert EnabledRanges(c1) == EnabledRanges(c2);
    forall t ensures Row(c1, t) == Row(c2, t) {
    }
  }

  /** Every value dimension carries one payload entry per grid cell. */
  predicate Dense(data: CubeData)
  {
    forall j :: 0 <= j < |data.valueDimensions| ==>
      |data.valueDimensions[j].values| == Product(DimSizes(data.dimensions))
  }

  predicate Fits(t: seq<nat>, dims: seq<Dimension>)
  {
    |t| <= |dims| && forall i :: 0 <= i < |t| ==> t[i] < |dims[i].categories|
  }

  lemma {:induction false} LabelsOk(dims: seq<Dimension>, t: seq<nat>)
    requires Fits(t, dims)
    ensures Labels(dims, t).Ok? && |Labels(dims, t).value| == |t|
    ensures forall i :: 0 <= i < |t| ==> Labels(dims, t).value[i] == VStr(LabelOf(dims[i].categories[t[i]]))
  {
    if t != [] {
      LabelsOk(dims, t[..|t| - 1]);
    }
  }

  lemma {:induction false} PayloadsOk(vdims: seq<ValueDimension>, flat: nat)
    requires forall j :: 0 <= j < |vdims| ==> flat < |vdims[j].values|
    ensures Payloads(vdims, flat).Ok? && |Payloads(vdims, flat).value| == |vdims|
    ensures forall j :: 0 <= j < |vdims| ==> Payloads(vdims, flat).value[j] == vdims[j].values[flat]
  {
    if vdims != [] {
      PayloadsOk(vdims[..|vdims| - 1], flat);
    }
  }

  /**
   * A row of a dense cube at a grid coordinate: one label (or id) per
   * categorical coordinate, then `values[flatindex]` of each value dimension
   * in declaration order.
   */
  lemma RowContents(c: DataCube, t: seq<nat>)
    requires Dense(c.data) && InRange(t, DimSizes(c.data.dimensions))
    ensures Row(c, t).Ok?
    ensures var row := Row(c, t).value;
      var dims := c.data.dimensions;
      var vdims := c.data.valueDimensions;
      && |row| == |dims| + |vdims|
      && (forall i :: 0 <= i < |dims| ==> row[i] == VStr(LabelOf(dims[i].categories[t[i]])))
      && (forall j :: 0 <= j < |vdims| ==> row[|dims| + j] == vdims[j].values[FlatOf(dims, t)])
  {
    var dims := c.data.dimensions;
    LabelsOk(dims, t);
    FlatIndexBound(t, DimSizes(dims));
    PayloadsOk(c.data.valueDimensions, FlatOf(dims, t));
  }

  /** Every row of a well-formed cube can be produced. */
  lemma RowsOk(c: DataCube, k: nat)
    requires ValidFilters(c) && Dense(c.data) && k < |Rows(c)|
    ensures Rows(c)[k].Ok?
    ensures Rows(c)[k] == Row(c, Tuples(c)[k])
  {
    TuplesInRange(c, k);
    RowContents(c, Tuples(c)[k]);
  }

  /** The payload of the sole value dimension, read in row order. */
  function ValueColumn(c: DataCube): (col: seq<Value>)
    requires ValidFilters(c) && Dense(c.data) && |c.data.valueDimensions| >= 1
    ensures |col| == |Tuples(c)|
  {
    var ts := Tuples(c);
    var dims := c.data.dimensions;
    seq(|ts|, k requires 0 <= k < |ts| =>
      TuplesInRange(c, k);
      FlatIndexBound(ts[k], DimSizes(dims));
      c.data.valueDimensions[0].values[FlatOf(dims, ts[k])])
  }

  // ---------------------------------------------------------------------
  // specification, dimension_ids, materialize
  // ---------------------------------------------------------------------

  predicate ValidPositions(cats: seq<Category>, idxs: seq<nat>)
  {
    forall k :: 0 <= k < |idxs| ==> idxs[k] < |cats|
  }

  /** `[cats[i] for i in idxs]`. */
  function Select(cats: seq<Category>, idxs: seq<nat>): (r: seq<Category>)
    requires ValidPositions(cats, idxs)
    ensures |r| == |idxs| && forall k :: 0 <= k < |idxs| ==> r[k] == cats[idxs[k]]
  {
    seq(|idxs|, k requires 0 <= k < |idxs| => cats[idxs[k]])
  }

  lemma EnabledRangesValid(c: DataCube, i: nat)
    requires ValidFilters(c) && i < |c.data.dimensions|
    ensures ValidPositions(c.data.dimensions[i].categories, EnabledRanges(c)[i])
  {
  }

  /** The `dimensions` entry `specification()` writes for categorical dimension `i`. */
  function CatSpec(c: DataCube, i: nat): SpecDim
    requires ValidFilters(c) && i < |c.data.dimensions|
  {
    var d := c.data.dimensions[i];
    EnabledRangesValid(c, i);
    CatDim(d.id, d.title, Select(d.categories, EnabledRanges(c)[i]))
  }

  function ValSpec(v: ValueDimension): SpecDim
  {
    ValDim(v.id, v.title)
  }

  /** The `dimensions` list of `specification()`: categorical entries, then value dimensions. */
  function SpecDims(c: DataCube): (ds: seq<SpecDim>)
    requires ValidFilters(c)
    ensures |ds| == |c.data.dimensions| + |c.data.valueDimensions|
    ensures forall i :: 0 <= i < |c.data.dimensions| ==> ds[i] == CatSpec(c, i)
    ensures forall j :: 0 <= j < |c.data.valueDimensions| ==> ds[|c.data.dimensions| + j] == ValSpec(c.data.valueDimensions[j])
  {
    var dims := c.data.dimensions;
    var vdims := c.data.valueDimensions;
    seq(|dims|, i requires 0 <= i < |dims| => CatSpec(c, i))
    + seq(|vdims|, j requires 0 <= j < |vdims| => ValSpec(vdims[j]))
  }

  /** `specification()` as a value. */
  function SpecOf(c: DataCube): Spec
    requires ValidFilters(c)
  {
    Spec(c.data.metadata, SpecDims(c), Some(|Tuples(c)|))
  }

  /**
   * What `specification()` lists: each categorical dimension with only its
   * enabled categories, in enabled order; then the value dimensions without
   * their values; `length` is the number of rows; the metadata is kept.
   */
  lemma SpecContents(c: DataCube)
    requires ValidFilters(c)
    ensures var s := SpecOf(c);
      && s.metadata == c.data.metadata && s.length == Some(|Tuples(c)|)
      && |s.dimensions| == |c.data.dimensions| + |c.data.valueDimensions|
      && (forall i :: 0 <= i < |c.data.dimensions| ==>
            && s.dimensions[i].CatDim?
            && s.dimensions[i].id == c.data.dimensions[i].id
            && s.dimensions[i].title == c.data.dimensions[i].title
            && |s.dimensions[i].categories| == |EnabledRanges(c)[i]|
            && forall k :: 0 <= k < |EnabledRanges(c)[i]| ==>
                 s.dimensions[i].categories[k] == c.data.dimensions[i].categories[EnabledRanges(c)[i][k]])
      && (forall j :: 0 <= j < |c.data.valueDimensions| ==>
            s.dimensions[|c.data.dimensions| + j] == ValDim(c.data.valueDimensions[j].id, c.data.valueDimensions[j].title))
  {
    var s := SpecOf(c);
    forall i | 0 <= i < |c.data.dimensions|
      ensures s.dimensions[i].categories == Select(c.data.dimensions[i].categories, EnabledRanges(c)[i])
    {
      assert s.dimensions[i] == CatSpec(c, i);
    }
  }

  /** The entries after the categorical ones are the value dimensions, without their values. */
  lemma SpecValueEntry(c: DataCube, k: nat)
    requires ValidFilters(c) && |c.data.dimensions| <= k < |c.data.dimensions| + |c.data.valueDimensions|
    ensures k < |SpecDims(c)|
    ensures SpecDims(c)[k] == ValSpec(c.data.valueDimensions[k - |c.data.dimensions|])
  {
    var ds := SpecDims(c);
    assert ds[k] == ValSpec(c.data.valueDimensions[k - |c.data.dimensions|]);
  }

  /** Without filters the specification lists every category of every dimension. */
  lemma UnfilteredSpecKeepsCategories(c: DataCube, i: nat)
    requires c.filters == map[] && i < |c.data.dimensions|
    ensures SpecOf(c).dimensions[i] == CatDim(c.data.dimensions[i].id, c.data.dimensions[i].title, c.data.dimensions[i].categories)
  {
    var cats := c.data.dimensions[i].categories;
    assert EnabledRanges(c)[i] == Range(|cats|);
    assert Select(cats, Range(|cats|)) == cats;
  }

  /** The inner loop of `specification()`: `origcats[cat_i]` for each enabled position. */
  method SelectCategories(origcats: seq<Category>, enabled: seq<nat>) returns (cats: seq<Category>)
    requires ValidPositions(origcats, enabled)
    ensures cats == Select(origcats, enabled)
  {
    cats := [];
    for k := 0 to |enabled|
      invariant cats == Select(origcats, enabled[..k])
    {
      cats := cats + [origcats[enabled[k]]];
    }
    assert enabled[..|enabled|] == enabled;
  }

  /** The first loop of `specification()`: one entry per categorical dimension, its enabled categories in order. */
  method CategoricalSpecs(c: DataCube) returns (out: seq<SpecDim>)
    requires ValidFilters(c)
    ensures |out| == |c.data.dimensions|
    ensures forall k :: 0 <= k < |out| ==> out[k] == CatSpec(c, k)
  {
    var enabled := EnabledDimRanges(c);
    out := [];
    for i := 0 to |c.data.dimensions|
      invariant |out| == i
      invariant forall k :: 0 <= k < i ==> out[k] == CatSpec(c, k)
    {
      var entry := CategoricalSpec(c, enabled, i);
      CatSpecsSnoc(c, out, entry);
      out := out + [entry];
    }
  }

  /** Appending the entry of the next dimension keeps the entries those of `CatSpec`. */
  lemma CatSpecsSnoc(c: DataCube, out: seq<SpecDim>, entry: SpecDim)
    requires ValidFilters(c) && |out| < |c.data.dimensions|
    requires forall k :: 0 <= k < |out| ==> out[k] == CatSpec(c, k)
    requires entry == CatSpec(c, |out|)
    ensures forall k :: 0 <= k <= |out| ==> (out + [entry])[k] == CatSpec(c, k)
  {
  }

  /** One iteration of the first loop: the dimension with its enabled categories. */
  method CategoricalSpec(c: DataCube, enabled: seq<seq<nat>>, i: nat) returns (entry: SpecDim)
    requires ValidFilters(c) && i < |c.data.dimensions| && enabled == EnabledRanges(c)
    ensures entry == CatSpec(c, i)
  {
    var d := c.data.dimensions[i];
    EnabledRangesValid(c, i);
    var cats := SelectCategories(d.categories, enabled[i]);
    entry := CatDim(d.id, d.title, cats);
  }

  /** The second loop of `specification()`: the value dimensions without their values. */
  method ValueSpecs(vdims: seq<ValueDimension>) returns (novals: seq<SpecDim>)
    ensures |novals| == |vdims|
    ensures forall k :: 0 <= k < |vdims| ==> novals[k] == ValSpec(vdims[k])
  {
    novals := [];
    for j := 0 to |vdims|
      invariant |novals| == j
      invariant forall k :: 0 <= k < j ==> novals[k] == ValSpec(vdims[k])
    {
      novals := novals + [ValDim(vdims[j].id, vdims[j].title)];
    }
  }

  /** `specification()`, built by appending as the source does; its contents are those of `SpecContents`. */
  method Specification(c: DataCube) returns (s: Spec)
    requires ValidFilters(c)
    ensures s == SpecOf(c)
  {
    var length := Len(c);
    var out := CategoricalSpecs(c);
    var novals := ValueSpecs(c.data.valueDimensions);
    assert out + novals == SpecDims(c);
    s := Spec(c.data.metadata, out + novals, Some(length));
  }

  /** `dimension_ids()`: the categorical ids, then the value dimension ids. */
  function DimensionIds(data: CubeData): (ids: seq<string>)
    ensures |ids| == |data.dimensions| + |data.valueDimensions|
    ensures forall i :: 0 <= i < |data.dimensions| ==> ids[i] == data.dimensions[i].id
    ensures forall j :: 0 <= j < |data.valueDimensions| ==> ids[|data.dimensions| + j] == data.valueDimensions[j].id
  {
    DimIds(data.dimensions) + seq(|data.valueDimensions|, j requires 0 <= j < |data.valueDimensions| => data.valueDimensions[j].id)
  }

  /**
   * `materialize()`: the cube itself when it has no filters. A filtered view
   * reaches `raise NotImplemented(...)`, which calls the `NotImplemented`
   * constant and so raises `TypeError`.
   */
  function Materialize(c: DataCube): (r: Result<DataCube>)
    ensures r.Ok? <==> c.filters == map[]
    ensures r.Ok? ==> r.value == c
    ensures r.Err? ==> r.error == TypeError
  {
    if |c.filters| > 0 then Err(TypeError) else Ok(c)
  }

  /** Any view made by a successful non-empty `filter` cannot be materialized. */
  lemma MaterializeRejectsFiltered(c: DataCube, kwargs: seq<(string, Selection)>)
    requires DistinctKeys(kwargs) && |kwargs| > 0
    requires FilterResult(c, kwargs).Ok?
    ensures Materialize(FilterResult(c, kwargs).value).Err?
  {
    FilterExtends(c, kwargs);
    assert Target(c, kwargs[0]) in FilterResult(c, kwargs).value.filters;
  }
}
