/**
 * The SQL cube's view of its stored specification: the filter step of
 * `_fast_specification`, `dimension_ids`, the group enumeration of
 * `group_by` / `__iter_groups` / `group_for` and the collapse step of
 * `toColumns`. The stored specification (what `FromCube` saved as JSON)
 * and the table name are parameters.
 */
module SqlSpec {
  import opened Common
  import opened FlatIndex
  import opened Cube
  import opened SqlNames
  import opened SqlFilter

  // ---------------------------------------------------------------------
  // _fast_specification
  // ---------------------------------------------------------------------

  /** `[cat for cat in categories if cat['id'] in catIds]`. */
  function Keep(cats: seq<Category>, ids: seq<string>): (r: seq<Category>)
    ensures forall c :: c in r <==> c in cats && c.id in ids
    ensures |r| <= |cats|
  {
    if cats == [] then []
    else
      var pre := Keep(cats[..|cats| - 1], ids);
      var last := cats[|cats| - 1];
      assert forall c :: c in cats <==> c in cats[..|cats| - 1] || c == last by {
        assert cats == cats[..|cats| - 1] + [last];
      }
      if last.id in ids then pre + [last] else pre
  }

  /** Filtering keeps the original order: it distributes over concatenation. */
  lemma {:induction false} KeepAppend(a: seq<Category>, b: seq<Category>, ids: seq<string>)
    ensures Keep(a + b, ids) == Keep(a, ids) + Keep(b, ids)
  {
    if b != [] {
      var n := |b| - 1;
      assert (a + b)[..|a + b| - 1] == a + b[..n];
      KeepAppend(a, b[..n], ids);
    } else {
      assert a + b == a;
    }
  }

  /** A filter set that names every category keeps the dimension as it is. */
  lemma {:induction false} KeepAll(cats: seq<Category>, ids: seq<string>)
    requires forall k :: 0 <= k < |cats| ==> cats[k].id in ids
    ensures Keep(cats, ids) == cats
  {
    if cats != [] {
      KeepAll(cats[..|cats| - 1], ids);
      assert cats == cats[..|cats| - 1] + [cats[|cats| - 1]];
    }
  }

  /**
   * One pass of the loop: `dims[dim_id]` is the last dimension with that id
   * (the dictionary comprehension keeps the last), a missing id is a
   * `KeyError`, and a value dimension has no `categories` key.
   */
  function FastStep(ds: seq<SpecDim>, f: (string, seq<string>)): (r: Result<seq<SpecDim>>)
    ensures r.Ok? ==> SpecIds(r.value) == SpecIds(ds)
    ensures r.Err? ==> r.error == KeyError(f.0) || r.error == KeyError("categories")
    ensures r.Ok? ==> |r.value| == |ds| && forall j :: 0 <= j < |ds| ==> r.value[j].CatDim? == ds[j].CatDim?
  {
    match LastIndexOf(SpecIds(ds), f.0)
    case None => Err(KeyError(f.0))
    case Some(i) =>
      if ds[i].ValDim? then Err(KeyError("categories"))
      else
        var r := ds[i := ds[i].(categories := Keep(ds[i].categories, f.1))];
        assert SpecIds(r) == SpecIds(ds);
        Ok(r)
  }

  function FastSpecDims(ds: seq<SpecDim>, fs: SqlFilters): (r: Result<seq<SpecDim>>)
    ensures r.Ok? ==> SpecIds(r.value) == SpecIds(ds)
    ensures r.Ok? ==> |r.value| == |ds| && forall j :: 0 <= j < |ds| ==> r.value[j].CatDim? == ds[j].CatDim?
    ensures r.Err? ==> exists k :: 0 <= k < |fs| && (r.error == KeyError(fs[k].0) || r.error == KeyError("categories"))
  {
    if fs == [] then Ok(ds)
    else
      assert forall j :: 0 <= j < |fs| - 1 ==> fs[..|fs| - 1][j] == fs[j];
      var pre :- FastSpecDims(ds, fs[..|fs| - 1]);
      FastStep(pre, fs[|fs| - 1])
  }

  /** `_fast_specification()` once the stored specification has been fetched. */
  function FastSpecOf(stored: Spec, fs: SqlFilters): Result<Spec>
  {
    var ds :- FastSpecDims(stored.dimensions, fs);
    Ok(stored.(dimensions := ds))
  }

  /** `_fast_specification`: restricts each filtered dimension, in filter order. */
  method FastSpecification(stored: Spec, fs: SqlFilters) returns (r: Result<Spec>)
    ensures r == FastSpecOf(stored, fs)
  {
    var spec := stored;
    for i := 0 to |fs|
      invariant FastSpecDims(stored.dimensions, fs[..i]) == Ok(spec.dimensions)
      invariant spec == stored.(dimensions := spec.dimensions)
    {
      assert fs[..i + 1][..i] == fs[..i];
      var step := FastStep(spec.dimensions, fs[i]);
      if step.Err? {
        FastSpecFail(stored.dimensions, fs, i + 1);
        return Err(step.error);
      }
      spec := spec.(dimensions := step.value);
    }
    assert fs[..|fs|] == fs;
    r := Ok(spec);
  }

  lemma {:induction false} FastSpecFail(ds: seq<SpecDim>, fs: SqlFilters, n: nat)
    requires 0 < n <= |fs| && FastSpecDims(ds, fs[..n - 1]).Ok?
    requires FastStep(FastSpecDims(ds, fs[..n - 1]).value, fs[n - 1]).Err?
    ensures FastSpecDims(ds, fs) == FastStep(FastSpecDims(ds, fs[..n - 1]).value, fs[n - 1])
    decreases |fs|
  {
    if n < |fs| {
      var pre := fs[..|fs| - 1];
      assert pre[..n - 1] == fs[..n - 1] && pre[n - 1] == fs[n - 1];
      FastSpecFail(ds, pre, n);
    } else {
      assert fs[..|fs| - 1] == fs[..n - 1];
    }
  }

  /** A filter key `_fast_specification` can apply: the last dimension with that id is categorical. */
  predicate Filterable(ds: seq<SpecDim>, key: string)
  {
    match LastIndexOf(SpecIds(ds), key)
    case None => false
    case Some(i) => ds[i].CatDim?
  }

  /** What the k-th dimension becomes: restricted when it is the one `dims[id]` picks and its id is filtered. */
  function Restricted(ds: seq<SpecDim>, fs: SqlFilters, j: nat): SpecDim
    requires j < |ds|
  {
    var d := ds[j];
    if d.CatDim? && LastIndexOf(SpecIds(ds), d.id) == Some(j) && Lookup(fs, d.id).Some?
    then d.(categories := Keep(d.categories, Lookup(fs, d.id).value))
    else d
  }

  lemma LookupSnoc(fs: SqlFilters, x: string)
    requires fs != [] && Distinct(Firsts(fs))
    ensures Distinct(Firsts(fs[..|fs| - 1]))
    ensures Lookup(fs, x) == if x == fs[|fs| - 1].0 then Some(fs[|fs| - 1].1) else Lookup(fs[..|fs| - 1], x)
  {
    var n := |fs| - 1;
    var pre := fs[..n];
    assert Firsts(pre) == Firsts(fs)[..n];
    if x == fs[n].0 {
      LookupDistinct(fs, n);
    } else if x in Firsts(pre) {
      var i :| 0 <= i < n && Firsts(pre)[i] == x;
      LookupDistinct(fs, i);
      LookupDistinct(pre, i);
    } else {
      assert x !in Firsts(fs);
    }
  }

  lemma FastStepAt(ds0: seq<SpecDim>, pre: seq<SpecDim>, fs: SqlFilters, j: nat)
    requires fs != [] && Distinct(Firsts(fs)) && j < |ds0|
    requires SpecIds(pre) == SpecIds(ds0) && |pre| == |ds0|
    requires forall i :: 0 <= i < |ds0| ==> pre[i] == Restricted(ds0, fs[..|fs| - 1], i)
    requires FastStep(pre, fs[|fs| - 1]).Ok?
    ensures FastStep(pre, fs[|fs| - 1]).value[j] == Restricted(ds0, fs, j)
  {
    var n := |fs| - 1;
    LookupSnoc(fs, ds0[j].id);
    var i := LastIndexOf(SpecIds(pre), fs[n].0).value;
    assert pre[j] == Restricted(ds0, fs[..n], j);
    assert ds0[j].id == SpecIds(ds0)[j];
    if j == i {
      assert Lookup(fs[..n], fs[n].0) == None by {
        assert Firsts(fs)[..n] == Firsts(fs[..n]);
      }
    }
  }

  lemma FilterableKept(ds: seq<SpecDim>, pre: seq<SpecDim>, key: string)
    requires SpecIds(pre) == SpecIds(ds) && |pre| == |ds|
    requires forall j :: 0 <= j < |ds| ==> pre[j].CatDim? == ds[j].CatDim?
    ensures Filterable(pre, key) == Filterable(ds, key)
  {
  }

  lemma FastStepOk(ds: seq<SpecDim>, f: (string, seq<string>))
    ensures FastStep(ds, f).Ok? <==> Filterable(ds, f.0)
  {
  }

  lemma FastSpecStepOk(ds: seq<SpecDim>, fs: SqlFilters)
    requires fs != []
    ensures FastSpecDims(ds, fs).Ok? <==> FastSpecDims(ds, fs[..|fs| - 1]).Ok? && Filterable(ds, fs[|fs| - 1].0)
  {
    var r := FastSpecDims(ds, fs[..|fs| - 1]);
    if r.Ok? {
      FilterableKept(ds, r.value, fs[|fs| - 1].0);
      FastStepOk(r.value, fs[|fs| - 1]);
    }
  }

  predicate AllFilterable(ds: seq<SpecDim>, fs: SqlFilters)
  {
    forall k :: 0 <= k < |fs| ==> Filterable(ds, fs[k].0)
  }

  lemma AllFilterableSnoc(ds: seq<SpecDim>, fs: SqlFilters)
    requires fs != []
    ensures AllFilterable(ds, fs) <==> AllFilterable(ds, fs[..|fs| - 1]) && Filterable(ds, fs[|fs| - 1].0)
  {
    assert forall k :: 0 <= k < |fs| - 1 ==> fs[..|fs| - 1][k] == fs[k];
  }

  lemma {:induction false} FastSpecSucceeds(ds: seq<SpecDim>, fs: SqlFilters)
    ensures FastSpecDims(ds, fs).Ok? <==> AllFilterable(ds, fs)
  {
    if fs != [] {
      FastSpecSucceeds(ds, fs[..|fs| - 1]);
      FastSpecStepOk(ds, fs);
      AllFilterableSnoc(ds, fs);
    }
  }

  lemma {:induction false} FastSpecRestricts(ds: seq<SpecDim>, fs: SqlFilters)
    requires Distinct(Firsts(fs)) && FastSpecDims(ds, fs).Ok?
    ensures forall j :: 0 <= j < |ds| ==> FastSpecDims(ds, fs).value[j] == Restricted(ds, fs, j)
  {
    if fs == [] {
      forall j | 0 <= j < |ds| ensures ds[j] == Restricted(ds, fs, j) { }
    } else {
      var n := |fs| - 1;
      LookupSnoc(fs, "");
      FastSpecRestricts(ds, fs[..n]);
      var pre := FastSpecDims(ds, fs[..n]).value;
      forall j | 0 <= j < |ds|
        ensures FastSpecDims(ds, fs).value[j] == Restricted(ds, fs, j)
      {
        FastStepAt(ds, pre, fs, j);
      }
    }
  }

  /**
   * What `_fast_specification` computes: it succeeds exactly when every
   * filtered id names a dimension whose last occurrence is categorical;
   * then the metadata and the dimensions' order, ids and kinds are kept, the
   * dimension each filter picks is restricted to the categories whose id is
   * in its filter set, in their original order, and all other dimensions
   * are unchanged.
   */
  lemma FastSpecContents(stored: Spec, fs: SqlFilters)
    requires Distinct(Firsts(fs))
    ensures FastSpecOf(stored, fs).Ok? <==> AllFilterable(stored.dimensions, fs)
    ensures FastSpecOf(stored, fs).Ok? ==>
      var spec := FastSpecOf(stored, fs).value;
      && spec.metadata == stored.metadata && spec.length == stored.length
      && |spec.dimensions| == |stored.dimensions|
      && forall j :: 0 <= j < |stored.dimensions| ==> spec.dimensions[j] == Restricted(stored.dimensions, fs, j)
  {
    FastSpecSucceeds(stored.dimensions, fs);
    if FastSpecOf(stored, fs).Ok? {
      FastSpecRestricts(stored.dimensions, fs);
    }
  }

  /** `dimension_ids()`: filtering never changes which dimensions there are. */
  function DimensionIdsOf(stored: Spec, fs: SqlFilters): (r: Result<seq<string>>)
    ensures r.Ok? <==> FastSpecOf(stored, fs).Ok?
    ensures r.Ok? ==> r.value == SpecIds(stored.dimensions)
  {
    var spec :- FastSpecOf(stored, fs);
    Ok(SpecIds(spec.dimensions))
  }

  // ---------------------------------------------------------------------
  // group_by, __iter_groups, group_for
  // ---------------------------------------------------------------------

  /** `[d for d in dims if d['id'] in grouping_dim_ids]`: declaration order, not argument order. */
  function GroupingDims(ds: seq<SpecDim>, ids: seq<string>): (r: seq<SpecDim>)
    ensures forall d :: d in r <==> d in ds && d.id in ids
  {
    if ds == [] then []
    else
      var pre := GroupingDims(ds[..|ds| - 1], ids);
      var last := ds[|ds| - 1];
      assert forall d :: d in ds <==> d in ds[..|ds| - 1] || d == last by {
        assert ds == ds[..|ds| - 1] + [last];
      }
      if last.id in ids then pre + [last] else pre
  }

  /** Only which ids are asked for matters, not their order or repetition. */
  lemma {:induction false} GroupingDimsByMembership(ds: seq<SpecDim>, a: seq<string>, b: seq<string>)
    requires forall x :: x in a <==> x in b
    ensures GroupingDims(ds, a) == GroupingDims(ds, b)
  {
    if ds != [] {
      GroupingDimsByMembership(ds[..|ds| - 1], a, b);
    }
  }

  /** `groupings`: the category ids of each grouping dimension; a value dimension has no `categories`. */
  function Groupings(gds: seq<SpecDim>): (r: Result<seq<seq<string>>>)
    ensures r.Ok? <==> forall k :: 0 <= k < |gds| ==> gds[k].CatDim?
    ensures r.Ok? ==> |r.value| == |gds| && forall k :: 0 <= k < |gds| ==> r.value[k] == CatIds(gds[k].categories)
  {
    if gds == [] then Ok([])
    else
      var pre := Groupings(gds[..|gds| - 1]);
      var last := gds[|gds| - 1];
      if pre.Err? then pre
      else if last.ValDim? then Err(KeyError("categories"))
      else Ok(pre.value + [CatIds(last.categories)])
  }

  /** `dict(zip(grouping_dim_ids, grouping))` as keyword arguments, one category id each. */
  function GroupKwargs(ids: seq<string>, grouping: seq<string>): (kw: seq<(string, Selection)>)
    requires |ids| == |grouping|
    ensures |kw| == |ids| && forall k :: 0 <= k < |ids| ==> kw[k] == (ids[k], One(grouping[k]))
  {
    seq(|ids|, k requires 0 <= k < |ids| => (ids[k], One(grouping[k])))
  }

  /** `__iter_groups`: one filtered cube per element of the product of the groupings. */
  function GroupsOf(c: SqlDataCube, ids: seq<string>, groupings: seq<seq<string>>): (gs: seq<SqlDataCube>)
    requires |ids| == |groupings|
    ensures |gs| == Product(Lengths(groupings))
  {
    var tuples := Cartesian(groupings);
    seq(|tuples|, k requires 0 <= k < |tuples| =>
      assert |tuples[k]| == |groupings| by { CartesianAt(groupings, k); }
      SqlDataCube(c.id, SqlFilterFold(c.filters, GroupKwargs(ids, tuples[k]))))
  }

  /**
   * `group_by(*grouping_dim_ids)`: the filtered specification, the grouping
   * dimensions and their category lists, then the name checks of the
   * `COUNT(DISTINCT ...)` query (columns, where clause, table name) in that
   * order, then the groups.
   */
  function GroupBy(c: SqlDataCube, stored: Spec, tableName: string, groupIds: seq<string>): Result<seq<SqlDataCube>>
  {
    var spec :- FastSpecOf(stored, c.filters);
    GroupsIn(c, GroupingDims(spec.dimensions, groupIds), tableName)
  }

  /** The part of `group_by` after the grouping dimensions are chosen. */
  function GroupsIn(c: SqlDataCube, gds: seq<SpecDim>, tableName: string): Result<seq<SqlDataCube>>
  {
    var groupings :- Groupings(gds);
    var _ :- CountQueryChecks(SpecIds(gds), c.filters, tableName);
    Ok(GroupsOf(c, SpecIds(gds), groupings))
  }

  /** The names the `COUNT(DISTINCT ...)` query checks: its columns, the where clause, the table. */
  function CountQueryChecks(cols: seq<string>, fs: SqlFilters, tableName: string): Result<()>
  {
    var _ :- VerifyAll(cols);
    var _ :- WhereOf(fs);
    var _ :- VerifySqlName(tableName);
    Ok(())
  }

  /** The category counts of the grouping dimensions. */
  function GroupSizes(gds: seq<SpecDim>): (sizes: seq<nat>)
    ensures |sizes| == |gds| && forall k :: 0 <= k < |gds| ==> sizes[k] == if gds[k].CatDim? then |gds[k].categories| else 0
  {
    seq(|gds|, k requires 0 <= k < |gds| => if gds[k].CatDim? then |gds[k].categories| else 0)
  }

  lemma DedupOne(x: string)
    ensures Dedup([x]) == [x]
  {
    assert [x][..0] == [];
  }

  /** The k-th combination takes from grouping dimension j its category at digit j of k. */
  lemma TupleAt(gds: seq<SpecDim>, groupings: seq<seq<string>>, k: nat)
    requires Groupings(gds) == Ok(groupings)
    requires k < Product(Lengths(groupings))
    ensures Lengths(groupings) == GroupSizes(gds)
    ensures |Cartesian(groupings)[k]| == |gds|
    ensures InRange(Unflatten(k, GroupSizes(gds)), GroupSizes(gds))
    ensures forall j :: 0 <= j < |gds| ==>
      Cartesian(groupings)[k][j] == gds[j].categories[Unflatten(k, GroupSizes(gds))[j]].id
  {
    assert Lengths(groupings) == GroupSizes(gds);
    CartesianAt(groupings, k);
    FlatIndexOnto(k, GroupSizes(gds));
  }

  lemma GroupFilterAt(fs: SqlFilters, ids: seq<string>, t: seq<string>, x: string)
    requires Distinct(Firsts(fs)) && |ids| == |t|
    ensures Lookup(SqlFilterFold(fs, GroupKwargs(ids, t)), x) ==
      match LastIndexOf(ids, x)
      case None => Lookup(fs, x)
      case Some(j) => Some([t[j]])
  {
    var kw := GroupKwargs(ids, t);
    assert Firsts(kw) == ids;
    FilterOverwrites(fs, kw, x);
    match LastIndexOf(ids, x)
    case None =>
    case Some(j) =>
      DedupOne(t[j]);
      assert SelectionIds(kw[j].1) == [t[j]];
  }

  lemma GroupAt(c: SqlDataCube, gds: seq<SpecDim>, groupings: seq<seq<string>>, k: nat, x: string)
    requires Distinct(Firsts(c.filters))
    requires Groupings(gds) == Ok(groupings)
    requires k < |GroupsOf(c, SpecIds(gds), groupings)|
    ensures Lengths(groupings) == GroupSizes(gds)
    ensures var g := GroupsOf(c, SpecIds(gds), groupings)[k];
      var u := Unflatten(k, GroupSizes(gds));
      && g.id == c.id
      && Lookup(g.filters, x) ==
        match LastIndexOf(SpecIds(gds), x)
        case None => Lookup(c.filters, x)
        case Some(j) => Some([gds[j].categories[u[j]].id])
  {
    TupleAt(gds, groupings, k);
    var t := Cartesian(groupings)[k];
    GroupFilterAt(c.filters, SpecIds(gds), t, x);
  }

  lemma GroupsInValue(c: SqlDataCube, gds: seq<SpecDim>, tableName: string)
    requires GroupsIn(c, gds, tableName).Ok?
    ensures Groupings(gds).Ok? && GroupsIn(c, gds, tableName).value == GroupsOf(c, SpecIds(gds), Groupings(gds).value)
  {
  }

  lemma GroupByValue(c: SqlDataCube, stored: Spec, tableName: string, groupIds: seq<string>)
    requires GroupBy(c, stored, tableName, groupIds).Ok?
    ensures FastSpecOf(stored, c.filters).Ok?
    ensures var gds := GroupingDims(FastSpecOf(stored, c.filters).value.dimensions, groupIds);
      Groupings(gds).Ok? &&
      GroupBy(c, stored, tableName, groupIds).value == GroupsOf(c, SpecIds(gds), Groupings(gds).value)
  {
    GroupsInValue(c, GroupingDims(FastSpecOf(stored, c.filters).value.dimensions, groupIds), tableName);
  }

  /**
   * What `group_by` yields: the grouping dimensions are the filtered
   * dimensions whose id was asked for, in declaration order, and all must be
   * categorical; there is one group per combination of their categories;
   * the k-th group keeps the cube's id and its filters, except that each
   * grouping dimension is restricted to the single category at the
   * dimension's mixed-radix digit of k (row-major, the last grouping
   * dimension fastest). With repeated ids the last grouping dimension of
   * that id decides, as the dictionary built from `zip` does.
   */
  lemma GroupByContents(c: SqlDataCube, stored: Spec, tableName: string, groupIds: seq<string>, k: nat, x: string)
    requires Distinct(Firsts(c.filters))
    requires GroupBy(c, stored, tableName, groupIds).Ok?
    ensures FastSpecOf(stored, c.filters).Ok?
    ensures var gds := GroupingDims(FastSpecOf(stored, c.filters).value.dimensions, groupIds);
      && (forall i :: 0 <= i < |gds| ==> gds[i].CatDim?)
      && |GroupBy(c, stored, tableName, groupIds).value| == Product(GroupSizes(gds))
    ensures var gds := GroupingDims(FastSpecOf(stored, c.filters).value.dimensions, groupIds);
      var groups := GroupBy(c, stored, tableName, groupIds).value;
      k < |groups| ==>
        var u := Unflatten(k, GroupSizes(gds));
        && groups[k].id == c.id
        && Lookup(groups[k].filters, x) ==
          match LastIndexOf(SpecIds(gds), x)
          case None => Lookup(c.filters, x)
          case Some(j) => Some([gds[j].categories[u[j]].id])
  {
    GroupByValue(c, stored, tableName, groupIds);
    var gds := GroupingDims(FastSpecOf(stored, c.filters).value.dimensions, groupIds);
    var groupings := Groupings(gds).value;
    assert Lengths(groupings) == GroupSizes(gds);
    if k < |GroupsOf(c, SpecIds(gds), groupings)| {
      GroupAt(c, gds, groupings, k, x);
    }
  }

  /** `group_by` depends only on which dimension ids are named. */
  lemma GroupByOrderFree(c: SqlDataCube, stored: Spec, tableName: string, a: seq<string>, b: seq<string>)
    requires forall x :: x in a <==> x in b
    ensures GroupBy(c, stored, tableName, a) == GroupBy(c, stored, tableName, b)
  {
    if FastSpecOf(stored, c.filters).Ok? {
      GroupingDimsByMembership(FastSpecOf(stored, c.filters).value.dimensions, a, b);
    }
  }

  /** The members of `ids` not in `xs`: `set(ids) - set(xs)`, listed in `ids` order. */
  function Difference(ids: seq<string>, xs: seq<string>): (r: seq<string>)
    ensures forall x :: x in r <==> x in ids && x !in xs
  {
    if ids == [] then []
    else
      var pre := Difference(ids[..|ids| - 1], xs);
      var last := ids[|ids| - 1];
      assert forall x :: x in ids <==> x in ids[..|ids| - 1] || x == last by {
        assert ids == ids[..|ids| - 1] + [last];
      }
      if last in xs then pre else pre + [last]
  }

  /** `group_for(*as_values)`: group by every dimension that is not named. */
  function GroupFor(c: SqlDataCube, stored: Spec, tableName: string, asValues: seq<string>): Result<seq<SqlDataCube>>
  {
    var ids :- DimensionIdsOf(stored, c.filters);
    GroupBy(c, stored, tableName, Difference(ids, asValues))
  }

  /**
   * `group_for(xs)` is `group_by` over the dimension ids not in `xs`, in
   * whatever order the set difference lists them; its grouping dimensions
   * are exactly the dimensions whose id is not in `xs`.
   */
  lemma GroupForIsGroupBy(c: SqlDataCube, stored: Spec, tableName: string, asValues: seq<string>, groupIds: seq<string>)
    requires FastSpecOf(stored, c.filters).Ok?
    requires forall x :: x in groupIds <==> x in SpecIds(stored.dimensions) && x !in asValues
    ensures GroupFor(c, stored, tableName, asValues) == GroupBy(c, stored, tableName, groupIds)
    ensures var ds := FastSpecOf(stored, c.filters).value.dimensions;
      forall d :: d in GroupingDims(ds, groupIds) <==> d in ds && d.id !in asValues
  {
    var ds := FastSpecOf(stored, c.filters).value.dimensions;
    GroupByOrderFree(c, stored, tableName, Difference(SpecIds(stored.dimensions), asValues), groupIds);
    assert SpecIds(ds) == SpecIds(stored.dimensions);
    forall d | d in ds
      ensures d.id in SpecIds(stored.dimensions)
    {
      var j :| 0 <= j < |ds| && ds[j] == d;
      assert SpecIds(ds)[j] == d.id;
    }
  }

  // ---------------------------------------------------------------------
  // toColumns: collapse_unique
  // ---------------------------------------------------------------------

  /** The static column of a dimension with exactly one category: its label (or id) or its id. */
  function StaticOf(d: SpecDim, categoryLabels: bool): (r: Option<(string, string)>)
    ensures r.Some? <==> d.CatDim? && |d.categories| == 1
    ensures r.Some? ==> r.value.0 == d.id
  {
    if d.CatDim? && |d.categories| == 1
    then Some((d.id, if categoryLabels then LabelOf(d.categories[0]) else d.categories[0].id))
    else None
  }

  /** `ids.remove(x)`: drop the first occurrence, a `ValueError` when there is none. */
  function RemoveFirst(s: seq<string>, x: string): (r: Result<seq<string>>)
    ensures r.Ok? <==> x in s
    ensures r.Ok? ==> multiset(r.value) == multiset(s) - multiset{x}
  {
    if s == [] then Err(ValueError("list.remove(x): x not in list"))
    else if s[0] == x then
      assert s == [x] + s[1..];
      Ok(s[1..])
    else
      var rest :- RemoveFirst(s[1..], x);
      assert s == [s[0]] + s[1..];
      Ok([s[0]] + rest)
  }

  lemma RemoveFirstHead(x: string, b: seq<string>)
    ensures RemoveFirst([x] + b, x) == Ok(b)
  {
    assert ([x] + b)[0] == x && ([x] + b)[1..] == b;
  }

  lemma RemoveFirstPast(y: string, s: seq<string>, x: string)
    requires y != x && RemoveFirst(s, x).Ok?
    ensures RemoveFirst([y] + s, x) == Ok([y] + RemoveFirst(s, x).value)
  {
    assert ([y] + s)[0] == y && ([y] + s)[1..] == s;
  }

  lemma {:induction false} RemoveFirstAt(a: seq<string>, x: string, b: seq<string>)
    requires x !in a
    ensures RemoveFirst(a + [x] + b, x) == Ok(a + b)
  {
    if a == [] {
      assert a + [x] + b == [x] + b && a + b == b;
      RemoveFirstHead(x, b);
    } else {
      assert a + [x] + b == [a[0]] + (a[1..] + [x] + b);
      assert a + b == [a[0]] + (a[1..] + b);
      RemoveFirstAt(a[1..], x, b);
      RemoveFirstPast(a[0], a[1..] + [x] + b, x);
    }
  }

  /** The loop of `toColumns` over the first `i` dimensions: static columns so far and the ids left. */
  function CollapseState(ds: seq<SpecDim>, categoryLabels: bool, i: nat): Result<(seq<(string, string)>, seq<string>)>
    requires i <= |ds|
  {
    if i == 0 then Ok(([], SpecIds(ds)))
    else
      var state :- CollapseState(ds, categoryLabels, i - 1);
      match StaticOf(ds[i - 1], categoryLabels)
      case None => Ok(state)
      case Some(p) =>
        var ids :- RemoveFirst(state.1, p.0);
        Ok((state.0 + [p], ids))
  }

  /**
   * The collapse step of `toColumns(collapse_unique, category_labels)`: the
   * static columns and the dimension ids left for the aggregate query.
   */
  method CollapseUnique(ds: seq<SpecDim>, collapseUnique: bool, categoryLabels: bool)
    returns (staticDims: seq<(string, string)>, dimIds: seq<string>)
    ensures collapseUnique ==> CollapseState(ds, categoryLabels, |ds|) == Ok((staticDims, dimIds))
    ensures !collapseUnique ==> staticDims == [] && dimIds == SpecIds(ds)
  {
    dimIds := SpecIds(ds);
    staticDims := [];
    if !collapseUnique {
      return;
    }
    for i := 0 to |ds|
      invariant CollapseState(ds, categoryLabels, i) == Ok((staticDims, dimIds))
    {
      CollapseNext(ds, categoryLabels, i, (staticDims, dimIds));
      var d := ds[i];
      var cats := if d.CatDim? then d.categories else [];
      if |cats| != 1 {
        continue;
      }
      var catval := if categoryLabels then LabelOf(cats[0]) else cats[0].id;
      staticDims := staticDims + [(d.id, catval)];
      dimIds := RemoveFirst(dimIds, d.id).value;
    }
  }

  lemma CollapseNext(ds: seq<SpecDim>, categoryLabels: bool, i: nat, state: (seq<(string, string)>, seq<string>))
    requires i < |ds| && CollapseState(ds, categoryLabels, i) == Ok(state)
    ensures StaticOf(ds[i], categoryLabels).None? ==> CollapseState(ds, categoryLabels, i + 1) == Ok(state)
    ensures StaticOf(ds[i], categoryLabels).Some? ==>
      && RemoveFirst(state.1, ds[i].id).Ok?
      && CollapseState(ds, categoryLabels, i + 1) ==
        Ok((state.0 + [StaticOf(ds[i], categoryLabels).value], RemoveFirst(state.1, ds[i].id).value))
  {
    CollapseStateIs(ds, categoryLabels, i + 1);
    CollapseStep(ds, categoryLabels, i + 1);
  }

  /** A reference listing: the static columns of the dimensions, in declaration order. */
  function Statics(ds: seq<SpecDim>, categoryLabels: bool): seq<(string, string)>
  {
    if ds == [] then []
    else
      var last := StaticOf(ds[|ds| - 1], categoryLabels);
      Statics(ds[..|ds| - 1], categoryLabels) + (if last.Some? then [last.value] else [])
  }

  /** The ids of the dimensions that do not have exactly one category, in declaration order. */
  function OtherIds(ds: seq<SpecDim>): (r: seq<string>)
    ensures forall x :: x in r ==> x in SpecIds(ds)
  {
    if ds == [] then []
    else
      var pre := OtherIds(ds[..|ds| - 1]);
      var last := ds[|ds| - 1];
      assert SpecIds(ds) == SpecIds(ds[..|ds| - 1]) + [last.id];
      if last.CatDim? && |last.categories| == 1 then pre else pre + [last.id]
  }

  lemma SuffixIds(ds: seq<SpecDim>, i: nat)
    requires i < |ds|
    ensures SpecIds(ds[i..]) == [ds[i].id] + SpecIds(ds[i + 1..])
  {
  }

  lemma PrefixSnoc(ds: seq<SpecDim>, categoryLabels: bool, i: nat)
    requires 0 < i <= |ds|
    ensures var last := StaticOf(ds[i - 1], categoryLabels);
      Statics(ds[..i], categoryLabels) == Statics(ds[..i - 1], categoryLabels) + (if last.Some? then [last.value] else [])
    ensures OtherIds(ds[..i]) == OtherIds(ds[..i - 1]) + (if StaticOf(ds[i - 1], categoryLabels).Some? then [] else [ds[i - 1].id])
    ensures SpecIds(ds[i - 1..]) == [ds[i - 1].id] + SpecIds(ds[i..])
  {
    StaticsSnoc(ds, categoryLabels, i);
    OtherIdsSnoc(ds, i);
    SuffixIds(ds, i - 1);
  }

  lemma StaticsSnoc(ds: seq<SpecDim>, categoryLabels: bool, i: nat)
    requires 0 < i <= |ds|
    ensures var last := StaticOf(ds[i - 1], categoryLabels);
      Statics(ds[..i], categoryLabels) == Statics(ds[..i - 1], categoryLabels) + (if last.Some? then [last.value] else [])
  {
    assert ds[..i][..i - 1] == ds[..i - 1];
  }

  lemma OtherIdsSnoc(ds: seq<SpecDim>, i: nat)
    requires 0 < i <= |ds|
    ensures OtherIds(ds[..i]) == OtherIds(ds[..i - 1]) + (if ds[i - 1].CatDim? && |ds[i - 1].categories| == 1 then [] else [ds[i - 1].id])
  {
    assert ds[..i][..i - 1] == ds[..i - 1];
  }

  lemma CollapseStep(ds: seq<SpecDim>, categoryLabels: bool, i: nat)
    requires 0 < i <= |ds| && CollapseState(ds, categoryLabels, i - 1).Ok?
    ensures var prev := CollapseState(ds, categoryLabels, i - 1).value;
      CollapseState(ds, categoryLabels, i) ==
        match StaticOf(ds[i - 1], categoryLabels)
        case None => Ok(prev)
        case Some(p) =>
          match RemoveFirst(prev.1, p.0)
          case Err(e) => Err(e)
          case Ok(ids) => Ok((prev.0 + [p], ids))
  {
  }

  /** One step of the loop keeps the multiset form, for a dimension that is not collapsed. */
  lemma MultisetStepOther(ds: seq<SpecDim>, categoryLabels: bool, i: nat, prev: (seq<(string, string)>, seq<string>))
    requires 0 < i <= |ds| && StaticOf(ds[i - 1], categoryLabels).None?
    requires CollapseState(ds, categoryLabels, i - 1) == Ok(prev)
    requires prev.0 == Statics(ds[..i - 1], categoryLabels)
    requires multiset(prev.1) == multiset(OtherIds(ds[..i - 1])) + multiset(SpecIds(ds[i - 1..]))
    ensures CollapseState(ds, categoryLabels, i) == Ok(prev)
    ensures prev.0 == Statics(ds[..i], categoryLabels)
    ensures multiset(prev.1) == multiset(OtherIds(ds[..i])) + multiset(SpecIds(ds[i..]))
  {
    PrefixSnoc(ds, categoryLabels, i);
    CollapseStep(ds, categoryLabels, i);
  }

  /** One step of the loop keeps the multiset form, for a collapsed dimension. */
  lemma MultisetStepStatic(ds: seq<SpecDim>, categoryLabels: bool, i: nat, prev: (seq<(string, string)>, seq<string>))
    requires 0 < i <= |ds| && StaticOf(ds[i - 1], categoryLabels).Some?
    requires CollapseState(ds, categoryLabels, i - 1) == Ok(prev)
    requires prev.0 == Statics(ds[..i - 1], categoryLabels)
    requires multiset(prev.1) == multiset(OtherIds(ds[..i - 1])) + multiset(SpecIds(ds[i - 1..]))
    ensures CollapseState(ds, categoryLabels, i).Ok?
    ensures CollapseState(ds, categoryLabels, i).value.0 == Statics(ds[..i], categoryLabels)
    ensures multiset(CollapseState(ds, categoryLabels, i).value.1) == multiset(OtherIds(ds[..i])) + multiset(SpecIds(ds[i..]))
  {
    PrefixSnoc(ds, categoryLabels, i);
    CollapseStep(ds, categoryLabels, i);
    var x := ds[i - 1].id;
    assert multiset(prev.1)[x] > 0;
    var rest := multiset(OtherIds(ds[..i - 1])) + multiset(SpecIds(ds[i..]));
    assert multiset(prev.1) == rest + multiset{x};
  }

  lemma {:induction false} CollapseStateIs(ds: seq<SpecDim>, categoryLabels: bool, i: nat)
    requires i <= |ds|
    ensures CollapseState(ds, categoryLabels, i).Ok?
    ensures CollapseState(ds, categoryLabels, i).value.0 == Statics(ds[..i], categoryLabels)
    ensures multiset(CollapseState(ds, categoryLabels, i).value.1) == multiset(OtherIds(ds[..i])) + multiset(SpecIds(ds[i..]))
  {
    if i == 0 {
      assert ds[..0] == [] && ds[0..] == ds;
    } else {
      CollapseStateIs(ds, categoryLabels, i - 1);
      var prev := CollapseState(ds, categoryLabels, i - 1).value;
      if StaticOf(ds[i - 1], categoryLabels).Some? {
        MultisetStepStatic(ds, categoryLabels, i, prev);
      } else {
        MultisetStepOther(ds, categoryLabels, i, prev);
      }
    }
  }

  lemma FreshId(ds: seq<SpecDim>, i: nat)
    requires 0 < i <= |ds| && Distinct(SpecIds(ds))
    ensures ds[i - 1].id !in OtherIds(ds[..i - 1])
  {
    var x := ds[i - 1].id;
    var earlier := SpecIds(ds[..i - 1]);
    forall j | 0 <= j < i - 1
      ensures earlier[j] != x
    {
      assert earlier[j] == SpecIds(ds)[j] && x == SpecIds(ds)[i - 1];
    }
  }

  /** One step of the loop keeps the ids in declaration order, for a dimension that is not collapsed. */
  lemma OrderedStepOther(ds: seq<SpecDim>, categoryLabels: bool, i: nat, prev: (seq<(string, string)>, seq<string>))
    requires 0 < i <= |ds| && StaticOf(ds[i - 1], categoryLabels).None?
    requires CollapseState(ds, categoryLabels, i - 1) == Ok(prev)
    requires prev.1 == OtherIds(ds[..i - 1]) + SpecIds(ds[i - 1..])
    ensures CollapseState(ds, categoryLabels, i) == Ok(prev)
    ensures prev.1 == OtherIds(ds[..i]) + SpecIds(ds[i..])
  {
    PrefixSnoc(ds, categoryLabels, i);
    CollapseStep(ds, categoryLabels, i);
    var x := ds[i - 1].id;
    assert OtherIds(ds[..i]) == OtherIds(ds[..i - 1]) + [x];
    assert SpecIds(ds[i - 1..]) == [x] + SpecIds(ds[i..]);
  }

  /** One step of the loop keeps the ids in declaration order, for a collapsed dimension with a fresh id. */
  lemma OrderedStepStatic(ds: seq<SpecDim>, categoryLabels: bool, i: nat, prev: (seq<(string, string)>, seq<string>))
    requires 0 < i <= |ds| && StaticOf(ds[i - 1], categoryLabels).Some?
    requires ds[i - 1].id !in OtherIds(ds[..i - 1])
    requires CollapseState(ds, categoryLabels, i - 1) == Ok(prev)
    requires prev.1 == OtherIds(ds[..i - 1]) + SpecIds(ds[i - 1..])
    ensures CollapseState(ds, categoryLabels, i).Ok?
    ensures CollapseState(ds, categoryLabels, i).value.1 == OtherIds(ds[..i]) + SpecIds(ds[i..])
  {
    PrefixSnoc(ds, categoryLabels, i);
    var x := ds[i - 1].id;
    var pre := OtherIds(ds[..i - 1]);
    var rest := SpecIds(ds[i..]);
    assert prev.1 == pre + [x] + rest;
    RemoveFirstAt(pre, x, rest);
    var p := StaticOf(ds[i - 1], categoryLabels).value;
    assert CollapseState(ds, categoryLabels, i) == Ok((prev.0 + [p], pre + rest));
    assert OtherIds(ds[..i]) == pre;
  }

  lemma {:induction false} CollapseStateOrdered(ds: seq<SpecDim>, categoryLabels: bool, i: nat)
    requires i <= |ds| && Distinct(SpecIds(ds))
    ensures CollapseState(ds, categoryLabels, i).Ok?
    ensures CollapseState(ds, categoryLabels, i).value.1 == OtherIds(ds[..i]) + SpecIds(ds[i..])
  {
    if i == 0 {
      assert ds[..0] == [] && ds[0..] == ds;
    } else {
      CollapseStateOrdered(ds, categoryLabels, i - 1);
      var prev := CollapseState(ds, categoryLabels, i - 1).value;
      if StaticOf(ds[i - 1], categoryLabels).Some? {
        FreshId(ds, i);
        OrderedStepStatic(ds, categoryLabels, i, prev);
      } else {
        OrderedStepOther(ds, categoryLabels, i, prev);
      }
    }
  }

  /**
   * What the collapse step of `toColumns` computes: it always succeeds (each
   * removal finds its id); the static columns are, in declaration order, the
   * dimensions with exactly one category paired with that category's label
   * (or id) when labels are asked for and its id otherwise; the ids left are
   * those of the other dimensions — as a multiset in general, and in
   * declaration order when dimension ids are unique. Without
   * `collapse_unique` nothing is collapsed.
   */
  lemma CollapseContents(ds: seq<SpecDim>, categoryLabels: bool)
    ensures CollapseState(ds, categoryLabels, |ds|).Ok?
    ensures CollapseState(ds, categoryLabels, |ds|).value.0 == Statics(ds, categoryLabels)
    ensures multiset(CollapseState(ds, categoryLabels, |ds|).value.1) == multiset(OtherIds(ds))
    ensures Distinct(SpecIds(ds)) ==> CollapseState(ds, categoryLabels, |ds|).value.1 == OtherIds(ds)
  {
    CollapseStateIs(ds, categoryLabels, |ds|);
    assert ds[..|ds|] == ds && ds[|ds|..] == [];
    if Distinct(SpecIds(ds)) {
      CollapseStateOrdered(ds, categoryLabels, |ds|);
    }
  }

  /** A static column carries the dimension's id and the id or label of its only category. */
  lemma StaticsAt(ds: seq<SpecDim>, categoryLabels: bool, d: SpecDim)
    requires d in ds && d.CatDim? && |d.categories| == 1
    ensures (d.id, if categoryLabels then LabelOf(d.categories[0]) else d.categories[0].id) in Statics(ds, categoryLabels)
    decreases |ds|
  {
    var n := |ds| - 1;
    if ds[n] != d {
      assert d in ds[..n] by {
        assert ds == ds[..n] + [ds[n]];
      }
      StaticsAt(ds[..n], categoryLabels, d);
    }
  }
}
