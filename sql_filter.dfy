/**
 * The filter state of `SqlDataCube` and the query pieces built from it:
 * `filter` (which overwrites a dimension's restriction), `_get_where_clause`
 * and the `verify_sql_name` pass over a list of names.
 */
module SqlFilter {
  import opened Common
  import opened Cube
  import opened SqlNames
  import opened SqlText

  /**
   * `_filters`: dimension id to its set of category ids, in dictionary order;
   * each set is listed once per member.
   */
  type SqlFilters = seq<(string, seq<string>)>

  /** An `SqlDataCube` without its connection: the dataset id and the filters. */
  datatype SqlDataCube = SqlDataCube(id: string, filters: SqlFilters)

  /** `_filters.get(key)`. */
  function Lookup(fs: SqlFilters, key: string): (r: Option<seq<string>>)
    ensures r.None? <==> key !in Firsts(fs)
    ensures r.Some? ==> exists k :: 0 <= k < |fs| && fs[k] == (key, r.value)
  {
    if fs == [] then None
    else
      assert Firsts(fs) == [fs[0].0] + Firsts(fs[1..]);
      if fs[0].0 == key then Some(fs[0].1)
      else
        var rest := Lookup(fs[1..], key);
        assert rest.Some? ==> exists k :: 0 <= k < |fs[1..]| && fs[1..][k] == (key, rest.value);
        rest
  }

  lemma {:induction false} LookupDistinct(fs: SqlFilters, k: nat)
    requires Distinct(Firsts(fs)) && k < |fs|
    ensures Lookup(fs, fs[k].0) == Some(fs[k].1)
  {
    if k > 0 {
      assert Firsts(fs)[0] != Firsts(fs)[k];
      assert Firsts(fs[1..]) == Firsts(fs)[1..];
      LookupDistinct(fs[1..], k - 1);
    }
  }

  lemma AssignDistinct(fs: SqlFilters, key: string, v: seq<string>)
    requires Distinct(Firsts(fs))
    ensures Distinct(Firsts(Assign(fs, key, v)))
  {
    if key !in Firsts(fs) {
      var ks := Firsts(fs) + [key];
      forall i, j | 0 <= i < j < |ks| ensures ks[i] != ks[j] {
        if j == |fs| {
          assert ks[i] == Firsts(fs)[i];
        } else {
          assert ks[i] == Firsts(fs)[i] && ks[j] == Firsts(fs)[j];
        }
      }
    }
  }

  /** After `filters[key] = v`, `key` maps to `v` and every other key to what it did. */
  lemma AssignLookup(fs: SqlFilters, key: string, v: seq<string>, other: string)
    requires Distinct(Firsts(fs))
    ensures Distinct(Firsts(Assign(fs, key, v)))
    ensures Lookup(Assign(fs, key, v), key) == Some(v)
    ensures other != key ==> Lookup(Assign(fs, key, v), other) == Lookup(fs, other)
  {
    var r := Assign(fs, key, v);
    AssignDistinct(fs, key, v);
    if key in Firsts(fs) {
      var i :| 0 <= i < |fs| && Firsts(fs)[i] == key;
      assert r[i] == (key, v);
      LookupDistinct(r, i);
    } else {
      assert r[|fs|] == (key, v);
      LookupDistinct(r, |fs|);
    }
    if other != key && other in Firsts(fs) {
      var i :| 0 <= i < |fs| && Firsts(fs)[i] == other;
      assert r[i] == fs[i];
      LookupDistinct(r, i);
      LookupDistinct(fs, i);
    }
  }

  /** `set(categories)`: each id once, in the order first given. */
  function Dedup(xs: seq<string>): (r: seq<string>)
    ensures Distinct(r)
    ensures forall x :: x in r <==> x in xs
  {
    if xs == [] then []
    else
      var pre := Dedup(xs[..|xs| - 1]);
      var last := xs[|xs| - 1];
      assert forall x :: x in xs <==> x in xs[..|xs| - 1] || x == last by {
        assert xs == xs[..|xs| - 1] + [last];
      }
      if last in pre then pre else pre + [last]
  }

  /** The filters after the loop of `filter(**kwargs)` has seen the given keyword arguments. */
  function SqlFilterFold(fs: SqlFilters, kwargs: seq<(string, Selection)>): SqlFilters
  {
    if kwargs == [] then fs
    else
      var kw := kwargs[|kwargs| - 1];
      Assign(SqlFilterFold(fs, kwargs[..|kwargs| - 1]), kw.0, Dedup(SelectionIds(kw.1)))
  }

  /** `filter(**kwargs)`: copy the filters, then set each named dimension to its new category set. */
  method Filter(cube: SqlDataCube, kwargs: seq<(string, Selection)>) returns (r: SqlDataCube)
    ensures r == SqlDataCube(cube.id, SqlFilterFold(cube.filters, kwargs))
  {
    var filters := cube.filters;
    for i := 0 to |kwargs|
      invariant filters == SqlFilterFold(cube.filters, kwargs[..i])
    {
      assert kwargs[..i + 1][..i] == kwargs[..i];
      var categories := SelectionIds(kwargs[i].1);
      filters := Assign(filters, kwargs[i].0, Dedup(categories));
    }
    assert kwargs[..|kwargs|] == kwargs;
    r := SqlDataCube(cube.id, filters);
  }

  /**
   * Overwrite semantics of `filter`: a dimension named in the keyword
   * arguments is restricted to exactly the categories of its last mention,
   * whatever it was restricted to before; every other dimension keeps its
   * restriction (or lack of one).
   */
  lemma {:induction false} FilterOverwrites(fs: SqlFilters, kwargs: seq<(string, Selection)>, key: string)
    requires Distinct(Firsts(fs))
    ensures Distinct(Firsts(SqlFilterFold(fs, kwargs)))
    ensures Lookup(SqlFilterFold(fs, kwargs), key) ==
      match LastIndexOf(Firsts(kwargs), key)
      case None => Lookup(fs, key)
      case Some(j) => Some(Dedup(SelectionIds(kwargs[j].1)))
  {
    if kwargs != [] {
      var n := |kwargs| - 1;
      var pre := kwargs[..n];
      FilterOverwrites(fs, pre, key);
      assert Firsts(pre) == Firsts(kwargs)[..n];
      assert LastIndexOf(Firsts(kwargs), key) ==
        if kwargs[n].0 == key then Some(n) else LastIndexOf(Firsts(pre), key);
      assert SqlFilterFold(fs, kwargs) == Assign(SqlFilterFold(fs, pre), kwargs[n].0, Dedup(SelectionIds(kwargs[n].1)));
      AssignLookup(SqlFilterFold(fs, pre), kwargs[n].0, Dedup(SelectionIds(kwargs[n].1)), key);
    }
  }

  /** Keys already filtered stay in place when they are filtered again. */
  lemma {:induction false} FoldKeepsKeys(fs: SqlFilters, kwargs: seq<(string, Selection)>)
    requires forall k :: 0 <= k < |kwargs| ==> kwargs[k].0 in Firsts(fs)
    ensures Firsts(SqlFilterFold(fs, kwargs)) == Firsts(fs)
  {
    if kwargs != [] {
      FoldKeepsKeys(fs, kwargs[..|kwargs| - 1]);
    }
  }

  lemma {:induction false} FoldKeys(fs: SqlFilters, kwargs: seq<(string, Selection)>)
    ensures forall k :: 0 <= k < |kwargs| ==> kwargs[k].0 in Firsts(SqlFilterFold(fs, kwargs))
    ensures forall x :: x in Firsts(fs) ==> x in Firsts(SqlFilterFold(fs, kwargs))
  {
    if kwargs != [] {
      FoldKeys(fs, kwargs[..|kwargs| - 1]);
    }
  }

  /** Lists of filters with unique keys are equal when their keys agree in order and their lookups agree. */
  lemma SameFilters(a: SqlFilters, b: SqlFilters)
    requires Distinct(Firsts(a)) && Firsts(a) == Firsts(b)
    requires forall x :: Lookup(a, x) == Lookup(b, x)
    ensures a == b
  {
    assert Distinct(Firsts(b));
    forall k | 0 <= k < |a|
      ensures a[k] == b[k]
    {
      LookupDistinct(a, k);
      LookupDistinct(b, k);
      assert Lookup(a, a[k].0) == Lookup(b, b[k].0);
    }
  }

  /** Filtering twice with the same arguments is the same as filtering once. */
  lemma FilterIdempotent(fs: SqlFilters, kwargs: seq<(string, Selection)>)
    requires Distinct(Firsts(fs))
    ensures SqlFilterFold(SqlFilterFold(fs, kwargs), kwargs) == SqlFilterFold(fs, kwargs)
  {
    var once := SqlFilterFold(fs, kwargs);
    var twice := SqlFilterFold(once, kwargs);
    FoldKeys(fs, kwargs);
    FoldKeepsKeys(once, kwargs);
    FilterOverwrites(fs, kwargs, "");
    forall x
      ensures Lookup(twice, x) == Lookup(once, x)
    {
      FilterOverwrites(once, kwargs, x);
      FilterOverwrites(fs, kwargs, x);
    }
    SameFilters(twice, once);
  }

  /** Filters on two different dimensions can be applied in either order. */
  lemma FilterCommutes(fs: SqlFilters, a: (string, Selection), b: (string, Selection), x: string)
    requires Distinct(Firsts(fs)) && a.0 != b.0
    ensures Lookup(SqlFilterFold(SqlFilterFold(fs, [a]), [b]), x) == Lookup(SqlFilterFold(SqlFilterFold(fs, [b]), [a]), x)
  {
    FilterOverwrites(fs, [a], x);
    FilterOverwrites(fs, [b], x);
    FilterOverwrites(SqlFilterFold(fs, [a]), [b], x);
    FilterOverwrites(SqlFilterFold(fs, [b]), [a], x);
  }

  // ---------------------------------------------------------------------
  // _get_where_clause
  // ---------------------------------------------------------------------

  function Repeat(s: string, n: nat): (r: seq<string>)
    ensures |r| == n && forall i :: 0 <= i < n ==> r[i] == s
  {
    seq(n, i requires 0 <= i < n => s)
  }

  /** `",".join(["%s"] * n)`. */
  function Placeholders(n: nat): string
  {
    Join(Repeat("%s", n), ",")
  }

  /** One part of the where clause: the dimension column within the categories' surrogates. */
  function InPart(dimId: string, n: nat): string
  {
    dimId + IN_SURROGATES + Placeholders(n) + "))"
  }

  /** The clause parts of the first filters in order, or the first name `verify_sql_name` rejects. */
  function WhereParts(fs: SqlFilters): (r: Result<seq<string>>)
    ensures r.Ok? <==> forall k :: 0 <= k < |fs| ==> VerifySqlName(fs[k].0).Ok?
    ensures r.Ok? ==> |r.value| == |fs| && forall k :: 0 <= k < |fs| ==> r.value[k] == InPart(fs[k].0, |fs[k].1|)
    ensures r.Err? ==>
      exists k :: 0 <= k < |fs| && r.error == InvalidIdentifier(fs[k].0) &&
        VerifySqlName(fs[k].0).Err? && forall j :: 0 <= j < k ==> VerifySqlName(fs[j].0).Ok?
  {
    if fs == [] then Ok([])
    else
      assert forall j :: 0 <= j < |fs| - 1 ==> fs[..|fs| - 1][j] == fs[j];
      var pre :- WhereParts(fs[..|fs| - 1]);
      var last := fs[|fs| - 1];
      var name :- VerifySqlName(last.0);
      Ok(pre + [InPart(name, |last.1|)])
  }

  /** `_get_where_clause()` as a value: the clause text and its arguments. */
  function WhereOf(fs: SqlFilters): Result<(string, seq<string>)>
  {
    var parts :- WhereParts(fs);
    var args := Concat(Seconds(fs));
    if parts == [] then Ok(("1=1", args)) else Ok((Join(parts, " AND "), args))
  }

  /** `_get_where_clause`: one part and its argument list per filtered dimension, appended in order. */
  method GetWhereClause(fs: SqlFilters) returns (r: Result<(string, seq<string>)>)
    ensures r == WhereOf(fs)
  {
    var parts: seq<string> := [];
    var args: seq<string> := [];
    for i := 0 to |fs|
      invariant WhereParts(fs[..i]) == Ok(parts)
      invariant args == Concat(Seconds(fs[..i]))
    {
      var catIds := fs[i].1;
      var dimId := VerifySqlName(fs[i].0);
      if dimId.Err? {
        WherePartsFail(fs, i + 1);
        return Err(dimId.error);
      }
      var part := InPart(dimId.value, |catIds|);
      WherePartsSnoc(fs, i, parts);
      parts := parts + [part];
      WhereArgsSnoc(fs, i);
      args := args + catIds;
    }
    assert fs[..|fs|] == fs;
    if |parts| == 0 {
      parts := ["1=1"];
      assert Join(parts, " AND ") == "1=1";
    }
    r := Ok((Join(parts, " AND "), args));
  }

  lemma WhereArgsSnoc(fs: SqlFilters, i: nat)
    requires i < |fs|
    ensures Concat(Seconds(fs[..i + 1])) == Concat(Seconds(fs[..i])) + fs[i].1
  {
    assert Seconds(fs[..i + 1]) == Seconds(fs[..i]) + [fs[i].1];
    ConcatSnoc(Seconds(fs[..i]), fs[i].1);
  }

  lemma WherePartsSnoc(fs: SqlFilters, i: nat, parts: seq<string>)
    requires i < |fs| && WhereParts(fs[..i]) == Ok(parts) && VerifySqlName(fs[i].0).Ok?
    ensures WhereParts(fs[..i + 1]) == Ok(parts + [InPart(fs[i].0, |fs[i].1|)])
  {
    assert fs[..i + 1][..i] == fs[..i];
  }

  lemma {:induction false} WherePartsFail(fs: SqlFilters, n: nat)
    requires 0 < n <= |fs| && VerifySqlName(fs[n - 1].0).Err?
    requires WhereParts(fs[..n - 1]).Ok?
    ensures WhereParts(fs) == Err(VerifySqlName(fs[n - 1].0).error)
    decreases |fs|
  {
    if n < |fs| {
      var pre := fs[..|fs| - 1];
      assert pre[..n - 1] == fs[..n - 1] && pre[n - 1] == fs[n - 1];
      WherePartsFail(pre, n);
    } else {
      assert fs[..|fs| - 1] == fs[..n - 1];
    }
  }

  function SumPercents(ps: seq<string>): nat
  {
    if ps == [] then 0 else Percents(ps[0]) + SumPercents(ps[1..])
  }

  lemma {:induction false} PercentsJoin(ps: seq<string>, sep: string)
    requires Percents(sep) == 0
    ensures Percents(Join(ps, sep)) == SumPercents(ps)
  {
    if |ps| == 1 {
      assert ps[1..] == [];
    } else if |ps| > 1 {
      PercentsJoin(ps[1..], sep);
      PercentsAppend(ps[0], sep);
      PercentsAppend(ps[0] + sep, Join(ps[1..], sep));
    }
  }

  lemma {:induction false} PercentsPlaceholders(n: nat)
    ensures Percents(Placeholders(n)) == n
  {
    if n > 1 {
      PercentsPlaceholders(n - 1);
      assert Repeat("%s", n)[1..] == Repeat("%s", n - 1);
      assert Placeholders(n) == "%s" + "," + Placeholders(n - 1);
      PlaceholderTexts();
      NoPercentInKeywords();
      PercentsAbsent(",");
      PercentsAppend("%s", ",");
      PercentsAppend("%s" + ",", Placeholders(n - 1));
    } else if n == 1 {
      PlaceholderTexts();
      assert Placeholders(1) == "%s";
    }
  }

  /** Names that contain no `%`. */
  predicate NoPercent(names: seq<string>)
  {
    forall k :: 0 <= k < |names| ==> Percents(names[k]) == 0
  }

  /** One clause part holds one `%s` per category id. */
  lemma PercentsInPart(key: string, n: nat)
    requires Percents(key) == 0
    ensures Percents(InPart(key, n)) == n
  {
    PercentsOfFixedText();
    PercentsPlaceholders(n);
    PercentsAppend(key, IN_SURROGATES);
    PercentsAppend(key + IN_SURROGATES, Placeholders(n));
    PercentsAppend(key + IN_SURROGATES + Placeholders(n), "))");
  }

  lemma {:induction false} SumInParts(fs: SqlFilters, parts: seq<string>)
    requires |parts| == |fs| && forall k :: 0 <= k < |fs| ==> parts[k] == InPart(fs[k].0, |fs[k].1|)
    requires NoPercent(Firsts(fs))
    ensures SumPercents(parts) == |Concat(Seconds(fs))|
  {
    if fs != [] {
      assert Firsts(fs[1..]) == Firsts(fs)[1..];
      SumInParts(fs[1..], parts[1..]);
      assert Seconds(fs) == [fs[0].1] + Seconds(fs[1..]);
      assert Firsts(fs)[0] == fs[0].0;
      PercentsInPart(fs[0].0, |fs[0].1|);
    }
  }

  /**
   * What `_get_where_clause` returns: it fails exactly when some filtered
   * dimension id is rejected by `verify_sql_name`; without filters the
   * clause is `1=1` with no arguments; otherwise the arguments are the
   * filter sets concatenated in order and, as long as no dimension id
   * contains `%`, the clause holds exactly one `%s` placeholder per argument.
   */
  lemma WhereClauseContents(fs: SqlFilters)
    ensures WhereOf(fs).Ok? <==> forall k :: 0 <= k < |fs| ==> VerifySqlName(fs[k].0).Ok?
    ensures fs == [] ==> WhereOf(fs) == Ok(("1=1", []))
    ensures WhereOf(fs).Ok? ==> WhereOf(fs).value.1 == Concat(Seconds(fs))
    ensures WhereOf(fs).Ok? && NoPercent(Firsts(fs)) ==> Percents(WhereOf(fs).value.0) == |WhereOf(fs).value.1|
  {
    if WhereOf(fs).Ok? && NoPercent(Firsts(fs)) {
      SumInParts(fs, WhereParts(fs).value);
      if fs != [] {
        PercentsJoin(WhereParts(fs).value, " AND ");
      }
    }
  }

  /** `verify_sql_name` on each name, in order: the first rejected name is the error. */
  function VerifyAll(names: seq<string>): (r: Result<seq<string>>)
    ensures r.Ok? <==> forall k :: 0 <= k < |names| ==> VerifySqlName(names[k]).Ok?
    ensures r.Ok? ==> r.value == names
    ensures r.Err? ==>
      exists k :: 0 <= k < |names| && r.error == InvalidIdentifier(names[k]) &&
        VerifySqlName(names[k]).Err? && forall j :: 0 <= j < k ==> VerifySqlName(names[j]).Ok?
  {
    if names == [] then Ok([])
    else
      var n := |names| - 1;
      var pre :- VerifyAll(names[..n]);
      assert forall j :: 0 <= j < n ==> names[..n][j] == names[j];
      var last :- VerifySqlName(names[n]);
      assert names == names[..n] + [last];
      Ok(pre + [last])
  }
}
