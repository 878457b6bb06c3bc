/**
 * `_get_row_ids_query` of `SqlDataCube`: the checks it makes in order (the
 * table name, the where clause, the slice bounds, `_fast_specification` and
 * the dimension ids), and the query text and arguments it builds. The table
 * name and the stored specification are parameters.
 */
module SqlRows {
  import opened Common
  import opened Cube
  import opened SqlNames
  import opened SqlText
  import opened SqlFilter
  import opened SqlSpec


  /** A query argument: a category id or an integer LIMIT/OFFSET value. */
  datatype QueryArg = SArg(s: string) | IArg(i: int)

  function StrArgs(xs: seq<string>): (r: seq<QueryArg>)
    ensures |r| == |xs| && forall k :: 0 <= k < |xs| ==> r[k] == SArg(xs[k])
  {
    seq(|xs|, k requires 0 <= k < |xs| => SArg(xs[k]))
  }

  /** The text of the row id query, with or without its LIMIT placeholder. */
  function QueryText(columns: string, table: string, where: string, limited: bool): string
  {
    var base := "SELECT " + columns + " FROM " + table + " WHERE " + where + ORDER_BY;
    (if limited then base + " LIMIT %s" else base) + " OFFSET %s"
  }

  lemma PercentsQueryText(columns: string, table: string, where: string, limited: bool)
    ensures Percents(QueryText(columns, table, where, limited)) ==
      Percents(columns) + Percents(table) + Percents(where) + (if limited then 2 else 1)
  {
    PercentsOfFixedText();
    var a := "SELECT " + columns;
    PercentsAppend("SELECT ", columns);
    PercentsAppend(a, " FROM ");
    PercentsAppend(a + " FROM ", table);
    PercentsAppend(a + " FROM " + table, " WHERE ");
    PercentsAppend(a + " FROM " + table + " WHERE ", where);
    var base := a + " FROM " + table + " WHERE " + where;
    PercentsAppend(base, ORDER_BY);
    var b := base + ORDER_BY;
    PercentsAppend(b, " LIMIT %s");
    var limitedText := if limited then b + " LIMIT %s" else b;
    PercentsAppend(limitedText, " OFFSET %s");
  }

  /**
   * `_get_row_ids_query(start, end)` given the stored table name and the
   * stored specification. `None` is `Option.None`. The selected columns are
   * the dimension ids of `_fast_specification()`, each checked by
   * `verify_sql_name`.
   */
  function RowIdsQuery(tableName: string, stored: Spec, fs: SqlFilters, start: Option<int>, end: Option<int>): Result<(string, seq<QueryArg>)>
  {
    var table :- VerifySqlName(tableName);
    var where :- WhereOf(fs);
    var s := if start.None? then 0 else start.value;
    if s < 0 then Err(ValueError("Start must be >= 0"))
    else if end.Some? && end.value < s then Err(ValueError("End must be >= start"))
    else
      var spec :- FastSpecOf(stored, fs);
      var ids :- VerifyAll(SpecIds(spec.dimensions));
      var limitArgs := if end.Some? then [IArg(end.value - s)] else [];
      Ok((QueryText(Join(ids, ","), table, where.0, end.Some?), StrArgs(where.1) + limitArgs + [IArg(s)]))
  }

  /**
   * What `_get_row_ids_query` raises, in the order it checks: a rejected
   * table name; the first filter key `verify_sql_name` rejects; a negative
   * start (a missing start is 0) or an end before the start, as
   * `ValueError`; the `KeyError` of `_fast_specification` for a filter on an
   * unknown or a value dimension; the first rejected dimension id. It
   * succeeds iff none of these fires, and then selects every stored
   * dimension id, passes the where arguments first, then `end - start`
   * only when an end is given, and the offset `start` last.
   */
  lemma RowIdsArgs(tableName: string, stored: Spec, fs: SqlFilters, start: Option<int>, end: Option<int>)
    ensures var s := if start.None? then 0 else start.value;
      var r := RowIdsQuery(tableName, stored, fs, start, end);
      var ids := SpecIds(stored.dimensions);
      && (VerifySqlName(tableName).Err? ==> r == Err(InvalidIdentifier(tableName)))
      && (VerifySqlName(tableName).Ok? && WhereOf(fs).Err? ==> r == Err(WhereOf(fs).error))
      && (VerifySqlName(tableName).Ok? && WhereOf(fs).Ok? ==>
            && (s < 0 ==> r == Err(ValueError("Start must be >= 0")))
            && (s >= 0 && end.Some? && end.value < s ==> r == Err(ValueError("End must be >= start")))
            && (s >= 0 && (end.None? || end.value >= s) ==>
                  && (FastSpecOf(stored, fs).Err? ==> r == Err(FastSpecOf(stored, fs).error))
                  && (FastSpecOf(stored, fs).Ok? && VerifyAll(ids).Err? ==> r == Err(VerifyAll(ids).error))))
      && (r.Ok? <==> (VerifySqlName(tableName).Ok? && WhereOf(fs).Ok? && s >= 0 &&
            (end.None? || end.value >= s) && AllFilterable(stored.dimensions, fs) &&
            forall k :: 0 <= k < |ids| ==> VerifySqlName(ids[k]).Ok?))
      && (r.Ok? ==>
            var args := r.value.1;
            && r.value.0 == QueryText(Join(ids, ","), tableName, WhereOf(fs).value.0, end.Some?)
            && args[..|WhereOf(fs).value.1|] == StrArgs(WhereOf(fs).value.1)
            && args[|args| - 1] == IArg(s)
            && |args| == |WhereOf(fs).value.1| + (if end.Some? then 2 else 1)
            && (end.Some? ==> args[|args| - 2] == IArg(end.value - s) && end.value - s >= 0))
  {
    FastSpecSucceeds(stored.dimensions, fs);
  }

  /**
   * The query's placeholders match its arguments: when no name involved
   * contains `%`, the query text holds exactly as many `%` as there are
   * arguments.
   */
  lemma RowIdsPlaceholders(tableName: string, stored: Spec, fs: SqlFilters, start: Option<int>, end: Option<int>)
    requires RowIdsQuery(tableName, stored, fs, start, end).Ok?
    requires Percents(tableName) == 0 && NoPercent(Firsts(fs)) && NoPercent(SpecIds(stored.dimensions))
    ensures var q := RowIdsQuery(tableName, stored, fs, start, end).value;
      Percents(q.0) == |q.1|
  {
    var where := WhereOf(fs).value;
    WhereClauseContents(fs);
    PercentsJoinZero(SpecIds(stored.dimensions), ",");
    PercentsQueryText(Join(SpecIds(stored.dimensions), ","), tableName, where.0, end.Some?);
  }

  lemma {:induction false} PercentsJoinZero(ps: seq<string>, sep: string)
    requires Percents(sep) == 0 && NoPercent(ps)
    ensures Percents(Join(ps, sep)) == 0
  {
    PercentsJoin(ps, sep);
    SumPercentsZero(ps);
  }

  lemma {:induction false} SumPercentsZero(ps: seq<string>)
    requires NoPercent(ps)
    ensures SumPercents(ps) == 0
  {
    if ps != [] {
      assert NoPercent(ps[1..]) by {
        forall k | 0 <= k < |ps[1..]| ensures Percents(ps[1..][k]) == 0 {
          assert ps[1..][k] == ps[k + 1];
        }
      }
      SumPercentsZero(ps[1..]);
    }
  }}
