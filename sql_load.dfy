/**
 * Loading a cube into the SQL store (`SqlDataCube.FromCube`) and the two
 * line readers `copy_from` consumes (`CubeCsv`, `CubeMappingCsv`).
 *
 * The database is replaced by parameters: the specification FromCube reads,
 * the surrogate keys the `_categories` inserts return (one list per
 * specification entry, one key per category, in insertion order) and the
 * rows the cube's iterator yields. What FromCube would send to the database
 * is collected in a `LoadPlan`.
 */
module SqlLoad {
  import opened Common
  import opened FlatIndex
  import opened Cube
  import opened SqlNames
  import opened SqlFilter

  // ---------------------------------------------------------------------
  // dict(zip(ids, surrogates))
  // ---------------------------------------------------------------------

  /**
   * `dict(zip(ids, surrogates))`: `zip` stops at the shorter list, and a
   * repeated id keeps the surrogate of its last occurrence.
   */
  function ZipMap(ids: seq<string>, surrogates: seq<int>): (m: map<string, int>)
    ensures forall x :: x in m <==> x in ids[..Min(|ids|, |surrogates|)]
    ensures forall x :: x in m ==>
      var last := LastIndexOf(ids[..Min(|ids|, |surrogates|)], x);
      last.Some? && m[x] == surrogates[last.value]
    decreases |ids|
  {
    var n := Min(|ids|, |surrogates|);
    if n == 0 then map[]
    else
      var pre := ZipMap(ids[..n - 1], surrogates[..n - 1]);
      assert Min(|ids[..n - 1]|, |surrogates[..n - 1]|) == n - 1;
      assert ids[..n - 1][..n - 1] == ids[..n][..n - 1];
      assert ids[..n] == ids[..n - 1] + [ids[n - 1]];
      pre[ids[n - 1] := surrogates[n - 1]]
  }

  /** With unique ids and a surrogate for each, the k-th id maps to the k-th surrogate. */
  lemma ZipMapAt(ids: seq<string>, surrogates: seq<int>, k: nat)
    requires Distinct(ids) && |ids| <= |surrogates| && k < |ids|
    ensures ids[k] in ZipMap(ids, surrogates)
    ensures ZipMap(ids, surrogates)[ids[k]] == surrogates[k]
  {
    assert ids[..Min(|ids|, |surrogates|)] == ids;
    LastIndexOfDistinct(ids, k);
  }

  // ---------------------------------------------------------------------
  // The column plan of FromCube
  // ---------------------------------------------------------------------

  /** `sql_name_cleanup(dim['id'])`: the column a specification entry is stored in. */
  function ColumnName(d: SpecDim): string
  {
    SqlNameCleanup(d.id)
  }

  /** The column definitions of the CREATE TABLE statement: surrogate keys for categories, text for values. */
  function ColumnItem(d: SpecDim): string
  {
    if d.ValDim? then ColumnName(d) + " VARCHAR(255)" else ColumnName(d) + " INTEGER"
  }

  /** The mapping the row reader applies to a column: none for values, id to surrogate for categories. */
  function MappingOf(d: SpecDim, surrogates: seq<int>): map<string, int>
  {
    if d.ValDim? then map[] else ZipMap(CatIds(d.categories), surrogates)
  }

  function ColumnNames(ds: seq<SpecDim>): (names: seq<string>)
    ensures |names| == |ds| && forall k :: 0 <= k < |ds| ==> names[k] == ColumnName(ds[k])
  {
    seq(|ds|, k requires 0 <= k < |ds| => ColumnName(ds[k]))
  }

  function ColumnItems(ds: seq<SpecDim>): (items: seq<string>)
    ensures |items| == |ds| && forall k :: 0 <= k < |ds| ==> items[k] == ColumnItem(ds[k])
  {
    seq(|ds|, k requires 0 <= k < |ds| => ColumnItem(ds[k]))
  }

  function Mappings(ds: seq<SpecDim>, surrogates: seq<seq<int>>): (ms: seq<map<string, int>>)
    requires |surrogates| == |ds|
    ensures |ms| == |ds| && forall k :: 0 <= k < |ds| ==> ms[k] == MappingOf(ds[k], surrogates[k])
  {
    seq(|ds|, k requires 0 <= k < |ds| => MappingOf(ds[k], surrogates[k]))
  }

  /** `category_columns`: the columns of the categorical entries, in specification order. */
  function CategoryColumns(ds: seq<SpecDim>): seq<string>
  {
    if ds == [] then []
    else
      var last := ds[|ds| - 1];
      CategoryColumns(ds[..|ds| - 1]) + (if last.CatDim? then [ColumnName(last)] else [])
  }

  /** `[d['id'] for d in dims if 'categories' not in d]`. */
  function ValueIds(ds: seq<SpecDim>): seq<string>
  {
    if ds == [] then []
    else
      var last := ds[|ds| - 1];
      ValueIds(ds[..|ds| - 1]) + (if last.ValDim? then [last.id] else [])
  }

  /** `cube_value_column`: `'value'` when the value dimensions are exactly one named `value`. */
  function ValueColumn(ds: seq<SpecDim>): Option<string>
  {
    if ValueIds(ds) == ["value"] then Some("value") else None
  }

  /** `"%s (%s)" % (table_name, columns_query)` after the serial row-number column is appended. */
  function CreateQuery(tableName: string, items: seq<string>): string
  {
    "CREATE TABLE " + tableName + " (" + Join(items, ",") + ", _row_number serial" + ")"
  }

  /** What FromCube sends to the database, apart from the category inserts. */
  datatype LoadPlan = LoadPlan(
    tableName: string,
    createQuery: string,
    columnNames: seq<string>,
    mappings: seq<map<string, int>>,
    categoryColumns: seq<string>,
    valueColumn: Option<string>,
    storedSpec: Spec)

  function PlanOf(id: string, spec: Spec, surrogates: seq<seq<int>>): LoadPlan
    requires |surrogates| == |spec.dimensions|
  {
    var ds := spec.dimensions;
    var tableName := TableName(id);
    LoadPlan(tableName, CreateQuery(tableName, ColumnItems(ds)), ColumnNames(ds),
      Mappings(ds, surrogates), CategoryColumns(ds), ValueColumn(ds), spec.(length := None))
  }

  lemma CategoryColumnsSnoc(ds: seq<SpecDim>, i: nat)
    requires i < |ds|
    ensures CategoryColumns(ds[..i + 1]) ==
      CategoryColumns(ds[..i]) + (if ds[i].CatDim? then [ColumnName(ds[i])] else [])
  {
    assert ds[..i + 1][..i] == ds[..i];
  }

  /** The inner loop of FromCube: one insert per category, collecting ids; then `dict(zip(ids, surrogates))`. */
  method CategoryMapping(cats: seq<Category>, surrogates: seq<int>) returns (m: map<string, int>)
    ensures m == ZipMap(CatIds(cats), surrogates)
  {
    var ids: seq<string> := [];
    for k := 0 to |cats|
      invariant ids == CatIds(cats[..k])
    {
      assert CatIds(cats[..k + 1]) == CatIds(cats[..k]) + [cats[k].id];
      ids := ids + [cats[k].id];
    }
    assert cats[..|cats|] == cats;
    m := ZipMap(ids, surrogates);
  }

  /** One pass of FromCube's loop over the specification entries, apart from the category inserts. */
  method PlanColumn(d: SpecDim, surrogates: seq<int>) returns (name: string, item: string, mapping: map<string, int>)
    ensures name == ColumnName(d) && item == ColumnItem(d) && mapping == MappingOf(d, surrogates)
  {
    name := SqlNameCleanup(d.id);
    if d.ValDim? {
      item := name + " VARCHAR(255)";
      mapping := map[];
      return;
    }
    item := name + " INTEGER";
    mapping := CategoryMapping(d.categories, surrogates);
  }

  /** The first `i` column names, definitions and mappings are those of the first `i` entries. */
  ghost predicate ColumnsUpTo(ds: seq<SpecDim>, surrogates: seq<seq<int>>,
    items: seq<string>, names: seq<string>, mappings: seq<map<string, int>>, i: nat)
    requires |surrogates| == |ds| && i <= |ds|
  {
    && |items| == i && |names| == i && |mappings| == i
    && forall k :: 0 <= k < i ==>
         items[k] == ColumnItem(ds[k]) && names[k] == ColumnName(ds[k]) && mappings[k] == MappingOf(ds[k], surrogates[k])
  }

  lemma ColumnsSnoc(ds: seq<SpecDim>, surrogates: seq<seq<int>>,
    items: seq<string>, names: seq<string>, mappings: seq<map<string, int>>, i: nat)
    requires |surrogates| == |ds| && i < |ds| && ColumnsUpTo(ds, surrogates, items, names, mappings, i)
    ensures ColumnsUpTo(ds, surrogates, items + [ColumnItem(ds[i])], names + [ColumnName(ds[i])],
      mappings + [MappingOf(ds[i], surrogates[i])], i + 1)
  {
  }

  lemma ColumnsAll(ds: seq<SpecDim>, surrogates: seq<seq<int>>,
    items: seq<string>, names: seq<string>, mappings: seq<map<string, int>>)
    requires |surrogates| == |ds| && ColumnsUpTo(ds, surrogates, items, names, mappings, |ds|)
    ensures items == ColumnItems(ds) && names == ColumnNames(ds) && mappings == Mappings(ds, surrogates)
  {
  }

  /** The loop of FromCube: a column name, a column definition and a mapping per entry, in order. */
  method PlanColumns(ds: seq<SpecDim>, surrogates: seq<seq<int>>)
    returns (items: seq<string>, names: seq<string>, mappings: seq<map<string, int>>, categoryColumns: seq<string>)
    requires |surrogates| == |ds|
    ensures items == ColumnItems(ds) && names == ColumnNames(ds)
    ensures mappings == Mappings(ds, surrogates) && categoryColumns == CategoryColumns(ds)
  {
    items, names, mappings, categoryColumns := [], [], [], [];
    for i := 0 to |ds|
      invariant ColumnsUpTo(ds, surrogates, items, names, mappings, i)
      invariant categoryColumns == CategoryColumns(ds[..i])
    {
      CategoryColumnsSnoc(ds, i);
      ColumnsSnoc(ds, surrogates, items, names, mappings, i);
      var name, item, mapping := PlanColumn(ds[i], surrogates[i]);
      names := names + [name];
      items := items + [item];
      mappings := mappings + [mapping];
      if ds[i].CatDim? {
        categoryColumns := categoryColumns + [name];
      }
    }
    assert ds[..|ds|] == ds;
    ColumnsAll(ds, surrogates, items, names, mappings);
  }

  /**
   * `FromCube(connection, id, cube)`: one column per specification entry,
   * named by `sql_name_cleanup`; categorical columns hold surrogate keys,
   * value columns text; the table is named after the cleaned id, cut to 50
   * characters; the stored specification drops `length`. It returns the SQL
   * cube of that id without filters.
   */
  method FromCube(id: string, spec: Spec, surrogates: seq<seq<int>>) returns (cube: SqlDataCube, plan: LoadPlan)
    requires |surrogates| == |spec.dimensions|
    ensures plan == PlanOf(id, spec, surrogates)
    ensures cube == SqlDataCube(id, [])
  {
    var stored := spec.(length := None);
    var items, names, mappings, categoryColumns := PlanColumns(spec.dimensions, surrogates);
    var tableName := TableName(id);
    var createQuery := CreateQuery(tableName, items);
    var valueColumn := if ValueIds(spec.dimensions) == ["value"] then Some("value") else None;
    plan := LoadPlan(tableName, createQuery, names, mappings, categoryColumns, valueColumn, stored);
    cube := SqlDataCube(id, []);
  }

  // ---------------------------------------------------------------------
  // Properties of the plan
  // ---------------------------------------------------------------------

  /**
   * Every column and the table get clean names (`[0-9a-zA-Z_]`, no `__`),
   * one column per specification entry in order, the table name at most
   * 50 characters.
   */
  lemma PlanNames(id: string, spec: Spec, surrogates: seq<seq<int>>)
    requires |surrogates| == |spec.dimensions|
    ensures var plan := PlanOf(id, spec, surrogates);
      && |plan.columnNames| == |spec.dimensions|
      && (forall k :: 0 <= k < |spec.dimensions| ==>
            plan.columnNames[k] == SqlNameCleanup(spec.dimensions[k].id) && Clean(plan.columnNames[k]))
      && Clean(plan.tableName) && |plan.tableName| <= TABLE_NAME_MAX_LEN
  {
    forall k | 0 <= k < |spec.dimensions| ensures Clean(SqlNameCleanup(spec.dimensions[k].id)) {
      CleanupShape(spec.dimensions[k].id);
    }
    TableNameClean(id);
  }

  /**
   * The columns are named by the specification's own ids exactly when every
   * id is already clean; otherwise some column differs from the id the later
   * queries select it by.
   */
  lemma ColumnNamesMatchIds(ds: seq<SpecDim>)
    ensures ColumnNames(ds) == SpecIds(ds) <==> forall k :: 0 <= k < |ds| ==> Clean(ds[k].id)
  {
    forall k | 0 <= k < |ds|
      ensures ColumnName(ds[k]) == ds[k].id <==> Clean(ds[k].id)
    {
      CleanupFixedPoints(ds[k].id);
    }
    if forall k :: 0 <= k < |ds| ==> Clean(ds[k].id) {
      assert forall k :: 0 <= k < |ds| ==> ColumnNames(ds)[k] == SpecIds(ds)[k];
    }
  }

  lemma {:induction false} CategoryColumnsMembers(ds: seq<SpecDim>)
    ensures forall x :: x in CategoryColumns(ds) <==> exists k :: 0 <= k < |ds| && ds[k].CatDim? && x == ColumnName(ds[k])
  {
    if ds != [] {
      var n := |ds| - 1;
      CategoryColumnsMembers(ds[..n]);
      forall x | x in CategoryColumns(ds)
        ensures exists k :: 0 <= k < |ds| && ds[k].CatDim? && x == ColumnName(ds[k])
      {
        if x in CategoryColumns(ds[..n]) {
          var k :| 0 <= k < n && ds[..n][k].CatDim? && x == ColumnName(ds[..n][k]);
          assert ds[k] == ds[..n][k];
        } else {
          assert ds[n].CatDim? && x == ColumnName(ds[n]);
        }
      }
      forall x, k | 0 <= k < |ds| && ds[k].CatDim? && x == ColumnName(ds[k])
        ensures x in CategoryColumns(ds)
      {
        if k < n {
          assert ds[..n][k] == ds[k];
        }
      }
    }
  }

  /** An index is created on exactly the columns of categorical entries. */
  lemma PlanCategoryColumns(id: string, spec: Spec, surrogates: seq<seq<int>>)
    requires |surrogates| == |spec.dimensions|
    ensures forall x :: x in PlanOf(id, spec, surrogates).categoryColumns <==>
      exists k :: 0 <= k < |spec.dimensions| && spec.dimensions[k].CatDim? && x == SqlNameCleanup(spec.dimensions[k].id)
  {
    CategoryColumnsMembers(spec.dimensions);
  }

  /**
   * The mapping of a categorical column sends each category id to the
   * surrogate its insert returned; a value column's mapping is empty.
   */
  lemma PlanMappings(id: string, spec: Spec, surrogates: seq<seq<int>>, i: nat)
    requires |surrogates| == |spec.dimensions| && i < |spec.dimensions|
    requires spec.dimensions[i].CatDim? ==>
      Distinct(CatIds(spec.dimensions[i].categories)) && |spec.dimensions[i].categories| <= |surrogates[i]|
    ensures var m := PlanOf(id, spec, surrogates).mappings[i];
      var d := spec.dimensions[i];
      && (d.ValDim? ==> m == map[])
      && (d.CatDim? ==>
            (forall x :: x in m <==> x in CatIds(d.categories))
            && forall k :: 0 <= k < |d.categories| ==> m[d.categories[k].id] == surrogates[i][k])
  {
    var d := spec.dimensions[i];
    if d.CatDim? {
      var ids := CatIds(d.categories);
      assert ids[..Min(|ids|, |surrogates[i]|)] == ids;
      forall k | 0 <= k < |d.categories|
        ensures ZipMap(ids, surrogates[i])[ids[k]] == surrogates[i][k]
      {
        ZipMapAt(ids, surrogates[i], k);
      }
    }
  }

  /** The specification has one value dimension, with id `value`. */
  predicate SoleValue(ds: seq<SpecDim>, j: nat)
  {
    j < |ds| && ds[j] == ValDim("value", ds[j].title) && forall k :: 0 <= k < |ds| && k != j ==> ds[k].CatDim?
  }

  lemma {:induction false} SoleValueFound(ds: seq<SpecDim>)
    requires ValueIds(ds) == ["value"]
    ensures exists j :: SoleValue(ds, j)
  {
    var n := |ds| - 1;
    var pre := ds[..n];
    NoValueIds(pre);
    assert forall k :: 0 <= k < n ==> pre[k] == ds[k];
    if ds[n].ValDim? {
      assert ValueIds(pre) == [];
      assert ValueIds(ds) == [ds[n].id];
      assert ds[n] == ValDim("value", ds[n].title);
      assert SoleValue(ds, n);
    } else {
      SoleValueFound(pre);
      var j :| SoleValue(pre, j);
      assert SoleValue(ds, j);
    }
  }

  lemma {:induction false} SoleValueIds(ds: seq<SpecDim>, j: nat)
    requires SoleValue(ds, j)
    ensures ValueIds(ds) == ["value"]
  {
    var n := |ds| - 1;
    var pre := ds[..n];
    assert forall k :: 0 <= k < n ==> pre[k] == ds[k];
    if j == n {
      NoValueIds(pre);
      assert ValueIds(pre) == [];
    } else {
      assert SoleValue(pre, j);
      SoleValueIds(pre, j);
    }
  }

  lemma ValueIdsSingle(ds: seq<SpecDim>)
    ensures ValueIds(ds) == ["value"] <==> exists j :: SoleValue(ds, j)
  {
    if ValueIds(ds) == ["value"] {
      SoleValueFound(ds);
    }
    if exists j :: SoleValue(ds, j) {
      var j :| SoleValue(ds, j);
      SoleValueIds(ds, j);
    }
  }

  lemma {:induction false} NoValueIds(ds: seq<SpecDim>)
    ensures ValueIds(ds) == [] <==> forall k :: 0 <= k < |ds| ==> ds[k].CatDim?
  {
    if ds != [] {
      var n := |ds| - 1;
      NoValueIds(ds[..n]);
      assert forall k :: 0 <= k < n ==> ds[..n][k] == ds[k];
    }
  }

  /**
   * `cube_value_column` is `'value'` exactly when the specification has one
   * value dimension and its id is `value`; otherwise it is NULL.
   */
  lemma PlanValueColumn(id: string, spec: Spec, surrogates: seq<seq<int>>)
    requires |surrogates| == |spec.dimensions|
    ensures PlanOf(id, spec, surrogates).valueColumn == Some("value") <==> exists j :: SoleValue(spec.dimensions, j)
    ensures PlanOf(id, spec, surrogates).valueColumn.Some? ==> PlanOf(id, spec, surrogates).valueColumn == Some("value")
  {
    ValueIdsSingle(spec.dimensions);
  }

  // ---------------------------------------------------------------------
  // Text of the cells: Python 2's str() on a cell
  // ---------------------------------------------------------------------

  predicate IsDigit(ch: char)
  {
    '0' <= ch <= '9'
  }

  function Digit(d: nat): (ch: char)
    requires d < 10
    ensures IsDigit(ch) && ch as int - '0' as int == d
  {
    ('0' as int + d) as char
  }

  /** Decimal digits of `n`, the most significant first. */
  function NatStr(n: nat): (s: string)
    ensures |s| >= 1 && forall i :: 0 <= i < |s| ==> IsDigit(s[i])
  {
    if n < 10 then [Digit(n)] else NatStr(n / 10) + [Digit(n % 10)]
  }

  /** `str(n)` on an integer. */
  function IntStr(n: int): (s: string)
    ensures forall i :: 0 <= i < |s| ==> IsDigit(s[i]) || s[i] == '-'
  {
    if n < 0 then "-" + NatStr(-n) else NatStr(n)
  }

  function DigitValue(ch: char): (d: nat)
    requires IsDigit(ch)
    ensures d < 10 && Digit(d) == ch
  {
    ch as int - '0' as int
  }

  /** How the database reads a column of digits back. */
  function ParseNat(s: string): nat
    requires forall i :: 0 <= i < |s| ==> IsDigit(s[i])
  {
    if s == [] then 0 else ParseNat(s[..|s| - 1]) * 10 + DigitValue(s[|s| - 1])
  }

  function ParseInt(s: string): int
    requires s != [] && (forall i :: 1 <= i < |s| ==> IsDigit(s[i])) && (IsDigit(s[0]) || s[0] == '-')
  {
    if s[0] == '-' then -(ParseNat(s[1..]) as int) else ParseNat(s)
  }

  /**
   * The decimal text `str()` writes for a natural reads back as that number.
   * The reading is the database's `COPY` of an INTEGER column, which is not
   * part of this model; `ParseNat` stands in for it.
   */
  lemma {:induction false} NatStrRoundTrip(n: nat)
    ensures ParseNat(NatStr(n)) == n
  {
    if n >= 10 {
      NatStrRoundTrip(n / 10);
      var s := NatStr(n);
      assert s[..|s| - 1] == NatStr(n / 10);
    }
  }

  /**
   * A surrogate key written as text by `str()` is read back as the same
   * integer. As above, the reading is the database's and `ParseInt` stands in
   * for it, so this connects to the source only through the `str()` side.
   */
  lemma IntStrRoundTrip(n: int)
    ensures IntStr(n) != [] && (forall i :: 1 <= i < |IntStr(n)| ==> IsDigit(IntStr(n)[i]))
    ensures ParseInt(IntStr(n)) == n
  {
    NatStrRoundTrip(if n < 0 then -n else n);
    if n < 0 {
      assert IntStr(n)[1..] == NatStr(-n);
    }
  }

  /** `str(v)`: text as it is, integers in decimal, `None` for a missing value. */
  function Str(v: Value): string
  {
    match v
    case VStr(s) => s
    case VNum(n) => IntStr(n)
    case VNull => "None"
  }

  function Strs(row: seq<Value>): (r: seq<string>)
    ensures |r| == |row| && forall k :: 0 <= k < |row| ==> r[k] == Str(row[k])
  {
    seq(|row|, k requires 0 <= k < |row| => Str(row[k]))
  }

  /** `"\t".join(map(str, row)) + "\n"`. */
  function CsvLine(row: seq<Value>): string
  {
    Join(Strs(row), "\t") + "\n"
  }

  /** Splitting a line at every `sep`, as `copy_from` reads a tab-separated line. */
  function Split(s: string, sep: char): (r: seq<string>)
    ensures |r| >= 1
  {
    if s == [] then [""]
    else
      var rest := Split(s[1..], sep);
      if s[0] == sep then [""] + rest else [[s[0]] + rest[0]] + rest[1..]
  }

  lemma {:induction false} SplitPrefix(p: string, t: string, sep: char)
    requires sep !in p
    ensures Split(p + t, sep) == [p + Split(t, sep)[0]] + Split(t, sep)[1..]
  {
    if p != [] {
      assert (p + t)[1..] == p[1..] + t;
      SplitPrefix(p[1..], t, sep);
      assert [p[0]] + (p[1..] + Split(t, sep)[0]) == p + Split(t, sep)[0];
    } else {
      assert p + t == t;
      assert p + Split(t, sep)[0] == Split(t, sep)[0];
      assert Split(t, sep) == [Split(t, sep)[0]] + Split(t, sep)[1..];
    }
  }

  lemma {:induction false} SplitJoin(parts: seq<string>, sep: char)
    requires |parts| >= 1 && forall k :: 0 <= k < |parts| ==> sep !in parts[k]
    ensures Split(Join(parts, [sep]), sep) == parts
  {
    if |parts| == 1 {
      SplitPrefix(parts[0], "", sep);
      assert parts[0] + "" == parts[0];
    } else {
      var rest := Join(parts[1..], [sep]);
      SplitJoin(parts[1..], sep);
      assert ([sep] + rest)[1..] == rest;
      assert Split([sep] + rest, sep) == [""] + parts[1..];
      assert parts[0] + [sep] + rest == parts[0] + ([sep] + rest);
      SplitPrefix(parts[0], [sep] + rest, sep);
      assert parts[0] + "" == parts[0];
    }
  }

  predicate NoTab(s: string)
  {
    '\t' !in s && '\n' !in s
  }

  lemma NumbersNoTab(v: Value)
    requires !v.VStr?
    ensures NoTab(Str(v))
  {
    if v.VNum? {
      var s := IntStr(v.num);
      assert forall i :: 0 <= i < |s| ==> s[i] != '\t' && s[i] != '\n';
    }
  }

  lemma {:induction false} JoinNoNewline(parts: seq<string>)
    requires forall k :: 0 <= k < |parts| ==> NoTab(parts[k])
    ensures '\n' !in Join(parts, "\t")
  {
    if |parts| > 1 {
      JoinNoNewline(parts[1..]);
    }
  }

  /**
   * A line ends in its only newline, and splitting the rest at the tabs
   * gives back the text of each cell, when no text cell holds a tab or a
   * newline.
   */
  lemma CsvLineFields(row: seq<Value>)
    requires |row| >= 1 && forall k :: 0 <= k < |row| ==> row[k].VStr? ==> NoTab(row[k].str)
    ensures var line := CsvLine(row);
      && line[|line| - 1] == '\n' && '\n' !in line[..|line| - 1]
      && Split(line[..|line| - 1], '\t') == Strs(row)
  {
    var strs := Strs(row);
    forall k | 0 <= k < |row| ensures NoTab(strs[k]) {
      if !row[k].VStr? { NumbersNoTab(row[k]); }
    }
    var line := CsvLine(row);
    assert line[..|line| - 1] == Join(strs, "\t");
    JoinNoNewline(strs);
    SplitJoin(strs, '\t');
  }

  // ---------------------------------------------------------------------
  // The surrogate substitution of CubeMappingCsv
  // ---------------------------------------------------------------------

  /** `m.get(v, v)`: a category id its mapping knows becomes the surrogate; anything else stays. */
  function MapCell(m: map<string, int>, v: Value): Value
  {
    if v.VStr? && v.str in m then VNum(m[v.str]) else v
  }

  /** `[m.get(v, v) for m, v in zip(mappings, row)]`: zip stops at the shorter list. */
  function MapRow(ms: seq<map<string, int>>, row: seq<Value>): (r: seq<Value>)
    ensures |r| == Min(|ms|, |row|)
    ensures forall k :: 0 <= k < |r| ==> r[k] == MapCell(ms[k], row[k])
  {
    seq(Min(|ms|, |row|), k requires 0 <= k < Min(|ms|, |row|) => MapCell(ms[k], row[k]))
  }

  /** Empty mappings leave a row as it is, so such a reader writes the lines of `CubeCsv`. */
  lemma EmptyMappingsVerbatim(ms: seq<map<string, int>>, row: seq<Value>)
    requires |row| <= |ms| && forall k :: 0 <= k < |ms| ==> ms[k] == map[]
    ensures MapRow(ms, row) == row
    ensures CsvLine(MapRow(ms, row)) == CsvLine(row)
  {
  }

  /**
   * A cell of a row loaded by FromCube: in a categorical column, text equal
   * to a category id becomes that category's surrogate and any other
   * cell, a label that is not an id among them, is written as it is; value
   * columns are always written as they are.
   */
  lemma LoadedCell(id: string, spec: Spec, surrogates: seq<seq<int>>, row: seq<Value>, i: nat)
    requires |surrogates| == |spec.dimensions| && |row| == |spec.dimensions| && i < |row|
    requires spec.dimensions[i].CatDim? ==>
      Distinct(CatIds(spec.dimensions[i].categories)) && |spec.dimensions[i].categories| <= |surrogates[i]|
    ensures |MapRow(PlanOf(id, spec, surrogates).mappings, row)| == |row|
    ensures var d := spec.dimensions[i];
      var cell := MapRow(PlanOf(id, spec, surrogates).mappings, row)[i];
      if d.CatDim? && row[i].VStr? && row[i].str in CatIds(d.categories) then
        var k := LastIndexOf(CatIds(d.categories), row[i].str).value;
        cell == VNum(surrogates[i][k])
      else cell == row[i]
  {
    PlanMappings(id, spec, surrogates, i);
    var d := spec.dimensions[i];
    if d.CatDim? && row[i].VStr? && row[i].str in CatIds(d.categories) {
      var k := LastIndexOf(CatIds(d.categories), row[i].str).value;
      assert d.categories[k].id == row[i].str;
    }
  }

  // ---------------------------------------------------------------------
  // Label cells: the rows FromCube streams name categories by label
  // ---------------------------------------------------------------------

  /** A one-cell cube whose only category, `FI`, carries the label `Finland`. */
  function LabelledCube(): DataCube
  {
    DataCube(CubeData(map[], [Dimension("country", None, [Category("FI", Some("Finland"))])],
      [ValueDimension("value", None, [VNum(5)])]), map[])
  }

  lemma LabelledSpec()
    ensures SpecOf(LabelledCube()).dimensions ==
      [CatDim("country", None, [Category("FI", Some("Finland"))]), ValDim("value", None)]
  {
    var c := LabelledCube();
    SpecContents(c);
    UnfilteredSpecKeepsCategories(c, 0);
    assert SpecOf(c).dimensions[1] == ValDim("value", None);
  }

  lemma LabelledRow()
    ensures Row(LabelledCube(), [0]) == Ok([VStr("Finland"), VNum(5)])
  {
    var c := LabelledCube();
    var sizes := DimSizes(c.data.dimensions);
    assert sizes == [1];
    assert Product(sizes) == 1 by { ProductSnoc([], 1); }
    RowContents(c, [0]);
    FlatIndexBound([0], sizes);
    var row := Row(c, [0]).value;
    assert row == [VStr("Finland"), VNum(5)];
  }

  /**
   * As written: the dense cube's row yields the category's label, the
   * column's mapping is keyed by category ids, so `m.get(v, v)` passes the
   * label through and a text cell reaches the column declared INTEGER.
   */
  lemma LabelledRowNotMapped(surrogate: int)
    ensures var c := LabelledCube();
      var plan := PlanOf("t", SpecOf(c), [[surrogate], []]);
      && Row(c, [0]) == Ok([VStr("Finland"), VNum(5)])
      && ColumnItem(SpecOf(c).dimensions[0]) == SqlNameCleanup("country") + " INTEGER"
      && MapRow(plan.mappings, Row(c, [0]).value) == [VStr("Finland"), VNum(5)]
  {
    LabelledSpec();
    LabelledRow();
    LabelledMappings(surrogate);
    var row := [VStr("Finland"), VNum(5)];
    assert MapRow([map["FI" := surrogate], map[]], row) == row by {
      assert "Finland" !in map["FI" := surrogate];
    }
  }

  /** The mappings FromCube builds for the labelled cube: `FI` to its surrogate, none for the value column. */
  lemma LabelledMappings(surrogate: int)
    ensures PlanOf("t", SpecOf(LabelledCube()), [[surrogate], []]).mappings == [map["FI" := surrogate], map[]]
  {
    LabelledSpec();
    var ds := SpecOf(LabelledCube()).dimensions;
    assert ZipMap(CatIds(ds[0].categories), [surrogate]) == map["FI" := surrogate];
  }

  /** The category ids of a coordinate tuple, in order: the cells the mappings are keyed by. */
  function IdCells(dims: seq<Dimension>, t: seq<nat>): (r: seq<Value>)
    requires Fits(t, dims)
    ensures |r| == |t| && forall i :: 0 <= i < |t| ==> r[i] == VStr(dims[i].categories[t[i]].id)
  {
    seq(|t|, i requires 0 <= i < |t| => VStr(dims[i].categories[t[i]].id))
  }

  /** The row FromCube evidently means to stream: category ids, then the payloads. */
  function IdRow(c: DataCube, t: seq<nat>): Result<seq<Value>>
    requires Fits(t, c.data.dimensions)
  {
    var ps :- Payloads(c.data.valueDimensions, FlatOf(c.data.dimensions, t));
    Ok(IdCells(c.data.dimensions, t) + ps)
  }

  /** The first `|t|` cells hold, column by column, the surrogate of the category `t` picks there. */
  ghost predicate SurrogateCells(cells: seq<Value>, surrogates: seq<seq<int>>, t: seq<nat>)
  {
    && |t| <= |cells| && |t| <= |surrogates|
    && forall i :: 0 <= i < |t| ==> t[i] < |surrogates[i]| && cells[i] == VNum(surrogates[i][t[i]])
  }

  /** After the first `n` cells come the payloads at flat index `f`, one per value dimension, and nothing else. */
  ghost predicate PayloadCells(cells: seq<Value>, n: nat, vdims: seq<ValueDimension>, f: nat)
  {
    && |cells| == n + |vdims|
    && forall j :: 0 <= j < |vdims| ==> f < |vdims[j].values| && cells[n + j] == vdims[j].values[f]
  }

  /**
   * Corrected: fed rows of category ids, the mapping reader turns every
   * categorical cell of an unfiltered cube into the surrogate of that
   * category and passes the payloads through. `Mappings(SpecDims(c), _)`
   * are the column mappings FromCube builds from the cube's specification.
   */
  lemma IdRowLoaded(c: DataCube, surrogates: seq<seq<int>>, t: seq<nat>)
    requires c.filters == map[] && Dense(c.data) && InRange(t, DimSizes(c.data.dimensions))
    requires |surrogates| == |c.data.dimensions| + |c.data.valueDimensions|
    requires forall i :: 0 <= i < |c.data.dimensions| ==>
      Distinct(CatIds(c.data.dimensions[i].categories)) && |c.data.dimensions[i].categories| <= |surrogates[i]|
    ensures Fits(t, c.data.dimensions) && IdRow(c, t).Ok?
    ensures FlatOf(c.data.dimensions, t) < Product(DimSizes(c.data.dimensions))
    ensures var cells := MapRow(Mappings(SpecDims(c), surrogates), IdRow(c, t).value);
      && SurrogateCells(cells, surrogates, t)
      && PayloadCells(cells, |t|, c.data.valueDimensions, FlatOf(c.data.dimensions, t))
  {
    var dims := c.data.dimensions;
    var ds := SpecDims(c);
    IdRowContents(c, t);
    var row := IdRow(c, t).value;
    forall i | 0 <= i < |dims| ensures MapRow(Mappings(ds, surrogates), row)[i] == VNum(surrogates[i][t[i]]) {
      UnfilteredSpecKeepsCategories(c, i);
      IdCellLoaded(ds, surrogates, row, i, t[i]);
    }
    ValueCellsLoaded(c, surrogates, row);
  }

  /** A cell holding the id of the `p`-th category of its column becomes that category's surrogate. */
  lemma IdCellLoaded(ds: seq<SpecDim>, surrogates: seq<seq<int>>, row: seq<Value>, i: nat, p: nat)
    requires |surrogates| == |ds| && |row| == |ds| && i < |ds|
    requires ds[i].CatDim? && p < |ds[i].categories|
    requires Distinct(CatIds(ds[i].categories)) && |ds[i].categories| <= |surrogates[i]|
    requires row[i] == VStr(ds[i].categories[p].id)
    ensures MapRow(Mappings(ds, surrogates), row)[i] == VNum(surrogates[i][p])
  {
    ZipMapAt(CatIds(ds[i].categories), surrogates[i], p);
  }

  /** The value columns of a loaded row are written as they are. */
  lemma ValueCellsLoaded(c: DataCube, surrogates: seq<seq<int>>, row: seq<Value>)
    requires ValidFilters(c)
    requires |surrogates| == |SpecDims(c)| && |row| == |SpecDims(c)|
    ensures forall k :: |c.data.dimensions| <= k < |row| ==> MapRow(Mappings(SpecDims(c), surrogates), row)[k] == row[k]
  {
    forall k | |c.data.dimensions| <= k < |row| ensures MapRow(Mappings(SpecDims(c), surrogates), row)[k] == row[k] {
      SpecValueEntry(c, k);
    }
  }

  lemma IdRowContents(c: DataCube, t: seq<nat>)
    requires Dense(c.data) && InRange(t, DimSizes(c.data.dimensions))
    ensures Fits(t, c.data.dimensions) && IdRow(c, t).Ok?
    ensures FlatOf(c.data.dimensions, t) < Product(DimSizes(c.data.dimensions))
    ensures var dims := c.data.dimensions;
      var vdims := c.data.valueDimensions;
      var row := IdRow(c, t).value;
      && |row| == |dims| + |vdims|
      && (forall i :: 0 <= i < |dims| ==> row[i] == VStr(dims[i].categories[t[i]].id))
      && (forall j :: 0 <= j < |vdims| ==> row[|dims| + j] == vdims[j].values[FlatOf(dims, t)])
  {
    FlatIndexBound(t, DimSizes(c.data.dimensions));
    PayloadsOk(c.data.valueDimensions, FlatOf(c.data.dimensions, t));
  }

  // ---------------------------------------------------------------------
  // The readers
  // ---------------------------------------------------------------------

  /**
   * `CubeCsv`: a file-like object over the cube's rows. `pending` are the
   * rows its iterator has still to yield; a row whose payload cannot be read
   * raises inside `readline`, after the iterator has moved past it.
   */
  class CubeCsv {
    var pending: seq<Result<seq<Value>>>

    constructor (rows: seq<Result<seq<Value>>>)
      ensures pending == rows
    {
      pending := rows;
    }

    /** `readline()`: the next row as a tab-separated line, `""` once the rows are exhausted. */
    method Readline() returns (line: Result<string>)
      modifies this
      ensures old(pending) == [] ==> line == Ok("") && pending == []
      ensures old(pending) != [] ==> pending == old(pending)[1..]
      ensures old(pending) != [] ==>
        line == if old(pending)[0].Ok? then Ok(CsvLine(old(pending)[0].value)) else Err(old(pending)[0].error)
    {
      if pending == [] {
        return Ok("");
      }
      var row := pending[0];
      pending := pending[1..];
      if row.Err? {
        return Err(row.error);
      }
      line := Ok(CsvLine(row.value));
    }
  }

  /** `CubeMappingCsv`: the same reader, passing every cell through its column's mapping first. */
  class CubeMappingCsv {
    var pending: seq<Result<seq<Value>>>
    var mappings: seq<map<string, int>>

    constructor (rows: seq<Result<seq<Value>>>, mappings: seq<map<string, int>>)
      ensures pending == rows && this.mappings == mappings
    {
      pending := rows;
      this.mappings := mappings;
    }

    /** `readline()`: the next row with surrogates substituted, `""` once the rows are exhausted. */
    method Readline() returns (line: Result<string>)
      modifies this
      ensures mappings == old(mappings)
      ensures old(pending) == [] ==> line == Ok("") && pending == []
      ensures old(pending) != [] ==> pending == old(pending)[1..]
      ensures old(pending) != [] ==>
        line == if old(pending)[0].Ok? then Ok(CsvLine(MapRow(mappings, old(pending)[0].value))) else Err(old(pending)[0].error)
    {
      if pending == [] {
        return Ok("");
      }
      var row := pending[0];
      pending := pending[1..];
      if row.Err? {
        return Err(row.error);
      }
      line := Ok(CsvLine(MapRow(mappings, row.value)));
    }
  }
}
