/**
 * The JSON-stat converter of pydatacube/jsonstat.py. A JSON-stat dataset is
 * modelled as typed records; JSON objects whose keys are data (the category
 * label map, the position form of `category.index`) are sequences of
 * key/value pairs in document order.
 */
module Jsonstat {
  import opened Common
  import opened FlatIndex
  import opened Cube

  /** `category.index`: an array of ids, or an object mapping each id to its position. */
  datatype JsIndex = IndexList(ids: seq<string>) | IndexObject(positions: seq<(string, int)>)

  /** A `category` object: its optional `index` and optional `label` map. */
  datatype JsCategory = JsCategory(index: Option<JsIndex>, labels: Option<seq<(string, string)>>)

  /** One entry of the `dimension` object: optional `label`, and `category`. */
  datatype JsDimension = JsDimension(title: Option<string>, category: JsCategory)

  /** A member of the `dimension` object: the `id` list, the `size` list, or one dimension's entry. */
  datatype JsMember = IdList(ids: seq<string>) | SizeList(sizes: seq<nat>) | Entry(entry: JsDimension)

  /**
   * The `dimension` object. `id`, `size` and the dimension ids are keys of
   * this one object, so an entry for a dimension named `id` or `size` takes
   * the place of that list. Its key order is not modelled: neither reader
   * enumerates it.
   */
  type JsDimensions = map<string, JsMember>

  /** A JSON-stat dataset: optional `label`, `dimension` and the flat `value` array. */
  datatype JsDataset = JsDataset(title: Option<string>, dimension: JsDimensions, value: seq<Value>)

  // ---------------------------------------------------------------------
  // Keyed pairs and Python's ordering of (int, str) tuples
  // ---------------------------------------------------------------------

  /** `labels[key]` of a JSON object read with last-duplicate-wins. */
  function Get(pairs: seq<(string, string)>, key: string): (r: Option<string>)
    ensures r.None? <==> key !in Firsts(pairs)
    ensures r.Some? ==> exists k :: 0 <= k < |pairs| && pairs[k] == (key, r.value)
  {
    if pairs == [] then None
    else
      assert Firsts(pairs) == [pairs[0].0] + Firsts(pairs[1..]);
      var rest := Get(pairs[1..], key);
      if rest.Some? then
        assert exists k :: 0 <= k < |pairs[1..]| && pairs[1..][k] == (key, rest.value);
        rest
      else if pairs[0].0 == key then Some(pairs[0].1)
      else None
  }

  /**
   * The keys of a parsed JSON object, in document order. A repeated key
   * keeps the place of its first occurrence (a later one only replaces the
   * value), so every key is listed once.
   */
  function ObjectKeys<V>(pairs: seq<(string, V)>): (keys: seq<string>)
    ensures Distinct(keys)
    ensures forall x :: x in keys <==> x in Firsts(pairs)
    ensures Distinct(Firsts(pairs)) ==> keys == Firsts(pairs)
  {
    if pairs == [] then []
    else
      var n := |pairs| - 1;
      assert Firsts(pairs) == Firsts(pairs[..n]) + [pairs[n].0];
      var pre := ObjectKeys(pairs[..n]);
      if pairs[n].0 in pre then pre else pre + [pairs[n].0]
  }

  /** The items of a parsed JSON object: each key once, in `ObjectKeys` order, with the value it was given last. */
  function ObjectItems<V>(pairs: seq<(string, V)>): (items: seq<(string, V)>)
    ensures Firsts(items) == ObjectKeys(pairs)
  {
    var keys := ObjectKeys(pairs);
    seq(|keys|, k requires 0 <= k < |keys| => (keys[k], pairs[LastIndexOf(Firsts(pairs), keys[k]).value].1))
  }

  /** Each item of a parsed object is the last pair of the document with its key. */
  lemma ObjectItemsLast<V>(pairs: seq<(string, V)>, k: nat)
    requires k < |ObjectItems(pairs)|
    ensures exists i :: (0 <= i < |pairs| && pairs[i] == ObjectItems(pairs)[k] &&
      forall j :: i < j < |pairs| ==> pairs[j].0 != ObjectItems(pairs)[k].0)
  {
    var key := ObjectKeys(pairs)[k];
    assert ObjectItems(pairs)[k].0 == key;
    var i := LastIndexOf(Firsts(pairs), key).value;
    assert pairs[i] == ObjectItems(pairs)[k];
  }

  /** Python's ordering of `str`: lexicographic by character. */
  predicate StrLe(a: string, b: string)
  {
    a == [] || (b != [] && (a[0] < b[0] || (a[0] == b[0] && StrLe(a[1..], b[1..]))))
  }

  lemma {:induction false} StrLeTotal(a: string, b: string)
    ensures StrLe(a, b) || StrLe(b, a)
  {
    if a != [] && b != [] && a[0] == b[0] {
      StrLeTotal(a[1..], b[1..]);
    }
  }

  lemma {:induction false} StrLeTrans(a: string, b: string, c: string)
    requires StrLe(a, b) && StrLe(b, c)
    ensures StrLe(a, c)
  {
    if a != [] && b != [] && c != [] && a[0] == b[0] && b[0] == c[0] {
      StrLeTrans(a[1..], b[1..], c[1..]);
    }
  }

  /** Python's ordering of the `(position, id)` tuples of `items.sort()`. */
  predicate PairLe(a: (int, string), b: (int, string))
  {
    a.0 < b.0 || (a.0 == b.0 && StrLe(a.1, b.1))
  }

  lemma PairLeTotal(a: (int, string), b: (int, string))
    ensures PairLe(a, b) || PairLe(b, a)
  {
    StrLeTotal(a.1, b.1);
  }

  lemma PairLeTrans(a: (int, string), b: (int, string), c: (int, string))
    requires PairLe(a, b) && PairLe(b, c)
    ensures PairLe(a, c)
  {
    if a.0 == b.0 && b.0 == c.0 {
      StrLeTrans(a.1, b.1, c.1);
    }
  }

  predicate SortedPairs(s: seq<(int, string)>)
  {
    forall i, j :: 0 <= i < j < |s| ==> PairLe(s[i], s[j])
  }

  function Insert(x: (int, string), s: seq<(int, string)>): (r: seq<(int, string)>)
    ensures multiset(r) == multiset(s) + multiset{x}
    ensures |r| == |s| + 1
  {
    if s == [] then [x]
    else if PairLe(x, s[0]) then [x] + s
    else
      assert s == [s[0]] + s[1..];
      [s[0]] + Insert(x, s[1..])
  }

  lemma {:induction false} InsertSorted(x: (int, string), s: seq<(int, string)>)
    requires SortedPairs(s)
    ensures SortedPairs(Insert(x, s))
  {
    if s != [] && PairLe(x, s[0]) {
      forall j | 0 <= j < |s| ensures PairLe(x, s[j]) {
        if j > 0 {
          PairLeTrans(x, s[0], s[j]);
        }
      }
      assert Insert(x, s) == [x] + s;
    } else if s != [] {
      var rest := s[1..];
      assert SortedPairs(rest);
      InsertSorted(x, rest);
      PairLeTotal(x, s[0]);
      var r := Insert(x, rest);
      forall m | 0 <= m < |r| ensures PairLe(s[0], r[m]) {
        assert r[m] in multiset(r);
        if r[m] != x {
          assert r[m] in multiset(rest);
          var j :| 0 <= j < |rest| && rest[j] == r[m];
          assert s[j + 1] == r[m];
        }
      }
    }
  }

  /** `items.sort()`. */
  function SortPairs(s: seq<(int, string)>): (r: seq<(int, string)>)
    ensures multiset(r) == multiset(s) && |r| == |s|
  {
    if s == [] then []
    else
      assert s == [s[0]] + s[1..];
      Insert(s[0], SortPairs(s[1..]))
  }

  lemma {:induction false} SortPairsSorted(s: seq<(int, string)>)
    ensures SortedPairs(SortPairs(s))
  {
    if s != [] {
      SortPairsSorted(s[1..]);
      InsertSorted(s[0], SortPairs(s[1..]));
    }
  }

  // ---------------------------------------------------------------------
  // Import: _load_dimension and to_cube
  // ---------------------------------------------------------------------

  /** A pair of `t` occurs in it at most once when the ids of its pairs are distinct. */
  lemma {:induction false} CountAtMostOne(t: seq<(int, string)>, p: (int, string))
    requires Distinct(Seconds(t))
    ensures multiset(t)[p] <= 1
  {
    if t != [] {
      var n := |t| - 1;
      assert t == t[..n] + [t[n]];
      assert Seconds(t[..n]) == Seconds(t)[..n];
      CountAtMostOne(t[..n], p);
      if p == t[n] {
        forall i | 0 <= i < n ensures t[..n][i] != p {
          assert Seconds(t)[i] != Seconds(t)[n];
        }
      }
    }
  }

  /** Two pairs of `t` with the same id are the same pair, when its ids are distinct. */
  lemma SameIdSamePair(t: seq<(int, string)>, p: (int, string), q: (int, string))
    requires Distinct(Seconds(t)) && p in t && q in t
    ensures p.1 == q.1 ==> p == q
  {
    var a :| 0 <= a < |t| && t[a] == p;
    var b :| 0 <= b < |t| && t[b] == q;
    assert Seconds(t)[a] == p.1 && Seconds(t)[b] == q.1;
  }

  lemma TwoOccurrences(s: seq<(int, string)>, i: nat, j: nat)
    requires i < j < |s|
    ensures s[i] == s[j] ==> multiset(s)[s[i]] >= 2
  {
    assert s == s[..i] + [s[i]] + s[i + 1..j] + [s[j]] + s[j + 1..];
  }

  /** Reordering pairs keeps the set of their ids, and keeps distinct ids distinct. */
  lemma SecondsPerm(s: seq<(int, string)>, t: seq<(int, string)>)
    requires multiset(s) == multiset(t) && Distinct(Seconds(t))
    ensures forall x :: x in Seconds(s) <==> x in Seconds(t)
    ensures Distinct(Seconds(s))
  {
    forall x | x in Seconds(s) ensures x in Seconds(t) {
      var i :| 0 <= i < |s| && Seconds(s)[i] == x;
      assert s[i] in multiset(t);
      var a :| 0 <= a < |t| && t[a] == s[i];
      assert Seconds(t)[a] == x;
    }
    forall x | x in Seconds(t) ensures x in Seconds(s) {
      var a :| 0 <= a < |t| && Seconds(t)[a] == x;
      assert t[a] in multiset(s);
      var i :| 0 <= i < |s| && s[i] == t[a];
      assert Seconds(s)[i] == x;
    }
    forall i, j | 0 <= i < j < |s| ensures Seconds(s)[i] != Seconds(s)[j] {
      assert s[i] in multiset(t) && s[j] in multiset(t);
      SameIdSamePair(t, s[i], s[j]);
      TwoOccurrences(s, i, j);
      CountAtMostOne(t, s[i]);
    }
  }

  /** `[(v, k) for (k, v) in category_ids.items()]`. */
  function Swapped(positions: seq<(string, int)>): (items: seq<(int, string)>)
    ensures |items| == |positions| && forall k :: 0 <= k < |positions| ==> items[k] == (positions[k].1, positions[k].0)
  {
    seq(|positions|, k requires 0 <= k < |positions| => (positions[k].1, positions[k].0))
  }

  /** The category ids of `_load_dimension`, in the order the cube will list them. */
  function CategoryIds(cat: JsCategory): Result<seq<string>>
  {
    match cat.index
    case Some(IndexList(ids)) => Ok(ids)
    case Some(IndexObject(ps)) =>
      // `zip(*items)[1]` of no items indexes an empty list
      if ps == [] then Err(IndexError) else Ok(Seconds(SortPairs(Swapped(ObjectItems(ps)))))
    case None =>
      match cat.labels
      case Some(ls) => Ok(ObjectKeys(ls))
      case None => Err(KeyError("label"))
  }

  /**
   * Category order follows an `index` array; an `index` object is read in
   * order of position (ties by id), each of its keys exactly once, with the
   * position it was given last; without `index` the ids are the keys of
   * `label`, each once; with neither the lookup of `label` fails, and an
   * empty `index` object fails in `zip(*items)[1]`.
   */
  lemma CategoryIdsOrder(cat: JsCategory)
    ensures cat.index.Some? && cat.index.value.IndexList? ==> CategoryIds(cat) == Ok(cat.index.value.ids)
    ensures cat.index.Some? && cat.index.value.IndexObject? ==>
      var ps := cat.index.value.positions;
      && (CategoryIds(cat).Ok? <==> ps != [])
      && (ps == [] ==> CategoryIds(cat) == Err(IndexError))
      && (CategoryIds(cat).Ok? ==>
            var ids := CategoryIds(cat).value;
            var items := Swapped(ObjectItems(ps));
            var sorted := SortPairs(items);
            && multiset(sorted) == multiset(items)
            && ids == Seconds(sorted)
            && Distinct(ids) && (forall x :: x in ids <==> x in Firsts(ps))
            && forall i, j :: 0 <= i < j < |ids| ==> sorted[i].0 <= sorted[j].0)
    ensures cat.index.None? ==>
      (CategoryIds(cat).Ok? <==> cat.labels.Some?) &&
      (cat.labels.None? ==> CategoryIds(cat) == Err(KeyError("label"))) &&
      (cat.labels.Some? ==>
         var ids := CategoryIds(cat).value;
         && ids == ObjectKeys(cat.labels.value)
         && Distinct(ids) && forall x :: x in ids <==> x in Firsts(cat.labels.value))
  {
    if cat.index.Some? && cat.index.value.IndexObject? {
      var ps := cat.index.value.positions;
      var items := Swapped(ObjectItems(ps));
      SortPairsSorted(items);
      assert Seconds(items) == ObjectKeys(ps);
      SecondsPerm(SortPairs(items), items);
    }
  }

  /** The categories `_load_dimension` builds: each id, with a label iff the label map has one. */
  function CategoriesOf(ids: seq<string>, labels: seq<(string, string)>): (cats: seq<Category>)
    ensures |cats| == |ids| && forall k :: 0 <= k < |ids| ==> cats[k] == Category(ids[k], Get(labels, ids[k]))
  {
    seq(|ids|, k requires 0 <= k < |ids| => Category(ids[k], Get(labels, ids[k])))
  }

  /** `labels = jsonstat_cats['label']`, or `{}` when absent. */
  function LabelMap(cat: JsCategory): seq<(string, string)>
  {
    if cat.labels.Some? then cat.labels.value else []
  }

  /**
   * `js_dimensions['id']`, the list `to_cube` enumerates. A missing key fails.
   * A list of sizes hands its first number to `_load_dimension`, whose lookup
   * of that number among the string keys fails. An entry object is enumerated
   * by its keys (it always has `category`), and `_load_dimension`'s
   * `dimensions['id'][0]` then looks up the int 0 in it and fails.
   */
  function DimensionIdList(dims: JsDimensions): (r: Result<seq<string>>)
    ensures r.Ok? <==> "id" in dims && (dims["id"].IdList? || dims["id"] == SizeList([]))
    ensures r.Ok? && dims["id"].IdList? ==> r.value == dims["id"].ids
    ensures "id" in dims && dims["id"].Entry? ==> r == Err(IntKeyError(0))
  {
    if "id" !in dims then Err(KeyError("id"))
    else
      match dims["id"]
      case IdList(ids) => Ok(ids)
      case SizeList(sizes) => if sizes == [] then Ok([]) else Err(IntKeyError(sizes[0]))
      case Entry(_) => Err(IntKeyError(0))
  }

  /**
   * `_load_dimension` for the dimension id `dimensions['id'][dim_i]`: its
   * member must exist, and only an entry object has the `category` key a list
   * is asked for.
   */
  function LoadedDimension(dims: JsDimensions, id: string): (r: Result<Dimension>)
  {
    if id !in dims then Err(KeyError(id))
    else
      match dims[id]
      case Entry(jd) =>
        var ids :- CategoryIds(jd.category);
        Ok(Dimension(id, jd.title, CategoriesOf(ids, LabelMap(jd.category))))
      case _ => Err(TypeError)
  }

  /**
   * The dimension `_load_dimension` reads: it succeeds iff the id names an
   * entry whose category ids can be read; the id is kept, the label is the
   * entry's own, the categories follow `CategoryIds`, and each category
   * carries a label iff its id is a key of the label map.
   */
  lemma LoadedDimensionContents(dims: JsDimensions, id: string)
    ensures LoadedDimension(dims, id).Ok? <==>
      id in dims && dims[id].Entry? && CategoryIds(dims[id].entry.category).Ok?
    ensures id in dims && !dims[id].Entry? ==> LoadedDimension(dims, id) == Err(TypeError)
    ensures LoadedDimension(dims, id).Ok? ==>
      var d := LoadedDimension(dims, id).value;
      var jd := dims[id].entry;
      var ids := CategoryIds(jd.category).value;
      && d.id == id
      && d.title == jd.title
      && CatIds(d.categories) == ids
      && forall k :: 0 <= k < |ids| ==>
           (d.categories[k].title.Some? <==> ids[k] in Firsts(LabelMap(jd.category)))
  {
  }

  /** A `label` object that repeats a key gives one category, labelled with the value given last. */
  lemma RepeatedLabelKey()
    ensures var dims := map["d" := Entry(JsDimension(None, JsCategory(None, Some([("a", "A"), ("a", "B")]))))];
      LoadedDimension(dims, "d") == Ok(Dimension("d", None, [Category("a", Some("B"))]))
  {
    var ls := [("a", "A"), ("a", "B")];
    var cat := JsCategory(None, Some(ls));
    assert ObjectKeys(ls[..1]) == ["a"];
    assert ObjectKeys(ls) == ["a"];
    assert CategoryIds(cat) == Ok(["a"]);
    assert ls[1..][1..] == [];
    assert Get(ls[1..], "a") == Some("B");
    assert Get(ls, "a") == Some("B");
    assert CategoriesOf(["a"], LabelMap(cat)) == [Category("a", Some("B"))];
  }

  /** `_load_dimension`: the category list is built by appending, one id at a time. */
  method LoadDimension(dims: JsDimensions, id: string) returns (r: Result<Dimension>)
    ensures r == LoadedDimension(dims, id)
  {
    if id !in dims {
      return Err(KeyError(id));
    }
    if !dims[id].Entry? {
      return Err(TypeError);
    }
    var jd := dims[id].entry;
    var categoryIds := CategoryIds(jd.category);
    if categoryIds.Err? {
      return Err(categoryIds.error);
    }
    var categories := LoadCategories(categoryIds.value, LabelMap(jd.category));
    r := Ok(Dimension(id, jd.title, categories));
  }

  /** The category loop of `_load_dimension`: each id with its label when the label map has one. */
  method LoadCategories(ids: seq<string>, labels: seq<(string, string)>) returns (categories: seq<Category>)
    ensures categories == CategoriesOf(ids, labels)
  {
    categories := [];
    for k := 0 to |ids|
      invariant |categories| == k
      invariant forall m :: 0 <= m < k ==> categories[m] == Category(ids[m], Get(labels, ids[m]))
    {
      var catLabel: Option<string> := None;
      if ids[k] in Firsts(labels) {
        catLabel := Get(labels, ids[k]);
      }
      categories := categories + [Category(ids[k], catLabel)];
    }
  }

  /** `_load_dimension` of each id, in order. */
  function Loads(dims: JsDimensions, ids: seq<string>): (rs: seq<Result<Dimension>>)
    ensures |rs| == |ids| && forall i :: 0 <= i < |ids| ==> rs[i] == LoadedDimension(dims, ids[i])
  {
    seq(|ids|, i requires 0 <= i < |ids| => LoadedDimension(dims, ids[i]))
  }

  /** The dimensions of the first `n` ids of `to_cube`'s loop, or the first failure. */
  function LoadedDimensions(dims: JsDimensions, ids: seq<string>, n: nat): (r: Result<seq<Dimension>>)
    requires n <= |ids|
    ensures r.Ok? ==> |r.value| == n
    ensures r.Ok? <==> forall i :: 0 <= i < n ==> LoadedDimension(dims, ids[i]).Ok?
    ensures r.Ok? ==> forall i :: 0 <= i < n ==> r.value[i] == LoadedDimension(dims, ids[i]).value
  {
    Collect(Loads(dims, ids), n)
  }

  /** `e` is the error of the first of the first `n` ids whose dimension does not load. */
  predicate FirstLoadError(dims: JsDimensions, ids: seq<string>, n: nat, e: Error)
    requires n <= |ids|
  {
    exists i :: (0 <= i < n && LoadedDimension(dims, ids[i]).Err? &&
      (forall j :: 0 <= j < i ==> LoadedDimension(dims, ids[j]).Ok?) &&
      e == LoadedDimension(dims, ids[i]).error)
  }

  /** A failure of the loop is the failure of its first id that does not load. */
  lemma LoadedDimensionsFirstError(dims: JsDimensions, ids: seq<string>, n: nat)
    requires n <= |ids|
    ensures LoadedDimensions(dims, ids, n).Err? ==> FirstLoadError(dims, ids, n, LoadedDimensions(dims, ids, n).error)
  {
    CollectFirstError(Loads(dims, ids), n);
  }

  /** The metadata of `to_cube`: the dataset `label`, when present, under `label`. */
  function MetadataOf(title: Option<string>): map<string, string>
  {
    if title.Some? then map["label" := title.value] else map[]
  }

  /** `to_cube(js_dataset)` as a value. */
  function CubeOf(js: JsDataset): Result<DataCube>
  {
    var ids :- DimensionIdList(js.dimension);
    var dims :- LoadedDimensions(js.dimension, ids, |ids|);
    Ok(DataCube(CubeData(MetadataOf(js.title), dims, [ValueDimension("value", None, js.value)]), map[]))
  }

  /**
   * `to_cube` succeeds iff `dimension.id` can be read and every dimension it
   * names loads; it gives an unfiltered cube whose categorical dimensions are
   * read in `dimension.id` order, with exactly one value dimension `value`
   * holding the dataset's `value` array, and the dataset label as metadata
   * label iff present.
   */
  lemma CubeOfContents(js: JsDataset)
    ensures CubeOf(js).Ok? <==>
      DimensionIdList(js.dimension).Ok? &&
      forall i :: 0 <= i < |DimensionIdList(js.dimension).value| ==> LoadedDimension(js.dimension, DimensionIdList(js.dimension).value[i]).Ok?
    ensures DimensionIdList(js.dimension).Err? ==> CubeOf(js) == Err(DimensionIdList(js.dimension).error)
    ensures DimensionIdList(js.dimension).Ok? && CubeOf(js).Err? ==>
      var ids := DimensionIdList(js.dimension).value;
      FirstLoadError(js.dimension, ids, |ids|, CubeOf(js).error)
    ensures CubeOf(js).Ok? ==>
      var c := CubeOf(js).value;
      var ids := DimensionIdList(js.dimension).value;
      && c.filters == map[]
      && |c.data.dimensions| == |ids|
      && (forall i :: 0 <= i < |ids| ==> c.data.dimensions[i] == LoadedDimension(js.dimension, ids[i]).value)
      && c.data.valueDimensions == [ValueDimension("value", None, js.value)]
      && ("label" in c.data.metadata <==> js.title.Some?)
      && (js.title.Some? ==> c.data.metadata == map["label" := js.title.value])
  {
    if DimensionIdList(js.dimension).Ok? {
      var ids := DimensionIdList(js.dimension).value;
      LoadedDimensionsFirstError(js.dimension, ids, |ids|);
    }
  }

  /** `to_cube`: load every dimension in `dimension.id` order, appending. */
  method ToCube(js: JsDataset) returns (r: Result<DataCube>)
    ensures r == CubeOf(js)
  {
    var metadata: map<string, string> := map[];
    if js.title.Some? {
      metadata := metadata["label" := js.title.value];
    }
    var ids := DimensionIdList(js.dimension);
    if ids.Err? {
      return Err(ids.error);
    }
    var dimensions: seq<Dimension> := [];
    for i := 0 to |ids.value|
      invariant LoadedDimensions(js.dimension, ids.value, i) == Ok(dimensions)
    {
      var d := LoadDimension(js.dimension, ids.value[i]);
      if d.Err? {
        LoadedDimensionsFail(js.dimension, ids.value, i, |ids.value|);
        return Err(d.error);
      }
      LoadedDimensionsStep(js.dimension, ids.value, i, dimensions, d.value);
      dimensions := dimensions + [d.value];
    }
    assert metadata == MetadataOf(js.title);
    r := Ok(DataCube(CubeData(metadata, dimensions, [ValueDimension("value", None, js.value)]), map[]));
  }

  /** One more id that loads extends the loaded prefix by its dimension. */
  lemma LoadedDimensionsStep(dims: JsDimensions, ids: seq<string>, i: nat, ds: seq<Dimension>, d: Dimension)
    requires i < |ids| && LoadedDimensions(dims, ids, i) == Ok(ds) && LoadedDimension(dims, ids[i]) == Ok(d)
    ensures LoadedDimensions(dims, ids, i + 1) == Ok(ds + [d])
  {
    assert Loads(dims, ids)[i] == Ok(d);
  }

  lemma LoadedDimensionsFail(dims: JsDimensions, ids: seq<string>, i: nat, n: nat)
    requires i < n <= |ids|
    requires LoadedDimensions(dims, ids, i).Ok? && LoadedDimension(dims, ids[i]).Err?
    ensures LoadedDimensions(dims, ids, n) == Err(LoadedDimension(dims, ids[i]).error)
  {
    CollectFail(Loads(dims, ids), i, n);
  }

  // ---------------------------------------------------------------------
  // Export: jsonstat_sanity_check, can_convert, to_jsonstat_dataset
  // ---------------------------------------------------------------------

  /** The specification entries that have `categories`, in order. */
  function CatDims(ds: seq<SpecDim>): (r: seq<SpecDim>)
    ensures forall k :: 0 <= k < |r| ==> r[k].CatDim?
    ensures forall d :: d in r <==> d in ds && d.CatDim?
  {
    if ds == [] then []
    else if ds[|ds| - 1].CatDim? then CatDims(ds[..|ds| - 1]) + [ds[|ds| - 1]]
    else CatDims(ds[..|ds| - 1])
  }

  /** The specification entries without `categories`: the value dimensions. */
  function ValDims(ds: seq<SpecDim>): (r: seq<SpecDim>)
    ensures forall d :: d in r <==> d in ds && d.ValDim?
    ensures |r| + |CatDims(ds)| == |ds|
  {
    if ds == [] then []
    else if ds[|ds| - 1].ValDim? then ValDims(ds[..|ds| - 1]) + [ds[|ds| - 1]]
    else ValDims(ds[..|ds| - 1])
  }

  /** `jsonstat_sanity_check`: a `ConversionError` unless there is exactly one value dimension. */
  function SanityCheck(spec: Spec): (r: Result<()>)
    ensures r.Ok? <==> |ValDims(spec.dimensions)| == 1
    ensures r.Err? ==> r.error == ConversionError
  {
    if |ValDims(spec.dimensions)| != 1 then Err(ConversionError) else Ok(())
  }

  /** `can_convert`: whether the sanity check passes. */
  function CanConvert(spec: Spec): (b: bool)
    ensures b <==> SanityCheck(spec).Ok?
  {
    SanityCheck(spec).Ok?
  }

  /** After the assignment `key` reads `v`; every other key reads as before. */
  lemma AssignGet(od: seq<(string, string)>, key: string, v: string, other: string)
    requires Distinct(Firsts(od))
    ensures Get(Assign(od, key, v), key) == Some(v)
    ensures other != key ==> Get(Assign(od, key, v), other) == Get(od, other)
  {
    var r := Assign(od, key, v);
    assert key in Firsts(r);
    if other != key {
      var a := Get(od, other);
      var b := Get(r, other);
      if b.Some? {
        var k' :| 0 <= k' < |r| && r[k'] == (other, b.value);
        assert k' < |od| && od[k'] == r[k'];
        assert other in Firsts(od);
        var k :| 0 <= k < |od| && od[k] == (other, a.value);
        assert Firsts(od)[k] == Firsts(od)[k'];
      }
    }
  }

  /** The `label` map built for a dimension's categories: labelled categories only. */
  function CatLabels(cats: seq<Category>): (od: seq<(string, string)>)
    ensures Distinct(Firsts(od))
    ensures forall x :: x in Firsts(od) <==> exists k :: 0 <= k < |cats| && cats[k].id == x && cats[k].title.Some?
  {
    if cats == [] then []
    else
      var pre := CatLabels(cats[..|cats| - 1]);
      var last := cats[|cats| - 1];
      assert forall k :: 0 <= k < |cats| - 1 ==> cats[..|cats| - 1][k] == cats[k];
      if last.title.Some? then Assign(pre, last.id, last.title.value) else pre
  }

  /** With unique category ids, the `label` map gives each labelled category its label. */
  /** Categories that share an id are the same category (label included). */
  predicate Consistent(cats: seq<Category>)
  {
    forall i, j :: 0 <= i < |cats| && 0 <= j < |cats| && cats[i].id == cats[j].id ==> cats[i] == cats[j]
  }

  lemma DistinctConsistent(cats: seq<Category>)
    requires Distinct(CatIds(cats))
    ensures Consistent(cats)
  {
  }

  /** When ids determine categories, the `label` map gives every category its own label. */
  lemma {:induction false} CatLabelsGet(cats: seq<Category>, k: nat)
    requires Consistent(cats) && k < |cats|
    ensures Get(CatLabels(cats), cats[k].id) == cats[k].title
  {
    var n := |cats| - 1;
    var pre := cats[..n];
    var last := cats[n];
    var od := CatLabels(pre);
    assert CatLabels(cats) == if last.title.Some? then Assign(od, last.id, last.title.value) else od;
    if cats[k].id == last.id {
      assert cats[k] == last;
      if last.title.Some? {
        AssignGet(od, last.id, last.title.value, last.id);
      } else {
        UnlabelledAbsent(pre, last);
      }
    } else {
      assert Consistent(pre) by {
        forall i, j | 0 <= i < n && 0 <= j < n && pre[i].id == pre[j].id ensures pre[i] == pre[j] {
          assert pre[i] == cats[i] && pre[j] == cats[j];
        }
      }
      CatLabelsGet(pre, k);
      if last.title.Some? {
        AssignGet(od, last.id, last.title.value, cats[k].id);
      }
    }
  }

  /** An unlabelled category whose id no labelled category shares has no key in the `label` map. */
  lemma UnlabelledAbsent(pre: seq<Category>, last: Category)
    requires last.title.None?
    requires forall i :: 0 <= i < |pre| && pre[i].id == last.id ==> pre[i] == last
    ensures Get(CatLabels(pre), last.id) == None
  {
  }

  /** The JSON-stat entry written for one categorical dimension of the specification. */
  function JsDimOf(d: SpecDim): JsDimension
    requires d.CatDim?
  {
    var od := CatLabels(d.categories);
    JsDimension(d.title, JsCategory(Some(IndexList(CatIds(d.categories))), if |od| > 0 then Some(od) else None))
  }

  /**
   * `dims[cdim['id']] = ...` for each categorical dimension, written into the
   * object that already holds `id` and `size`: a key written later replaces
   * whatever member it had.
   */
  function Entries(cdims: seq<SpecDim>, base: JsDimensions): JsDimensions
    requires forall k :: 0 <= k < |cdims| ==> cdims[k].CatDim?
  {
    if cdims == [] then base
    else Entries(cdims[..|cdims| - 1], base)[cdims[|cdims| - 1].id := Entry(JsDimOf(cdims[|cdims| - 1]))]
  }

  function SpecSizes(ds: seq<SpecDim>): (sizes: seq<nat>)
    requires forall k :: 0 <= k < |ds| ==> ds[k].CatDim?
    ensures |sizes| == |ds| && forall k :: 0 <= k < |ds| ==> sizes[k] == |ds[k].categories|
  {
    seq(|ds|, k requires 0 <= k < |ds| => |ds[k].categories|)
  }

  /** The `dimension` object of the export: `id` and `size` first, then one entry per dimension. */
  function DimensionObject(cdims: seq<SpecDim>): JsDimensions
    requires forall k :: 0 <= k < |cdims| ==> cdims[k].CatDim?
  {
    Entries(cdims, map["id" := IdList(SpecIds(cdims)), "size" := SizeList(SpecSizes(cdims))])
  }

  /** The dataset label copied from the metadata (`_copyif`). */
  function TitleOf(metadata: map<string, string>): Option<string>
  {
    if "label" in metadata then Some(metadata["label"]) else None
  }

  /**
   * `to_jsonstat_dataset` as a value. The cube is given by the specification
   * it presents and by the value column it reads out in row order.
   */
  function DatasetOf(spec: Spec, values: seq<Value>): Result<JsDataset>
  {
    var _ :- SanityCheck(spec);
    var cdims := CatDims(spec.dimensions);
    if |ValDims(spec.dimensions)| != 1 then Err(JsonstatException)
    else Ok(JsDataset(TitleOf(spec.metadata), DimensionObject(cdims), values))
  }

  /** With unique dimension ids, each dimension's key holds its own entry. */
  lemma {:induction false} EntriesAt(cdims: seq<SpecDim>, base: JsDimensions, k: nat)
    requires forall m :: 0 <= m < |cdims| ==> cdims[m].CatDim?
    requires Distinct(SpecIds(cdims)) && k < |cdims|
    ensures cdims[k].id in Entries(cdims, base) && Entries(cdims, base)[cdims[k].id] == Entry(JsDimOf(cdims[k]))
  {
    var n := |cdims| - 1;
    if k < n {
      var pre := cdims[..n];
      assert SpecIds(pre) == SpecIds(cdims)[..n];
      EntriesAt(pre, base, k);
      assert SpecIds(cdims)[k] != SpecIds(cdims)[n];
    }
  }

  /** The keys after the entries are written: the old ones and the dimension ids, which hold entries. */
  lemma {:induction false} EntriesKeys(cdims: seq<SpecDim>, base: JsDimensions)
    requires forall m :: 0 <= m < |cdims| ==> cdims[m].CatDim?
    ensures forall x :: x in Entries(cdims, base) <==> x in base || x in SpecIds(cdims)
    ensures forall x :: x in SpecIds(cdims) ==> Entries(cdims, base)[x].Entry?
    ensures forall x :: x in base && x !in SpecIds(cdims) ==> Entries(cdims, base)[x] == base[x]
  {
    if cdims != [] {
      var pre := cdims[..|cdims| - 1];
      EntriesKeys(pre, base);
      assert SpecIds(cdims) == SpecIds(pre) + [cdims[|cdims| - 1].id];
    }
  }

  /**
   * The `dimension` object written for `cdims`: its keys are `id`, `size` and
   * the dimension ids, and reading back its `id` gives the dimension ids
   * unless a dimension named `id` has put its entry there.
   */
  lemma DimensionObjectIds(obj: JsDimensions, cdims: seq<SpecDim>, ids: seq<string>)
    requires forall m :: 0 <= m < |cdims| ==> cdims[m].CatDim?
    requires obj == DimensionObject(cdims) && ids == SpecIds(cdims)
    ensures forall x :: x in obj <==> x == "id" || x == "size" || x in ids
    ensures DimensionIdList(obj) == if "id" in ids then Err(IntKeyError(0)) else Ok(ids)
  {
    EntriesKeys(cdims, map["id" := IdList(SpecIds(cdims)), "size" := SizeList(SpecSizes(cdims))]);
  }

  /**
   * The keys of an exported `dimension` object: `id`, `size` and the
   * dimension ids `ids`, each dimension id holding an entry. `id` holds the
   * list `ids` and `size` the list `sizes`, each unless a dimension of that
   * name has put its entry there.
   */
  ghost predicate ObjectShape(obj: JsDimensions, ids: seq<string>, sizes: seq<nat>)
  {
    && (forall x :: x in obj <==> x == "id" || x == "size" || x in ids)
    && (forall x :: x in ids ==> x in obj && obj[x].Entry?)
    && "id" in obj && "size" in obj
    && (obj["id"] == IdList(ids) <==> "id" !in ids)
    && (obj["size"] == SizeList(sizes) <==> "size" !in ids)
  }

  lemma DimensionObjectShape(cdims: seq<SpecDim>)
    requires forall m :: 0 <= m < |cdims| ==> cdims[m].CatDim?
    ensures ObjectShape(DimensionObject(cdims), SpecIds(cdims), SpecSizes(cdims))
  {
    EntriesKeys(cdims, map["id" := IdList(SpecIds(cdims)), "size" := SizeList(SpecSizes(cdims))]);
  }

  /**
   * What `to_jsonstat_dataset` writes: it succeeds exactly when `can_convert`
   * holds (its own `JsonstatException` can never fire); the value array and
   * label are the given ones, and the `dimension` object has the shape
   * above for the categorical ids and category counts, in order.
   */
  lemma DatasetOfContents(spec: Spec, values: seq<Value>)
    ensures DatasetOf(spec, values).Ok? <==> CanConvert(spec)
    ensures DatasetOf(spec, values) != Err(JsonstatException)
    ensures DatasetOf(spec, values).Ok? ==>
      var js := DatasetOf(spec, values).value;
      var cdims := CatDims(spec.dimensions);
      && js.value == values
      && js.title == TitleOf(spec.metadata)
      && ObjectShape(js.dimension, SpecIds(cdims), SpecSizes(cdims))
  {
    DimensionObjectShape(CatDims(spec.dimensions));
  }

  /**
   * The entry of one categorical dimension, when dimension ids are unique:
   * its label, its `index` of category ids, and a `label` map that is absent
   * iff no category is labelled and otherwise gives every labelled category
   * its own label, as long as no two different categories share an id.
   */
  lemma DatasetEntry(spec: Spec, values: seq<Value>, k: nat)
    requires CanConvert(spec)
    requires Distinct(SpecIds(CatDims(spec.dimensions))) && k < |CatDims(spec.dimensions)|
    ensures DatasetOf(spec, values).Ok?
    ensures CatDims(spec.dimensions)[k].id in DatasetOf(spec, values).value.dimension
    ensures var d := CatDims(spec.dimensions)[k];
      var m := DatasetOf(spec, values).value.dimension[d.id];
      && m.Entry?
      && m.entry.title == d.title
      && m.entry.category.index == Some(IndexList(CatIds(d.categories)))
      && (m.entry.category.labels.None? <==> forall j :: 0 <= j < |d.categories| ==> d.categories[j].title.None?)
      && (Consistent(d.categories) ==> forall j :: 0 <= j < |d.categories| ==>
            Get(LabelMap(m.entry.category), d.categories[j].id) == d.categories[j].title)
  {
    var cdims := CatDims(spec.dimensions);
    EntriesAt(cdims, map["id" := IdList(SpecIds(cdims)), "size" := SizeList(SpecSizes(cdims))], k);
    EntryLabels(cdims[k]);
  }

  /** The entry of a categorical dimension: no `label` map iff nothing is labelled; otherwise the labels. */
  lemma EntryLabels(d: SpecDim)
    requires d.CatDim?
    ensures JsDimOf(d).category.labels.None? <==> forall m :: 0 <= m < |d.categories| ==> d.categories[m].title.None?
    ensures Consistent(d.categories) ==> forall m :: 0 <= m < |d.categories| ==>
      Get(LabelMap(JsDimOf(d).category), d.categories[m].id) == d.categories[m].title
  {
    var od := CatLabels(d.categories);
    if |od| > 0 {
      assert od[0].0 in Firsts(od);
    }
    forall m | 0 <= m < |d.categories| && d.categories[m].title.Some?
      ensures |od| > 0
    {
      assert d.categories[m].id in Firsts(od);
    }
    if Consistent(d.categories) {
      forall m | 0 <= m < |d.categories| ensures Get(LabelMap(JsDimOf(d).category), d.categories[m].id) == d.categories[m].title {
        CatLabelsGet(d.categories, m);
      }
    }
  }

  /** `to_jsonstat_dataset`: the partition, `id` and `size`, then the entries, as the source does. */
  method ToJsonstatDataset(spec: Spec, values: seq<Value>) returns (r: Result<JsDataset>)
    ensures r == DatasetOf(spec, values)
  {
    var check := SanityCheck(spec);
    if check.Err? {
      return Err(check.error);
    }
    var cdims, vdims := Partition(spec.dimensions);
    var dims: JsDimensions := map[];
    dims := dims["id" := IdList(SpecIds(cdims))];
    dims := dims["size" := SizeList(SpecSizes(cdims))];
    if |vdims| != 1 {
      return Err(JsonstatException);
    }
    dims := BuildEntries(cdims, dims);
    r := Ok(JsDataset(TitleOf(spec.metadata), dims, values));
  }

  /** The second loop of `to_jsonstat_dataset`: each categorical dimension's entry under its id. */
  method BuildEntries(cdims: seq<SpecDim>, base: JsDimensions) returns (dims: JsDimensions)
    requires forall k :: 0 <= k < |cdims| ==> cdims[k].CatDim?
    ensures dims == Entries(cdims, base)
  {
    dims := base;
    for i := 0 to |cdims|
      invariant dims == Entries(cdims[..i], base)
    {
      EntriesSnoc(cdims, base, i);
      var entry := EntryFor(cdims[i]);
      dims := dims[cdims[i].id := Entry(entry)];
    }
    assert cdims[..|cdims|] == cdims;
  }

  lemma EntriesSnoc(cdims: seq<SpecDim>, base: JsDimensions, i: nat)
    requires forall k :: 0 <= k < |cdims| ==> cdims[k].CatDim?
    requires i < |cdims|
    ensures Entries(cdims[..i + 1], base) == Entries(cdims[..i], base)[cdims[i].id := Entry(JsDimOf(cdims[i]))]
  {
    assert cdims[..i + 1][..i] == cdims[..i];
  }

  /** The body of the second loop of `to_jsonstat_dataset`: the entry of one categorical dimension. */
  method EntryFor(d: SpecDim) returns (entry: JsDimension)
    requires d.CatDim?
    ensures entry == JsDimOf(d)
  {
    var ccats := d.categories;
    var catlabels := CategoryLabels(ccats);
    var category := JsCategory(Some(IndexList(CatIds(ccats))), if |catlabels| > 0 then Some(catlabels) else None);
    entry := JsDimension(d.title, category);
  }

  /** The first loop of `to_jsonstat_dataset`: dimensions with categories, and the rest. */
  method Partition(ds: seq<SpecDim>) returns (cdims: seq<SpecDim>, vdims: seq<SpecDim>)
    ensures cdims == CatDims(ds) && vdims == ValDims(ds)
  {
    cdims, vdims := [], [];
    for i := 0 to |ds|
      invariant cdims == CatDims(ds[..i]) && vdims == ValDims(ds[..i])
    {
      PartitionSnoc(ds, i);
      if ds[i].CatDim? {
        cdims := cdims + [ds[i]];
      } else {
        vdims := vdims + [ds[i]];
      }
    }
    assert ds[..|ds|] == ds;
  }

  lemma PartitionSnoc(ds: seq<SpecDim>, i: nat)
    requires i < |ds|
    ensures CatDims(ds[..i + 1]) == CatDims(ds[..i]) + (if ds[i].CatDim? then [ds[i]] else [])
    ensures ValDims(ds[..i + 1]) == ValDims(ds[..i]) + (if ds[i].CatDim? then [] else [ds[i]])
  {
    var pre := ds[..i + 1];
    assert pre[..|pre| - 1] == ds[..i] && pre[|pre| - 1] == ds[i];
  }

  /** The inner loop of `to_jsonstat_dataset`: skip unlabelled categories, assign the others. */
  method CategoryLabels(ccats: seq<Category>) returns (catlabels: seq<(string, string)>)
    ensures catlabels == CatLabels(ccats)
  {
    catlabels := [];
    for k := 0 to |ccats|
      invariant catlabels == CatLabels(ccats[..k])
    {
      assert ccats[..k + 1][..k] == ccats[..k];
      if ccats[k].title.None? {
        continue;
      }
      catlabels := Assign(catlabels, ccats[k].id, ccats[k].title.value);
    }
    assert ccats[..|ccats|] == ccats;
  }
}
