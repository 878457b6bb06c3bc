/**
 * The slug generator of the PC-Axis reader (`Sluger`) and the part of its
 * `to_cube` that names dimensions and categories. The PC-Axis file parser
 * itself is not part of this model: its title, its ordered `values` table
 * and the whitespace-split data are parameters.
 *
 * Characters are modelled as ASCII plus the letters of the translation
 * table: `lower()` folds `A`-`Z`, `Ä`, `Ö` and `Å`; `isalnum()` followed by
 * `encode('ascii', errors='ignore')` keeps exactly `[0-9a-zA-Z]`.
 */
module Pcaxis {
  import opened Common
  import opened Cube
  import opened SqlNames

  // ---------------------------------------------------------------------
  // default_translate
  // ---------------------------------------------------------------------

  /**
   * `default_translate = dict(zip(u"äöä -", u"aoa__"))`: the pairs in order,
   * the repeated `ä` entering twice with the same value.
   */
  const DEFAULT_TRANSLATE: map<char, char> := map['ä' := 'a', 'ö' := 'o', 'ä' := 'a', ' ' := '_', '-' := '_']

  /** What the default table does to each character. */
  lemma DefaultTranslateChars(c: char)
    ensures Translate(DEFAULT_TRANSLATE, c) ==
      if c == 'ä' then 'a' else if c == 'ö' then 'o' else if c == ' ' || c == '-' then '_' else c
  {
  }

  // ---------------------------------------------------------------------
  // The slug of a value
  // ---------------------------------------------------------------------

  function LowerChar(ch: char): char
  {
    if 'A' <= ch <= 'Z' then (ch as int - 'A' as int + 'a' as int) as char
    else if ch == 'Ä' then 'ä'
    else if ch == 'Ö' then 'ö'
    else if ch == 'Å' then 'å'
    else ch
  }

  /** `value.lower()`. */
  function Lower(s: string): (r: string)
    ensures |r| == |s| && forall i :: 0 <= i < |s| ==> r[i] == LowerChar(s[i])
  {
    seq(|s|, i requires 0 <= i < |s| => LowerChar(s[i]))
  }

  /** `translate.get(c, c)`. */
  function Translate(t: map<char, char>, c: char): char
  {
    if c in t then t[c] else c
  }

  /** The characters the slug keeps: `_`, and the alphanumerics that survive the ASCII encoding. */
  predicate Kept(c: char)
  {
    c == '_' || IsAlnum(c)
  }

  /** The `chars` list of `__call__` after the loop has seen `s`. */
  function SlugChars(t: map<char, char>, s: string): (r: string)
    ensures |r| <= |s|
    ensures forall i :: 0 <= i < |r| ==> Kept(r[i])
  {
    if s == [] then []
    else
      var c := Translate(t, s[|s| - 1]);
      SlugChars(t, s[..|s| - 1]) + (if Kept(c) then [c] else [])
  }

  /** The slug before the uniqueness loop: lowered, translated, and only `[0-9a-zA-Z_]` kept. */
  function Slug(t: map<char, char>, value: string): string
  {
    SlugChars(t, Lower(value))
  }

  /** Order is preserved: the slug of a concatenation is the concatenation of the slugs. */
  lemma {:induction false} SlugCharsAppend(t: map<char, char>, a: string, b: string)
    ensures SlugChars(t, a + b) == SlugChars(t, a) + SlugChars(t, b)
  {
    if b == [] {
      assert a + b == a;
    } else {
      var n := |b| - 1;
      assert (a + b)[..|a + b| - 1] == a + b[..n];
      SlugCharsAppend(t, a, b[..n]);
    }
  }

  /** One character contributes its translation when that is kept, and nothing otherwise. */
  lemma SlugCharsSingle(t: map<char, char>, c: char)
    ensures SlugChars(t, [c]) == if Kept(Translate(t, c)) then [Translate(t, c)] else []
  {
    assert [c][..0] == [];
  }

  lemma LowerAppend(a: string, b: string)
    ensures Lower(a + b) == Lower(a) + Lower(b)
  {
  }

  /**
   * The slug of a value is built character by character, in order: each
   * character is lowered, then translated, and kept exactly when the result
   * is `_` or alphanumeric.
   */
  lemma SlugOfAppend(t: map<char, char>, a: string, c: char)
    ensures Slug(t, a + [c]) ==
      Slug(t, a) + (var x := Translate(t, LowerChar(c)); if Kept(x) then [x] else [])
  {
    LowerAppend(a, [c]);
    SlugCharsAppend(t, Lower(a), Lower([c]));
    SlugCharsSingle(t, LowerChar(c));
    assert Lower([c]) == [LowerChar(c)];
  }

  /** Characters the default table produces are never upper case. */
  predicate SlugChar(c: char)
  {
    c == '_' || ('0' <= c <= '9') || ('a' <= c <= 'z')
  }

  /** With the default table every slug character is `_`, a digit or a lower-case ASCII letter. */
  lemma {:induction false} DefaultSlugChars(s: string)
    requires forall i :: 0 <= i < |s| ==> !('A' <= s[i] <= 'Z')
    ensures forall i :: 0 <= i < |SlugChars(DEFAULT_TRANSLATE, s)| ==> SlugChar(SlugChars(DEFAULT_TRANSLATE, s)[i])
  {
    if s != [] {
      DefaultTranslateChars(s[|s| - 1]);
      DefaultSlugChars(s[..|s| - 1]);
    }
  }

  /** Text made of `_`, digits and lower-case ASCII letters is its own slug under the default table. */
  lemma {:induction false} SlugCharsFixed(s: string)
    requires forall i :: 0 <= i < |s| ==> SlugChar(s[i])
    ensures SlugChars(DEFAULT_TRANSLATE, s) == s
  {
    if s != [] {
      DefaultTranslateChars(s[|s| - 1]);
      SlugCharsFixed(s[..|s| - 1]);
      assert s == s[..|s| - 1] + [s[|s| - 1]];
    }
  }

  lemma LowerFixed(s: string)
    requires forall i :: 0 <= i < |s| ==> SlugChar(s[i])
    ensures Lower(s) == s
  {
  }

  lemma LowerNoUpper(s: string)
    ensures forall i :: 0 <= i < |Lower(s)| ==> !('A' <= Lower(s)[i] <= 'Z')
  {
  }

  /**
   * With the default table a slug holds only `_`, digits and lower-case
   * letters, such text is its own slug, and so slugging twice changes
   * nothing.
   */
  lemma DefaultSlugIdempotent(value: string)
    ensures forall i :: 0 <= i < |Slug(DEFAULT_TRANSLATE, value)| ==> SlugChar(Slug(DEFAULT_TRANSLATE, value)[i])
    ensures Slug(DEFAULT_TRANSLATE, Slug(DEFAULT_TRANSLATE, value)) == Slug(DEFAULT_TRANSLATE, value)
  {
    LowerNoUpper(value);
    DefaultSlugChars(Lower(value));
    var s := Slug(DEFAULT_TRANSLATE, value);
    LowerFixed(s);
    SlugCharsFixed(s);
  }

  // ---------------------------------------------------------------------
  // The uniqueness loop
  // ---------------------------------------------------------------------

  function Underscores(n: nat): (r: string)
    ensures |r| == n && forall i :: 0 <= i < n ==> r[i] == '_'
  {
    seq(n, i requires 0 <= i < n => '_')
  }

  /** The entries of `given` at least `n` characters long. */
  function AtLeast(given: set<string>, n: nat): set<string>
  {
    set x | x in given && |x| >= n
  }

  /**
   * `while realslug in given_out: realslug += '_'`: the first of `s`,
   * `s_`, `s__`, ... that is not in `given`.
   */
  function FirstFree(s: string, given: set<string>): (r: string)
    ensures r !in given
    ensures |r| >= |s| && r == s + Underscores(|r| - |s|)
    ensures forall k :: 0 <= k < |r| - |s| ==> s + Underscores(k) in given
    decreases AtLeast(given, |s|)
  {
    if s in given then
      assert s in AtLeast(given, |s|) && s !in AtLeast(given, |s + "_"|);
      var r := FirstFree(s + "_", given);
      FirstFreeNext(s, given, r);
      r
    else
      assert s + Underscores(0) == s;
      s
  }

  lemma UnderscoresShift(s: string, k: nat)
    requires k > 0
    ensures s + Underscores(k) == (s + "_") + Underscores(k - 1)
  {
  }

  /** A taken `s` followed by the first free extension of `s_` is the first free extension of `s`. */
  lemma FirstFreeNext(s: string, given: set<string>, r: string)
    requires s in given
    requires |r| >= |s + "_"| && r == (s + "_") + Underscores(|r| - |s + "_"|)
    requires forall k :: 0 <= k < |r| - |s + "_"| ==> (s + "_") + Underscores(k) in given
    ensures |r| >= |s| && r == s + Underscores(|r| - |s|)
    ensures forall k :: 0 <= k < |r| - |s| ==> s + Underscores(k) in given
  {
    UnderscoresShift(s, |r| - |s|);
    assert s + Underscores(0) == s;
    forall k | 0 < k < |r| - |s|
      ensures s + Underscores(k) in given
    {
      UnderscoresShift(s, k);
    }
  }

  /** Nothing given out: a value's slug is never changed by the loop. */
  lemma FirstFreeEmpty(s: string)
    ensures FirstFree(s, {}) == s
  {
  }

  // ---------------------------------------------------------------------
  // Sluger
  // ---------------------------------------------------------------------

  /**
   * `Sluger`: a translation table and the set `given_out` that the
   * uniqueness loop consults. `__call__` reads `given_out` and never adds
   * to it.
   */
  class Sluger {
    var givenOut: set<string>
    const translate: map<char, char>

    constructor (translate: map<char, char>)
      ensures givenOut == {} && this.translate == translate
    {
      givenOut := {};
      this.translate := translate;
    }

    /** The character loop of `__call__`. */
    method SlugOf(value: string) returns (slug: string)
      ensures slug == Slug(translate, value)
    {
      var lowered := Lower(value);
      var chars: string := [];
      for i := 0 to |lowered|
        invariant chars == SlugChars(translate, lowered[..i])
      {
        assert lowered[..i + 1][..i] == lowered[..i];
        var c := Translate(translate, lowered[i]);
        if c == '_' {
          chars := chars + [c];
        }
        if IsAlnum(c) {
          chars := chars + [c];
        }
      }
      assert lowered[..|lowered|] == lowered;
      slug := chars;
    }

    /** `__call__(value)`: the slug, extended by `_` until it is not in `given_out`. */
    method Call(value: string) returns (realslug: string)
      ensures realslug == FirstFree(Slug(translate, value), givenOut)
    {
      var slug := SlugOf(value);
      realslug := slug;
      while realslug in givenOut
        invariant FirstFree(realslug, givenOut) == FirstFree(slug, givenOut)
        decreases AtLeast(givenOut, |realslug|)
      {
        assert realslug in AtLeast(givenOut, |realslug|) && realslug !in AtLeast(givenOut, |realslug + "_"|);
        realslug := realslug + "_";
      }
    }

    /** The evidently intended `__call__`: the slug handed out is recorded in `given_out`. */
    method CallRecorded(value: string) returns (realslug: string)
      modifies this
      ensures realslug == FirstFree(Slug(translate, value), old(givenOut))
      ensures givenOut == old(givenOut) + {realslug}
    {
      realslug := Call(value);
      givenOut := givenOut + {realslug};
    }
  }

  // ---------------------------------------------------------------------
  // to_cube
  // ---------------------------------------------------------------------

  /** `{'id': cat_sluger(c), 'label': c}` for a fresh sluger, whose `given_out` stays empty. */
  function PxCategory(text: string): Category
  {
    Category(Slug(DEFAULT_TRANSLATE, text), Some(text))
  }

  function PxCategoryList(labels: seq<string>): (cats: seq<Category>)
    ensures |cats| == |labels| && forall k :: 0 <= k < |labels| ==> cats[k] == PxCategory(labels[k])
  {
    seq(|labels|, k requires 0 <= k < |labels| => PxCategory(labels[k]))
  }

  /** The category list of one dimension, built with its own sluger. */
  method PxCategories(labels: seq<string>) returns (cats: seq<Category>)
    ensures cats == PxCategoryList(labels)
  {
    var catSluger := new Sluger(DEFAULT_TRANSLATE);
    cats := [];
    for k := 0 to |labels|
      invariant catSluger.givenOut == {} && catSluger.translate == DEFAULT_TRANSLATE
      invariant |cats| == k && forall j :: 0 <= j < k ==> cats[j] == PxCategory(labels[j])
    {
      var id := catSluger.Call(labels[k]);
      FirstFreeEmpty(Slug(DEFAULT_TRANSLATE, labels[k]));
      cats := cats + [Category(id, Some(labels[k]))];
    }
  }

  /** Every category keeps its text as its label and gets the slug of that text as its id, in order. */
  lemma PxCategoriesContents(labels: seq<string>)
    ensures |PxCategoryList(labels)| == |labels|
    ensures forall k :: 0 <= k < |labels| ==>
      && PxCategoryList(labels)[k].title == Some(labels[k])
      && PxCategoryList(labels)[k].id == Slug(DEFAULT_TRANSLATE, labels[k])
      && (forall i :: 0 <= i < |PxCategoryList(labels)[k].id| ==> SlugChar(PxCategoryList(labels)[k].id[i]))
  {
    forall k | 0 <= k < |labels|
      ensures forall i :: 0 <= i < |Slug(DEFAULT_TRANSLATE, labels[k])| ==> SlugChar(Slug(DEFAULT_TRANSLATE, labels[k])[i])
    {
      DefaultSlugIdempotent(labels[k]);
    }
  }

  /** The slug of `'value'` is `value`. */
  lemma ValueSlug()
    ensures Slug(DEFAULT_TRANSLATE, "value") == "value"
  {
    SlugCharsFixed("value");
    LowerFixed("value");
  }

  /** A dimension of `px.values`: its slug as id, its text as label, and its categories. */
  function PxDimension(entry: (string, seq<string>)): Dimension
  {
    Dimension(Slug(DEFAULT_TRANSLATE, entry.0), Some(entry.0), PxCategoryList(entry.1))
  }

  function PxDimensionList(values: seq<(string, seq<string>)>): (dims: seq<Dimension>)
    ensures |dims| == |values| && forall k :: 0 <= k < |values| ==> dims[k] == PxDimension(values[k])
  {
    seq(|values|, k requires 0 <= k < |values| => PxDimension(values[k]))
  }

  function Texts(data: seq<string>): (vs: seq<Value>)
    ensures |vs| == |data| && forall k :: 0 <= k < |data| ==> vs[k] == VStr(data[k])
  {
    seq(|data|, k requires 0 <= k < |data| => VStr(data[k]))
  }

  /** The cube `to_cube` builds from a parsed PC-Axis file. */
  function PxCubeOf(title: string, values: seq<(string, seq<string>)>, data: seq<string>): DataCube
  {
    DataCube(CubeData(map["label" := title], PxDimensionList(values),
      [ValueDimension(Slug(DEFAULT_TRANSLATE, "value"), None, Texts(data))]), map[])
  }

  /**
   * `to_cube(pcaxis_data)` from the parsed title, the ordered `values`
   * table and the whitespace-split data: one dimension per table entry in
   * order, named through one sluger shared by the dimensions, and one value
   * dimension holding the data as text.
   */
  method PxToCube(title: string, values: seq<(string, seq<string>)>, data: seq<string>) returns (c: DataCube)
    ensures c == PxCubeOf(title, values, data)
  {
    var metadata := map["label" := title];
    var dimensions: seq<Dimension> := [];
    var dimSluger := new Sluger(DEFAULT_TRANSLATE);
    for k := 0 to |values|
      invariant dimSluger.givenOut == {} && dimSluger.translate == DEFAULT_TRANSLATE
      invariant |dimensions| == k && forall j :: 0 <= j < k ==> dimensions[j] == PxDimension(values[j])
    {
      var categories := PxCategories(values[k].1);
      var id := dimSluger.Call(values[k].0);
      FirstFreeEmpty(Slug(DEFAULT_TRANSLATE, values[k].0));
      dimensions := dimensions + [Dimension(id, Some(values[k].0), categories)];
    }
    var valueId := dimSluger.Call("value");
    FirstFreeEmpty(Slug(DEFAULT_TRANSLATE, "value"));
    c := DataCube(CubeData(metadata, dimensions, [ValueDimension(valueId, None, Texts(data))]), map[]);
  }

  /**
   * The cube of a PC-Axis file: its title as the `label` metadata, one
   * dimension per table entry in order with the entry's slug as id, and a
   * single value dimension `value` holding the data unchanged.
   */
  lemma PxCubeContents(title: string, values: seq<(string, seq<string>)>, data: seq<string>)
    ensures var c := PxCubeOf(title, values, data);
      && c.filters == map[] && c.data.metadata == map["label" := title]
      && |c.data.dimensions| == |values|
      && (forall k :: 0 <= k < |values| ==>
            c.data.dimensions[k].id == Slug(DEFAULT_TRANSLATE, values[k].0)
            && c.data.dimensions[k].title == Some(values[k].0)
            && CatIds(c.data.dimensions[k].categories) == SlugList(values[k].1))
      && c.data.valueDimensions == [ValueDimension("value", None, Texts(data))]
  {
    ValueSlug();
    forall k | 0 <= k < |values|
      ensures CatIds(PxCategoryList(values[k].1)) == SlugList(values[k].1)
    {
    }
  }

  function SlugList(labels: seq<string>): (ids: seq<string>)
    ensures |ids| == |labels| && forall k :: 0 <= k < |labels| ==> ids[k] == Slug(DEFAULT_TRANSLATE, labels[k])
  {
    seq(|labels|, k requires 0 <= k < |labels| => Slug(DEFAULT_TRANSLATE, labels[k]))
  }

  // ---------------------------------------------------------------------
  // Repeated slugs
  // ---------------------------------------------------------------------

  /** The default slug of `a`, followed by one separator, followed by `b`. */
  lemma SlugOfSeparated(sep: char)
    requires sep == ' ' || sep == '-'
    ensures Slug(DEFAULT_TRANSLATE, ['a', sep, 'b']) == "a_b"
  {
    DefaultTranslateChars('a');
    DefaultTranslateChars(sep);
    DefaultTranslateChars('b');
    SlugOfAppend(DEFAULT_TRANSLATE, [], 'a');
    SlugOfAppend(DEFAULT_TRANSLATE, ['a'], sep);
    SlugOfAppend(DEFAULT_TRANSLATE, ['a', sep], 'b');
    assert [] + ['a'] == ['a'] && ['a'] + [sep] == ['a', sep] && ['a', sep] + ['b'] == ['a', sep, 'b'];
  }

  /** Two different category texts of one dimension get the same id, `a_b`. */
  lemma DuplicateCategoryIds()
    ensures CatIds(PxCategoryList(["a b", "a-b"])) == ["a_b", "a_b"]
    ensures !Distinct(CatIds(PxCategoryList(["a b", "a-b"])))
  {
    SlugOfSeparated(' ');
    SlugOfSeparated('-');
    assert "a b" == ['a', ' ', 'b'] && "a-b" == ['a', '-', 'b'];
    var ids := CatIds(PxCategoryList(["a b", "a-b"]));
    assert ids[0] == ids[1];
  }

  /**
   * The ids the recording sluger hands out for `labels`, in order, when
   * `given` were handed out before.
   */
  function RecordedSlugs(t: map<char, char>, labels: seq<string>, given: set<string>): (ids: seq<string>)
    ensures |ids| == |labels|
    ensures Distinct(ids)
    ensures forall k :: 0 <= k < |ids| ==> ids[k] !in given
  {
    if labels == [] then []
    else
      var first := FirstFree(Slug(t, labels[0]), given);
      var rest := RecordedSlugs(t, labels[1..], given + {first});
      assert forall k :: 0 <= k < |rest| ==> rest[k] != first;
      [first] + rest
  }

  /** The ids handed out are the values' slugs, each extended by as few `_` as keep it new. */
  lemma {:induction false} RecordedSlugsExtend(t: map<char, char>, labels: seq<string>, given: set<string>, k: nat)
    requires k < |labels|
    ensures var id := RecordedSlugs(t, labels, given)[k];
      var slug := Slug(t, labels[k]);
      |id| >= |slug| && id == slug + Underscores(|id| - |slug|)
  {
    if k > 0 {
      var first := FirstFree(Slug(t, labels[0]), given);
      RecordedSlugsExtend(t, labels[1..], given + {first}, k - 1);
    }
  }

  lemma RecordedSlugsStep(t: map<char, char>, labels: seq<string>, k: nat, given: set<string>)
    requires k < |labels|
    ensures RecordedSlugs(t, labels[k..], given) ==
      [FirstFree(Slug(t, labels[k]), given)] + RecordedSlugs(t, labels[k + 1..], given + {FirstFree(Slug(t, labels[k]), given)})
  {
    assert labels[k..][1..] == labels[k + 1..];
  }

  /** The category list of one dimension with the recording sluger. */
  function PxCategoryListRecorded(labels: seq<string>): (cats: seq<Category>)
    ensures |cats| == |labels|
    ensures Distinct(CatIds(cats))
    ensures forall k :: 0 <= k < |labels| ==> cats[k].title == Some(labels[k])
  {
    var ids := RecordedSlugs(DEFAULT_TRANSLATE, labels, {});
    var cats := seq(|labels|, k requires 0 <= k < |labels| => Category(ids[k], Some(labels[k])));
    assert CatIds(cats) == ids;
    cats
  }

  /** One step of the recording loop: the next id is the head of the ids still to come. */
  lemma RecordedNext(all: seq<string>, labels: seq<string>, k: nat, given: set<string>, id: string)
    requires |all| == |labels| && k < |labels|
    requires all[k..] == RecordedSlugs(DEFAULT_TRANSLATE, labels[k..], given)
    requires id == FirstFree(Slug(DEFAULT_TRANSLATE, labels[k]), given)
    ensures all[k] == id
    ensures all[k + 1..] == RecordedSlugs(DEFAULT_TRANSLATE, labels[k + 1..], given + {id})
  {
    RecordedSlugsStep(DEFAULT_TRANSLATE, labels, k, given);
    assert all[k + 1..] == all[k..][1..];
  }

  lemma RecordedCategories(labels: seq<string>, cats: seq<Category>, all: seq<string>)
    requires all == RecordedSlugs(DEFAULT_TRANSLATE, labels, {})
    requires |cats| == |labels| && forall j :: 0 <= j < |labels| ==> cats[j] == Category(all[j], Some(labels[j]))
    ensures cats == PxCategoryListRecorded(labels)
  {
  }

  /** With a recording sluger every category of a dimension gets its own id. */
  method PxCategoriesRecorded(labels: seq<string>) returns (cats: seq<Category>)
    ensures cats == PxCategoryListRecorded(labels)
  {
    var catSluger := new Sluger(DEFAULT_TRANSLATE);
    ghost var all := RecordedSlugs(DEFAULT_TRANSLATE, labels, {});
    cats := [];
    for k := 0 to |labels|
      invariant catSluger.translate == DEFAULT_TRANSLATE
      invariant |cats| == k && forall j :: 0 <= j < k ==> cats[j] == Category(all[j], Some(labels[j]))
      invariant all[k..] == RecordedSlugs(DEFAULT_TRANSLATE, labels[k..], catSluger.givenOut)
    {
      ghost var given := catSluger.givenOut;
      var id := catSluger.CallRecorded(labels[k]);
      RecordedNext(all, labels, k, given, id);
      cats := cats + [Category(id, Some(labels[k]))];
    }
    RecordedCategories(labels, cats, all);
  }
}
