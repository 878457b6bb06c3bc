# pydatacube in Dafny

A Dafny model of the core of pydatacube, a small Python library for
statistical data cubes. A cube has categorical dimensions, each a list of
categories with an id and an optional label, and value dimensions, each a
flat list of payloads. Payloads are laid out in row-major order with the
last dimension fastest. The model covers:

- **The dense in-memory engine** (`pydatacube/pydatacube.py`).
  - Strides ("magnitudes") via `cumprod`, the flat index, and the index tables.
  - `filter`, which extends an existing restriction on a dimension.
  - The enabled ranges, `__len__`, row iteration and `specification`.
  - `dimension_ids` and `materialize`.
- **The older engine at the repository root** (`pydatacube.py`). It has a
  single flat `values` list. The model proves that it yields the same rows
  as the newer engine.
- **JSON-stat conversion** (`pydatacube/jsonstat.py` and the older `jsonstat.py`).
  - Import through `_load_dimension` and `to_cube`.
  - Export through `jsonstat_sanity_check`, `can_convert` and
    `to_jsonstat_dataset`.
  - The round trip between export and import.
- **The pure parts of the SQL-backed cube** (`pydatacube/sql/__init__.py`).
  - Identifier checks and cleanup.
  - `filter`, which overwrites the restriction on a dimension.
  - The WHERE clause, and the argument list and placeholders of the row-ids query.
  - The filtered specification.
  - `group_by`, `__iter_groups` and `group_for`.
  - The collapse step of `toColumns`.
  - The naming and column rules of `FromCube`, and the two CSV row readers
    it streams the cube through.
- **The PC-Axis slug generator** (`pydatacube/pcaxis/__init__.py`): the
  `Sluger` class and the naming rules of `to_cube`.

Modules, one per file:

| file | module | what it holds |
|---|---|---|
| common.dfy | Common | `Result`/`Option`, payload values, Python negative indexing, `Product`, last-wins lookup |
| flat_index.dfy | FlatIndex | `cumprod`, magnitudes, flat index and its inverse, Cartesian product |
| cube.dfy | Cube | the dense `_DataCube`: index tables, `filter`, enabled ranges, `__len__`, rows, `specification` |
| legacy_cube.dfy | LegacyCube | the root `pydatacube.py` engine and its agreement with `Cube` |
| jsonstat.dfy | Jsonstat | JSON-stat datasets as records; import and export |
| jsonstat_roundtrip.dfy | JsonstatRoundTrip | export then import, for filtered and unfiltered cubes |
| legacy_jsonstat.dfy | LegacyJsonstat | the root `jsonstat.py` reader and its agreement with `Jsonstat` |
| sql_names.dfy | SqlNames | `verify_sql_name`, `sql_name_cleanup`, table names |
| sql_text.dfy | SqlText | `%` counting in the fixed SQL text |
| sql_filter.dfy | SqlFilter | SQL `filter`, WHERE clause, `verify_sql_name` over a list |
| sql_rows.dfy | SqlRows | `_get_row_ids_query`: its checks in order, its text and arguments |
| sql_spec.dfy | SqlSpec | filtered specification, grouping, `toColumns` collapse |
| sql_load.dfy | SqlLoad | `FromCube` plan, surrogate mappings, `CubeCsv` / `CubeMappingCsv` |
| pcaxis.dfy | Pcaxis | `Sluger` and the ids PC-Axis `to_cube` gives |

How the Python side is modelled:

- **Python dicts.** A dict the code looks keys up in, such as
  `_dim_indices` or `_cat_indices`, is an index table whose last duplicate
  wins, through `LastIndexOf`. A dict whose keys the code walks is a keyed
  sequence in insertion order, such as the SQL `_filters` or a JSON-stat label map.
  A JSON object is read as the parsed dict holds it (`ObjectKeys`, `ObjectItems`):
  a repeated key is listed once, at its first occurrence, with the value given last.
- **The dense cube** is never mutated after construction: `filter` builds a
  new one. So it is a datatype value holding the data and the filters. The
  loops that build its tables are methods, each proved equal to a
  specification function.
- **Exceptions** (`KeyError` for a string key, `KeyError` for an int key such as
  `0`, `IndexError`, `ValueError`, `TypeError`, `InvalidIdentifier`,
  `ConversionError`) are `Err` values of `Result`.
- **The JSON-stat `dimension` object** is one dict. Its `id` and `size` lists
  and the per-dimension entries share one key space, so a dimension named `id`
  or `size` overwrites that list.
- **Category labels.** The label of a category or dimension is the field
  `title`, because `label` is a Dafny keyword.

## Model

| member | source | states |
|---|---|---|
| Common.PyIndex | pydatacube/pydatacube.py:77-80 | Python list indexing: succeeds exactly for `-len <= i < len`, negative indices count from the end |
| Common.LastIndexOf | pydatacube/pydatacube.py:33-38 | a dict built from `(key, i)` pairs keeps the last occurrence: absent iff not in the list, otherwise the last position holding the key |
| Common.LastIndexOfDistinct | pydatacube/pydatacube.py:33-38 | with distinct ids the index table maps each id to its own position |
| Common.ProductSnoc | pydatacube/pydatacube.py:134-139 | the running product of `__len__` gains one factor per step |
| Common.Range | pydatacube/pydatacube.py:107 | `range(n)` is `0, 1, …, n-1` |
| FlatIndex.CumProd | pydatacube/pydatacube.py:5-9 | same length as the input, `cum[0] = vals[0]`, `cum[k] = vals[k] * cum[k-1]` |
| FlatIndex.CumProdIsPrefixProduct | pydatacube/pydatacube.py:5-9 | `cum[k]` is the product of `vals[0..k]` |
| FlatIndex.CumProdLoop | pydatacube/pydatacube.py:5-9 | the appending loop computes exactly `CumProd` |
| FlatIndex.Magnitudes | pydatacube/pydatacube.py:11-12 | length of `sizes` (1 for empty sizes), last entry 1, `mag[i] = sizes[i+1] * mag[i+1]` |
| FlatIndex.MagnitudeSteps | pydatacube/pydatacube.py:11-12 | the composition `cumprod((sizes[1:]+[1])[::-1])[::-1]` has last entry 1 and the stride recurrence |
| FlatIndex.MagnitudeIsSuffixProduct | pydatacube.py:10-11 | each magnitude is the product of all sizes to its right |
| FlatIndex.FlatIsOffset | pydatacube/pydatacube.py:87-88 | `sum(i*m for i, m in zip(indices, magnitudes))` equals the row-major offset |
| FlatIndex.OffsetBound | pydatacube/pydatacube.py:87-88 | an in-range coordinate tuple has its offset below the product of sizes |
| FlatIndex.Unflatten | pydatacube/pydatacube.py:87-88 | inverse direction: every offset below the product comes from an in-range tuple with that offset |
| FlatIndex.UnflattenOffset | pydatacube/pydatacube.py:87-88 | unflattening the offset of an in-range tuple gives the tuple back |
| FlatIndex.FlatIndexBound | pydatacube/pydatacube.py:87-88 | `_flatindex` of an in-range tuple lies in `[0, product(sizes))` |
| FlatIndex.FlatIndexInjective | pydatacube/pydatacube.py:87-88 | distinct in-range tuples get distinct flat indices |
| FlatIndex.FlatIndexOnto | pydatacube/pydatacube.py:87-88 | every flat index below the product is hit by an in-range tuple |
| FlatIndex.Cartesian | pydatacube/pydatacube.py:93 | `itertools.product` yields the product of the list lengths many tuples |
| FlatIndex.CartesianAt | pydatacube/pydatacube.py:93 | the k-th tuple picks from each list the entry at the k-th row-major coordinate, last list fastest |
| FlatIndex.GridEnumeration | pydatacube/pydatacube.py:90-94 | `product(range(s_0), …)` lists in-range tuples in flat-index order: the k-th has flat index k and every in-range tuple appears at its flat index |
| Cube.IndexTable | pydatacube/pydatacube.py:37-38 | `{c['id']: i}` holds exactly the ids, each mapped to its last position |
| Cube.CatIndices | pydatacube/pydatacube.py:35-38 | the per-dimension category tables cover exactly the dimension ids and agree with the category lookup |
| Cube.BuildCategoryIndices | pydatacube/pydatacube.py:35-38 | the filling loop builds exactly those tables |
| Cube.IndexTablesOfUniqueIds | pydatacube/pydatacube.py:33-38 | with unique ids, dimension and category lookups return their own positions |
| Cube.Resolve | pydatacube/pydatacube.py:115 | category ids resolve iff every one is known, to their indices in order |
| Cube.FilterStep | pydatacube/pydatacube.py:113-120 | one keyword succeeds iff its dimension and all its categories are known |
| Cube.FilterKeyword | pydatacube/pydatacube.py:113-120 | the loop body for one keyword computes `FilterStep` |
| Cube.Filter | pydatacube/pydatacube.py:110-123 | the keyword loop computes the filter fold; the receiver is a value and stays unchanged |
| Cube.FilterOne | pydatacube/pydatacube.py:110-123 | filtering by one keyword succeeds iff that keyword resolves |
| Cube.FilterSucceedsIff | pydatacube/pydatacube.py:110-123 | `filter` succeeds iff every keyword resolves; otherwise it fails at the first keyword that does not, with `KeyError` of its dimension id when that is unknown, else of its first unknown category id |
| Cube.FilterExtends | pydatacube/pydatacube.py:117-120 | data untouched; each named dimension's list is its prior list extended by the resolved indices; other dimensions keep their lists |
| Cube.FilterKeepsValid | pydatacube/pydatacube.py:110-123 | a filtered cube's lists index existing categories of existing dimensions |
| Cube.FilterCommutes | pydatacube/pydatacube.py:110-123 | filters on different dimensions commute |
| Cube.FilterThen | pydatacube/pydatacube.py:117-120 | two successive filters on different dimensions give both extensions |
| Cube.FilterSingle | pydatacube/pydatacube.py:117-120 | the result of one keyword, written out |
| Cube.FilterTwiceRepeats | pydatacube/pydatacube.py:117-120 | filtering twice by the same categories appends them twice, so the cube changes (extend, not overwrite) |
| Cube.EnabledDimRanges | pydatacube/pydatacube.py:101-108 | a filtered dimension gets its stored list, an unfiltered one `range(size)` |
| Cube.Len | pydatacube/pydatacube.py:134-139 | `__len__` is the product of the enabled range lengths and equals the number of tuples `__iter__` yields |
| Cube.TuplesInRange | pydatacube/pydatacube.py:90-94 | every tuple a well-filtered cube iterates over is in range |
| Cube.UnfilteredTuples | pydatacube/pydatacube.py:90-94 | without filters iteration visits all `product(sizes)` tuples with the k-th at flat index k |
| Cube.DimensionAt | pydatacube/pydatacube.py:77-80 | an index is Python list indexing; an id succeeds iff some dimension has it, selecting the last such dimension, and fails with `KeyError(id)` otherwise |
| Cube.DimensionRefsAgree | pydatacube/pydatacube.py:77-80 | with unique ids, a dimension's index and its id select the same dimension |
| Cube.CategoryLabel | pydatacube/pydatacube.py:77-85 | the dimension lookup's error is passed on; the category index succeeds iff `-len <= i < len`, counting negative indices from the end, else `IndexError`; the result is the category's label when present, its id otherwise |
| Cube.RowContents | pydatacube/pydatacube.py:19-25 | a row of a dense cube is one label per coordinate, then `values[flatindex]` of each value dimension in order |
| Cube.RowsOk | pydatacube/pydatacube.py:90-94 | every row a well-filtered dense cube yields is well formed and is the row of the k-th tuple |
| Cube.SpecDims | pydatacube/pydatacube.py:57-74 | the specification lists one entry per dimension, then one per value dimension without values |
| Cube.SpecContents | pydatacube/pydatacube.py:54-75 | metadata copied, `length = len(self)`; each dimension keeps id and label and lists its enabled categories in enabled order; value dimensions keep id and label only |
| Cube.SpecValueEntry | pydatacube/pydatacube.py:69-74 | the entry after the categorical ones is the value dimension without values |
| Cube.UnfilteredSpecKeepsCategories | pydatacube/pydatacube.py:54-66 | without filters each dimension's entry lists all its categories |
| Cube.CategoricalSpecs | pydatacube/pydatacube.py:57-66 | the outer loop builds one entry per dimension |
| Cube.ValueSpecs | pydatacube/pydatacube.py:68-74 | the value loop builds one entry per value dimension |
| Cube.Specification | pydatacube/pydatacube.py:54-75 | the method computes the specification function |
| Cube.DimensionIds | pydatacube/pydatacube.py:96-99 | categorical ids in order, then value dimension ids |
| Cube.Materialize | pydatacube/pydatacube.py:45-48 | returns the cube iff it has no filters, fails with `TypeError` otherwise (`raise NotImplemented(...)` calls a non-callable) |
| Cube.MaterializeRejectsFiltered | pydatacube/pydatacube.py:45-48 | any successful non-empty filter makes `materialize` fail |
| Jsonstat.Get | pydatacube/jsonstat.py:36-37 | a label lookup is absent iff the key is not in the map, and returns a label stored under it |
| Jsonstat.SortPairsSorted | pydatacube/jsonstat.py:22-23 | `items.sort()` gives a sorted permutation |
| Jsonstat.ObjectKeys | pydatacube/jsonstat.py:19 | the keys of a parsed JSON object: each key once, exactly the keys of the document, and the document's own list when it repeats none |
| Jsonstat.ObjectItemsLast | pydatacube/jsonstat.py:22 | each item of a parsed object is the last pair of the document with its key |
| Jsonstat.CategoryIdsOrder | pydatacube/jsonstat.py:15-24 | ids follow the index list; a position object is sorted by position, its keys each once with their last position; without index the label keys are used, each once; an empty position object raises `IndexError`, no index and no label `KeyError` |
| Jsonstat.RepeatedLabelKey | pydatacube/jsonstat.py:15-38 | a `label` object repeating key `a` (values `A`, then `B`) gives one category `a` labelled `B` |
| Jsonstat.CategoriesOf | pydatacube/jsonstat.py:33-38 | one category per id, labelled iff the id is in the label map |
| Jsonstat.DimensionIdList | pydatacube/jsonstat.py:8-11 | reading `dimension['id']` succeeds iff the key exists and holds an id list (or an empty list of sizes), gives that list, and fails with `KeyError(0)` when a dimension entry stands there |
| Jsonstat.LoadedDimensionContents | pydatacube/jsonstat.py:8-42 | succeeds iff the id names a dimension entry whose category ids can be read, `TypeError` for a member that is a list; id copied, label copied iff present, categories in id order, labelled iff their id has a label |
| Jsonstat.LoadDimension | pydatacube/jsonstat.py:8-42 | the method computes the loaded dimension |
| Jsonstat.LoadCategories | pydatacube/jsonstat.py:26-38 | the loop builds the category list |
| Jsonstat.LoadedDimensions | pydatacube/jsonstat.py:54-56 | all dimensions named in the `dimension.id` list load iff each does, in that order |
| Jsonstat.LoadedDimensionsFirstError | pydatacube/jsonstat.py:54-56 | a failure of the loading loop is the error of the first dimension id that does not load, all earlier ones loading |
| Jsonstat.CubeOfContents | pydatacube/jsonstat.py:44-62 | fails with the error of reading `dimension.id` when that fails, else with the error of the first dimension that does not load; otherwise dimensions in `dimension.id` order, one value dimension `value` holding the `value` array, metadata `label` iff present, no filters |
| Jsonstat.ToCube | pydatacube/jsonstat.py:44-62 | the method computes the import |
| Jsonstat.CatDims | pydatacube/jsonstat.py:92-96 | the categorical entries of a specification |
| Jsonstat.ValDims | pydatacube/jsonstat.py:67 | the value entries; together with the categorical ones they account for every entry |
| Jsonstat.SanityCheck | pydatacube/jsonstat.py:66-69 | passes iff there is exactly one value dimension, else `ConversionError` |
| Jsonstat.CanConvert | pydatacube/jsonstat.py:71-76 | true iff the sanity check passes |
| Common.Assign | pydatacube/jsonstat.py:113 | assigning into a dict kept as its items keeps the key order and appends a new key |
| Jsonstat.AssignGet | pydatacube/jsonstat.py:113 | after assignment the key reads the new value and other keys are unchanged |
| Jsonstat.CatLabels | pydatacube/jsonstat.py:109-113 | the label map has distinct keys, exactly the ids of labelled categories |
| Jsonstat.CatLabelsGet | pydatacube/jsonstat.py:109-113 | with consistent categories, each category's id reads back its own label |
| Jsonstat.DatasetOfContents | pydatacube/jsonstat.py:82-119 | succeeds iff convertible, never raises `JsonstatException`; `value` kept, `label` copied; the one `dimension` dict has the keys `id`, `size` and the categorical ids, each id holding an entry, and `id`/`size` hold the id and count lists exactly when no dimension of that name overwrote them |
| Jsonstat.DimensionObjectShape | pydatacube/jsonstat.py:97-104 | that shape of the `dimension` dict, for any categorical entries |
| Jsonstat.DimensionObjectIds | pydatacube/jsonstat.py:97-104 | keys `id`, `size` and the ids; reading its `id` back gives the ids, or `KeyError(0)` when a dimension is named `id` |
| Jsonstat.DatasetEntry | pydatacube/jsonstat.py:103-115 | each entry copies the label, indexes the category ids in order, has `label` iff some category is labelled, and maps each id to its label |
| Jsonstat.EntryLabels | pydatacube/jsonstat.py:105-115 | the label map is omitted iff no category is labelled and reads back each category's label |
| Jsonstat.ToJsonstatDataset | pydatacube/jsonstat.py:82-119 | the method computes the export |
| Jsonstat.BuildEntries | pydatacube/jsonstat.py:103-115 | the loop builds the per-dimension entries |
| Jsonstat.Partition | pydatacube/jsonstat.py:92-96 | the loop splits the specification into categorical and value entries |
| Jsonstat.CategoryLabels | pydatacube/jsonstat.py:109-113 | the loop builds the label map |
| JsonstatRoundTrip.ExportedDims | pydatacube/jsonstat.py:82-119 | a cube with one value dimension exports as its label, the `dimension` dict of its categorical entries and the value column |
| JsonstatRoundTrip.ExportedDataset | pydatacube/jsonstat.py:82-119 | a cube with one value dimension exports, with its title, the value column and `dimension` keys `id`, `size` and the dimension ids |
| JsonstatRoundTrip.ExportedIds | pydatacube/jsonstat.py:97-104 | the ids read back from an export are the dimension ids, or `KeyError(0)` when a dimension is named `id` |
| JsonstatRoundTrip.ReloadDimension | pydatacube/jsonstat.py:8-42 | reading an exported dimension back by its id gives the dimension restricted to its enabled categories |
| JsonstatRoundTrip.ExportReload | pydatacube/jsonstat.py:44-119 | importing the export of a well-filtered dense cube gives the materialised cube iff no dimension is named `id`, and fails with `KeyError(0)` otherwise |
| JsonstatRoundTrip.RoundTrip | pydatacube/tests/test_jsonstat.py:18-24 | for an unfiltered cube in `to_cube`'s shape, `to_cube(to_jsonstat_dataset(cube))` is the cube itself iff no dimension is named `id`, else `KeyError(0)` |
| JsonstatRoundTrip.ReloadedLength | pydatacube/pydatacube.py:134-139 | the reloaded cube has the same length as the filtered one |
| JsonstatRoundTrip.ReloadedRows | pydatacube/tests/test_jsonstat.py:27-34 | the reloaded cube yields exactly the rows of the filtered cube |
| JsonstatRoundTrip.FilteredRoundTrip | pydatacube/tests/test_jsonstat.py:27-34 | exporting a filtered cube and reading it back succeeds iff no dimension is named `id`, and then yields the same rows |
| LegacyCube.LegacyIterEnumerates | pydatacube.py:47-50 | iteration visits every in-range tuple exactly once, the k-th at flat index k |
| LegacyCube.LegacyRowAt | pydatacube.py:18-22 | a row is one label per coordinate, then exactly one value `values[flatindex]` |
| LegacyCube.LegacyRowContents | pydatacube.py:47-50 | the k-th row holds the labels of the k-th tuple and `values[k]` |
| LegacyCube.LegacyRowsAgree | pydatacube.py:13-50 | the root engine yields the rows of the newer engine over the same data with one value dimension |
| LegacyJsonstat.LegacyCubeOf | jsonstat.py:39-47 | succeeds iff `dimension.id` reads back and every dimension loads; otherwise fails with the error of reading `dimension.id`, else with that of the first dimension that does not load; `values` is the `value` array, dimensions in id order |
| LegacyJsonstat.LegacyToCube | jsonstat.py:39-47 | the loop computes the root import |
| LegacyJsonstat.ReadersAgree | jsonstat.py:3-47 | the root reader and the newer one succeed together and give the same dimensions and values |
| LegacyJsonstat.ReadersRowsAgree | jsonstat.py:39-47 | the cubes both readers build yield the same rows |
| SqlNames.VerifySqlName | pydatacube/sql/__init__.py:13-16 | passes iff the name is empty or its first character is alphanumeric; returns the name, else `InvalidIdentifier` |
| SqlNames.VerifyChecksFirstOnly | pydatacube/sql/__init__.py:13-16 | characters after an alphanumeric first one are never inspected |
| SqlNames.VerifyAcceptsSeparator | pydatacube/sql/__init__.py:13-16 | a name carrying `;`, spaces and `%s` passes; a leading space fails |
| SqlNames.SqlNameCleanup | pydatacube/sql/__init__.py:18-19 | output characters are alphanumeric or `_` |
| SqlNames.CleanupShape | pydatacube/sql/__init__.py:18-19 | alphanumerics kept in order, no two adjacent `_`, a leading `_` iff the input starts with a non-alphanumeric |
| SqlNames.CleanupFixedPoints | pydatacube/sql/__init__.py:18-19 | the names left unchanged are exactly the clean ones |
| SqlNames.CleanupIdempotent | pydatacube/sql/__init__.py:18-19 | cleanup is idempotent |
| SqlNames.CleanedNameVerifies | pydatacube/sql/__init__.py:13-19 | a cleaned name passes the check iff the original is empty or starts alphanumeric |
| SqlNames.TableName | pydatacube/sql/__init__.py:147 | the cleaned id cut to `TABLE_NAME_MAX_LEN` (50): a prefix of the cleaned id of length min(50, its length) |
| SqlNames.TableNameClean | pydatacube/sql/__init__.py:147 | table names are clean |
| SqlFilter.Dedup | pydatacube/sql/__init__.py:248 | `set(categories)`: distinct, same members |
| SqlFilter.AssignLookup | pydatacube/sql/__init__.py:248 | assigning a filter entry makes the key read the new set and leaves other keys alone |
| SqlFilter.Filter | pydatacube/sql/__init__.py:240-254 | returns a cube with the same id and the folded filters; the receiver is a value and stays unchanged |
| SqlFilter.FilterOverwrites | pydatacube/sql/__init__.py:245-248 | a named dimension reads the set of its last keyword (a lone string is a singleton), the others their old entry |
| SqlFilter.FilterIdempotent | pydatacube/sql/__init__.py:240-254 | filtering twice by the same keywords is filtering once (overwrite, not extend) |
| SqlFilter.FilterCommutes | pydatacube/sql/__init__.py:240-254 | filters on different dimensions commute |
| SqlFilter.WhereParts | pydatacube/sql/__init__.py:259-264 | succeeds iff every dimension id passes the check, else `InvalidIdentifier` of the first rejected one; one `IN` part per filter with one placeholder per category |
| SqlFilter.GetWhereClause | pydatacube/sql/__init__.py:256-270 | the loop computes the clause and arguments |
| SqlFilter.WhereClauseContents | pydatacube/sql/__init__.py:256-270 | no filters give `1=1` with no arguments; arguments are the concatenated category ids; `%s` count equals argument count |
| SqlFilter.VerifyAll | pydatacube/sql/__init__.py:395-396 | succeeds iff all names pass the check, returning them unchanged; otherwise `InvalidIdentifier` of the first rejected name |
| SqlRows.RowIdsArgs | pydatacube/sql/__init__.py:381-413 | the errors in source order: `InvalidIdentifier` for the table name, the where clause's error, `ValueError` for a negative start (default 0) or `end < start`, the `KeyError` of `_fast_specification`, the first rejected dimension id; succeeds iff none fires, selecting every stored dimension id, with the WHERE arguments, then `end-start` only if `end` given, then `start` last |
| SqlRows.RowIdsPlaceholders | pydatacube/sql/__init__.py:381-413 | with `%`-free names the query has exactly one `%s` per argument |
| SqlText.PercentsAppend | pydatacube/sql/__init__.py:400-410 | `%` counts add up over concatenation |
| SqlText.PercentsOfFixedText | pydatacube/sql/__init__.py:400-410 | the fixed query text has no `%` except one per `%s` placeholder |
| SqlSpec.Keep | pydatacube/sql/__init__.py:234-235 | keeps exactly the categories whose id is in the filter set, in original order |
| SqlSpec.FastSpecification | pydatacube/sql/__init__.py:231-235 | the filter loop computes the filtered specification |
| SqlSpec.FastSpecSucceeds | pydatacube/sql/__init__.py:231-235 | succeeds iff every filtered id names a categorical dimension |
| SqlSpec.FastSpecContents | pydatacube/sql/__init__.py:217-238 | metadata and length kept; every dimension restricted by its filter set in original order, the others unchanged |
| SqlSpec.DimensionIdsOf | pydatacube/sql/__init__.py:432-433 | the stored dimension ids, whenever the filtered specification exists |
| SqlSpec.GroupingDims | pydatacube/sql/__init__.py:518 | grouping dimensions in declaration order |
| SqlSpec.Groupings | pydatacube/sql/__init__.py:521-523 | one category id list per grouping dimension; a value dimension fails |
| SqlSpec.GroupsOf | pydatacube/sql/__init__.py:536-538 | `__iter_groups` yields product-of-lengths many groups |
| SqlSpec.GroupByValue | pydatacube/sql/__init__.py:516-534 | a successful `group_by` is `__iter_groups` over the grouping dimensions in declaration order |
| SqlSpec.GroupByContents | pydatacube/sql/__init__.py:516-538 | product-of-sizes groups; the k-th narrows each grouping dimension to its k-th row-major category and keeps the other filters |
| SqlSpec.GroupByOrderFree | pydatacube/sql/__init__.py:518 | the argument order of `group_by` does not matter |
| SqlSpec.Difference | pydatacube/sql/__init__.py:513 | set difference of ids |
| SqlSpec.GroupForIsGroupBy | pydatacube/sql/__init__.py:512-514 | `group_for(xs)` is `group_by` over the ids not in `xs` |
| SqlSpec.StaticOf | pydatacube/sql/__init__.py:456-466 | a dimension is static iff it has exactly one category; it contributes its id |
| SqlSpec.RemoveFirst | pydatacube/sql/__init__.py:467 | `list.remove`: succeeds iff present, removes one occurrence |
| SqlSpec.CollapseUnique | pydatacube/sql/__init__.py:454-467 | the loop computes the collapse state; without collapsing all ids stay |
| SqlSpec.CollapseContents | pydatacube/sql/__init__.py:454-467 | never fails; statics are the single-category dimensions; remaining ids are the others, in order when ids are unique |
| SqlSpec.StaticsAt | pydatacube/sql/__init__.py:456-466 | every single-category dimension appears with its category id or label |
| SqlLoad.ZipMap | pydatacube/sql/__init__.py:141 | `dict(zip(ids, surrogates))`: keys are the zipped ids, each to the surrogate of its last occurrence |
| SqlLoad.ZipMapAt | pydatacube/sql/__init__.py:141 | with distinct ids each id maps to its own surrogate |
| SqlLoad.PlanColumns | pydatacube/sql/__init__.py:113-142 | the column loop builds column items, names, mappings and category columns |
| SqlLoad.FromCube | pydatacube/sql/__init__.py:100-197 | computes the load plan and returns the unfiltered SQL cube of that id |
| SqlLoad.PlanNames | pydatacube/sql/__init__.py:113-147 | one cleaned, clean column name per entry; the table name is clean and at most 50 long |
| SqlLoad.ColumnNamesMatchIds | pydatacube/sql/__init__.py:114 | column names equal the dimension ids iff every id is already clean |
| SqlLoad.PlanCategoryColumns | pydatacube/sql/__init__.py:121 | category columns are exactly the cleaned names of categorical entries |
| SqlLoad.PlanMappings | pydatacube/sql/__init__.py:116-142 | value columns get an empty mapping, categorical ones map each category id to its surrogate |
| SqlLoad.ValueIdsSingle | pydatacube/sql/__init__.py:154-155 | the value ids are `['value']` iff exactly one entry is a value entry, with id `value` |
| SqlLoad.PlanValueColumn | pydatacube/sql/__init__.py:153-158 | the value column is `value` iff that holds, else none |
| SqlLoad.NatStrRoundTrip | pydatacube/sql/__init__.py:629 | the decimal text `str` writes for a natural reads back as it under `ParseNat`, the stand-in for the database reading an INTEGER column; a fact about that stand-in, linked to the line only through `str` |
| SqlLoad.IntStrRoundTrip | pydatacube/sql/__init__.py:629 | the text `str` writes for an integer (an optional sign, then digits) reads back as it under `ParseInt`, the stand-in for the database reading an INTEGER column; a fact about that stand-in |
| SqlLoad.SplitJoin | pydatacube/sql/__init__.py:629 | splitting the tab-join of tab-free fields gives the fields back under `Split`, the stand-in for the `copy_from` reading of a line; a fact about that stand-in, linked to the line only through the join |
| SqlLoad.CsvLineFields | pydatacube/sql/__init__.py:629 | a line ends with its only newline and splits at tabs into the cells' text |
| SqlLoad.MapRow | pydatacube/sql/__init__.py:628 | `[m.get(v, v) for m, v in zip(mappings, row)]`: as long as the shorter, each cell mapped by its column |
| SqlLoad.EmptyMappingsVerbatim | pydatacube/sql/__init__.py:609-629 | with empty mappings the mapping reader writes the lines of `CubeCsv` |
| SqlLoad.LoadedCell | pydatacube/sql/__init__.py:628 | a category-id cell becomes its surrogate; any other cell, value columns included, stays verbatim |
| SqlLoad.CubeCsv.Readline | pydatacube/sql/__init__.py:609-613 | consumes one row and returns it tab-joined with a newline; `''` after the last row |
| SqlLoad.CubeMappingCsv.Readline | pydatacube/sql/__init__.py:622-629 | the same through the column mappings, which stay unchanged |
| SqlLoad.LabelledRowNotMapped | pydatacube/sql/__init__.py:182-183 | for a category `FI` labelled `Finland`, the dense row spells `Finland`, the column is `INTEGER`, and the mapping leaves `Finland` unmapped |
| SqlLoad.IdRowLoaded | pydatacube/sql/__init__.py:182-183 | fed id rows, every categorical cell becomes its category's surrogate and payloads follow unchanged |
| Pcaxis.DefaultTranslateChars | pydatacube/pcaxis/__init__.py:8-11 | `ä`→`a`, `ö`→`o`, space and `-`→`_`, everything else unchanged |
| Pcaxis.SlugCharsAppend | pydatacube/pcaxis/__init__.py:21-27 | the character loop works character by character, keeping order |
| Pcaxis.SlugOfAppend | pydatacube/pcaxis/__init__.py:19-27 | each lowercased, translated character is kept iff alphanumeric or `_` |
| Pcaxis.DefaultSlugIdempotent | pydatacube/pcaxis/__init__.py:18-28 | default slugs consist of lower-case alphanumerics and `_`, and slugging a slug changes nothing |
| Pcaxis.FirstFree | pydatacube/pcaxis/__init__.py:29-32 | the first of `slug`, `slug_`, `slug__`, … not given out |
| Pcaxis.FirstFreeEmpty | pydatacube/pcaxis/__init__.py:15-32 | with nothing given out the loop returns the slug itself |
| Pcaxis.Sluger.SlugOf | pydatacube/pcaxis/__init__.py:19-28 | the character loop computes the slug |
| Pcaxis.Sluger.Call | pydatacube/pcaxis/__init__.py:18-33 | `__call__` returns the first free slug and leaves the sluger unchanged |
| Pcaxis.Sluger.CallRecorded | pydatacube/pcaxis/__init__.py:29-33 | records what it gives out, so later calls avoid it |
| Pcaxis.PxCategories | pydatacube/pcaxis/__init__.py:50-52 | one category per label |
| Pcaxis.PxCategoriesContents | pydatacube/pcaxis/__init__.py:50-52 | each category is labelled with its text and has the slug of the text as id |
| Pcaxis.ValueSlug | pydatacube/pcaxis/__init__.py:66-68 | the value dimension is named `value` |
| Pcaxis.PxToCube | pydatacube/pcaxis/__init__.py:37-70 | the method computes the cube |
| Pcaxis.PxCubeContents | pydatacube/pcaxis/__init__.py:37-70 | metadata `label` is the title; dimensions have slugged ids, labels and slugged category ids; one value dimension `value` |
| Pcaxis.DuplicateCategoryIds | pydatacube/pcaxis/__init__.py:50-52 | labels `a b` and `a-b` both become id `a_b` |
| Pcaxis.PxCategoryListRecorded | pydatacube/pcaxis/__init__.py:50-52 | with recorded slugs the category ids of a dimension are distinct and labels kept |
| Pcaxis.PxCategoriesRecorded | pydatacube/pcaxis/__init__.py:50-52 | the loop with one recording sluger computes those categories |

## Left out

- Database plumbing: the cursor calls, `execute`, `fetchone`, `copy_from` and `copy_to`. The stored
  specification, the table name and the category surrogates are parameters of the model instead.
- Category inserts, `replace`/`Remove`, `CREATE INDEX` and the `_datasets` bookkeeping of `FromCube`.
  Only its naming, column and mapping rules are modelled.
- The SQL `__len__`, `rows`, `ResultIter`, `_materialize`, `dump_csv`, `_get_table_name`,
  `_get_rows_query` and the label/mapping subqueries. All of them are database queries.
- `SqlDataCube.__getitem__`: it calls a `_get_iter` that does not exist.
- `toColumns` past its collapse step. The rest is a query and a dict merge over its result.
- The row count of `group_by`: it comes from a `COUNT(DISTINCT …)` query, so only the enumerated groups
  and the name checks done before the query are modelled.
- `read = readline`: an alias, so only `readline` is modelled.
- Python 2 dict and set iteration order: a walked dict is modelled in insertion order (SQL `_filters`, JSON-stat
  objects). SqlFilter.Dedup lists `set(categories)` in first-given order, and SqlSpec.Difference lists the set
  difference in dimension order, where Python's sets have no defined order.
- `px_reader`, which is not part of this model. The title, the ordered dimension values and the
  already split data of `to_cube` are parameters.
- PC-Axis `values` are kept as strings, as `split()` gives them.
- Unicode beyond ASCII: `lower()` and `isalnum()` are modelled on ASCII plus the letters of the
  translate table; for non-ASCII characters `encode('ascii', errors='ignore')` becomes a filter.
- Floats, and the types of payload values beyond string, integer and null.
- The root `pcaxis/__init__.py`: it uses an undefined `data`.
- `__eq__`, `group_by`, `group_for` and `_materialize` on the dense `_DataCube`: the files under
  `pydatacube/tests` call them, but `pydatacube/pydatacube.py` does not define them.
- `toTable`, `toEntries` and generator laziness: rows are modelled as the sequence they yield.
- `to_jsonstat` (`pydatacube/jsonstat.py:121-124`) only wraps the exported dataset in a one-key dict; it is not modelled.
- `to_jsonstat_dataset` reads `cube.specification` as a property and calls `cube._value_dimension_values()`.
  Both exist only on the SQL cube. So the export takes the specification record and the value column as
  parameters, and the round trip supplies the dense cube's own.
- FlatIndex.CumProd: requires a non-empty input. The source raises `IndexError` on an empty list, and
  its only caller always passes a list ending in 1.
- SqlNames.VerifySqlName: follows the code, which checks only the first character. Read as a whole-name
  check, it would reject every name with a character outside `[0-9a-zA-Z]`.
- SqlLoad.FromCube: takes `cube.specification` as a parameter. On the dense cube `specification` is a
  plain method (`pydatacube/pydatacube.py:54` has no `@property`), so as written `copy.deepcopy` copies the
  bound method and `'length' in spec` raises `TypeError` (`pydatacube/sql/__init__.py:104-105`). The model
  reads it as a property, as the tests do (`pydatacube/tests/test_jsonstat.py:28`, `pydatacube/tests/testutils.py:18`).
- Missing JSON-stat keys: the dataset and entry records always have `dimension`, `value` and `category`, so the
  `KeyError`s for their absence (`pydatacube/jsonstat.py:15, 46, 59`) are not modelled.
- The key order of a JSON-stat `dimension` dict: neither reader enumerates it, so it is a map.
- SqlLoad.CubeCsv.Readline and SqlLoad.CubeMappingCsv.Readline: `str()` of a cell returns its text, so the
  Python 2 `UnicodeEncodeError` of `str()` on a non-ASCII unicode cell (`pydatacube/sql/__init__.py:611, 629`)
  is not modelled.
- Pcaxis.PxToCube: the optional `Sluger` argument of `to_cube` (`pydatacube/pcaxis/__init__.py:37`) is left
  out; the model always uses the module's own `Sluger`, the default and the only one the repository passes.
- Pcaxis.Sluger.Call: as written `given_out` is never written, so the method leaves the sluger
  unchanged. `CallRecorded` is the corrected variant.

## Findings

| source | as written | input that shows it | evidently intended | confidence | as-written member | corrected member |
|---|---|---|---|---|---|---|
| pydatacube/pcaxis/__init__.py:15, 31-32 | `given_out` starts empty and nothing adds to it, so the `while` loop never runs and two labels with the same slug get the same category id | labels `a b` and `a-b` in one PC-Axis dimension: both ids are `a_b` | record each returned slug, so the second becomes `a_b_` and ids within a dimension are distinct | medium, not executed | Pcaxis.DuplicateCategoryIds | Pcaxis.PxCategoryListRecorded |
| pydatacube/sql/__init__.py:141, 182-183 with pydatacube/pydatacube.py:19-21, 82-85 | with `specification` read as a property, as the tests read it, `FromCube` streams the dense cube's rows, which carry category labels, through mappings keyed by category ids, into `INTEGER` columns (a SQL cube as source streams ids, `pydatacube/sql/__init__.py:336-343`) | a dense cube whose `specification` is a property, with category `FI` labelled `Finland`: the cell stays `Finland`, and an integer column cannot hold it | stream category ids, so every categorical cell becomes its surrogate | medium, not executed | SqlLoad.LabelledRowNotMapped | SqlLoad.IdRowLoaded |
