# syngenta_digital_dta core, modelled in Dafny

`syngenta_digital_dta` is a data-access library: adapters for Postgres,
Elasticsearch, DynamoDB, MongoDB, S3 and the file system, behind one factory.
They share a handful of pure pieces, and this project models those pieces
and the Postgres adapter's SQL logic:

- **the record merger** (`common/dict_merger.py`). Every update goes through it. The original record is copied and the patch is walked into the copy key by key:
  - a truthy original value under a patch dict is descended into;
  - two lists are combined under a list policy: `remove`, `add`, `replace`, or anything else to keep the original;
  - anything else is assigned, or deleted under the `remove` dict policy.
- **the record projector** (`common/schema_mapper.py`). It projects a record onto an OpenAPI object schema, or onto each object component of an `allOf`. Only declared properties are kept, in declaration order. Nested objects and arrays of objects are projected recursively.
- **the Elasticsearch mapping translator** (`elasticsearch/es_mapper.py`). It turns a schema into `{'properties': mapping}`:
  - objects become `object` entries;
  - arrays of objects become `nested` entries;
  - a truthy per-name override decides a leaf's type;
  - otherwise the leaf's format and type rules decide it.
- **the bulk JSON insert builder** (`postgres/json_formatting.py`). It builds one statement from a JSON document and three column maps: a CTE, the INSERT header, the SELECT list, the array subquery and an ON CONFLICT clause.
- **the Postgres adapter's SQL logic** (`postgres/adapter.py`):
  - the WHERE, ORDER BY, LIMIT, OFFSET and UPDATE SET builders, which write psycopg2 placeholders into one shared params dict;
  - the `query` and `create_table` guards;
  - `create_index`;
  - the params composer and the adapter's error messages;
  - insert, update and upsert over the existing-row lookup.
- **the base adapter's SNS attributes** (`common/base_adapter.py`): defaults and custom attributes, merged and typed `String` or `Number`.
- **the publisher** (`common/publisher.py`): default attributes, custom attributes and the guard in front of the SNS call.

Values are the `Json` datatype (`json.dfy`). A Python dict is an ordered
association list with unique keys (`dicts.dfy`): assigning to a present key
replaces its value in place, a new key is appended, and `pop` closes the gap.
Python truthiness is `Truthy`. Python `==`, under which `True == 1` and dict
order does not matter, is `PyEq`. psycopg2 params and SNS message attributes
are Dafny `map`s. The merger and the projector mutate dicts in loops; they
are modelled as methods with loops, each proved equal to a specification
function, and the properties are lemmas about those functions. The Postgres
adapter and the base adapter are classes whose methods update their fields
and the shared params dict.

Files:

- `results.dfy`: Option and Result.
- `dicts.dfy`: ordered dicts.
- `strings.dfy`: substring, split and join, lower.
- `json.dfy`: values, truthiness, Python equality.
- `schema.dfy`: schemas.
- `schema_mapper.dfy`, `dict_merger.dfy`, `es_mapper.dfy`, `json_formatting.dfy`, `postgres_adapter.dfy`, `publisher.dfy` and `base_adapter.dfy`: one each for the modules above.

## Model

| member | source | states |
|---|---|---|
| DictMerger.Merge | syngenta_digital_dta/common/dict_merger.py:6-9 | `merge` equals `Merged`, the walk of the whole patch; an empty patch returns the original unchanged |
| DictMerger.WalkDict | syngenta_digital_dta/common/dict_merger.py:12-20 | the loop over the patch keys ends in `Walked(old, patch, 0)`, or in the error a key raised |
| DictMerger.WalkKey | syngenta_digital_dta/common/dict_merger.py:14-20 | one key of the walk: its `KeyOutcome` (descend, list policy, or dict policy) is stored or deleted, or its error is returned |
| DictMerger.MergeDicts | syngenta_digital_dta/common/dict_merger.py:23-27 | under `remove` the key is gone; otherwise it holds the patch value; every other key reads as before |
| DictMerger.MergeLists | syngenta_digital_dta/common/dict_merger.py:30-37 | the list returned under each policy: remove, add, replace, or the original list for any other policy |
| DictMerger.RemoveItemInList | syngenta_digital_dta/common/dict_merger.py:40-45 | the removal loop, which skips the element after each removal, ends in `ListWithout`; an empty patch list with a non-empty original is an IndexError |
| DictMerger.AddUniqueItemInList | syngenta_digital_dta/common/dict_merger.py:48-51 | the add loop ends in `ListWithUnique`: each patch item is appended unless Python-equal to one already present |
| DictMerger.RemoveFirst | syngenta_digital_dta/common/dict_merger.py:45 | `list.remove` drops exactly one element when a Python-equal one is present and none otherwise, and adds nothing |
| DictMerger.ApplyOther | syngenta_digital_dta/common/dict_merger.py:17-20 | storing or deleting one key leaves every other key's lookup unchanged |
| DictMerger.WalkedOkIff | syngenta_digital_dta/common/dict_merger.py:12-20 | the walk succeeds exactly when every remaining patch key's outcome does, and a dict stays a dict |
| DictMerger.WalkedKeepsOtherKeys | syngenta_digital_dta/common/dict_merger.py:12-20 | a key the patch does not mention reads the same after the walk |
| DictMerger.WalkedAtKey | syngenta_digital_dta/common/dict_merger.py:12-20 | each patched key ends up holding exactly its key outcome, or is absent when the outcome is a deletion |
| DictMerger.MergeCharacterised | syngenta_digital_dta/common/dict_merger.py:6-20 | the merge, key by key: it succeeds iff every patched key's outcome does; patched keys hold their outcomes; all other keys are untouched |
| DictMerger.WalkedKeyOrder | syngenta_digital_dta/common/dict_merger.py:12-20 | under any dict policy but `remove`, a walk keeps the keys it started from in place and appends the patch's new keys in patch order |
| DictMerger.MergeKeyOrder | syngenta_digital_dta/common/dict_merger.py:6-20 | the key order of a merge under any dict policy but `remove`: the original keys, then the patch keys the original lacks, in patch order |
| DictMerger.NonDictTakesNoNestedPatch | syngenta_digital_dta/common/dict_merger.py:14-15 | a truthy non-dict original under a non-empty patch dict makes the merge fail: the walk calls `.get` on it |
| DictMerger.FalsyValueIsReplaced | syngenta_digital_dta/common/dict_merger.py:14-20 | a falsy original value (missing, `None`, `{}`, `[]`, `""`, `0`) is replaced wholesale by a patch dict rather than descended into |
| DictMerger.AddUniqueKeepsPrefix | syngenta_digital_dta/common/dict_merger.py:48-51 | the add policy keeps the original list, in order, at the front |
| DictMerger.AddUniqueCovers | syngenta_digital_dta/common/dict_merger.py:48-51 | after the add policy every patch item is in the list |
| DictMerger.AddUniqueAppendsFreshItems | syngenta_digital_dta/common/dict_merger.py:48-51 | everything appended comes from the patch and is Python-equal to nothing before it |
| DictMerger.AddUniqueNothingNew | syngenta_digital_dta/common/dict_merger.py:48-51 | a list that already holds every patch item is left unchanged |
| DictMerger.AddUniqueIdempotent | syngenta_digital_dta/common/dict_merger.py:48-51 | adding the same items twice is adding them once |
| DictMerger.RemoveScanHalves | syngenta_digital_dta/common/dict_merger.py:41-45 | removing from `m` equal copies removes only every other one and leaves `m / 2`, because the iterator skips the element sliding into the removed slot |
| DictMerger.RemoveScanCopy | syngenta_digital_dta/common/dict_merger.py:41-45 | one step of that scan: the first copy goes and the iterator moves on |
| DictMerger.RemoveFromTwinsLeavesOne | syngenta_digital_dta/common/dict_merger.py:40-45 | removing `a` from `[a, a]` leaves `[a]` |
| DictMerger.RemoveScanNoMatch | syngenta_digital_dta/common/dict_merger.py:40-45 | a list with no element matching the first patch item is unchanged |
| DictMerger.RemoveScanSubMultiset | syngenta_digital_dta/common/dict_merger.py:40-45 | the remove policy only takes elements away (sub-multiset of the original) |
| DictMerger.RemoveScanShrinksOnMatch | syngenta_digital_dta/common/dict_merger.py:40-45 | a matching first element makes the list strictly shorter |
| DictMerger.RemoveByPythonEquality | syngenta_digital_dta/common/dict_merger.py:44-45 | the match test is JSON text equality, but `list.remove` goes by `==`: removing `True` from `[1, True]` removes the `1` |
| DictMerger.MergeAddsNewKey | tests/syngenta_digital_dta/common/test_dict_merger.py:8-19 | merging `{key2}` into `{key1}` appends `key2` after `key1` |
| DictMerger.MergeRemoveMissingKey | tests/syngenta_digital_dta/common/test_dict_merger.py:21-29 | under the `remove` dict policy a key the original lacks changes nothing |
| DictMerger.MergeListsIgnoreDictPolicy | tests/syngenta_digital_dta/common/test_dict_merger.py:31-49 | lists follow the list policy whatever the dict policy: `[0, 1, 2]` patched with `[0, 1]` stays as it was |
| DictMerger.AddUniqueExample | syngenta_digital_dta/common/dict_merger.py:48-51 | adding `[2, 3]` to `[1, 2]` gives `[1, 2, 3]` |
| SchemaMapper.MapToSchema | syngenta_digital_dta/common/schema_mapper.py:4-11 | the loop over `allOf` components (or the schema alone) equals `MappedToSchema`, each object-typed component written into one shared dict |
| SchemaMapper.PopulateModelData | syngenta_digital_dta/common/schema_mapper.py:14-17 | a truthy dict is projected into the model; anything else leaves it as it was |
| SchemaMapper.PopulateModelDict | syngenta_digital_dta/common/schema_mapper.py:20-28 | the property loop equals `PopulatedDict`: each declared property is first set to `{}`, then to its projected value |
| SchemaMapper.PopulateModelList | syngenta_digital_dta/common/schema_mapper.py:31-36 | the index loop, bounded by `len(data.get(key, []))`, stores the element-by-element projection of a list and `[]` for anything else |
| SchemaMapper.ProjectedItems | syngenta_digital_dta/common/schema_mapper.py:33-36 | one projected element per input element, in order, each projected onto the item schema |
| SchemaMapper.ProjectedItemsSnoc | syngenta_digital_dta/common/schema_mapper.py:35-36 | projecting one more element appends its projection |
| SchemaMapper.PopulatedDictKeys | syngenta_digital_dta/common/schema_mapper.py:20-28 | the projection's keys are exactly the declared names, in declaration order |
| SchemaMapper.PopulatedDictOther | syngenta_digital_dta/common/schema_mapper.py:20-28 | a name not declared reads as it did in the model before |
| SchemaMapper.PopulatedDictAt | syngenta_digital_dta/common/schema_mapper.py:20-28 | every declared name holds its property's value |
| SchemaMapper.ProjectionCharacterised | syngenta_digital_dta/common/schema_mapper.py:14-28 | a truthy dict projects to exactly the declared names, each with its value, dropping all else; any other input projects to `{}` |
| SchemaMapper.LeafIsCopied | syngenta_digital_dta/common/schema_mapper.py:27-28 | a property without nested or item properties is copied as is (`None` when missing), even if typed `object` |
| SchemaMapper.ArrayPropertyProjected | syngenta_digital_dta/common/schema_mapper.py:25-26 | an array-of-objects property becomes the element-wise projection of an input list, and `[]` for any non-list |
| SchemaMapper.LastDeclaring | syngenta_digital_dta/common/schema_mapper.py:8-10 | the last object-typed component declaring a name, or -1 when none does |
| SchemaMapper.MappedFromAt | syngenta_digital_dta/common/schema_mapper.py:7-10 | `allOf` components accumulate into one dict: each name holds the value from the last declaring object component, and the rest of the model is kept |
| SchemaMapper.MapToSchemaAt | syngenta_digital_dta/common/schema_mapper.py:4-11 | `map_to_schema` per name: the last declaring object component wins; undeclared names are absent |
| SchemaMapper.MapNonRecordIsEmpty | syngenta_digital_dta/common/schema_mapper.py:4-17 | a falsy or non-dict record maps to `{}` under any schema |
| SchemaMapper.ProjectIdempotent | syngenta_digital_dta/common/schema_mapper.py:14-36 | projection is idempotent: the projected record can be projected again and maps to itself |
| SchemaMapper.PropertyIdempotent | syngenta_digital_dta/common/schema_mapper.py:20-36 | one property's value survives a second projection unchanged |
| EsMapper.ConvertSchemaToMapping | syngenta_digital_dta/elasticsearch/es_mapper.py:4-11 | the component loop equals `Converted`: every object-typed component walks the top-level `properties` into one mapping |
| EsMapper.WalkSchema | syngenta_digital_dta/elasticsearch/es_mapper.py:14-32 | the property loop equals `WalkedFrom`, the properties walked in order |
| EsMapper.WalkProperty | syngenta_digital_dta/elasticsearch/es_mapper.py:15-32 | one property walked: its `MappingEntry` is stored under its name, or nothing is stored for a scalar array |
| EsMapper.Stepped | syngenta_digital_dta/elasticsearch/es_mapper.py:15-32 | the mapping after one property: the rest of the walk continues from it, and the name holds its entry or keeps its old value |
| EsMapper.TranslateSimpleType | syngenta_digital_dta/elasticsearch/es_mapper.py:35-54 | the result is `None` exactly for a type `array` with no format rule; otherwise a dict whose first key is `type` |
| EsMapper.TranslationRules | syngenta_digital_dta/elasticsearch/es_mapper.py:35-54 | for every property, the first applicable rule decides: URL/e-mail formats give `text` with the analyzer, a format containing `ip` gives `ip`, one containing `date` gives `date` with the date formats, then `number` gives `long`, `string` gives `binary` for `byte` and `text` otherwise, `array` gives `None`, and any other type is copied |
| EsMapper.FormatRuleIgnoresType | syngenta_digital_dta/elasticsearch/es_mapper.py:36-41 | a format that triggers a format rule decides the entry whatever the declared type |
| EsMapper.Override | syngenta_digital_dta/elasticsearch/es_mapper.py:27 | the override for a name exists exactly when `special` is a dict holding a truthy value under it |
| EsMapper.TypeEntryBuilt | syngenta_digital_dta/elasticsearch/es_mapper.py:28 | assigning `type` into a fresh dict gives `{'type': t}` |
| EsMapper.TwoKeysBuilt | syngenta_digital_dta/elasticsearch/es_mapper.py:17-20 | two keys assigned into a fresh dict, the second twice, keep their order and the last value |
| EsMapper.ObjectEntryBuilt | syngenta_digital_dta/elasticsearch/es_mapper.py:17-20 | an object entry built key by key is `{'type': 'object', 'properties': inner}` |
| EsMapper.WalkedKeys | syngenta_digital_dta/elasticsearch/es_mapper.py:14-32 | the walk adds no key except property names |
| EsMapper.WalkedOther | syngenta_digital_dta/elasticsearch/es_mapper.py:14-32 | an undeclared name reads the same after the walk |
| EsMapper.SteppedKeepsKeys | syngenta_digital_dta/elasticsearch/es_mapper.py:15-32 | storing under a name already present keeps the keys and their order |
| EsMapper.WalkedAt | syngenta_digital_dta/elasticsearch/es_mapper.py:14-32 | each declared name holds its entry, or keeps its previous value when nothing is stored for it |
| EsMapper.WalkedUnique | syngenta_digital_dta/elasticsearch/es_mapper.py:14-32 | a walk keeps the mapping's keys unique |
| EsMapper.WalkedKeepsKeyOrder | syngenta_digital_dta/elasticsearch/es_mapper.py:14-32 | when every stored name is already a key, the walk keeps keys and order |
| EsMapper.WalkTwice | syngenta_digital_dta/elasticsearch/es_mapper.py:8-10 | walking the same properties twice into one mapping equals walking them once, so repeated object components change nothing |
| EsMapper.ConvertedFromOneWalk | syngenta_digital_dta/elasticsearch/es_mapper.py:7-10 | after the components the mapping is one walk of the top-level properties if any component is object-typed, and unchanged otherwise |
| EsMapper.ConvertedShape | syngenta_digital_dta/elasticsearch/es_mapper.py:4-11 | the result is `{'properties': m}`; `m` is one walk when any component is an object (however many are) and `{}` otherwise; its keys are top-level property names |
| EsMapper.OverrideIgnoredForContainers | syngenta_digital_dta/elasticsearch/es_mapper.py:16-26 | objects and arrays of objects get `object`/`nested` entries; the override does not change them, only reaching into an object's own walk |
| EsMapper.OverrideWinsForLeaves | syngenta_digital_dta/elasticsearch/es_mapper.py:27-28 | a truthy override replaces a leaf's translation with `{'type': override}` |
| EsMapper.LeafTranslated | syngenta_digital_dta/elasticsearch/es_mapper.py:29-32 | without an override a leaf gets its translation, and nothing exactly for a scalar array |
| EsMapper.OverrideAtEveryDepth | syngenta_digital_dta/elasticsearch/es_mapper.py:16-20 | the override reaches leaves inside nested objects, since `special` is passed down the recursion |
| EsMapper.TranslateEmail | syngenta_digital_dta/elasticsearch/es_mapper.py:36-37 | URL and e-mail formats become `text` with the `url_email_analyzer` |
| EsMapper.TranslateIp | syngenta_digital_dta/elasticsearch/es_mapper.py:38-39 | a format containing `ip` becomes `ip` |
| EsMapper.TranslateDate | syngenta_digital_dta/elasticsearch/es_mapper.py:40-42 | a format containing `date` becomes `date` with the four accepted date formats |
| EsMapper.TranslateTypes | syngenta_digital_dta/elasticsearch/es_mapper.py:43-51 | without a format: number becomes `long`, string `text`, another type itself, and array gets no entry |
| EsMapper.TranslateBinary | syngenta_digital_dta/elasticsearch/es_mapper.py:45-47 | a string with the `byte` format becomes `binary` |
| EsMapper.FormatSubstringBeatsType | syngenta_digital_dta/elasticsearch/es_mapper.py:38-44 | the format rules test substrings before any type rule, so a number with the format `zip` becomes `ip` |
| JsonFormatting.InsertJsonIntoTable | syngenta_digital_dta/postgres/json_formatting.py:1-18 | without exactly one shared root the statement is refused; with one, it is built exactly when the SELECT list can be |
| JsonFormatting.InsertJsonLines | syngenta_digital_dta/postgres/json_formatting.py:12-18 | line by line the statement is the CTE, INSERT header, SELECT list and FROM line over the shared root's array, then an empty line |
| JsonFormatting.TargetKey | syngenta_digital_dta/postgres/json_formatting.py:10 | unpacking the set of roots fails with the unpacking error in every other case |
| JsonFormatting.TargetKeyUnpacksRoots | syngenta_digital_dta/postgres/json_formatting.py:10 | a target key exists exactly when the set of path roots has one element, and it is that element |
| JsonFormatting.SingleRoot | syngenta_digital_dta/postgres/json_formatting.py:10 | a single root is the root of every JSON path |
| JsonFormatting.TargetKeyIsEveryRoot | syngenta_digital_dta/postgres/json_formatting.py:10 | every JSON path starts with the target key |
| JsonFormatting.JsonCte | syngenta_digital_dta/postgres/json_formatting.py:21-22 | the CTE is `WITH _json_cte AS (SELECT "`, then exactly the document text, then `"::json AS _json)` |
| JsonFormatting.ColumnOrder | syngenta_digital_dta/postgres/json_formatting.py:63-67 | the plain column names in order, then the JSON column names in order |
| JsonFormatting.InsertListsColumns | syngenta_digital_dta/postgres/json_formatting.py:25-26 | the INSERT header's column list, split at `", "`, reads back as the column order |
| JsonFormatting.Excluded | syngenta_digital_dta/postgres/json_formatting.py:32 | one `excluded.` name per update column, in order |
| JsonFormatting.OnConflict | syngenta_digital_dta/postgres/json_formatting.py:29-39 | empty exactly without conflict columns; `DO NOTHING` exactly with conflict columns and no update columns; otherwise `DO UPDATE SET` |
| JsonFormatting.OnConflictPairsColumns | syngenta_digital_dta/postgres/json_formatting.py:30-33 | the SET list names the update columns, and the value at each position is that column's `excluded.` counterpart |
| JsonFormatting.JsonArraySubquery | syngenta_digital_dta/postgres/json_formatting.py:42-43 | the subquery is `SELECT json_array_elements(_json->"`, then exactly the target key, then `") AS _jsondict FROM _json_cte` |
| JsonFormatting.ParseJsonLine | syngenta_digital_dta/postgres/json_formatting.py:70-76 | a path whose segment count is neither two nor three raises the unbound-local error |
| JsonFormatting.JsonLineOfSegments | syngenta_digital_dta/postgres/json_formatting.py:70-76 | `root.key` reads `->> "key"`, `root.key.subkey` reads `-> "key" ->> "subkey"`, both aliased to the column; any other count is refused |
| JsonFormatting.Format | syngenta_digital_dta/postgres/json_formatting.py:81 | a template that cannot be filled is refused with the template error |
| JsonFormatting.FormatFills | syngenta_digital_dta/postgres/json_formatting.py:81 | `str.format` puts the argument in place of the single `{}` field |
| JsonFormatting.FormatNeedsField | syngenta_digital_dta/postgres/json_formatting.py:81 | a template without any brace is refused here (see Left out) |
| JsonFormatting.ApplyFunction | syngenta_digital_dta/postgres/json_formatting.py:79-81 | fails only when the statement does not split into exactly two parts at `" AS "`, or the template cannot be filled |
| JsonFormatting.ExpressionNoSpaceBeforeA | syngenta_digital_dta/postgres/json_formatting.py:73-75 | the literal text of a JSON expression has no `" A"`, so it cannot contain `" AS "` |
| JsonFormatting.JsonExpressionNoSpaceBeforeA | syngenta_digital_dta/postgres/json_formatting.py:70-76 | a JSON path without spaces gives an expression without `" AS "` |
| JsonFormatting.ApplyFunctionKeepsAlias | syngenta_digital_dta/postgres/json_formatting.py:79-81 | wrapping an entry fills the template with its expression and keeps the alias, with a lowercase `as` |
| JsonFormatting.Lines | syngenta_digital_dta/postgres/json_formatting.py:48-59 | a successful build has one entry per column |
| JsonFormatting.LinesAt | syngenta_digital_dta/postgres/json_formatting.py:48-59 | the `i`-th entry is the `i`-th column's own entry |
| JsonFormatting.LinesLast | syngenta_digital_dta/postgres/json_formatting.py:48-59 | a built prefix is the shorter prefix followed by its last column's entry |
| JsonFormatting.LinesOk | syngenta_digital_dta/postgres/json_formatting.py:48-59 | the entries build exactly when each of them does |
| JsonFormatting.LinesSnoc | syngenta_digital_dta/postgres/json_formatting.py:54 | building one more entry appends it |
| JsonFormatting.LinesOfThree | syngenta_digital_dta/postgres/json_formatting.py:48-59 | three successful entries give those three, in order |
| JsonFormatting.LinesErrorStays | syngenta_digital_dta/postgres/json_formatting.py:48-59 | a failure is kept by every longer prefix |
| JsonFormatting.LinesFirstError | syngenta_digital_dta/postgres/json_formatting.py:48-59 | the first failing entry's error is the loop's error |
| JsonFormatting.SelectLines | syngenta_digital_dta/postgres/json_formatting.py:46-60 | a successful SELECT list has one entry per plain and per JSON column |
| JsonFormatting.SelectOfThrees | syngenta_digital_dta/postgres/json_formatting.py:46-60 | plain entries come first, then JSON entries |
| JsonFormatting.SelectLinesOk | syngenta_digital_dta/postgres/json_formatting.py:46-60 | the SELECT list builds exactly when every plain and every JSON entry does |
| JsonFormatting.SelectStatement | syngenta_digital_dta/postgres/json_formatting.py:60 | the statement starts with `SELECT ` and fails exactly when the list does |
| JsonFormatting.BuildSelectStatement | syngenta_digital_dta/postgres/json_formatting.py:46-60 | the two loops over the column maps equal `SelectStatement` |
| JsonFormatting.ColumnLineNamesColumn | syngenta_digital_dta/postgres/json_formatting.py:49-53 | a plain column's entry is aliased to the column |
| JsonFormatting.JsonColumnLineNamesColumn | syngenta_digital_dta/postgres/json_formatting.py:56-58 | a JSON column's entry is aliased to the column, when its path has no spaces |
| JsonFormatting.PlainSelectLineNamesColumn | syngenta_digital_dta/postgres/json_formatting.py:48-54 | the SELECT entry at plain position `i` names plain column `i` |
| JsonFormatting.JsonSelectLineNamesColumn | syngenta_digital_dta/postgres/json_formatting.py:55-59 | the SELECT entry after the plain ones at position `j` names JSON column `j` |
| JsonFormatting.SelectAlignsWithInsert | syngenta_digital_dta/postgres/json_formatting.py:14-15 | the SELECT entries line up with the INSERT column order: each entry is aliased to the column at its position |
| JsonFormatting.ColumnOrderExample | tests/syngenta_digital_dta/postgres/test_json_formatting.py:21-51 | the test's column order: the three plain names, then `time`, `machine`, `secID` |
| JsonFormatting.ExamplePath | tests/syngenta_digital_dta/postgres/test_json_formatting.py:67-73 | a `feature.properties.<key>` path reads `<key>` inside `properties` |
| JsonFormatting.ExampleJsonColumnLine | tests/syngenta_digital_dta/postgres/test_json_formatting.py:67-76 | each of the test's JSON columns gives its nested read |
| JsonFormatting.FunctionOnJsonColumn | syngenta_digital_dta/postgres/json_formatting.py:55-58 | a one-field template on a `feature.properties.<key>` column gives the template around the column's expression, then ` as ` and the alias |
| JsonFormatting.FunctionMapExample | tests/syngenta_digital_dta/postgres/test_json_formatting.py:139-169 | `cast({} as varchar)` on `secID` gives `cast(_jsondict -> "properties" ->> "SecID" as varchar) as secID`, the line the test expects |
| JsonFormatting.JsonLinesExample | tests/syngenta_digital_dta/postgres/test_json_formatting.py:67-76 | the test's JSON entries, in order |
| JsonFormatting.PlainLinesExample | tests/syngenta_digital_dta/postgres/test_json_formatting.py:59-76 | the test's plain entries alias their expressions |
| JsonFormatting.SelectLinesExample | tests/syngenta_digital_dta/postgres/test_json_formatting.py:58-78 | the test's six SELECT entries, in order |
| JsonFormatting.OnConflictUpdateExample | tests/syngenta_digital_dta/postgres/test_json_formatting.py:173-181 | conflict on `a, b, c` updating `b, c` sets `(b,c) = (excluded.b,excluded.c)` |
| JsonFormatting.OnConflictOtherExamples | tests/syngenta_digital_dta/postgres/test_json_formatting.py:183-200 | no update columns give `DO NOTHING`; no conflict columns give `""` |
| Postgres.RaiseError | syngenta_digital_dta/postgres/adapter.py:270-289 | exactly the five known error names have their own exceptions; every other name falls through to the catch-all |
| Postgres.RaiseErrorByName | syngenta_digital_dta/postgres/adapter.py:270-289 | each exception is raised by its own name, and the row errors carry the record's identifier value |
| Postgres.NotUniqueMessageExample | syngenta_digital_dta/postgres/adapter.py:281-284 | a duplicate insert's message names the identifier and its value |
| Postgres.Query | syngenta_digital_dta/postgres/adapter.py:106-114 | accepted exactly with params and without a destructive word in the lowercased text; missing params are reported first; the text and params are executed unchanged |
| Postgres.QueryIgnoresCase | syngenta_digital_dta/postgres/adapter.py:109-110 | letter case never changes the guard's verdict |
| Postgres.QueryParamsFirst | syngenta_digital_dta/postgres/adapter.py:107-110 | destructive text without params is refused for the params; with params, as read-only |
| Postgres.QueryRefusesUpdatedAt | syngenta_digital_dta/postgres/adapter.py:109-110 | the guard matches substrings, so `SELECT updated_at …` is refused |
| Postgres.CreateTable | syngenta_digital_dta/postgres/adapter.py:100-104 | accepted exactly when the lowercased text starts with `create table`, which is executed unchanged; otherwise the table error |
| Postgres.CreateTableAnyCase | syngenta_digital_dta/postgres/adapter.py:101 | any letter case of `create table` passes |
| Postgres.CreateTableRefusals | syngenta_digital_dta/postgres/adapter.py:101-102 | a leading blank or another statement is refused |
| Postgres.CreateIndex | syngenta_digital_dta/postgres/adapter.py:130-136 | the statement is `CREATE INDEX index_`, then the columns joined by `_` as the index name, then ` ON <table> `, then the columns joined by `, ` in parentheses |
| Postgres.IndexListsColumns | syngenta_digital_dta/postgres/adapter.py:132-134 | the indexed column list reads back as the columns |
| Postgres.IndexNamesCollide | syngenta_digital_dta/postgres/adapter.py:131 | the index name joins columns with `_`, so `[a_b]` and `[a, b]` get the same name |
| Postgres.Bindings | syngenta_digital_dta/postgres/adapter.py:174-176 | one binding per column |
| Postgres.BindingsAt | syngenta_digital_dta/postgres/adapter.py:206-208 | the `i`-th binding compares or sets the `i`-th column through its own value key |
| Postgres.BindingCommaFree | syngenta_digital_dta/postgres/adapter.py:208 | a binding of a comma-free column has no comma |
| Postgres.ValueKeyInjective | syngenta_digital_dta/postgres/adapter.py:175 | distinct columns have distinct value keys |
| Postgres.ValueKeyNotPlain | syngenta_digital_dta/postgres/adapter.py:175 | a value key never equals a column name without `-` |
| Postgres.BoundColumnsName | syngenta_digital_dta/postgres/adapter.py:178 | a plain, distinct column is bound to its own name as raw SQL |
| Postgres.BoundColumnsValue | syngenta_digital_dta/postgres/adapter.py:177 | its value is bound under its value key |
| Postgres.BoundColumnsOther | syngenta_digital_dta/postgres/adapter.py:174-178 | params that are neither a column nor a value key are kept |
| Postgres.BoundColumnsUnshadowed | syngenta_digital_dta/postgres/adapter.py:200-210 | a name without `-` that no column has keeps its entry |
| Postgres.BoundColumnAt | syngenta_digital_dta/postgres/adapter.py:206-210 | after binding every column, each plain column holds its name and its value key holds its value |
| Postgres.WhereBindingPlain | syngenta_digital_dta/postgres/adapter.py:176 | a comparison on a column without spaces contains no `" AND "` |
| Postgres.WhereClauseLists | syngenta_digital_dta/postgres/adapter.py:170-180 | the WHERE text, split at `" AND "`, is one comparison per filter key in key order; an empty filter still leaves a bare `" WHERE "` |
| Postgres.AddonDefaults | syngenta_digital_dta/postgres/adapter.py:159-168 | without arguments: ordered by the identifier `ASC`, limit 1000, offset 0 |
| Postgres.AddonExplicitNone | syngenta_digital_dta/postgres/adapter.py:170-192 | explicit `None` for where, limit and offset leaves only ORDER BY and binds no limit or offset |
| Postgres.AddonWhereFirst | syngenta_digital_dta/postgres/adapter.py:160 | a filter puts its comparisons before ORDER BY |
| Postgres.ComposeParams | syngenta_digital_dta/postgres/adapter.py:254-264 | a KeyError exactly when the record lacks the identifier; otherwise exactly the six params: the record bound as `data`, the table and the identifier name as `AsIs`, the joined columns, the values tuple and the identifier value |
| Postgres.FieldValues | syngenta_digital_dta/postgres/adapter.py:229 | the record's values in key order |
| Postgres.DataParamsAlign | syngenta_digital_dta/postgres/adapter.py:226-230 | the `i`-th inserted value is the record's value for the `i`-th column |
| Postgres.WalkedIsObject | syngenta_digital_dta/postgres/adapter.py:60 | merging a patch into a dict leaves a dict |
| Postgres.PublishCall | syngenta_digital_dta/postgres/adapter.py:53 | Python refuses the publish call exactly when keyword arguments are passed, naming one of them |
| Postgres.WriteNeverReturns | syngenta_digital_dta/postgres/adapter.py:53 | the caller's keyword arguments always hold `data`, so after a successful write the publish call raises a TypeError (also line 63) |
| Postgres.AfterPublish | syngenta_digital_dta/postgres/adapter.py:53 | a write's outcome after the publish call as written: a failed write is passed on; a successful one is returned only without keyword arguments, and otherwise becomes a TypeError naming one of them (also line 63) |
| Postgres.ParamDict.Put | syngenta_digital_dta/postgres/adapter.py:177-178 | `params[k] = v` updates one entry of the shared dict |
| Postgres.PostgresAdapter.constructor | syngenta_digital_dta/postgres/adapter.py:15-32 | the table, identifier, model schema and relationships come from the keyword arguments |
| Postgres.PostgresAdapter.BuildWhereStatement | syngenta_digital_dta/postgres/adapter.py:170-180 | returns `WhereClause` and leaves the shared params as `WhereParams` of the old ones |
| Postgres.PostgresAdapter.BuildLimitStatement | syngenta_digital_dta/postgres/adapter.py:182-186 | returns the LIMIT text and binds `limit`, or nothing for `None` |
| Postgres.PostgresAdapter.BuildOffsetStatement | syngenta_digital_dta/postgres/adapter.py:188-192 | returns the OFFSET text and binds `offset`, or nothing for `None` |
| Postgres.PostgresAdapter.BuildOrderByStatement | syngenta_digital_dta/postgres/adapter.py:194-197 | always returns the ORDER BY text and binds column and direction as raw SQL |
| Postgres.PostgresAdapter.BuildAddonStatements | syngenta_digital_dta/postgres/adapter.py:159-168 | the four builders in order, with their defaults: `AddonClause` and `AddonParams` |
| Postgres.PostgresAdapter.CreateGetAllQuery | syngenta_digital_dta/postgres/adapter.py:149-157 | `SELECT * FROM %(table)s ` plus the addon clauses, with the table param |
| Postgres.PostgresAdapter.CreateJoinQuery | syngenta_digital_dta/postgres/adapter.py:138-147 | the join head plus the addon clauses, over the join's params |
| Postgres.PostgresAdapter.JoinParams | syngenta_digital_dta/postgres/adapter.py:139-144 | exactly four params; an unconfigured relationship splices in `None` |
| Postgres.PostgresAdapter.CreateUpdateQuery | syngenta_digital_dta/postgres/adapter.py:199-215 | the loop equals `UpdateQuery`: a KeyError without the identifier, otherwise one assignment per column |
| Postgres.PostgresAdapter.UpdateListsColumns | syngenta_digital_dta/postgres/adapter.py:205-213 | the SET list, split at `", "`, is one assignment per column in key order |
| Postgres.PostgresAdapter.UpdateBindsColumns | syngenta_digital_dta/postgres/adapter.py:200-210 | every plain, distinct column is bound to its name and value; table, identifier and identifier value stay unless a column shadows them |
| Postgres.PostgresAdapter.UpdateColumnNamedIdentifier | syngenta_digital_dta/postgres/adapter.py:202-210 | a column named `identifier` overwrites the WHERE target's param |
| Postgres.PostgresAdapter.Insert | syngenta_digital_dta/postgres/adapter.py:46-54 | succeeds exactly when the projection and the record hold the identifier and no row exists; returns the projected record |
| Postgres.PostgresAdapter.InsertCallRefusedAfterWrite | syngenta_digital_dta/postgres/adapter.py:46-54 | the documented call `insert(data=record)` writes the row, then its publish call is refused for `data` |
| Postgres.PostgresAdapter.Update | syngenta_digital_dta/postgres/adapter.py:56-64 | a KeyError without the record's identifier; with it and an existing row, the merger's error as `MergeFailed`, or, when the merge keeps the identifier, the merged row itself; a success is always that merge and needs an existing row |
| Postgres.PostgresAdapter.Upsert | syngenta_digital_dta/postgres/adapter.py:66-70 | with an identifier: update when the row exists, insert otherwise; the record need only be projectable when it is inserted |
| Postgres.PostgresAdapter.InsertRefusesExistingRow | syngenta_digital_dta/postgres/adapter.py:49-51 | an existing row raises "row already exist" with the identifier value |
| Postgres.PostgresAdapter.UpdateRefusesMissingRow | syngenta_digital_dta/postgres/adapter.py:57-59 | a missing row raises "row does not exist" with the identifier value |
| Postgres.PostgresAdapter.UpsertRaisesNoRowError | syngenta_digital_dta/postgres/adapter.py:66-70 | upsert never raises either row error |
| Postgres.PostgresAdapter.IdentifierParams | syngenta_digital_dta/postgres/adapter.py:254-264 | the params of `get` and `delete`: the one-field record with the identifier value, the table and identifier names, the `*` column list, no values, and the value bound as `identifier_value` |
| Postgres.PostgresAdapter.GetQuery | syngenta_digital_dta/postgres/adapter.py:78-84 | `get` and `read` select every column of the row whose identifier holds the value, with those params |
| Postgres.PostgresAdapter.DeleteQuery | syngenta_digital_dta/postgres/adapter.py:72-75 | `delete` addresses exactly the row `get` reads: the same table and filter, and the same params |
| Postgres.PostgresAdapter.ExistingQuery | syngenta_digital_dta/postgres/adapter.py:217-220 | the existing-row lookup is a KeyError exactly without the record's identifier; otherwise it is the `get` query limited to one row |
| Postgres.PostgresAdapter.ExistingLooksUpGetRow | syngenta_digital_dta/postgres/adapter.py:217-220 | the lookup binds the same table, identifier and identifier value as `get` for the record's value, and the whole record as `data` |
| Postgres.PostgresAdapter.UpdateWithRemoveLosesIdentifier | syngenta_digital_dta/postgres/adapter.py:60-61 | under the `remove` dict policy the merge deletes the scalar identifier, so building the UPDATE fails |
| Publisher.FormatCustomAttributes | syngenta_digital_dta/common/publisher.py:5-14 | the loop equals `WithCustom`: each custom value, `None` included, is typed and assigned in order |
| Publisher.WithCustomContents | syngenta_digital_dta/common/publisher.py:5-14 | every custom name holds its typed value, other attributes are kept, and nothing else appears |
| Publisher.WithCustomKeys | syngenta_digital_dta/common/publisher.py:6-10 | the keys are the old ones plus the custom names |
| Publisher.WithCustomValues | syngenta_digital_dta/common/publisher.py:7-13 | each custom name holds `String` for a string value and `Number` otherwise |
| Publisher.WithCustomKept | syngenta_digital_dta/common/publisher.py:6-10 | an attribute no custom name overrides keeps its value |
| Publisher.DefaultAttributes | syngenta_digital_dta/common/publisher.py:17-37 | a KeyError unless schema, identifier and operation are given; the keys are those three plus a truthy author; every value is a `String` attribute of the argument |
| Publisher.PublishReading | syngenta_digital_dta/common/publisher.py:40-53 | skipped exactly without a truthy topic and record; otherwise the record goes to the topic, and the message equals the record |
| Publisher.Publish | syngenta_digital_dta/common/publisher.py:40-53 | `publish` as written: skipped exactly without a truthy `sns_arn` and record; otherwise the record goes to the `sns_arn` topic |
| Publisher.PublishFixed | syngenta_digital_dta/common/publisher.py:40-53 | the correction: the topic is `sns_arn` when truthy and `arn` otherwise; skipped exactly without a truthy topic and record, and otherwise the record goes to that topic |
| Publisher.CallersByArnAreSkipped | syngenta_digital_dta/common/publisher.py:41 | as written, a call without `sns_arn` is always skipped |
| Publisher.FixKeepsSnsArnCallers | syngenta_digital_dta/common/publisher.py:41-51 | the correction (`sns_arn`, else `arn`) gives the same outcome as the code as written for every call with a truthy `sns_arn`, such as the DynamoDB adapter's |
| Publisher.FixServesArnCallers | syngenta_digital_dta/common/publisher.py:41-51 | without a truthy `sns_arn`, the correction skips exactly when `arn` or the record is falsy and publishes to `arn`, where the code as written always skips |
| Publisher.TestCallSkipped | tests/syngenta_digital_dta/common/test_publisher.py:15-22 | as written, the test's call publishes nothing |
| Publisher.TestCallLookups | tests/syngenta_digital_dta/common/test_publisher.py:15-22 | what the test's call holds under each name |
| Publisher.TestCallDefaults | syngenta_digital_dta/common/publisher.py:17-37 | the test's call has three `String` defaults and no author |
| Publisher.TestCallPublishesWhenFixed | syngenta_digital_dta/common/publisher.py:41-51 | under the correction, the test's call publishes the record with its default attributes |
| Publisher.PublishedWithoutCustom | syngenta_digital_dta/common/publisher.py:44-51 | without custom attributes a call publishes its defaults alone |
| Publisher.PublishedAttributes | syngenta_digital_dta/common/publisher.py:45-46 | the message carries every custom attribute typed by value, and every default it does not override |
| BaseAdapters.InitialDefaults | syngenta_digital_dta/common/base_adapter.py:11-16 | exactly the four default names; a name the caller left out holds `None` |
| BaseAdapters.ValuesOf | syngenta_digital_dta/common/base_adapter.py:41-43 | the custom dict read by name, holding exactly its keys |
| BaseAdapters.AttributesOf | syngenta_digital_dta/common/base_adapter.py:39-46 | the names are the enabled defaults plus the custom names, a custom value winning; `None` only for a truthy non-dict custom value |
| BaseAdapters.FormattedStep | syngenta_digital_dta/common/base_adapter.py:30-36 | one more name adds its typed attribute, unless its value is `None` |
| BaseAdapters.FormatAttributes | syngenta_digital_dta/common/base_adapter.py:29-37 | the loop equals `Formatted`: every value that is not `None`, typed by value |
| BaseAdapters.BaseAdapter.constructor | syngenta_digital_dta/common/base_adapter.py:6-16 | topic, custom attributes (default `{}`), defaults switch (default `True`) and the four defaults |
| BaseAdapters.BaseAdapter.CreateFormatAttributes | syngenta_digital_dta/common/base_adapter.py:26-37 | records the operation among the defaults, changes nothing else, and returns the formatted attributes |
| BaseAdapters.BaseAdapter.Publish | syngenta_digital_dta/common/base_adapter.py:18-24 | records the operation, formats the attributes, then hands the topic and record to the publisher as written under `arn` and `data`; the outcome is always `Skipped`, since the publisher looks for `sns_arn` |
| BaseAdapters.FormattedAttributes | syngenta_digital_dta/common/base_adapter.py:26-46 | a name is sent exactly when the enabled defaults or custom values give it a value other than `None`, custom first; typed `String` exactly for strings |
| BaseAdapters.UnpassedDefaultNotSent | syngenta_digital_dta/common/base_adapter.py:11-16 | a default the caller did not pass is never sent |
| BaseAdapters.OperationSent | syngenta_digital_dta/common/base_adapter.py:27 | with defaults on, the recorded operation is sent |
| BaseAdapters.NothingSent | tests/syngenta_digital_dta/common/test_base_adapter.py:67-78 | defaults off and no custom attributes send nothing |
| BaseAdapters.StringsFormatted | syngenta_digital_dta/common/base_adapter.py:30-36 | string-valued attributes are all sent, each typed `String` |
| BaseAdapters.SingleCustom | syngenta_digital_dta/common/base_adapter.py:40-43 | one custom attribute is assigned over the defaults when enabled, and is alone otherwise |
| BaseAdapters.FormattedSingle | syngenta_digital_dta/common/base_adapter.py:30-36 | a single attribute is sent typed by value, unless it is `None` |
| BaseAdapters.StringsOverridden | syngenta_digital_dta/common/base_adapter.py:40-41 | string defaults with a string assigned over them are all sent as `String` |
| BaseAdapters.DefaultAttributesExample | tests/syngenta_digital_dta/common/test_base_adapter.py:30-65 | the defaults alone are sent as five `String` attributes |
| BaseAdapters.CustomStringExample | tests/syngenta_digital_dta/common/test_base_adapter.py:80-102 | a custom string alone is sent as `String` |
| BaseAdapters.CustomNumberExample | tests/syngenta_digital_dta/common/test_base_adapter.py:104-126 | a custom number alone is sent as `Number` |
| BaseAdapters.CombinedAttributesExample | tests/syngenta_digital_dta/common/test_base_adapter.py:128-170 | defaults and the custom string together give six `String` attributes |
| BaseAdapters.AdapterCallSkipped | syngenta_digital_dta/common/base_adapter.py:20-24 | as written, the publisher skips every call the adapter makes |
| BaseAdapters.AdapterCallLacksSchema | syngenta_digital_dta/common/base_adapter.py:20-24 | under the corrected publisher, the adapter's call passes the guard and then fails, because it does not pass `model_schema` |

## Left out

- All I/O is outside the model: the boto3 SNS client, psycopg2 connections, `execute`, `fetchone`/`fetchall`, commit and rollback, `mogrify`, and the logger. The row returned by the existing-row lookup is an input (`existing`, `[]` for none).
- `delete`, `get`, `read`, `get_all`, `read_all`, `get_relationship`, `bulk_insert_json` and `create_index`: only the query text and params they build are modelled, not the execution or the fetched rows. The publish call after `delete` is the same as-written call as after insert and update.
- The adapter factory and the DynamoDB, MongoDB, S3, file-system, Elasticsearch-adapter and Redshift modules are not part of this model.
- Loading schemas from files (`schema_loader`) is not part of this model. Schemas are given as values.
- `str()` and `json.dumps` renderings are not modelled:
  - the document in the CTE is given as text;
  - the value in a row error's message comes from a caller-supplied rendering function.
- psycopg2's rendering of `AsIs` and bound values is not modelled: params hold `AsIs(v)` or `Bound(v)` markers.
- The psycopg2 params dict and the SNS attribute dicts are Dafny maps, so their insertion order is not modelled. Records, patches, schemas and mappings keep their order.
- The deep copy in `merge` is not modelled separately: values are immutable.
- Exceptions that `publish` catches and prints become a `Failed` outcome.
- The `attributes` keyword argument that the base adapter passes to `publish` is dropped, because the publisher never reads it.
- The AsIs-based SQL injection surface is not modelled: column names in WHERE/UPDATE params, and the ORDER BY column and direction, are spliced as raw SQL.
- DictMerger.RemoveItemInList: the source matches by comparing `json.dumps` texts, with a dict's items sorted first. Here the match is `ItemsMatch`: two dicts match when they hold the same entries in any order, and any other pair only when identical. The one case where they differ is left out: a dict and a list of its sorted `[key, value]` pairs dump to the same text.
- BaseAdapters.AttributesOf: returns `None` for a truthy custom value that is not a dict. The source returns it from `get_attributes`, and `create_format_attibutes` then fails on `.items()`; the model stops one step earlier.
- JsonFormatting.Format: only templates with one `{}` field and no other braces are filled. Any other template is refused, whereas Python's `str.format` accepts numbered or doubled braces and ignores a template without fields.
- JsonFormatting.ParseJsonLine: a path with another segment count makes the source raise UnboundLocalError. This is the `UnboundStatement` error here, without the exception text.
- Postgres.Query: only `str.lower` on ASCII letters is modelled. Non-ASCII case folding is not.
- EsMapper.Convertible: `ConvertSchemaToMapping` requires it. It leaves out the KeyError on `schema['properties']` (es_mapper.py:10). That KeyError happens for an `allOf` schema whose object components declare properties while the top level declares none.
- SchemaMapper.Projectable, SchemaMapper.Mappable: `MapToSchema`, the projector's functions and the Postgres `Insert` require them, and `Upsert` on its insert branch (no existing row) only. They leave out the TypeError from `len()` (schema_mapper.py:33) on a value that is not a list, string or dict under an array-of-objects property. For example, a record holding `"tags": null`, `1` or `true` where the schema declares `tags` as an array of objects.
- Postgres.WhereArgument: the WHERE builder and the SELECT builders require it. It leaves out the AttributeError from `where.keys()` (adapter.py:174) for a `where` that is neither `None` nor a dict, such as a string, a number or a list.
- DictMerger.MergeKeyOrder: the key order is stated for every dict policy except `remove`. Under `remove`, the deleted keys close their gaps, as `pop` does; only the values of that case are stated (`MergeCharacterised`).
- Postgres.PostgresAdapter.Insert, Postgres.PostgresAdapter.Update: both return the record after the write and leave the publish call out, as the corrected behaviour (see Findings). `AfterPublish` models the call as written.

## Findings

| source | as written | input that shows it | evidently intended | confidence | as-written member | corrected member |
|---|---|---|---|---|---|---|
| syngenta_digital_dta/common/publisher.py:41 | the guard and the topic read only `sns_arn` | two callers pass the topic as `arn` and are always skipped: the publisher's test call (tests/syngenta_digital_dta/common/test_publisher.py:15-22) and the base adapter (base_adapter.py:20-24). The DynamoDB adapter passes `sns_arn` (dynamodb/adapter.py:85-92) and is served | read the topic as `kwargs.get('sns_arn') or kwargs.get('arn')`. This serves the `arn` callers and leaves every `sns_arn` call unchanged. The base adapter's call then still fails, on the `model_schema` it does not pass (`AdapterCallLacksSchema`) | not executed; medium | Publisher.TestCallSkipped | Publisher.TestCallPublishesWhenFixed |
| syngenta_digital_dta/postgres/adapter.py:53 | `super().publish('create', params['data'], **kwargs)`, where `kwargs` always holds `data`; update does the same on line 63 | `insert(data={'user_id': 'u1'})` under a schema declaring `user_id`, with no existing row: the row is written, then Python raises TypeError (multiple values for `data`) | publish the operation and record without forwarding the caller's keyword arguments, and return the record | not executed | Postgres.PostgresAdapter.InsertCallRefusedAfterWrite | Postgres.PostgresAdapter.Insert |
