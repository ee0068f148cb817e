# inversion-engine, modelled in Dafny

This project models the core of the inversion engine, a Java REST API engine. It covers:

- **JSON documents** (`JSNode`): an ordered property list with case-insensitive keys, `put`, `putFirst`, `remove`, `find`, `collect`, and the `diff`/`patch` pair. The proofs include the round trip `b.patch(a.diff(b))`.
- **The RQL `Where` builder**: the where-function whitelist, the `_key(index, ...)` expansion, and the unwrapping of a root `and`.
- **The Elasticsearch query translation** (`ElasticsearchQuery.toJson`/`getJson`) and the parts of the Elasticsearch `GET` action that do not talk to the server: the page window, the search URL, the `meta` block with its `prev`/`next` links, the sort cursor string, and the `data` array.
- **The Cosmos DB SQL builder** (`CosmosSqlQuery`):
  - the `OFFSET ... LIMIT` clause;
  - variable names;
  - default sorts;
  - the quoted-identifier rewrite;
  - the cross-partition decision;
  - the stripping of `_` system keys.
- **The `Api` registry**: collections, databases, endpoints sorted by order, actions, the case-insensitive lookups, the code fallbacks, and the `startup` re-entrancy guard.
- **`SqlSuggestAction`**: whitelisting, the search-text cleaning, and the generated `UNION` query.
- **`RateLimitAction`**: the buckets, the time window, and the per-user and total limits.
- **The shared handler helpers of `AbstractHandler`**: `find`, `splitParam`, `nextPath` and `getValue`.

Each module has its own file:

- Support modules:
  - `wrappers.dfy`: `Option`, `Result`, `Error`.
  - `strings.dfy`: Java string operations as this model needs them.
  - `sequences.dfy`: insertion-ordered sets.
- Modules for the core classes:
  - `json_values.dfy`, `json_patch.dfy`, `json_roundtrip.dfy` and `json_node.dfy`.
  - `rql_where.dfy`, `elasticsearch_query.dfy`, `elastic_db_get_action.dfy`, `cosmos_sql_query.dfy` and `api.dfy`.
  - `sql_suggest_action.dfy`, `rate_limit_action.dfy` and `abstract_handler.dfy`.

Where the source changes an object in place, the model is a class with `modifies` clauses:

- `JSNode`
- `Where`
- `Api`
- `SqlSuggestAction`'s whitelist
- `RateLimitAction` and its `Bucket`s
- the request's parameter map

Each of those methods is proved against a function on values. Properties are then proved about that function.

Two choices follow the code closely:

- `a.diff(b)` lists the changes that turn `b` into `a`, so the round trip is `b.patch(a.diff(b))`. The test `testDiff1` applies it that way.
- The Elasticsearch `wo` operator translates to null (ElasticsearchQuery.java:159-168).

## Model

| member | source | states |
|---|---|---|
| JsonValues.GetPut | src/main/java/io/inversion/cloud/model/JSNode.java:346-383 | after `put(k, v)`, `get` of any casing of `k` gives `v`; every other key reads as before |
| JsonValues.GetRemoveKey | src/main/java/io/inversion/cloud/model/JSNode.java:400-407 | after `remove(k)`, every casing of `k` reads as null; every other key reads as before |
| JsonValues.PutKeepsKeys | src/main/java/io/inversion/cloud/model/JSNode.java:379-383 | `put` keeps names unique; an existing key keeps its position and takes the new name and value; a new key is appended |
| JsonValues.RemoveKeyUnique | src/main/java/io/inversion/cloud/model/JSNode.java:433-440 | `remove` keeps names unique and drops exactly one entry when the key is present, none otherwise |
| JsonValues.RemoveKeyKeepsOthers | src/main/java/io/inversion/cloud/model/JSNode.java:400-407 | what remains after `remove` is exactly the properties whose names differ from the key |
| JsonValues.PutFirstSpec | src/main/java/io/inversion/cloud/model/JSNode.java:365-376 | `putFirst` puts the property first, the others follow in their old order, names stay unique, and `get` reads the new value |
| JsonValues.KeySet | src/main/java/io/inversion/cloud/model/JSNode.java:410-420 | the key set is the property names in order, with their last-put casing |
| JsonValues.IndexOf | src/main/java/io/inversion/cloud/model/JSNode.java:346-356 | the position of the first property whose name equals the key ignoring case, or -1 when no name does |
| JsonValues.FindInMissing | src/main/java/io/inversion/cloud/model/JSNode.java:251-263 | once a path segment is missing, `find` of any longer path is null |
| JsonValues.FindInConcat | src/main/java/io/inversion/cloud/model/JSNode.java:251-263 | finding a path in two steps is the same as finding it at once |
| JsonValues.CollectStar | src/main/java/io/inversion/cloud/model/JSNode.java:276-343 | `collect` with a trailing `*` yields one value per property: the same multiset as `values()` |
| JsonValues.CollectAgreesWithFind | src/main/java/io/inversion/cloud/model/JSNode.java:270-343 | without wildcards, `collect` yields the value `find` reaches when it is present, and nothing otherwise |
| JsonNode.JSNode.Put | src/main/java/io/inversion/cloud/model/JSNode.java:379-383 | the property list becomes the value-level `Put`; the result is the replaced property; unique keys are kept |
| JsonNode.JSNode.PutFirst | src/main/java/io/inversion/cloud/model/JSNode.java:365-376 | the property list becomes the value-level `PutFirst`; the new property is first; the result is null |
| JsonNode.JSNode.Remove | src/main/java/io/inversion/cloud/model/JSNode.java:400-407 | the key is gone afterwards, and the result is the value it had |
| JsonNode.JSNode.RemoveProperty | src/main/java/io/inversion/cloud/model/JSNode.java:433-440 | the key is gone afterwards, and the result is the property removed, if any |
| JsonNode.JSNode.Find | src/main/java/io/inversion/cloud/model/JSNode.java:251-263 | the walk over the dotted path computes the value-level `Find` |
| JsonNode.Walk | src/main/java/io/inversion/cloud/model/JSNode.java:254-262 | stepping down segment by segment gives `FindIn`: null once a segment is missing, a failure on stepping into a value that is not a node |
| JsonNode.JSNode.FindInt | src/main/java/io/inversion/cloud/model/JSNode.java:223-230 | -1 when `find` gives null, the converted value otherwise; a failure of `find` is passed on |
| JsonNode.JSNode.FindBoolean | src/main/java/io/inversion/cloud/model/JSNode.java:232-239 | false when `find` gives null, the converted value otherwise; a failure of `find` is passed on |
| JsonNode.JSNode.Collect | src/main/java/io/inversion/cloud/model/JSNode.java:270-274 | computes the value-level `Collect`; an empty path fails |
| JsonNode.CollectInto | src/main/java/io/inversion/cloud/model/JSNode.java:276-343 | the recursive `collect` appends exactly `CollectIn` to the list it is given |
| JsonNode.JSNode.Diff | src/main/java/io/inversion/cloud/model/JSNode.java:72-81 | the patch list is `DiffProps(this, against)` from the root path |
| JsonNode.DiffPropsInto | src/main/java/io/inversion/cloud/model/JSNode.java:83-105 | the node-level `diff` appends the own-key entries, then one removal per key only the argument has |
| JsonNode.DiffValueInto | src/main/java/io/inversion/cloud/model/JSNode.java:107-133 | the value-level `diff` appends `DiffValue` |
| JsonNode.JSNode.Patch | src/main/java/io/inversion/cloud/model/JSNode.java:135-179 | succeeds exactly when `ApplyAll` does, and then leaves its result; on failure, a prefix of the list stays applied; unique keys are kept |
| JsonPatch.ApplyAtSucceedsIffParentIsNode | src/main/java/io/inversion/cloud/model/JSNode.java:135-179 | one patch entry succeeds exactly when `find` of its parent path reaches a node |
| JsonPatch.FindAfterApplyAt | src/main/java/io/inversion/cloud/model/JSNode.java:135-179 | after an entry succeeds, `find` of its path reads the value put, or null after a `remove` |
| JsonPatch.ApplyAtFrame | src/main/java/io/inversion/cloud/model/JSNode.java:135-179 | an entry leaves every other top-level key as it was |
| JsonPatch.ApplyAllWellFormed | src/main/java/io/inversion/cloud/model/JSNode.java:135-179 | patching with well-formed values keeps keys unique in every node |
| JsonPatch.DiffSelfEmpty | src/main/java/io/inversion/cloud/model/JSNode.java:83-133 | a document's diff against itself is empty |
| JsonPatch.DiffPropsPaths | src/main/java/io/inversion/cloud/model/JSNode.java:83-133 | every entry `diff` produces below a path targets a path that starts with it |
| JsonRoundTrip.DiffThenPatch | inversion-api/src/test/java/io/inversion/cloud/model/TestJSNode.java:154-167 | `b.patch(a.diff(b))` succeeds, and afterwards `find` shows at every path what it shows in `a` (documents whose keys are non-empty, trimmed and dot-free) |
| JsonRoundTrip.RoundTripS | src/main/java/io/inversion/cloud/model/JSNode.java:72-179 | the same round trip on key-list paths: every key of the result reads like the same key of `a` |
| JsonRoundTrip.RenderDiffProps | src/main/java/io/inversion/cloud/model/JSNode.java:83-105 | the dotted paths `diff` writes are the key lists joined with dots |
| JsonRoundTrip.ApplyAllDotted | src/main/java/io/inversion/cloud/model/JSNode.java:135-179 | `patch` takes those dotted paths apart into the same key lists |
| JsonRoundTrip.ApplyAllSPrefixed | src/main/java/io/inversion/cloud/model/JSNode.java:135-179 | entries below key `k` change only the node under `k` |
| RqlWhere.Transform | inversion-api/src/main/java/io/inversion/cloud/rql/Where.java:61-132 | every failure is a 400; the lemmas below say when it fails and what it builds |
| RqlWhere.TransformOk | inversion-api/src/main/java/io/inversion/cloud/rql/Where.java:61-132 | a successful transform leaves no `_key`, and only where functions when the root is one |
| RqlWhere.TransformOkIsClean | inversion-api/src/main/java/io/inversion/cloud/rql/Where.java:65-73 | a transform succeeds only when every non-leaf term below the root is a where function |
| RqlWhere.ForeignTokenRejected | inversion-api/src/main/java/io/inversion/cloud/rql/Where.java:65-73 | a non-leaf term outside the where-function list makes the transform fail with 400 |
| RqlWhere.TransformIdentity | inversion-api/src/main/java/io/inversion/cloud/rql/Where.java:61-132 | a tree with only where functions and no `_key` is returned unchanged |
| RqlWhere.KeyWithoutIndex | inversion-api/src/main/java/io/inversion/cloud/rql/Where.java:75-82 | `_key` on an index the collection lacks is a 400 |
| RqlWhere.KeySingleColumn | inversion-api/src/main/java/io/inversion/cloud/rql/Where.java:83-96 | on a single-column index, `_key(idx, v1..vn)` becomes `in(col, v1..vn)`; it is `eq` exactly when n = 1 |
| RqlWhere.KeyMultiColumn | inversion-api/src/main/java/io/inversion/cloud/rql/Where.java:97-125 | on a multi-column index, it becomes an `or` of one `and(eq(k, v), ...)` per decoded value, collapsed to the `and` when there is one value |
| RqlWhere.KeyValueNotLeaf | inversion-api/src/main/java/io/inversion/cloud/rql/Where.java:97-125 | a key value that is not a leaf is refused |
| RqlWhere.Where.AddTerm | inversion-api/src/main/java/io/inversion/cloud/rql/Where.java:35-59 | a where function is transformed and recorded, with a root `and` unwrapped into its children; a failure records nothing; other tokens are left to the base builder |
| ElasticsearchQuery.ToJson | inversion-elasticsearch/src/main/java/io/inversion/cloud/action/elastic/ElasticsearchQuery.java:84-218 | a translation exists only for a handled token with two children; the result is null exactly for `wo` |
| ElasticsearchQuery.TokenCaseIgnored | inversion-elasticsearch/src/main/java/io/inversion/cloud/action/elastic/ElasticsearchQuery.java:88 | the token is matched ignoring case |
| ElasticsearchQuery.SameLowerTokenSameJson | inversion-elasticsearch/src/main/java/io/inversion/cloud/action/elastic/ElasticsearchQuery.java:88 | two terms with the same children whose tokens lower-case alike translate to the same clause or the same failure |
| ElasticsearchQuery.RangeClause | inversion-elasticsearch/src/main/java/io/inversion/cloud/action/elastic/ElasticsearchQuery.java:95-106 | `gt`/`ge`/`lt`/`le` become `{"range": {field: {token: value}}}` |
| ElasticsearchQuery.NotEqualNegatesEqual | inversion-elasticsearch/src/main/java/io/inversion/cloud/action/elastic/ElasticsearchQuery.java:107-139 | `ne` is the `eq` clause inside `bool.must_not`, and succeeds exactly when `eq` does |
| ElasticsearchQuery.EqualWildcardIff | inversion-elasticsearch/src/main/java/io/inversion/cloud/action/elastic/ElasticsearchQuery.java:107-139 | `eq` is a `wildcard` exactly when the value holds `*`, otherwise a `term` |
| ElasticsearchQuery.WildcardPatterns | inversion-elasticsearch/src/main/java/io/inversion/cloud/action/elastic/ElasticsearchQuery.java:150-158 | `sw`, `ew` and `w` are the wildcards `v*`, `*v` and `*v*` |
| ElasticsearchQuery.WithoutAndSearch | inversion-elasticsearch/src/main/java/io/inversion/cloud/action/elastic/ElasticsearchQuery.java:159-211 | `wo` translates to null and `search` to a `fuzzy` clause |
| ElasticsearchQuery.UnexpectedToken | inversion-elasticsearch/src/main/java/io/inversion/cloud/action/elastic/ElasticsearchQuery.java:212-213 | any other token fails as an unexpected rql token |
| ElasticsearchQuery.NestedValue | inversion-elasticsearch/src/main/java/io/inversion/cloud/action/elastic/ElasticsearchQuery.java:91 | a nested comparison is translated first and becomes the value; its failure is the result |
| ElasticsearchQuery.GetJson | inversion-elasticsearch/src/main/java/io/inversion/cloud/action/elastic/ElasticsearchQuery.java:73-82 | an empty node when every term translates, otherwise the failure of one of them |
| CosmosSqlQuery.LimitClauseDetermines | inversion-cosmosdb/src/main/java/io/inversion/cloud/action/cosmosdb/CosmosSqlQuery.java:177-186 | the clause always prints both parts, and it determines the clamped offset (>= 0) and limit (> 0, 100 by default) |
| CosmosSqlQuery.AsVariableName | inversion-cosmosdb/src/main/java/io/inversion/cloud/action/cosmosdb/CosmosSqlQuery.java:192-196 | the name is `@`, the key, then digits |
| CosmosSqlQuery.VariableNamesDistinct | inversion-cosmosdb/src/main/java/io/inversion/cloud/action/cosmosdb/CosmosSqlQuery.java:192-196 | for keys that do not end in a digit, the name gives back both the key and the index |
| CosmosSqlQuery.VariableNameCollision | inversion-cosmosdb/src/main/java/io/inversion/cloud/action/cosmosdb/CosmosSqlQuery.java:192-196 | keys ending in a digit can collide: `a1` at index 0 and `a` at index 10 are both `@a11` |
| CosmosSqlQuery.BuildParams | inversion-cosmosdb/src/main/java/io/inversion/cloud/action/cosmosdb/CosmosSqlQuery.java:55-61 | one parameter per bound value, in order, named by `asVariableName` |
| CosmosSqlQuery.ParamNamesUnique | inversion-cosmosdb/src/main/java/io/inversion/cloud/action/cosmosdb/CosmosSqlQuery.java:55-61 | with keys that do not end in digits, parameter names are pairwise distinct |
| CosmosSqlQuery.DefaultSorts | inversion-cosmosdb/src/main/java/io/inversion/cloud/action/cosmosdb/CosmosSqlQuery.java:167-170 | the default sort is `id` ascending, alone |
| CosmosSqlQuery.RewriteColumnsAbsent | inversion-cosmosdb/src/main/java/io/inversion/cloud/action/cosmosdb/CosmosSqlQuery.java:145-157 | text with no quoted column access is left alone |
| CosmosSqlQuery.RewriteColumnsAtStart | inversion-cosmosdb/src/main/java/io/inversion/cloud/action/cosmosdb/CosmosSqlQuery.java:145-157 | `"t"."c"` becomes `t["c"]`, and the text after it follows |
| CosmosSqlQuery.RewriteColumnsSkip | inversion-cosmosdb/src/main/java/io/inversion/cloud/action/cosmosdb/CosmosSqlQuery.java:145-157 | text before the leftmost column access is copied unchanged |
| CosmosSqlQuery.OneLine | inversion-cosmosdb/src/main/java/io/inversion/cloud/action/cosmosdb/CosmosSqlQuery.java:52-53 | the statement has no carriage return or newline, and every other non-space character survives |
| CosmosSqlQuery.SinglePartitionWhenFirstTermIsKey | inversion-cosmosdb/src/main/java/io/inversion/cloud/action/cosmosdb/CosmosSqlQuery.java:66-80 | a query whose first where term is `eq` on the partition column stays in one partition |
| CosmosSqlQuery.NoKeyTermMeansCrossPartition | inversion-cosmosdb/src/main/java/io/inversion/cloud/action/cosmosdb/CosmosSqlQuery.java:66-80 | with no `eq` on the partition column anywhere, the query crosses partitions |
| CosmosSqlQuery.CrossPartition | inversion-cosmosdb/src/main/java/io/inversion/cloud/action/cosmosdb/CosmosSqlQuery.java:66-80 | without a partition-key index the query crosses partitions; an index without columns is the only failure; it stays in one only when a root where term is `eq` on the key column |
| CosmosSqlQuery.SinglePartitionIff | inversion-cosmosdb/src/main/java/io/inversion/cloud/action/cosmosdb/CosmosSqlQuery.java:66-80 | with a key column, the decision always succeeds, and the query stays in one partition exactly when the first `eq` term on that column, searched depth first, is a root term |
| CosmosSqlQuery.FindTermRootIff | inversion-cosmosdb/src/main/java/io/inversion/cloud/action/cosmosdb/CosmosSqlQuery.java:66-80 | `findTerm` says "found at the root" exactly when some root term matches and no earlier root term holds a match anywhere |
| CosmosSqlQuery.PrintLimitClause | inversion-cosmosdb/src/main/java/io/inversion/cloud/action/cosmosdb/CosmosSqlQuery.java:177-186 | the clause starts with `OFFSET `; `LimitClauseDetermines` shows what it carries |
| CosmosSqlQuery.ToSql | inversion-cosmosdb/src/main/java/io/inversion/cloud/action/cosmosdb/CosmosSqlQuery.java:145-157 | the three rewrites in source order: `"t".*` to `*`, `"t"."c"` to `t["c"]`, then every remaining `"t"` to `t`; the lemmas below state what they give |
| CosmosSqlQuery.ToSqlColumnAccess | inversion-cosmosdb/src/main/java/io/inversion/cloud/action/cosmosdb/CosmosSqlQuery.java:145-157 | `"t"."c"` becomes `t["c"]` when the column is named differently from the table |
| CosmosSqlQuery.ToSqlColumnNamedLikeTable | inversion-cosmosdb/src/main/java/io/inversion/cloud/action/cosmosdb/CosmosSqlQuery.java:154 | as written, a column named like its table, `"t"."t"`, becomes `t[t]`: the third rewrite strips the quotes the second one wrote |
| CosmosSqlQuery.ToSqlIntended | inversion-cosmosdb/src/main/java/io/inversion/cloud/action/cosmosdb/CosmosSqlQuery.java:145-157 | the corrected rewrite: one left-to-right pass that never rewrites its own output |
| CosmosSqlQuery.ToSqlIntendedColumnAccess | inversion-cosmosdb/src/main/java/io/inversion/cloud/action/cosmosdb/CosmosSqlQuery.java:145-157 | the corrected rewrite turns every `"t"."c"` into `t["c"]`, a column named like the table included, and goes on after it |
| CosmosSqlQuery.ToSqlIntendedStar | inversion-cosmosdb/src/main/java/io/inversion/cloud/action/cosmosdb/CosmosSqlQuery.java:149 | the corrected rewrite turns `"t".*` into `*` |
| CosmosSqlQuery.ToSqlIntendedUnquoted | inversion-cosmosdb/src/main/java/io/inversion/cloud/action/cosmosdb/CosmosSqlQuery.java:145-157 | text without the quote character is left alone |
| CosmosSqlQuery.StripSystemKeys | inversion-cosmosdb/src/main/java/io/inversion/cloud/action/cosmosdb/CosmosSqlQuery.java:119-123 | the row keeps exactly its properties not starting with `_`, in order |
| CosmosSqlQuery.WithoutSystemKeys | inversion-cosmosdb/src/main/java/io/inversion/cloud/action/cosmosdb/CosmosSqlQuery.java:119-123 | no `_` key remains, and every other property does |
| ElasticDbGetAction.CountPagesWithin | inversion-elasticsearch/src/main/java/io/inversion/cloud/action/elastic/v03x/ElasticDbGetAction.java:136-142 | the loop stops at the number of whole pages that fit in the window |
| ElasticDbGetAction.PagesWithinIsLargest | inversion-elasticsearch/src/main/java/io/inversion/cloud/action/elastic/v03x/ElasticDbGetAction.java:136-142 | no larger page count fits in the window |
| ElasticDbGetAction.PagesWithinUnique | inversion-elasticsearch/src/main/java/io/inversion/cloud/action/elastic/v03x/ElasticDbGetAction.java:136-142 | the count is the only one with both window bounds |
| ElasticDbGetAction.AdjustPage | inversion-elasticsearch/src/main/java/io/inversion/cloud/action/elastic/v03x/ElasticDbGetAction.java:122-145 | the wanted page when it lies inside the window; going backwards past it, the last page inside; otherwise the requested page |
| ElasticDbGetAction.TakeWantedPage | inversion-elasticsearch/src/main/java/io/inversion/cloud/action/elastic/v03x/ElasticDbGetAction.java:108-118 | takes `wantedpage` off the request; the `start` and `prevstart` cursors are dropped exactly when it points before `pagenum` |
| ElasticDbGetAction.Request.RemoveParam | inversion-elasticsearch/src/main/java/io/inversion/cloud/action/elastic/v03x/ElasticDbGetAction.java:108-118 | the parameter is removed and its value returned when present |
| ElasticDbGetAction.SearchUrlSegments | inversion-elasticsearch/src/main/java/io/inversion/cloud/action/elastic/v03x/ElasticDbGetAction.java:325-345 | after the db URL come the index, then the type (`_doc` by default, none for `no-type`), then `_search`; the JSON content-type header is appended |
| ElasticDbGetAction.IndexAndType | inversion-elasticsearch/src/main/java/io/inversion/cloud/action/elastic/v03x/ElasticDbGetAction.java:325-345 | the index and type part of the URL; `SearchUrlSegments` states its shape |
| ElasticDbGetAction.SearchUrlAndHeaders | inversion-elasticsearch/src/main/java/io/inversion/cloud/action/elastic/v03x/ElasticDbGetAction.java:325-345 | the URL starts with the db URL and the table, and the headers are the given ones plus the JSON content type |
| ElasticDbGetAction.SortString | inversion-elasticsearch/src/main/java/io/inversion/cloud/action/elastic/v03x/ElasticDbGetAction.java:478-498 | the start string joins one entry per sort field with commas |
| ElasticDbGetAction.SortEntry | inversion-elasticsearch/src/main/java/io/inversion/cloud/action/elastic/v03x/ElasticDbGetAction.java:478-498 | a field's value lower-cased, `[NULL]` when missing, or the source itself when it is a string |
| ElasticDbGetAction.SortStringSplits | inversion-elasticsearch/src/main/java/io/inversion/cloud/action/elastic/v03x/ElasticDbGetAction.java:478-498 | splitting the start string on commas gives back the entries when none holds a comma |
| ElasticDbGetAction.PageCount | inversion-elasticsearch/src/main/java/io/inversion/cloud/action/elastic/v03x/ElasticDbGetAction.java:358-371 | the ceiling of hits over size, and Java's int saturation of infinity when the size is 0 |
| ElasticDbGetAction.PageCountIsLeast | inversion-elasticsearch/src/main/java/io/inversion/cloud/action/elastic/v03x/ElasticDbGetAction.java:358-371 | the page count is the least count that covers every hit |
| ElasticDbGetAction.QueryTerms | inversion-elasticsearch/src/main/java/io/inversion/cloud/action/elastic/v03x/ElasticDbGetAction.java:390-397 | the links keep exactly the where terms that do not mention `tenantid`, in order |
| ElasticDbGetAction.BuildMeta | inversion-elasticsearch/src/main/java/io/inversion/cloud/action/elastic/v03x/ElasticDbGetAction.java:354-476 | builds the meta block that `MetaOf` defines |
| ElasticDbGetAction.BuildUrl | inversion-elasticsearch/src/main/java/io/inversion/cloud/action/elastic/v03x/ElasticDbGetAction.java:381-407 | builds the link prefix that `BaseUrl` defines |
| ElasticDbGetAction.BuildLinks | inversion-elasticsearch/src/main/java/io/inversion/cloud/action/elastic/v03x/ElasticDbGetAction.java:410-471 | builds the `prev` and `next` links that `Links` defines |
| ElasticDbGetAction.MetaPaging | inversion-elasticsearch/src/main/java/io/inversion/cloud/action/elastic/v03x/ElasticDbGetAction.java:358-371 | page -1 is page 1, a negative size is `maxRows`, and the page count is the ceiling |
| ElasticDbGetAction.NoLinksWithoutApiUrl | inversion-elasticsearch/src/main/java/io/inversion/cloud/action/elastic/v03x/ElasticDbGetAction.java:379-473 | without an `apiUrl` both links stay null |
| ElasticDbGetAction.NextIffMorePages | inversion-elasticsearch/src/main/java/io/inversion/cloud/action/elastic/v03x/ElasticDbGetAction.java:410-470 | `next` exists exactly when there is an `apiUrl` and the page is not the last |
| ElasticDbGetAction.LinksInsideWindow | inversion-elasticsearch/src/main/java/io/inversion/cloud/action/elastic/v03x/ElasticDbGetAction.java:410-414 | inside the window, `prev` exists exactly when there is an earlier page and `next` exactly when there are more pages; both are plain page links |
| ElasticDbGetAction.NextBeyondWindow | inversion-elasticsearch/src/main/java/io/inversion/cloud/action/elastic/v03x/ElasticDbGetAction.java:467-470 | beyond the window, `next` carries the last hit's sort values as `start` and the current cursor as `prevStart` |
| ElasticDbGetAction.LinksNameAdjacentPages | inversion-elasticsearch/src/main/java/io/inversion/cloud/action/elastic/v03x/ElasticDbGetAction.java:410-471 | every link names the page before or after the current one |
| ElasticDbGetAction.SecondPagePrev | inversion-elasticsearch/src/main/java/io/inversion/cloud/action/elastic/v03x/ElasticDbGetAction.java:424-465 | on page 2 beyond the window, `prev` goes to page 1 without a cursor |
| ElasticDbGetAction.CreateData | inversion-elasticsearch/src/main/java/io/inversion/cloud/action/elastic/v03x/ElasticDbGetAction.java:500-527 | one element per hit in order, or the failure of the first hit that fails (every earlier hit converts) |
| ElasticDbGetAction.OneSourceProjects | inversion-elasticsearch/src/main/java/io/inversion/cloud/action/elastic/v03x/ElasticDbGetAction.java:500-527 | with one source requested, an element is that field of the hit's `_source` |
| ElasticDbGetAction.AllTagsMeta | inversion-elasticsearch/src/main/java/io/inversion/cloud/action/elastic/v03x/ElasticDbGetAction.java:500-527 | an `all` request returns the `_source` with a `_meta` holding the hit's index and type, and every other key unchanged |
| ApiModel.Api.constructor | inversion-api/src/main/java/io/inversion/cloud/model/Api.java:62-66 | the name doubles as the api code; all lists start empty |
| ApiModel.Api.ApiCode | inversion-api/src/main/java/io/inversion/cloud/model/Api.java:363-366 | the api code, or the name when none is set |
| ApiModel.Api.AccountCode | inversion-api/src/main/java/io/inversion/cloud/model/Api.java:380-383 | the account code if set, else the api code if set, else the api name |
| ApiModel.Api.WithCollection | inversion-api/src/main/java/io/inversion/cloud/model/Api.java:170-182 | link tables and excluded collections are skipped; a collection is listed once; nothing else changes |
| ApiModel.Api.WithDb | inversion-api/src/main/java/io/inversion/cloud/model/Api.java:232-248 | a new db is listed and its collections registered in order; a known db changes nothing |
| ApiModel.Api.WithCollections | inversion-api/src/main/java/io/inversion/cloud/model/Api.java:238-241 | the loop registers the collections in order, as `AddCollections` does; the other lists are untouched |
| ApiModel.Api.WithAction | inversion-api/src/main/java/io/inversion/cloud/model/Api.java:327-336 | an action is listed once |
| ApiModel.Api.WithEndpoint | inversion-api/src/main/java/io/inversion/cloud/model/Api.java:290-312 | a new endpoint goes before the first one with a strictly greater order; a registered one changes nothing; the list stays sorted and free of duplicates |
| ApiModel.InsertByOrderSorted | inversion-api/src/main/java/io/inversion/cloud/model/Api.java:290-312 | insertion keeps the endpoints sorted by order |
| ApiModel.InsertByOrderStable | inversion-api/src/main/java/io/inversion/cloud/model/Api.java:290-312 | insertion is stable: removing the new endpoint gives the old list back, and it lands after every endpoint of equal order |
| ApiModel.AddCollectionsMembers | inversion-api/src/main/java/io/inversion/cloud/model/Api.java:232-248 | after registering, a collection is listed exactly when it was before or is a new one that is not ignored |
| ApiModel.AddCollectionsExtends | inversion-api/src/main/java/io/inversion/cloud/model/Api.java:170-182 | registering only appends |
| ApiModel.Api.GetCollection | inversion-api/src/main/java/io/inversion/cloud/model/Api.java:189-198 | the first collection whose collection name or table name equals the name ignoring case; none exactly when no collection matches |
| ApiModel.Api.GetDb | inversion-api/src/main/java/io/inversion/cloud/model/Api.java:200-211 | none for a null name; otherwise the first db whose name matches ignoring case |
| ApiModel.Api.Startup | inversion-api/src/main/java/io/inversion/cloud/model/Api.java:68-103 | a started or starting api is left alone, nested calls included; otherwise the api ends started and not starting |
| Sequences.AddAllOnceSpec | inversion-api/src/main/java/io/inversion/cloud/model/Api.java:175-176 | adding values that are not yet present keeps the old list as a prefix, adds each new value once, and never creates a duplicate |
| SqlSuggest.Sanitize | inversion-api/src/main/java/io/inversion/cloud/action/sql/SqlSuggestAction.java:67-78 | the search text has no backtick or quote, and is empty when the parameter is missing or empty |
| SqlSuggest.SanitizeKeeps | inversion-api/src/main/java/io/inversion/cloud/action/sql/SqlSuggestAction.java:67-78 | every other character survives exactly when trimming keeps it |
| SqlSuggest.SqlSuggestAction.SetWhitelist | inversion-api/src/main/java/io/inversion/cloud/action/sql/SqlSuggestAction.java:131-139 | the whitelist becomes the lower-cased entries, all of them lower-case |
| SqlSuggest.SqlSuggestAction.WithWhitelist | inversion-api/src/main/java/io/inversion/cloud/action/sql/SqlSuggestAction.java:147-156 | the same, on every comma-separated piece of the arguments |
| SqlSuggest.WhitelistIgnoresCase | inversion-api/src/main/java/io/inversion/cloud/action/sql/SqlSuggestAction.java:96 | a property passes the lower-cased whitelist exactly when some entry equals it ignoring case |
| SqlSuggest.SubSelect | inversion-api/src/main/java/io/inversion/cloud/action/sql/SqlSuggestAction.java:94-110 | a sub-select exists only for a whitelisted, dotted property; otherwise a 400 |
| SqlSuggest.BuildSql | inversion-api/src/main/java/io/inversion/cloud/action/sql/SqlSuggestAction.java:88-116 | the loop builds the query that `SelectSql` defines, or stops at its first failure |
| SqlSuggest.MapResultOk | inversion-api/src/main/java/io/inversion/cloud/action/sql/SqlSuggestAction.java:92-114 | the sub-selects succeed exactly when each property's does, and then they come in property order |
| SqlSuggest.SelectSqlShape | inversion-api/src/main/java/io/inversion/cloud/action/sql/SqlSuggestAction.java:88-116 | a query is built only from whitelisted, dotted properties: one sub-select each, joined with `UNION`, between the header and the ordering |
| SqlSuggest.SubSelectText | inversion-api/src/main/java/io/inversion/cloud/action/sql/SqlSuggestAction.java:104-110 | each sub-select reads the first property's table and its own column |
| SqlSuggest.Run | inversion-api/src/main/java/io/inversion/cloud/action/sql/SqlSuggestAction.java:46-124 | computes `Suggest`: the request checks in source order, then the query; the property parameter is removed from the request first, the search parameter once the property checks pass, and `tenantId` only on success |
| SqlSuggest.RunChecked | inversion-api/src/main/java/io/inversion/cloud/action/sql/SqlSuggestAction.java:61-124 | once the property list is off the request: a rejected list leaves the request alone; otherwise the search parameter comes off, and `tenantId` too on success |
| SqlSuggest.RunAccepted | inversion-api/src/main/java/io/inversion/cloud/action/sql/SqlSuggestAction.java:67-124 | after the checks: computes `SuggestFor` on the cleaned search text it takes off the request, and takes `tenantId` off only on success |
| SqlSuggest.RunFor | inversion-api/src/main/java/io/inversion/cloud/action/sql/SqlSuggestAction.java:80-123 | computes `SuggestFor` |
| SqlSuggest.BadPropertiesRejected | inversion-api/src/main/java/io/inversion/cloud/action/sql/SqlSuggestAction.java:59-65 | a missing or empty property list is a 400, and so is one without a dot |
| SqlSuggest.UnknownCollection | inversion-api/src/main/java/io/inversion/cloud/action/sql/SqlSuggestAction.java:80-86 | an unknown collection for the first property is a 404 naming it |
| SqlSuggest.AcceptedPropertiesNotEmpty | inversion-api/src/main/java/io/inversion/cloud/action/sql/SqlSuggestAction.java:59-82 | a property list that passes the checks explodes to at least one piece |
| SqlSuggest.UndottedFirstPropertyFails | inversion-api/src/main/java/io/inversion/cloud/action/sql/SqlSuggestAction.java:59-82 | the dot check reads the whole list: `x,orders.name` passes it, and the first piece without a dot then fails as a `StringIndexOutOfBoundsException` |
| SqlSuggest.SuggestAccepted | inversion-api/src/main/java/io/inversion/cloud/action/sql/SqlSuggestAction.java:59-82 | an accepted property list goes on to `SuggestFor` with the exploded pieces and the cleaned search text |
| SqlSuggest.UndottedFirst | inversion-api/src/main/java/io/inversion/cloud/action/sql/SqlSuggestAction.java:80-82 | a first piece without a dot makes the suggestion fail with a 500 |
| SqlSuggest.SuggestionUsesFirstTable | inversion-api/src/main/java/io/inversion/cloud/action/sql/SqlSuggestAction.java:80-123 | a suggestion is the query over the first property's table, handed to that collection's db |
| RateLimit.HitStep | inversion-api/src/main/java/io/inversion/cloud/action/security/RateLimitAction.java:102-133 | one hit with the total counter counting up: an expired bucket restarts its window at `now` |
| RateLimit.ExpiredHitResets | inversion-api/src/main/java/io/inversion/cloud/action/security/RateLimitAction.java:104-105 | a hit on an expired bucket starts from a fresh window at `now` |
| RateLimit.TotalLimitEnforced | inversion-api/src/main/java/io/inversion/cloud/action/security/RateLimitAction.java:107-116 | within a window, once the total has reached its limit every further hit is refused, and each one is still counted |
| RateLimit.TotalLimitBoundsRun | inversion-api/src/main/java/io/inversion/cloud/action/security/RateLimitAction.java:107-116 | within one window, at most the limit minus the hits already counted are accepted |
| RateLimit.UserLimitEnforced | inversion-api/src/main/java/io/inversion/cloud/action/security/RateLimitAction.java:118-131 | within a window, once a client has used its hits every further hit of it is refused |
| RateLimit.OtherClientsUntouched | inversion-api/src/main/java/io/inversion/cloud/action/security/RateLimitAction.java:118-131 | a hit in the same window changes no other client's count |
| RateLimit.HitStepAsWritten | inversion-api/src/main/java/io/inversion/cloud/action/security/RateLimitAction.java:102-133 | the hit as the source writes it, with the total counter counting down |
| RateLimit.TotalNeverRefusesAsWritten | inversion-api/src/main/java/io/inversion/cloud/action/security/RateLimitAction.java:107-116 | as written, with a total limit and no user limit, a counter at or below 0 lets every hit through and stays at or below 0 |
| RateLimit.TotalLimitZeroCounterexample | inversion-api/src/main/java/io/inversion/cloud/action/security/RateLimitAction.java:107-116 | with a total limit of 0, the source accepts the first hit and the corrected step refuses it |
| RateLimit.BucketKeyAsWritten | inversion-api/src/main/java/io/inversion/cloud/action/security/RateLimitAction.java:62 | the key leaves out the minutes, which only size the buffer; a negative size throws |
| RateLimit.BucketKeyCollisionAsWritten | inversion-api/src/main/java/io/inversion/cloud/action/security/RateLimitAction.java:62 | configurations that differ only in minutes share a key and so a bucket |
| RateLimit.BucketKeyInjective | inversion-api/src/main/java/io/inversion/cloud/action/security/RateLimitAction.java:62 | the corrected key determines all three limits |
| RateLimit.Bucket.constructor | inversion-api/src/main/java/io/inversion/cloud/action/security/RateLimitAction.java:95-100 | the window is minutes times 60000 ms; the counters start at zero |
| RateLimit.Bucket.Reset | inversion-api/src/main/java/io/inversion/cloud/action/security/RateLimitAction.java:140-145 | the window restarts at `now` with no hits |
| RateLimit.Bucket.Hit | inversion-api/src/main/java/io/inversion/cloud/action/security/RateLimitAction.java:102-133 | the answer and the new bucket state are those of `HitStepAsWritten`, the source's `hit` with the total counted down |
| RateLimit.RateLimitAction.Run | inversion-api/src/main/java/io/inversion/cloud/action/security/RateLimitAction.java:55-83 | a negative minutes value is a 500 and changes nothing; otherwise the bucket under the as-written key `-u-t` is found or created, so configurations that differ only in minutes share one; a refused hit is a 429 "slow down your request rate"; buckets are only ever added, and every other bucket's counters stay unchanged |
| AbstractHandler.DescendFromRoot | src/main/java/io/rcktapp/api/service/AbstractHandler.java:65 | from the root path `.`, a child's path is its lower-cased keys, each followed by a dot |
| AbstractHandler.MatchedObjectFirst | src/main/java/io/rcktapp/api/service/AbstractHandler.java:55-60 | an object whose path matches is collected before anything below it |
| AbstractHandler.ArrayKeepsPath | src/main/java/io/rcktapp/api/service/AbstractHandler.java:47-54 | an array's object items are searched at the array's own path |
| AbstractHandler.ChildAtKeyPath | src/main/java/io/rcktapp/api/service/AbstractHandler.java:62-67 | an object child is collected when its path, one key deeper, matches |
| AbstractHandler.NestedArraySearched | src/main/java/io/rcktapp/api/service/AbstractHandler.java:47-54 | an array directly inside an array is searched like the inner array itself, at the same path |
| AbstractHandler.MatchesObjects | src/main/java/io/rcktapp/api/service/AbstractHandler.java:45-69 | what the recursive `find` reaches is objects only: no array, scalar or null is ever collected |
| AbstractHandler.FindInto | src/main/java/io/rcktapp/api/service/AbstractHandler.java:45-69 | the recursive `find` adds to `found`, once each, exactly what `Matches` reaches |
| AbstractHandler.Find | src/main/java/io/rcktapp/api/service/AbstractHandler.java:32-43 | searches every comma-separated path from `.`, collecting each object once |
| AbstractHandler.FindResult | src/main/java/io/rcktapp/api/service/AbstractHandler.java:32-69 | `find` returns objects only, each at most once, and exactly those some target path reaches |
| AbstractHandler.SplitParam | src/main/java/io/rcktapp/api/service/AbstractHandler.java:116-132 | computes `SplitParamOf` from the parameter map |
| AbstractHandler.SplitParamSpec | src/main/java/io/rcktapp/api/service/AbstractHandler.java:116-132 | no duplicates, and no empty, untrimmed, comma-holding or upper-case item; a string is in the set exactly when some comma-separated piece trims and lower-cases to it |
| AbstractHandler.NextPathJoins | src/main/java/io/rcktapp/api/service/AbstractHandler.java:134-137 | extending a dotted path one segment at a time builds the dotted join of the segments |
| AbstractHandler.ReservedKeysIgnoreCase | src/main/java/io/rcktapp/api/service/AbstractHandler.java:71-108 | a reserved key answered by the api or a present user means the same in any case |
| AbstractHandler.OtherKeysFromChain | src/main/java/io/rcktapp/api/service/AbstractHandler.java:110-113 | any other key is the chain's value of that exact name |
| AbstractHandler.UserKeysWithoutUser | src/main/java/io/rcktapp/api/service/AbstractHandler.java:89-113 | without a user, the user's names fall through to the chain |
| AbstractHandler.ApiKeysNeverFromChain | src/main/java/io/rcktapp/api/service/AbstractHandler.java:73-88 | the api's names never reach the chain: `apiId` and `accountId` are the ids in decimal, `apiCode` and `accountCode` the api's codes, missing ones included |
| AbstractHandler.UserKeysWithUser | src/main/java/io/rcktapp/api/service/AbstractHandler.java:89-108 | with a user, the user's names never reach the chain: `tenantId` and `userId` are the ids in decimal, `tenantCode` and `username` the user's values |
| AbstractHandler.GetValue | src/main/java/io/rcktapp/api/service/AbstractHandler.java:71-114 | the value of a request variable; the four lemmas above state it key by key |
| AbstractHandler.NextPath | src/main/java/io/rcktapp/api/service/AbstractHandler.java:134-137 | the path one segment deeper; `NextPathJoins` states what repeated calls build |

## Left out

- JSON arrays (`JSArray`) are leaves of `JSNode` documents. `diff` compares them whole, and `find`/`collect` do not descend into them; `JSArray` is not part of this model. `AbstractHandler.find` does walk arrays, and its model does.
- AbstractHandler.Matches: the `JSObject` and `JSArray` classes it works on are not part of this model. A `JSArray` is taken to be a `JSObject` too, as the order of the two `instanceof` tests at AbstractHandler.java:47-55 suggests, so an array inside an array is searched.
- `patch` copies each value through JSON text before putting it. Values cannot alias here, so the copy is the identity. Jackson parsing, serialisation and `toString` are not modelled.
- JsonRoundTrip.DiffThenPatch: the claim is about what `find` shows at every path. It is not a claim about serialised identity: key order, key casing and null-valued versus missing keys are not carried by the patch list. It needs keys that are non-empty, trimmed and free of dots.
- The values of a `JSNode` come from a `HashMap`, so their order is unspecified. `Values` lists them in property order, and nothing proved depends on that order.
- RQL terms have no parent pointers. The base `Query.addTerm` is modelled as appending to the `Where`'s term list.
- Elasticsearch HTTP calls are not modelled. The reverse query that looks up the previous page's cursor enters `buildMeta` as the `_source` of its last hit, or none.
- PageCount models `(int) Math.ceil((double) hits / size)` exactly for the sizes that occur, with Java's saturation when the size is 0.
- Java `int` overflow is not modelled in `wantedPage * pageSize` or in `limitMinutes * 60000`; integers are unbounded.
- Request parameters are a map with exact keys.
- `ElasticDbGetAction`'s in-place edit of a hit's `_source` (aliasing) is modelled as building a new value.
- ApiModel.Api.Startup: `db.startup`, `removeExcludes` and the engine listeners are outside this model. The dbs' calls back into `startup` are a count.
- The back pointers the registry sets (`withApi`) are not modelled. Registered objects are values compared structurally; their `id` field keeps distinct objects distinct, standing for Java's `Object.equals`.
- `AbstractHandler.find`'s `found.contains` compares values, not object identity.
- These collaborators are not part of this model and enter as parameters:
  - `SqlUtils.check`
  - `Api.getCollection` (for the suggest action)
  - the tenant filter
  - `J.wildcardMatch`
  - `ElasticRql.toInt`
  - a collection's index lookup and `decodeKey`
  - the JSON text of nested nodes
  - the number and boolean conversions of `findInt`/`findBoolean`
- `Utils.explode` and `J.explode` split on the delimiter, trim the pieces and drop empty ones. `Utils.implode` joins its non-empty parts. Their sources are not part of this model.
- `equalsIgnoreCase` and `toLowerCase` are modelled on ASCII letters only.
- Time (`System.currentTimeMillis`) is a parameter. The source takes no lock on the buckets, and the model is sequential.
- SqlSuggest.SuggestFor: an empty exploded property list and a first property without a dot fail as the Java exceptions they would raise. After the checks, the first case cannot happen (`AcceptedPropertiesNotEmpty`). The second can (`UndottedFirstPropertyFails`).
- SqlSuggest.SubSelect: every sub-select uses the first property's table, as the code does. Each property's own collection key is computed and then not used.
- CosmosSqlQuery.FindTerm: `findTerm` lives in the base query class, which is not part of this model. It is modelled as a depth-first search for the first term with that token whose first child is exactly the column, reporting whether that term is a root term.
- CosmosSqlQuery.ToSql: the base class's SQL text is an input. The table name is matched literally. The source puts it unescaped into a regular expression and uses `$1` in the replacement, so a table name holding regular-expression metacharacters, `$` or `\` behaves differently there.
- The multi-tenant test is a parameter: `api.isMultiTenant()` together with the table having the tenant column.

## Findings

| source | as written | input that shows it | evidently intended | confidence | as-written member | corrected member |
|---|---|---|---|---|---|---|
| inversion-api/src/main/java/io/inversion/cloud/action/security/RateLimitAction.java:111 | `totalHits += -1` counts hits downwards, so `totalHits > limitTotalHits` never holds in a fresh window and the total limit never refuses | `limitTotalHits = 0`, `limitUserHits = -1`, a fresh bucket, one hit: accepted | `totalHits += 1`, so the hit that takes the total over the limit is refused | not executed | RateLimit.HitStepAsWritten, RateLimit.TotalNeverRefusesAsWritten, RateLimit.TotalLimitZeroCounterexample | RateLimit.HitStep, RateLimit.TotalLimitEnforced, RateLimit.TotalLimitBoundsRun |
| inversion-api/src/main/java/io/inversion/cloud/action/security/RateLimitAction.java:62 | `new StringBuffer(limitMinutes)` sets the buffer capacity, so the key is `-u-t` without the minutes, and a negative `limitMinutes` throws | `(1, 5, 100)` and `(5, 5, 100)` both give `-5-100` and share one bucket, whose window is the first configuration's | the key `m-u-t` holding all three limits | not executed | RateLimit.BucketKeyAsWritten, RateLimit.BucketKeyCollisionAsWritten | RateLimit.BucketKey, RateLimit.BucketKeyInjective |
| inversion-cosmosdb/src/main/java/io/inversion/cloud/action/cosmosdb/CosmosSqlQuery.java:154 | the third `replace` also rewrites the quotes that the column-access rewrite of line 152 just wrote | a column named like its table: `"orders"."orders"` becomes `orders[orders]` | `orders["orders"]`, as for any other column | not executed | CosmosSqlQuery.ToSql, CosmosSqlQuery.ToSqlColumnNamedLikeTable | CosmosSqlQuery.ToSqlIntended, CosmosSqlQuery.ToSqlIntendedColumnAccess |
