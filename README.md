# Simple PDO Wrapper for SMF: query builder and debug statement in Dafny

This project models two parts of the Simple PDO Wrapper for SMF:

- the fluent SQL query builder `Bugo\PDOSMF\Database`;
- the debugging statement class `Bugo\PDOSMF\DebugPDOStatement`.

It then proves properties about both.

**The builder** (`query_builder.dfy`, module `QueryBuilder`) is a class `Database`. It has the source's fields: `table`, `columns`, `distinct`, `joins`, `wheres`, `groupBy`, `orderBy`, `having`, `limit`, `offset` and `params`.

- **Fluent calls.** Each fluent call is a method with `modifies this`. Its `ensures` states the whole new field record (`Snapshot()`) in terms of the old record.
- **`where`.** `where` is the one call with real structure. It dispatches on the column being empty or an array, and on the number of arguments. Its meaning is the function `WhereSpec`, which recurses through array columns via `WhereEntries`/`WhereEntry`. The method `Database.Where` is proved against it.
- **Renderers.** The `getPrepared*` renderers are pure functions over the fields. `getPreparedWhere` and `getPreparedOrderBy` loop over an accumulator, so they are also methods, proved equal to those functions.
- **Terminal operations.** `get`, `first`, `value`, `find`, `update`, `increment`, `decrement`, `delete` and `insert` are rendered to the SQL text and the parameters they would hand to PDO. Execution itself is not modelled.

**The statement** (`debug_statement.dfy`, module `DebugStatement`) is a class `DebugPdoStatement`:

- `Execute` records the values it is given.
- `DebugQuery` rebuilds the query with every `:name` placeholder replaced by a quoted literal. That replacement is the scan `Reconstruct`.
- `Reconstruct` is proved equal to a reference reading: the query split into text characters and maximal placeholders (`Tokenize`), then substituted piece by piece (`Substitute`).
- The literals are shown to parse back to the bound value.

**PHP semantics** (`php_values.dfy`, module `PhpValues`):

- **Values and arrays.** Values are `Null`, `Int`, `Str` or `Arr`. Arrays are insertion-ordered sequences of key/value entries. Keys are normalised as PHP does: a canonical decimal string becomes an integer key.
- **Array operations.** `$a[$k] = $v` is `Assign`: an existing key keeps its position. `$a[] = $v` is `Append`, and `array_merge` is `Merge`.
- **Library functions.** `ksort`, `implode`, `explode`, `rtrim`, `substr`, `str_replace`, `strtoupper`, `is_numeric` and PHP truthiness are written out.
- **Errors.** The files declare `strict_types=1`, so `substr`/`str_replace` on an integer column throw a `TypeError`. The model reports this as a `thrown` result: the state keeps what earlier calls did.

`query_properties.dfy` (module `QueryProperties`) holds the lemmas that relate several calls.

## Model

| member | source | states |
|---|---|---|
| QueryBuilder.Database.constructor | Sources/PDOSMF/Database.php:33-64 | a new builder has an empty table name, no columns, joins, predicates, grouping or ordering, no having text, no limit or offset, and no parameters |
| QueryBuilder.Database.Table | Sources/PDOSMF/Database.php:108-113 | the table becomes the prefix followed by the name; nothing else changes |
| QueryBuilder.Database.Select | Sources/PDOSMF/Database.php:155-168 | the column list is replaced: by an array argument itself, by all arguments otherwise, by `['*']` when there are none |
| QueryBuilder.Database.Distinct | Sources/PDOSMF/Database.php:175-180 | only the distinct flag changes, to true |
| QueryBuilder.Database.AddSelect | Sources/PDOSMF/Database.php:190-197 | the new columns are array-merged after the existing ones |
| QueryBuilder.Database.SelectRaw | Sources/PDOSMF/Database.php:208-223 | as written: the expression is appended unchanged whatever the bindings, because the test reads the never-set `$binding` (see Findings); then `{db_prefix}` is replaced by the prefix in every non-array column |
| QueryBuilder.Database.Join | Sources/PDOSMF/Database.php:237-244 | exactly one join clause is appended, of the kind asked for; nothing else changes |
| QueryBuilder.Database.LeftJoin | Sources/PDOSMF/Database.php:257-260 | the same as `Join` with kind `left` |
| QueryBuilder.Database.Where | Sources/PDOSMF/Database.php:271-316 | the new state and the thrown flag are those of `WhereSpec`; the array-column loop stops at the first entry that throws |
| QueryBuilder.Database.WhereEach | Sources/PDOSMF/Database.php:277-291 | the loop over an array column leaves the state and the thrown flag of `WhereEntries` over all entries, stopping at the first entry that throws |
| QueryBuilder.Database.WhereAt | Sources/PDOSMF/Database.php:279-287 | one entry becomes `where` on its values (numeric key, array value), on the value alone (numeric key) or on the key and value; state and thrown flag are those of `WhereEntry` |
| QueryBuilder.Database.OrWhere | Sources/PDOSMF/Database.php:328-331 | `where` with boolean `or` |
| QueryBuilder.Database.WhereIn | Sources/PDOSMF/Database.php:344-347 | `where` with operator `IN`, or `NOT IN` when negated |
| QueryBuilder.Database.OrWhereIn | Sources/PDOSMF/Database.php:360-363 | `whereIn` with boolean `or` by default |
| QueryBuilder.Database.WhereNotIn | Sources/PDOSMF/Database.php:375-378 | `where` with operator `NOT IN` |
| QueryBuilder.Database.OrWhereNotIn | Sources/PDOSMF/Database.php:389-392 | `where` with operator `NOT IN` and boolean `or` |
| QueryBuilder.Database.WhereRaw | Sources/PDOSMF/Database.php:404-410 | a raw predicate with the given boolean is appended and the bindings are array-merged into the parameters |
| QueryBuilder.Database.OrWhereRaw | Sources/PDOSMF/Database.php:421-424 | `whereRaw` with boolean `or` |
| QueryBuilder.Database.Having | Sources/PDOSMF/Database.php:437-442 | only the having text changes: the condition is appended, after the boolean when the text was already non-empty |
| QueryBuilder.Database.GroupBy | Sources/PDOSMF/Database.php:452-459 | every argument is appended to the grouping, in order; nothing else changes |
| QueryBuilder.Database.OrderBy | Sources/PDOSMF/Database.php:470-477 | the ordering is assigned under the column's key: an existing column keeps its place and takes the new direction |
| QueryBuilder.Database.Limit | Sources/PDOSMF/Database.php:488-499 | a negative value changes nothing; otherwise the limit is the value, or "value, offset" when the offset is truthy |
| QueryBuilder.Database.Offset | Sources/PDOSMF/Database.php:509-516 | a negative value changes nothing; otherwise the offset is the value |
| QueryBuilder.Database.PreparedColumns | Sources/PDOSMF/Database.php:880-887 | the columns render joined by ", "; an empty list is first set to `['*']` |
| QueryBuilder.Database.PreparedWhere | Sources/PDOSMF/Database.php:900-917 | the accumulator loop computes `WhereText` and changes nothing |
| QueryBuilder.Database.PreparedOrderBy | Sources/PDOSMF/Database.php:938-951 | the accumulator loop computes `OrderByText` |
| QueryBuilder.Database.RenderOrderBy | Sources/PDOSMF/Database.php:938-951 | the loop over the ordering, followed by the trim, equals `OrderByText` |
| QueryBuilder.Database.Get | Sources/PDOSMF/Database.php:122-147 | the SQL is SELECT, distinct, columns, FROM table, joins, where, having, group, order, limit, offset, in that order; the parameters are handed on unchanged; only the default column list is stored |
| QueryBuilder.Database.First | Sources/PDOSMF/Database.php:550-553 | select the columns, limit 1, then `get` |
| QueryBuilder.Database.SingleValue | Sources/PDOSMF/Database.php:539-542 | `value($column)`: select the column, limit 1, then `get` |
| QueryBuilder.Database.Find | Sources/PDOSMF/Database.php:526-529 | `where(uniqueKey, id)` then `first(columns)`; no statement when the `where` throws |
| QueryBuilder.Database.Update | Sources/PDOSMF/Database.php:687-704 | every value is assigned into the parameters; the SQL is "UPDATE t SET k = :k, ..." followed by the WHERE text |
| QueryBuilder.Database.UpdateColumns | Sources/PDOSMF/Database.php:689-693 | the loop yields the SET list `SetColumns` of the values and the parameters with every value assigned, later keys overwriting earlier ones |
| QueryBuilder.Database.Increment | Sources/PDOSMF/Database.php:768-787 | a non-numeric amount builds nothing and changes nothing; otherwise the CASE update with the extra columns bound and the WHERE text appended |
| QueryBuilder.Database.ExtraUpdates | Sources/PDOSMF/Database.php:773-778 | the loop yields one "k = :k" term per extra entry, in order, and the parameters with every extra value assigned |
| QueryBuilder.Database.Decrement | Sources/PDOSMF/Database.php:799-802 | `increment` with the negated amount |
| QueryBuilder.Database.Delete | Sources/PDOSMF/Database.php:811-820 | "DELETE FROM t" followed by the WHERE text; nothing changes |
| QueryBuilder.Database.CollectRows | Sources/PDOSMF/Database.php:648-653 | the nested loops compute the shared SET list and each row's parameters |
| QueryBuilder.Database.CollectRow | Sources/PDOSMF/Database.php:649-652 | the inner loop over one row adds its keys to the SET list and builds that row's parameters |
| QueryBuilder.Database.NormaliseRows | Sources/PDOSMF/Database.php:636-644 | a flat argument is one row; otherwise every row is key-sorted, and a row that is not an array fails |
| QueryBuilder.Database.ExecuteRows | Sources/PDOSMF/Database.php:664-669 | after the execution loop the builder's parameters are the last row's, and nothing else changed |
| QueryBuilder.Database.Insert | Sources/PDOSMF/Database.php:630-677 | an empty argument does nothing; a later row that is not an array fails at `ksort`; otherwise one template over all keys and one parameter set per row, and the last row's parameters are left in the builder |
| QueryBuilder.WhereEntriesStop | Sources/PDOSMF/Database.php:277-291 | once an entry of an array column has thrown, the later entries are not processed |
| QueryBuilder.WhereSpec | Sources/PDOSMF/Database.php:271-316 | `where`, with every arity, array column and TypeError, changes only the predicates and the parameters, and only appends predicates |
| QueryProperties.WhereBindsScalar | Sources/PDOSMF/Database.php:303-311 | a non-null scalar value is bound under the column with '.' replaced by '_', whatever the operator (a null one renders as ""); the predicate's placeholder names exactly that key; every other parameter keeps its value |
| QueryProperties.WhereRebinds | Sources/PDOSMF/Database.php:303-305 | two comparisons on the same column share one placeholder, and the later value is the one bound |
| QueryProperties.WhereTwoArguments | Sources/PDOSMF/Database.php:299-301 | `where(c, v)` is `where(c, '=', v)` |
| QueryProperties.WhereInlinesArray | Sources/PDOSMF/Database.php:303-311 | an array value is inlined as "(v1, v2, ...)", the parameters are untouched, and the column's type does not matter |
| QueryProperties.WhereArrayTwoArguments | Sources/PDOSMF/Database.php:298-308 | `where(c, [v1, v2, ...])` takes "=" as the operator and inlines the array without binding anything |
| QueryProperties.WhereRejectsNonStringColumn | Sources/PDOSMF/Database.php:303-305 | an integer column with a scalar value throws and changes nothing |
| QueryProperties.WhereOneArgument | Sources/PDOSMF/Database.php:293-295 | `where($s)` alone, for any `$s` not starting with '0', compares the first character with `substr($s, 2, 3)`, the up to three characters from the third on (the second is skipped); that text is bound under the first character's key |
| QueryProperties.WhereOneEqualsOne | Sources/PDOSMF/Database.php:294-296 | `where("1=1")` appends "1 = :1" and binds parameter 1 to "1" |
| QueryProperties.WhereArraySplit | Sources/PDOSMF/Database.php:277-291 | an array column is processed in order: its prefix first, then the rest on the state the prefix left, unless the prefix threw; operator and value are ignored |
| QueryProperties.WhereSingleEntry | Sources/PDOSMF/Database.php:277-291 | a string key is `where(key, value)`; a numeric key with a scalar is a one-argument call; with an array it is a positional call; with an empty array it throws |
| QueryProperties.WhereTextConnect | Sources/PDOSMF/Database.php:900-917 | the WHERE text equals the reference definition: the emitted fragments joined, the first after " WHERE " and every later one after its own boolean upper-cased |
| QueryProperties.WhereTextSkipsFalsyRaw | Sources/PDOSMF/Database.php:905-908 | a raw predicate with empty SQL contributes nothing, wherever it stands |
| QueryProperties.WhereTextFirstConnector | Sources/PDOSMF/Database.php:905-912 | the first predicate's boolean is never rendered: it is always preceded by " WHERE " |
| QueryProperties.WhereTextEmpty | Sources/PDOSMF/Database.php:900-917 | the WHERE text is empty exactly when every predicate is raw with empty SQL, and otherwise starts with " WHERE " |
| QueryProperties.OrderByJoined | Sources/PDOSMF/Database.php:938-951 | the ORDER BY text is " ORDER BY " followed by the "column DIRECTION" pairs joined by ", ", and empty when there are none |
| QueryProperties.OrderEntryForms | Sources/PDOSMF/Database.php:470-477 | `orderBy("c")` stores c with the upper-cased direction argument; `orderBy("c d")` stores c with upper(d), ignoring the argument |
| QueryProperties.OrderByOverwrites | Sources/PDOSMF/Database.php:474 | ordering by an existing column overwrites its direction without adding an entry |
| QueryProperties.LimitRendering | Sources/PDOSMF/Database.php:488-499 | a stored limit renders " LIMIT n", or " LIMIT n, o" with a truthy offset; a limit of 0 renders nothing |
| QueryProperties.OffsetRendering | Sources/PDOSMF/Database.php:964-967 | an offset renders " OFFSET n", and nothing for 0 |
| QueryProperties.HavingChain | Sources/PDOSMF/Database.php:437-442 | conditions are chained with their booleans, and the text then renders after " HAVING " |
| QueryProperties.JoinRendering | Sources/PDOSMF/Database.php:237-244 | a join renders "ON (first op second)", or "ON (first)" when there is neither operator nor second operand |
| QueryProperties.MergeLists | Sources/PDOSMF/Database.php:190-197 | `addSelect` of a list after a list gives the concatenated list |
| QueryProperties.ColumnsRendering | Sources/PDOSMF/Database.php:880-887 | the columns of a `select` render as its arguments joined by ", ", and as "*" when there were none |
| QueryProperties.FreshSelect | Sources/PDOSMF/Database.php:142 | on a fresh builder every unset clause renders as nothing: "SELECT * FROM t" |
| QueryProperties.DistinctRendering | Sources/PDOSMF/Database.php:872-875 | `distinct()` changes the SELECT only by "DISTINCT " right after "SELECT " |
| QueryProperties.JoinsInOrder | Sources/PDOSMF/Database.php:892-895 | joins render one after another in the order they were added, and no join renders nothing |
| QueryProperties.HavingRendering | Sources/PDOSMF/Database.php:922-925 | " HAVING h" shows exactly when h is not PHP-empty; "" and "0" render nothing |
| QueryProperties.GroupByChain | Sources/PDOSMF/Database.php:930-933 | successive `groupBy` calls extend one ", "-separated GROUP BY list, and none renders nothing |
| QueryProperties.LimitClosesSelect | Sources/PDOSMF/Database.php:956-959 | LIMIT and OFFSET are the last two clauses: the SELECT is the same text without them followed by their renderings |
| QueryProperties.FirstAppendsLimit | Sources/PDOSMF/Database.php:550-553 | on a builder without limit or offset, `first` only appends " LIMIT 1" to the SELECT |
| QueryProperties.SelectRawIgnoresBindings | Sources/PDOSMF/Database.php:212-213 | as written, bindings have no effect: "price > ?" with 10 bound stays "price > ?" where "price > 10" is meant |
| QueryProperties.SelectRawBindsValues | Sources/PDOSMF/Database.php:208-223 | corrected: a list of bindings adds one bound copy of the expression per value, after the existing columns |
| QueryProperties.BindFillsPlaceholders | Sources/PDOSMF/Database.php:213 | corrected: a bound column keeps no '?' when the value's text has none |
| QueryProperties.AssignAllLookup | Sources/PDOSMF/Database.php:689-693 | after `update`, each updated column's parameter holds its new value and every other parameter is unchanged |
| QueryProperties.UpdateShape | Sources/PDOSMF/Database.php:687-699 | the SET list has one "k = :k" per value, in order |
| QueryProperties.InsertSingleRow | Sources/PDOSMF/Database.php:636-657 | a flat array is a single unsorted row: "INSERT INTO t SET k = :k, ..." with the row as its parameters |
| QueryProperties.InsertRowsSorted | Sources/PDOSMF/Database.php:638-643 | in the multi-row form every row is sorted by key and keeps the same entries |
| QueryProperties.InsertSharedTemplate | Sources/PDOSMF/Database.php:646-657 | rows with the same keys share one template, built from the first row's keys |
| QueryProperties.DeleteAfterWhere | Sources/PDOSMF/Database.php:811-820 | `table(t)->where(c, v)->delete()` renders "DELETE FROM t WHERE c = :c" with c bound to v |
| QueryProperties.IncrementAfterWhere | Sources/PDOSMF/Database.php:768-787 | after `where(c, v)`, `increment` (and so `decrement`) renders the CASE update followed by " WHERE c = :c"; every extra column is bound to its value, and c stays bound to v unless an extra column rebinds it |
| QueryProperties.DebugDeleteShowsValue | Sources/PDOSMF/DebugPDOStatement.php:52-82 | the debug text of that delete shows the literal of v in place of ":c" |
| DebugStatement.DebugPdoStatement.constructor | Sources/PDOSMF/DebugPDOStatement.php:25-27 | a new statement has no recorded values |
| DebugStatement.DebugPdoStatement.Execute | Sources/PDOSMF/DebugPDOStatement.php:35-44 | the given values are recorded; on a driver error the logged text is the message, a newline, and the query rebuilt with these values |
| DebugStatement.DebugPdoStatement.DebugQuery | Sources/PDOSMF/DebugPDOStatement.php:52-61 | unreplaced, it is the query string itself; a query without ':' is shown unchanged |
| DebugStatement.NameRun | Sources/PDOSMF/DebugPDOStatement.php:60 | the name after ':' is the longest run of [0-9A-Za-z_] |
| DebugStatement.BoundLiteral | Sources/PDOSMF/DebugPDOStatement.php:69-82 | the replacement is empty exactly when the name is unbound or bound to null; otherwise it is a literal opened and closed by a single quote (what it reads back as: `StringLiteralRoundTrip`, `IntLiteralRoundTrip`) |
| DebugStatement.Reconstruct | Sources/PDOSMF/DebugPDOStatement.php:60 | the scan equals substitution over the reading `Tokenize` gives; that reading follows the scan step by step, so the independent statement is `TokenizeSound` together with `ReconstructSubstitutes` |
| DebugStatement.TokenizeSound | Sources/PDOSMF/DebugPDOStatement.php:60 | the reference reading covers the whole query and its placeholders are maximal |
| DebugStatement.ReconstructSubstitutes | Sources/PDOSMF/DebugPDOStatement.php:60-81 | for any well-formed reading, the scan replaces exactly its placeholders |
| DebugStatement.ReconstructNoColon | Sources/PDOSMF/DebugPDOStatement.php:60 | text without ':' is copied as it is |
| DebugStatement.ReconstructPlainPrefix | Sources/PDOSMF/DebugPDOStatement.php:60 | text without ':' before the rest of a query is copied, and the rest is rebuilt on its own |
| DebugStatement.ReconstructPlaceholder | Sources/PDOSMF/DebugPDOStatement.php:71-81 | ":name" becomes the literal of the name's value: nothing when it is null or unbound |
| DebugStatement.StringLiteralRoundTrip | Sources/PDOSMF/DebugPDOStatement.php:77-81 | the literal of a string value, numeric or not, parses back to the string: quotes doubled when not numeric, and a numeric string has no quote to double |
| DebugStatement.IntLiteralRoundTrip | Sources/PDOSMF/DebugPDOStatement.php:77-81 | an integer is shown as its decimal digits in quotes, unescaped |
| DebugStatement.QuotedRoundTrip | Sources/PDOSMF/DebugPDOStatement.php:77-81 | doubling the quotes and closing the literal is undone by reading the literal |

## Left out

- Connection setup, the singleton and `fatal_error` (Database.php:69-100): I/O and process termination.
- Statement execution and fetching: `prepare`, `query`, `fetch`, `fetchAll`, `rowCount`, `lastInsertId` (Database.php:146, 668, 703, 830-855). These are foreign PDO calls. Terminal operations return the SQL and parameters instead of results.
- The transaction in `insert` (Database.php:661-674): its commit and rollback depend on database failures. The model returns one parameter set per row and leaves the last one in the builder, as the loop does.
- `upsert` (Database.php:714-756): it is built on the transaction and on execution results.
- `pluck`, `count`, `min` and `max` (Database.php:562-620): each is one direct query through `query()`.
- The query log `$queries` and `getQueries` (Database.php:835, 852, 864-867): it is filled only alongside execution.
- `log_error` (DebugPDOStatement.php:39-43): a call into the host. `Execute` returns the text it would log, and the driver's outcome is a parameter.
- `Integration.php`: autoload registration with no logic.
- Floats and booleans are not among the modelled PHP values.
- QueryBuilder.Database.Limit: models integer arguments only, not strings or floats.
- QueryBuilder.Database.Offset: models integer arguments only, not strings or floats.
- QueryBuilder.Database.Decrement: models an integer amount only, where PHP's unary minus also accepts numeric strings.
- QueryBuilder.Database.Having: an omitted operator or value is the empty string, which is how PHP interpolates null.
- QueryBuilder.Database.Join: the same holds for an omitted operator or second operand.
- QueryBuilder.Database.Insert: a row that is an empty array never gets an entry in `$params`, so PHP reads null for it (with a warning); the model gives that row the empty parameter list.
- QueryProperties.InsertRowsSorted: requires string keys, because the model's `ksort` compares keys by code unit and does not model PHP 8's numeric-string comparison.
- `NextIndex` (`$a[] = $v`) treats negative integer keys as PHP before 8.3 did: the next index is then 0.
- QueryProperties.OrderByJoined: requires that the last direction does not end in ',' or ' ', because `rtrim($order, ', ')` would strip those characters too.
- PhpValues.Substr: counts characters, while PHP's `substr` counts bytes. So `where("é=1")` takes the column "é" and the value "1" in the model, where PHP takes the first byte of "é"'s UTF-8 encoding and "=1". Strings are sequences of characters throughout the model, with no encoding.
- PhpValues.IntToStr: integers are unbounded, while PHP's are 64-bit and overflow to floats. So `decrement(PHP_INT_MIN)` renders the amount 9223372036854775808 in the model, where PHP's `-$amount` is the float 9.2233720368548E+18.
- `params` is an insertion-ordered array, not a map. PHP's order of parameters is thereby kept.
- A placeholder bound to null, or not bound at all, becomes the empty string, because `preg_replace_callback` substitutes "" for a callback's null.
- Placeholders whose name contains non-ASCII letters are not modelled. The pattern `[0-9a-z_]` with flag `i` matches ASCII only, and so does `IsNameChar`.

## Findings

| source | as written | input that shows it | evidently intended | confidence | as-written member | corrected member |
|---|---|---|---|---|---|---|
| Sources/PDOSMF/Database.php:212-213 | `selectRaw` tests and loops over `$binding`, a variable that is never set, so the declared parameter `$bindings` is ignored | `selectRaw("price > ?", [10])` adds the column "price > ?" | one column per binding with the value in place of `?`: "price > 10" | high, not executed | QueryProperties.SelectRawIgnoresBindings | QueryProperties.SelectRawBindsValues |
