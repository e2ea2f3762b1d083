# SimpleDb statement helpers in Dafny

This project models the statement-building and execution core of SimpleDb, a small Java
layer over JDBC, and proves properties of that model. It covers three classes.

- `com.ll.database.QueryBuilder` collects SQL fragments, each followed by one space, and
  hands out the trimmed text (`QueryBuilder.dfy`).
- `com.ll.database.Sql` covers four things (`DatabaseSql.dfy`):
  - it pairs a builder with a positional parameter list;
  - it expands `IN (?)` fragments;
  - it dispatches the built text on an `INSERT` or `SELECT` prefix;
  - it decodes result rows into insertion-ordered maps (`RowDecoding.dfy`).
- `com.ll.simpleDb.Sql` is the older helper (`SimpleDbSql.dfy`). It sends its buffer
  untrimmed, binds no parameters for queries, and reports every SQL failure with a fixed
  message that names the statement.

Two supporting modules hold the rest:

- `Jdbc.dfy` holds the JDBC values:
  - the Java objects passed and returned;
  - columns with their name, label and `java.sql.Types` code (`BIGINT` -5, `BOOLEAN` 16,
    `TIMESTAMP` 93);
  - the 1-based bindings of a prepared statement;
  - the exceptions that escape.

  The database is a `Driver`: two functions that answer a statement text and its bindings
  with an outcome, or with the message of the `SQLException` raised along the way.
- `JavaText.dfy` models the `String` operations the code relies on:
  - `trim`, which cuts every character up to U+0020;
  - case-sensitive `startsWith`;
  - `replace`, which rewrites every occurrence;
  - `String.join` over `Collections.nCopies`.

The classes whose fields the Java code updates are Dafny classes: the builder, and both
`Sql` classes. The loops of `setParams`, `parseResultSet`, `parseResultSetToMap`, the
binding loops, the inner loop of `selectRows` and the outer loop of its corrected version
are Dafny loops with invariants. The outer loop of `selectRows` as written keeps no state
across iterations, so it carries none. Each method is proved against a specification
function:

- `Trim(Joined(fragments))` for the built text;
- `Positional(params)` for the bindings;
- `RowToMap` for a row;
- `Parse` and `Execute` for `parseResultSet` and `run`;
- `NameMap` for the older helper's rows.

The lemmas then state what those functions promise.

The model follows the code as written. Four behaviours are easy to mistake:

- `appendIn` replaces every `?` of its fragment, not only the first (`String.replace`
  replaces all occurrences). `EveryPlaceholderIsExpanded` and `ExpandedPlaceholderCount`
  state the consequence.
- A `SELECT` that returns no row throws `NoSuchElementException("No data found")` for every
  wrapper, scalar ones included. The empty result is not turned into an absent value
  (`EmptySelectThrows`).
- `insert()` on an `INSERT` that produces no generated key does not report an execution
  error. `run` returns the update count boxed as an `Integer`, and the `long` return of
  `insert()` then fails its cast with a `ClassCastException` (`InsertStatementOutcome`).
- Neither `Sql` class has transactions. `com.ll.database.Sql` runs every statement on the
  one connection its constructor made or was given. `com.ll.simpleDb.Sql` opens a fresh
  `DriverManager` connection inside every operation (simpleDb/Sql.java lines 41, 73, 101
  and 122). In the model both reach the same `Driver`.

## Model

| member | source | states |
|---|---|---|
| DatabaseQueryBuilder.QueryBuilder.constructor | src/main/java/com/ll/database/QueryBuilder.java:7 | a new builder holds no fragment and an empty buffer |
| DatabaseQueryBuilder.QueryBuilder.Append | src/main/java/com/ll/database/QueryBuilder.java:9-13 | the buffer grows by the fragment and one space, the fragment is recorded last, and the same builder is returned |
| DatabaseQueryBuilder.QueryBuilder.Build | src/main/java/com/ll/database/QueryBuilder.java:15-19 | the result is the trim of all fragments joined, so it neither starts nor ends with space; the buffer is not changed, so repeated builds give the same text |
| JavaText.Joined | src/main/java/com/ll/database/QueryBuilder.java:10 | the `StringBuilder` contents: every fragment in order, each followed by one space; its properties are `JoinedStartsWithFirst` and `JoinedCount` |
| DatabaseQueryBuilder.JoinedStartsWithFirst | src/main/java/com/ll/database/QueryBuilder.java:9-10 | the accumulated buffer begins with the first fragment appended |
| DatabaseQueryBuilder.JoinedCount | src/main/java/com/ll/database/QueryBuilder.java:9-10 | the buffer holds exactly the `?` of all fragments, since the separators add none |
| JavaText.IsSpace | src/main/java/com/ll/database/QueryBuilder.java:16 | what `trim` cuts: every character up to U+0020; the ensures of `Trim`, `LeadingSpace` and `TrailingSpace` are stated with it |
| JavaText.LeadingSpace | src/main/java/com/ll/database/QueryBuilder.java:16 | the count of leading characters up to U+0020: all of them are space and the next one is not |
| JavaText.TrailingSpace | src/main/java/com/ll/database/QueryBuilder.java:16 | the count of trailing characters up to U+0020: all of them are space and the one before is not |
| JavaText.Trim | src/main/java/com/ll/database/QueryBuilder.java:16 | the result is an infix of the input; only space is cut on either side, and neither end of the result is space |
| JavaText.TrimOfTrimmed | src/main/java/com/ll/database/QueryBuilder.java:16 | text that neither starts nor ends with space is its own trim |
| JavaText.TrimIdempotent | src/main/java/com/ll/database/QueryBuilder.java:16 | trimming twice equals trimming once |
| JavaText.PrefixSurvivesTrim | src/main/java/com/ll/database/Sql.java:55-71 | a prefix with non-space ends is still a prefix after trimming |
| JavaText.TrimKeepsCount | src/main/java/com/ll/database/QueryBuilder.java:16 | trimming keeps the count of every non-space character, `?` included |
| JavaText.StartsWith | src/main/java/com/ll/database/Sql.java:65-71 | `String.startsWith`: the case-sensitive prefix test of `run`; `DispatchIsCaseSensitive` and `PrefixSurvivesTrim` state what it decides |
| JavaText.ReplaceAll | src/main/java/com/ll/database/Sql.java:49 | `String.replace(CharSequence, CharSequence)` with a one-character target: every occurrence of the target is rewritten; its properties are `ReplaceAllCount`, `ReplaceAllConcat`, `ReplaceOne`, `ReplaceTwo`, `ReplaceAllAbsent` and `ReplaceAllSelf` |
| JavaText.ReplaceAllCount | src/main/java/com/ll/database/Sql.java:49 | after `replace`, the target's count is the product of its counts in the text and in the replacement |
| JavaText.ReplaceAllConcat | src/main/java/com/ll/database/Sql.java:49 | `replace` distributes over concatenation |
| JavaText.ReplaceOne | src/main/java/com/ll/database/Sql.java:49 | a single target between target-free text is replaced and the text around it kept |
| JavaText.ReplaceTwo | src/main/java/com/ll/database/Sql.java:49 | with two targets between target-free pieces, both are replaced, not only the first |
| JavaText.ReplaceAllAbsent | src/main/java/com/ll/database/Sql.java:49 | text without the target is left unchanged |
| JavaText.ReplaceAllSelf | src/main/java/com/ll/database/Sql.java:49 | replacing `?` by `?` is the identity |
| JavaText.Copies | src/main/java/com/ll/database/Sql.java:48 | `nCopies(n, x)` has n elements, each equal to x |
| JavaText.Join | src/main/java/com/ll/database/Sql.java:48 | `String.join(delimiter, elements)`: the elements in order with the delimiter between each two; `PlaceholdersCount` and `ThreePlaceholders` state what it gives for the placeholder list |
| Jdbc.Positional | src/main/java/com/ll/database/Sql.java:180-184 | index i + 1 is bound to parameter i for every i, and no other index is bound |
| Jdbc.PositionalIsUnique | src/main/java/com/ll/database/Sql.java:180-184 | any bindings that bind positionally are exactly these |
| RowDecoding.Decode | src/main/java/com/ll/database/Sql.java:111-119 | the per-column type switch: null exactly for a null TIMESTAMP column, a `getLong` read exactly for a BIGINT column, and otherwise the column's own raw value under the getter its type selects |
| RowDecoding.Get | src/main/java/com/ll/database/Sql.java:108-121 | `LinkedHashMap.get`: the value at the key's entry, or none; its behaviour after `put` is `PutGet` and `PutGetOther` |
| RowDecoding.Put | src/main/java/com/ll/database/Sql.java:120 | `LinkedHashMap.put`: an existing key's value is replaced in place, a new key is appended; its properties are `PutKeys`, `PutGet` and `PutGetOther` |
| RowDecoding.RowToMap | src/main/java/com/ll/database/Sql.java:108-121 | `put(label, decoded value)` for columns 1 to n in order; its shape is `RowMapKeys`, `RowMapShape`, `RowMapExact`, `RowMapLookup` and `RowMapAbsent` |
| RowDecoding.IndexOf | src/main/java/com/ll/database/Sql.java:108 | finds the first entry with the key, or reports that none has it |
| RowDecoding.PutKeys | src/main/java/com/ll/database/Sql.java:120 | `put` keeps the key order and appends a new key last |
| RowDecoding.PutGet | src/main/java/com/ll/database/Sql.java:120 | after `put(k, v)`, `get(k)` is v |
| RowDecoding.PutGetOther | src/main/java/com/ll/database/Sql.java:120 | `put(k, v)` leaves every other key's value unchanged |
| RowDecoding.DedupProperties | src/main/java/com/ll/database/Sql.java:108-121 | keeping first occurrences gives distinct keys, no more of them than inputs, the same elements, and distinct input unchanged |
| RowDecoding.RowMapKeys | src/main/java/com/ll/database/Sql.java:108-121 | the row map's keys are the column labels in column order, each at its first column |
| RowDecoding.RowMapShape | src/main/java/com/ll/database/Sql.java:104-123 | at most one entry per column, distinct keys, exactly the labels as keys; with distinct labels, entry i is column i + 1 with its decoded value |
| RowDecoding.RowMapExact | src/main/java/com/ll/database/Sql.java:108-121 | with distinct labels the map has one entry per column, entry i being column i + 1's label and decoded value |
| RowDecoding.RowMapLookup | src/main/java/com/ll/database/Sql.java:109-120 | a label maps to the decoded value of the last column that carries it |
| RowDecoding.RowMapAbsent | src/main/java/com/ll/database/Sql.java:108-121 | a label of no column has no entry |
| RowDecoding.NullTimestampDecodesToNull | src/main/java/com/ll/database/Sql.java:113-116 | a null TIMESTAMP column is stored as null, not as a date-time |
| DatabaseSql.Classify | src/main/java/com/ll/database/Sql.java:65-71 | the insert path exactly when the text starts with `INSERT`; the query path exactly when it starts with `SELECT` and not `INSERT`; the update path otherwise |
| DatabaseSql.Placeholders | src/main/java/com/ll/database/Sql.java:48 | `String.join(", ", nCopies(n, "?"))`; its properties are `PlaceholdersCount` and `ThreePlaceholders` |
| DatabaseSql.Parse | src/main/java/com/ll/database/Sql.java:83-101 | the `parseResultSet` switch on the class's simple name; `Sql.ParseResultSet` and `EmptySelectThrows` state its cases |
| DatabaseSql.Execute | src/main/java/com/ll/database/Sql.java:54-81 | `run`'s three paths on the built text and the prefixed driver failure; `BuiltStatementKind`, `InsertStatementOutcome`, `EmptySelectThrows` and `OtherStatementOutcome` state its outcomes |
| DatabaseSql.InstanceOf | src/main/java/com/ll/database/Sql.java:125-178 | which object `run` returns passes which wrapper's checkcast; `CastShape` states what passes the `Map` and `List` casts |
| DatabaseSql.IsLong | src/main/java/com/ll/database/Sql.java:168 | the `(Long)` cast in `selectLongs`: null, a `getLong` read, or a Long object |
| DatabaseSql.FirstValues | src/main/java/com/ll/database/Sql.java:165-170 | the stream over the row maps: the first value of each, cast to Long; `FirstValuesShape` states when it succeeds and what it keeps |
| DatabaseSql.PlaceholdersCount | src/main/java/com/ll/database/Sql.java:48 | the placeholder list for n parameters holds exactly n `?` |
| DatabaseSql.ThreePlaceholders | src/main/java/com/ll/database/Sql.java:48 | the placeholder list for three parameters is "?, ?, ?" |
| DatabaseSql.InClauseExpansion | src/main/java/com/ll/database/Sql.java:43-51 | a fragment such as `id IN (?)` becomes the same text with the `?` replaced by the placeholder list |
| DatabaseSql.EveryPlaceholderIsExpanded | src/main/java/com/ll/database/Sql.java:49 | a fragment with two `?` has both replaced, so with n parameters it carries 2 * n placeholders |
| DatabaseSql.ExpandedPlaceholderCount | src/main/java/com/ll/database/Sql.java:48-49 | k `?` in the fragment become k * n after expansion with n parameters |
| DatabaseSql.SingleParameterKeepsFragment | src/main/java/com/ll/database/Sql.java:48-50 | with one parameter the fragment is appended as given |
| DatabaseSql.Cast | src/main/java/com/ll/database/Sql.java:125-178 | a successful cast yields an instance of the wrapper's class; failures pass through, and a mismatch is a ClassCastException |
| DatabaseSql.CastShape | src/main/java/com/ll/database/Sql.java:137-143 | what survives the cast to `Map` is a row map, and what survives the cast to `List` is a list of row maps |
| DatabaseSql.DispatchIsCaseSensitive | src/main/java/com/ll/database/Sql.java:65-77 | for every text: one starting with lower-case `select` or `insert` takes the update-count path; one starting with `SELECT` takes the query path and one starting with `INSERT` the insert path |
| DatabaseSql.BuiltStatementKind | src/main/java/com/ll/database/Sql.java:55-75 | a first fragment starting with `INSERT` (or `SELECT`) sends the built text down the insert (or query) path |
| DatabaseSql.InsertStatementOutcome | src/main/java/com/ll/database/Sql.java:65-69 | for an INSERT: `insert()` gets the first generated key, or a ClassCastException when there is none; `update()` and `delete()` get the update count |
| DatabaseSql.EmptySelectThrows | src/main/java/com/ll/database/Sql.java:84 | a SELECT returning no row fails with NoSuchElementException("No data found") for every class token |
| DatabaseSql.OtherStatementOutcome | src/main/java/com/ll/database/Sql.java:77 | any other statement yields its update count to `update()`/`delete()`, and the row wrappers fail their cast |
| DatabaseSql.FirstValuesShape | src/main/java/com/ll/database/Sql.java:165-170 | `selectLongs` succeeds exactly when every row's first value casts to Long, and then keeps the number and order of rows |
| DatabaseSql.Sql.constructor | src/main/java/com/ll/database/Sql.java:18-30 | a new statement has no fragment and no parameter, on the given connection |
| DatabaseSql.Sql.Outcome | src/main/java/com/ll/database/Sql.java:125-178 | a public wrapper's result after its cast: a success for `Map` is a row map and one for `List` a list of rows |
| DatabaseSql.Sql.Append | src/main/java/com/ll/database/Sql.java:37-41 | the fragment goes to the builder and the parameters are appended in order; placeholders stay matched exactly when the fragment has one `?` per parameter |
| DatabaseSql.Sql.AppendIn | src/main/java/com/ll/database/Sql.java:43-51 | no parameters: IllegalArgumentException with the source's message and nothing changed; otherwise every `?` becomes "?, ..., ?" and the parameters are appended; placeholders stay matched exactly when the fragment had one `?` |
| DatabaseSql.Sql.StatementPlaceholders | src/main/java/com/ll/database/Sql.java:37-55 | when every fragment brought one parameter per `?`, the built text has one `?` per parameter |
| DatabaseSql.Sql.SetParams | src/main/java/com/ll/database/Sql.java:180-184 | the loop binds index i + 1 to parameter i for every i, and nothing else |
| DatabaseSql.Sql.ParseResultSetToMap | src/main/java/com/ll/database/Sql.java:104-123 | the loop builds the row map `RowToMap`, whose shape `RowMapShape` states |
| DatabaseSql.Sql.ParseResultSet | src/main/java/com/ll/database/Sql.java:83-101 | no row: NoSuchElementException; List: every row decoded, in order; Map: the first row; String/Long/Boolean: column 1; LocalDateTime: column 1, or NullPointerException on null; any other class: IllegalArgumentException naming it |
| DatabaseSql.Sql.Run | src/main/java/com/ll/database/Sql.java:54-81 | the result is `Execute` on the built text with positional bindings: the INSERT, SELECT or update path, and driver failures prefixed "SQL Execution failed: " |
| DatabaseSql.Sql.Insert | src/main/java/com/ll/database/Sql.java:125-127 | `run(Long.class)` with its cast |
| DatabaseSql.Sql.Update | src/main/java/com/ll/database/Sql.java:129-131 | `run(Integer.class)` with its cast |
| DatabaseSql.Sql.Delete | src/main/java/com/ll/database/Sql.java:133-135 | `run(Integer.class)` with its cast |
| DatabaseSql.Sql.SelectRow | src/main/java/com/ll/database/Sql.java:137-139 | `run(Map.class)` with its cast; success is a single row map |
| DatabaseSql.Sql.SelectRows | src/main/java/com/ll/database/Sql.java:141-143 | `run(List.class)` with its cast; success is a list of row maps |
| DatabaseSql.Sql.SelectRowAs | src/main/java/com/ll/database/Sql.java:145-147 | the row map handed to the mapper, or the row's failure |
| DatabaseSql.Sql.SelectRowsAs | src/main/java/com/ll/database/Sql.java:149-155 | every row map handed to the mapper, keeping row count and order, or the failure |
| DatabaseSql.Sql.SelectDatetime | src/main/java/com/ll/database/Sql.java:157-159 | `run(LocalDateTime.class)` with its cast |
| DatabaseSql.Sql.SelectLong | src/main/java/com/ll/database/Sql.java:161-163 | `run(Long.class)` with its cast |
| DatabaseSql.Sql.SelectLongs | src/main/java/com/ll/database/Sql.java:165-170 | the first value of each row, cast to Long, as `FirstValues` (see `FirstValuesShape`), or the failure of `selectRows()` |
| DatabaseSql.Sql.SelectString | src/main/java/com/ll/database/Sql.java:172-174 | `run(String.class)` with its cast |
| DatabaseSql.Sql.SelectBoolean | src/main/java/com/ll/database/Sql.java:176-178 | `run(Boolean.class)` with its cast |
| SimpleDbSql.RawTextKeepsTrailingSpace | src/main/java/com/ll/simpleDb/Sql.java:22-38 | once a fragment is appended, the buffer ends with a space and differs from its trim |
| SimpleDbSql.NameMap | src/main/java/com/ll/simpleDb/Sql.java:54-60 | the row's `HashMap` has exactly the column names as keys |
| SimpleDbSql.NameMapLookup | src/main/java/com/ll/simpleDb/Sql.java:56-60 | a column name maps to the value of the last column that carries it |
| SimpleDbSql.RowsAreLost | src/main/java/com/ll/simpleDb/Sql.java:53-63 | for any non-empty result, the intended list has one map per row, so it is not the empty list returned |
| SimpleDbSql.Sql.constructor | src/main/java/com/ll/simpleDb/Sql.java:15-19 | empty buffer, no parameters, the given database |
| SimpleDbSql.Sql.Append | src/main/java/com/ll/simpleDb/Sql.java:22-25 | the buffer grows by the fragment and one space; the parameters are unchanged |
| SimpleDbSql.Sql.AppendWith | src/main/java/com/ll/simpleDb/Sql.java:27-35 | the buffer grows by the fragment and one space; the parameters are appended in order |
| SimpleDbSql.Sql.SelectRows | src/main/java/com/ll/simpleDb/Sql.java:37-67 | with no parameters bound on the raw buffer: a successful query always gives the empty list; a failure gives "Error excuting SQL : " plus the text |
| SimpleDbSql.Sql.SelectRowsCollected | src/main/java/com/ll/simpleDb/Sql.java:37-67 | the corrected query: one map per row, in row order, each the row's `NameMap` |
| SimpleDbSql.Sql.ReadRow | src/main/java/com/ll/simpleDb/Sql.java:54-60 | the inner loop builds the name map of the row |
| SimpleDbSql.Sql.BindParams | src/main/java/com/ll/simpleDb/Sql.java:77-79 | index i + 1 is bound to parameter i for every i, as in the loops at lines 105-107 and 126-128 |
| SimpleDbSql.Sql.Insert | src/main/java/com/ll/simpleDb/Sql.java:69-95 | succeeds exactly when the bound statement runs and generates a key, with the first key; otherwise "Error excuting SQL : " plus the text |
| SimpleDbSql.Sql.Update | src/main/java/com/ll/simpleDb/Sql.java:97-116 | the affected-row count of the bound raw text, or "Error executing SQL: " plus the text |
| SimpleDbSql.Sql.Delete | src/main/java/com/ll/simpleDb/Sql.java:118-137 | the same as `update()`: the affected-row count, or "Error executing SQL: " plus the text |
| SimpleDbSql.Sql.SentTextIsUntrimmed | src/main/java/com/ll/simpleDb/Sql.java:38 | the text every operation sends is the raw buffer: it ends with a space and is not its own trim |

## Findings

| source | as written | input that shows it | evidently intended | confidence | as-written member | corrected member |
|---|---|---|---|---|---|---|
| src/main/java/com/ll/simpleDb/Sql.java:53-63 | each row is read into a `HashMap` that is never added to `rows`, so `selectRows()` returns an empty list | any query that returns at least one row: the ensures of `SelectRows` give `Success([])`, while those of `SelectRowsCollected` give one map per row (`|r.value| == |rs|`); `RowsAreLost` notes that this intended list is non-empty | one map per row, in row order | high; not executed | SimpleDbSql.Sql.SelectRows, SimpleDbSql.RowsAreLost | SimpleDbSql.Sql.SelectRowsCollected |

## Left out

- JDBC I/O is replaced by the `Driver` functions: preparing, executing, reading generated keys, and closing resources, plus connecting through `DriverManager` in `com.ll.simpleDb.Sql`. Every `SQLException` along that path becomes the driver's failure message, and the result sets are the rows the driver answers with.
- The `Driver` is stateless: a pure function of the statement text and its bindings. The effect a statement has on the database is not modelled, so repeated execution gives the same answer in the model. In Java a second `insert()` of the same statement inserts again and gets a new key (database/Sql.java lines 60-68, simpleDb/Sql.java lines 69-95), and a query after an update sees the change.
- DatabaseSql.Sql.constructor: the `ConnectionManager` constructor connects at once (database/Sql.java line 22). A failure there raises `RuntimeException("Error Database connection.")` from `ConnectionManager.getConnection`, which the model cannot produce. The model's constructor starts from a connection already made.
- `ConnectionManager`, `DevLogger`, `setDevMode` and the `System.out` debug lines of `QueryBuilder` are not modelled: they are connection plumbing and output side channels with no effect on results.
- The `SimpleDb` session classes are not modelled. Each one builds a JDBC URL from host and database name. Each also runs statements itself through `run(sql)` and `run(sql, params...)` (database/SimpleDb.java lines 20-44, simpleDb/SimpleDb.java lines 33-63). These run the text unchanged on a fresh connection, bind the parameters positionally, and report a failure as "Error executing SQL: " or "Error executing SQL with parameters: " plus the text. They sit outside the statement classes modelled here. The `com.ll.database` one also has `genSql()`, which calls a `Sql(ConnectionManager)` constructor that does not exist. The `com.ll.simpleDb` one creates no `Sql` objects.
- `Ut.mapper.mapToObj` is reflection-based and its source is not part of this model. It is a function parameter of `SelectRowAs` and `SelectRowsAs`.
- DatabaseSql.Sql.ParseResultSet: the driver's conversions are kept abstract. These are `getString`, `getLong`, `getBoolean` and `getTimestamp(..).toLocalDateTime()`. The result records which getter read which raw value, not the converted Java value. The same holds for `RowDecoding.Decode`. A getter that cannot convert its value, such as `getLong(1)` on a text column, throws an `SQLException`, which `run` reports as "SQL Execution failed: " plus its message (database/Sql.java lines 78-79). The model has no such failure: once the driver has answered, `Parse` never returns `RuntimeFailure`, and it returns the raw value (for example `ColumnOne(LongClass, StringObject(..))`).
- RowDecoding.RowToMap: JDBC's `getXxx(label)` reads the first column with that label. The model reads each column's own value, so with duplicate labels a value may differ from the driver's.
- JDBC's case-insensitive label lookup is also not modelled.
- Null strings and null varargs arrays are not modelled: fragments are always text and parameter lists always exist. The `parameters == null` test of `appendIn` therefore reduces to the empty case.
- `int` overflow of the parameter and column indices is not modelled.
- Transactions (begin, commit, rollback, a held connection) appear in no modelled class and are not invented.
- The `Article` entity classes are plain data holders and are not modelled.
