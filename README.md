# DbBuilder: a Dafny model of a fluent SQL query builder

This project models the `DbBuilder` class of the db-builder library, a
fluent SQL builder over PDO. The model covers the same four parts as the
class:

- **Clause accumulator.** `table`, `select` and the aggregates, the join
  family, the where/in/between/like/whereNull families, `grouped`,
  `limit`, `offset`, `pagination`, `orderBy`, `groupBy` and `having`.
  Each call appends to or overwrites one field of the builder.
- **Statement compiler.** `getAll`, `get`, `insert`, `update`, `delete`
  and the five table-maintenance calls. Each one renders the fields into
  SQL text in a fixed clause order.
- **Dispatcher.** `query()` resets the builder on entry. It then either
  fills a `?` template, or normalises the statement, classifies it as a
  read or a write, consults the one-shot cache handle, and runs it.
  `exec()` and `fetch()` are modelled too.
- **Nested transactions.** `transaction`, `commit` and `rollBack` run a
  savepoint protocol over one depth counter.

The builder is the class `Builder.DbBuilder`. Its fields are the PHP
fields, and its methods update them in place. The two functions
`ClauseState()` and `SessionState()` read the fields as two values. Each
method's `ensures` ties the new values to a pure function of the old ones.
Those pure functions live in the modules below, and the lemmas about them
state what the class promises:

| module | file | contents |
|---|---|---|
| `Wrappers` | wrappers.dfy | `Option` |
| `SqlText` | sql_text.dfy | the PHP string built-ins the class uses: implode/explode, integer to text, trim, the whitespace-collapsing `preg_replace`, case mapping, `stripos(...) === 0`, `str_replace` |
| `Escaper` | escaper.dfy | `escape()` and the `is_numeric` pass-through of `in()` |
| `Connection` | connection.dfy | what the builder sees of PDO and of the cache store, and the ghost `Action` log entries |
| `Clauses` | clauses.dfy | the fragment each clause call writes, and the where/grouped state machine |
| `Compiler` | compiler.dfy | the SELECT/INSERT/UPDATE/DELETE/maintenance statement texts |
| `Dispatch` | dispatch.dfy | `reset()`, `query()`, `exec()`, `fetch()`, and the cache gate |
| `Transactions` | transactions.dfy | the savepoint protocol |
| `Dsn` | dsn.dfy | the constructor's configuration defaults and data source name |
| `Builder` | builder.dfy | the `DbBuilder` class |

The PDO connection is an oracle, not code. `quote` is a function the
builder is constructed with. The answer to `PDO::query()`/`PDO::exec()`
is a `Reply` argument of the method that receives it. The last insert id,
the stored cache entry and the clock are arguments too. What the builder
asks of the connection and of the cache directory is appended to the
ghost sequence `log`. That sequence records Connect, Query, Exec,
BeginTx, CommitTx, RollbackTx, CacheWrite and CacheDrop. `SAVEPOINT` and
`ROLLBACK TO` are recorded as `Exec` entries, because the class sends
them through `PDO::exec()`.

A closure passed to `grouped()` is a sequence of `Cond` commands. It can
nest further `grouped()` calls.

Behaviours of the code that the model reproduces as written:

- `reset()` zeroes `transactionCount` (src/DbBuilder.php:788). A statement
  run inside a transaction therefore makes the outer `commit()` miss the
  real commit. See `Builder.QueryInsideTransactionLosesCommit`.
- The reset happens on entry to `query()` (src/DbBuilder.php:673), not
  after the statement has run.
- `queryCount` does not grow when a statement fails. `error()` dies or
  throws before line 738 is reached.
- Only runs of two or more whitespace characters are collapsed. A lone tab
  or newline is kept (src/DbBuilder.php:687).
- In the comma-string branch of `table()`, the prefix is not applied. The
  loop assigns to a local variable (src/DbBuilder.php:82-87).
- `whereNull()` ignores a pending `grouped()` flag and always uses AND.
- A cached result that PHP considers false counts as a miss, because of
  the `!$cache` test (src/DbBuilder.php:702). Examples are an empty array
  and a row-less fetch.
- The cache expiry time is fixed when the `cache()` handle is made
  (src/Cache.php:21). It is not fixed when the entry is written.
- The Oracle data source name is chosen by the config key `driver`, not
  by `db_driver` (src/DbBuilder.php:57).

## Model

| member | source | states |
|---|---|---|
| `Escaper.Escape` | src/DbBuilder.php:742-747 | null becomes the bare token `NULL`; an integer becomes unquoted decimal text that reads back as the same integer; any other value becomes whatever the connection's quote makes of it |
| `Escaper.EscapeIntInjective` | src/DbBuilder.php:744-745 | two integers escape to the same literal only when they are equal |
| `Escaper.InKey` | src/DbBuilder.php:268 | an `in()` key that is a numeric string goes in unquoted as given; every other key goes through `escape()` |
| `Escaper.NumeralIsNumeric` | src/DbBuilder.php:268 | the decimal text of an integer is numeric, so `in()` writes the integer 5 and the string "5" alike |
| `SqlText.IntTextRoundTrip` | src/DbBuilder.php:745 | the decimal text an integer is concatenated as parses back to that integer |
| `SqlText.SplitJoin` | src/DbBuilder.php:199 | explode and implode with the same one-character delimiter are inverse |
| `SqlText.Collapse` | src/DbBuilder.php:687 | the normalised text is no longer than the input, keeps its first character class, and has no two adjacent whitespace characters |
| `SqlText.CollapseRun` | src/DbBuilder.php:687 | a run of two or more whitespace characters followed by non-whitespace or the end becomes one space; a lone whitespace character is kept as it is |
| `SqlText.CollapseIdempotent` | src/DbBuilder.php:687 | normalising whitespace twice is the same as once |
| `SqlText.CollapseKeepsWords` | src/DbBuilder.php:687 | normalising changes only whitespace: every other character survives, in order |
| `Connection.FetchModeOf` | src/DbBuilder.php:791-794 | 'class' selects FETCH_CLASS, 'array' selects FETCH_ASSOC, and exactly those two |
| `Connection.CountOf` | src/DbBuilder.php:735 | numRows after a cache hit or fetch is the element count of an array result (the number of rows of a list, the number of columns of an associative row) and 1 for any other result |
| `Connection.Fetched` | src/DbBuilder.php:712 | fetchAll() returns every row; fetch() returns the first row, or false exactly when there is none |
| `Clauses.PrefixTables` | src/DbBuilder.php:76-79 | the loop over a table list writes every prefixed name followed by ", " |
| `Clauses.TableListJoined` | src/DbBuilder.php:75-80 | a table list is stored as the prefixed names joined by ", " when the last one does not end in a comma or space |
| `Clauses.CommaListIgnoresPrefix` | src/DbBuilder.php:82-87 | a "a, b" table string is split at the comma and rejoined with ", ", keeping the old space and applying no prefix |
| `Clauses.SelectCallsAccumulate` | src/DbBuilder.php:796-799 | from the default `*`, successive select/aggregate calls build the ", "-joined list of their expressions in call order |
| `Clauses.FieldListJoined` | src/DbBuilder.php:401 | a list of one name is written as that name, and each further name adds ", " and itself, so `groupBy(['a', 'b'])` and `groupBy('a, b')` store the same text |
| `Clauses.AggregateText` | src/DbBuilder.php:102-135 | the aggregate column is `FN(field)`, followed by ` AS name` exactly when a name is given |
| `Clauses.JoinsConcatenate` | src/DbBuilder.php:148-150 | successive join calls leave the earlier joins followed by every new clause, in call order |
| `Clauses.JoinShorthandIsEquality` | src/DbBuilder.php:142-146 | a join third argument that is not an operator means `field1 = value` |
| `Clauses.JoinWrapperDefaults` | src/DbBuilder.php:155-183 | the typed join wrappers default the operator and second field to "", producing `field =  ` |
| `Clauses.EqualityItems` | src/DbBuilder.php:189-191 | the loop of the map form renders every column as `type column=escaped value`, in order |
| `Clauses.FillPlaceholders` | src/DbBuilder.php:199-205 | the template loop appends each non-empty piece followed by the parameter of the same index |
| `Clauses.TemplateIsSubstitution` | src/DbBuilder.php:198-206 | filling a template replaces the `?` marks from left to right by the escaped parameters, when no piece between marks is empty |
| `Clauses.WhereDefaultsToEquals` | src/DbBuilder.php:207-208 | `where(f, v)` with a value that is no operator is `where(f, '=', v)` |
| `Clauses.ColumnsJoinedByConnector` | src/DbBuilder.php:187-192 | for every non-empty map, negated or not: one column gives its own `column=value` test (with `NOT ` in front when negated), and each further column appends the connector and its own test |
| `Clauses.SkippedWhereChangesNothing` | src/DbBuilder.php:193-196 | a null, empty-array, "" or "0" first argument leaves the WHERE text and the group flag unchanged |
| `Clauses.InKeyItems` | src/DbBuilder.php:266-269 | the loop of `in()` renders every key with `InKey`, in order |
| `Clauses.AddCondition` | src/DbBuilder.php:214-221 | a fragment starts the WHERE text or is appended as `old AND/OR new`, gets `(` in front exactly when a group is pending, and clears the pending flag |
| `Clauses.AllExtend` | src/DbBuilder.php:219-221 | no sequence of where-family calls removes or rewrites WHERE text that is already there |
| `Clauses.GroupOpensOnce` | src/DbBuilder.php:214-217 | a pending group puts `(` before the next fragment only; the fragment after it is connected as usual |
| `Clauses.GroupWrapsOne` | src/DbBuilder.php:254-261 | `grouped()` around one adding call appends `(fragment)` with the call's connector and leaves no group pending |
| `Clauses.EmptyGroupStaysOpen` | src/DbBuilder.php:254-261 | a `grouped()` whose closure adds nothing appends only `)` and leaves the group flag set |
| `Clauses.WhereNullIgnoresGroup` | src/DbBuilder.php:241-247 | `whereNull()` always connects with AND, writes `field IS  NULL`, and leaves a pending group pending |
| `Clauses.LimitText` | src/DbBuilder.php:362-369 | the limit text reads back as the count, or is `n, end` when an end is given |
| `Clauses.PageOffset` | src/DbBuilder.php:378-384 | the offset is 0 for every page up to 1, `(page - 1) * perPage` from page 1 on, and never negative when perPage is not |
| `Clauses.NextPageOffset` | src/DbBuilder.php:381 | consecutive pages start exactly perPage rows apart |
| `Clauses.OrderDefaultsToAsc` | src/DbBuilder.php:390-393 | a plain column with no direction is ordered as if "asc" had been given |
| `Clauses.OrderDirectionUpper` | src/DbBuilder.php:388-389 | with a direction, the stored text is the field, a space, and the direction with no lower-case letter left and otherwise unchanged up to case; so the case it was given in does not matter |
| `Clauses.HavingDefaultsToGreater` | src/DbBuilder.php:417-418 | `having(f, v)` with a value that is no operator is `having(f, '>', v)`, where `where(f, v)` uses `=` |
| `Compiler.SelectStatement` | src/DbBuilder.php:461 | every SELECT starts with `SELECT list FROM tables` |
| `Compiler.SelectClauseOrder` | src/DbBuilder.php:459-492 | the SELECT is its head and joins followed by exactly the set clauses, in the order WHERE, GROUP BY, HAVING, ORDER BY, LIMIT, OFFSET |
| `Compiler.SelectWithoutClauses` | src/DbBuilder.php:467-489 | no clause follows the joins exactly when none of the six clause fields is set |
| `Compiler.PlainSelect` | src/DbBuilder.php:461 | a builder with only a table set compiles to `SELECT * FROM table` |
| `Compiler.UpdateStatement` | src/DbBuilder.php:527-533 | every UPDATE starts with `UPDATE tables SET` and the `column=value` list joined by "," |
| `Compiler.UpdateClauseOrder` | src/DbBuilder.php:525-548 | the UPDATE ends with exactly the set clauses among WHERE, ORDER BY, LIMIT, in that order |
| `Compiler.DeleteStatement` | src/DbBuilder.php:550-571 | the statement is `TRUNCATE TABLE tables` exactly when none of where, orderBy and limit is set, and otherwise starts with `DELETE FROM tables` |
| `Compiler.DeleteClauseOrder` | src/DbBuilder.php:552-565 | a DELETE that is not a truncation ends with exactly the set clauses, in order |
| `Compiler.TupleList` | src/DbBuilder.php:502-505 | the row loop of `insert()` writes every row's parenthesised literals followed by ", " |
| `Compiler.ManyRowsJoined` | src/DbBuilder.php:499-506 | a multi-row insert takes the columns of the first row and writes one `(...)` group per row separated by ", ", with nothing trailing |
| `Compiler.TwoRowInsert` | src/DbBuilder.php:494-511 | inserting `[{a:1,b:2},{a:3,b:4}]` compiles to `INSERT INTO t (a, b) VALUES (1, 2), (3, 4)` |
| `Dispatch.ResetSession` | src/DbBuilder.php:771-789 | reset clears numRows, insertId, query, error, result and transactionCount and keeps queryCount and the cache handle |
| `Dispatch.ClassifyRead` | src/DbBuilder.php:688-694 | the keyword loop answers true exactly when the statement starts case-insensitively with select, optimize, check, repair, checksum or analyze |
| `Dispatch.SelectIsRead` | src/DbBuilder.php:689-694 | every compiled SELECT is sent as a read |
| `Dispatch.MaintenanceIsRead` | src/DbBuilder.php:573-596 | ANALYZE/CHECK/CHECKSUM/OPTIMIZE/REPAIR TABLE statements are sent as reads |
| `Dispatch.ModificationsAreWrites` | src/DbBuilder.php:689-694 | compiled UPDATE, DELETE, TRUNCATE and INSERT statements are sent as writes |
| `Dispatch.CacheAnswer` | src/Cache.php:24-43 | the cache answers exactly when a handle is attached, the mode is not FETCH_CLASS, and a stored entry has not expired, and then with the stored data |
| `Dispatch.ExecuteStatement` | src/DbBuilder.php:702-739 | after the cache has answered: the cache handle is cleared, and queryCount grows by exactly 1 exactly when the statement succeeds; a failure records the driver's message and changes no count; a read the cache did not answer and the connection did sets numRows to rowCount() and returns the fetched rows when rowCount() > 0 and an empty array otherwise |
| `Dispatch.ZeroRowRead` | src/DbBuilder.php:704-713 | a read the cache does not answer and the connection answers with no rows is not a failure: it returns an empty array, leaves numRows at 0 and counts as a query |
| `Dispatch.RunQuery` | src/DbBuilder.php:671-740 | query() resets first; template mode fills the marks and touches neither the connection nor queryCount; otherwise the stored query is the normalised text, the handle is cleared, and a success adds exactly 1 to queryCount |
| `Dispatch.WritesIgnoreCache` | src/DbBuilder.php:724-731 | a write runs through exec() with the same state and outcome whatever the cache holds |
| `Dispatch.FalsyCacheIsMiss` | src/DbBuilder.php:702 | an empty cached result does not stop a read from reaching the connection |
| `Dispatch.ExpiredEntryIsDropped` | src/Cache.php:34-37 | an expired entry is deleted first, and a read then goes to the connection |
| `Dispatch.ClassModeBypassesCache` | src/DbBuilder.php:698 | a FETCH_CLASS statement neither reads nor writes the cache |
| `Dispatch.CachedReadReplays` | src/DbBuilder.php:715-716 | a cached read stores its result with the handle's expiry time, and the same read before that time is answered from the cache without the connection |
| `Dispatch.CacheHitSkipsConnection` | src/DbBuilder.php:732-736 | a hit returns the stored data without touching the connection, counts as one query, sets the row count from the data, and clears the handle |
| `Dispatch.RunExec` | src/DbBuilder.php:627-640 | exec() does nothing without a stored query, and otherwise sends exactly that query to PDO::exec() |
| `Dispatch.RunFetch` | src/DbBuilder.php:642-669 | fetch() does nothing without a stored query; otherwise it reads that query, returns every row (fetchAll) or the first row or false (fetch), and sets numRows to the count of what it returns |
| `Dispatch.PreparedThenExec` | src/DbBuilder.php:675-685 | query(sql, params) followed by exec() runs the template with the parameters in place of its marks, and the first call does not reach the connection |
| `Transactions.AnswerOnlyDecidesResult` | src/DbBuilder.php:598-625 | the driver's answer changes only what a call returns, never the depth or the statements sent |
| `Transactions.DepthCounts` | src/DbBuilder.php:600-619 | every transaction call moves the depth by exactly one: up for begin, down for commit and rollback |
| `Transactions.NestedBegins` | src/DbBuilder.php:598-606 | opening k levels inside an open transaction issues savepoints named after the new depths, in order |
| `Transactions.CommitsUnwind` | src/DbBuilder.php:608-615 | closing n levels by commits sends one real commit, at the end |
| `Transactions.NestedRollbacks` | src/DbBuilder.php:617-625 | rolling back nested levels issues `ROLLBACK TO trans<depth+1>` for each, innermost first, and leaves the outer transaction alone |
| `Transactions.BalancedCommits` | src/DbBuilder.php:598-615 | k+1 begins then k+1 commits send one real begin, the k inner savepoints, and one real commit |
| `Transactions.RollbacksMatchSavepoints` | src/DbBuilder.php:598-625 | each nested rollback targets the savepoint its begin created, in reverse order |
| `Transactions.InnerRollbackOuterCommit` | src/DbBuilder.php:598-625 | begin, begin, rollback, commit sends the real begin, `SAVEPOINT trans2`, `ROLLBACK TO trans2` and the real commit |
| `Transactions.UnopenedClose` | src/DbBuilder.php:608-625 | at depth 0 the count is not checked: commit goes to -1 and answers false, and rollback goes to -1 and rolls back to `trans0` |
| `Dsn.PortOf` | src/DbBuilder.php:45 | the port is db_port when set; otherwise, for a host holding a ':', the text from just after the first ':' up to the next ':' or the end of the host (so "h:p:q" gives "p"); otherwise empty |
| `Dsn.ConnectActions` | src/DbBuilder.php:61-64 | the constructor connects with the data source name, then sends exactly `SET NAMES '<charset>' COLLATE '<collation>'` and `SET CHARACTER SET '<charset>'` |
| `Dsn.NoPortDsn` | src/DbBuilder.php:51-54 | a host-based driver with no port gets `driver:host=h;dbname=n` |
| `Dsn.PortDsn` | src/DbBuilder.php:51-54 | a host-based driver with a port gets the ":port" removed from the host and a `port=` entry |
| `Dsn.DefaultDsn` | src/DbBuilder.php:41-54 | with nothing configured but the name, the data source name is MySQL on localhost with no port |
| `Dsn.HostPortSplit` | src/DbBuilder.php:45-54 | a `host:port` host without db_port yields that port, and the host without it |
| `Dsn.SqliteDsn` | src/DbBuilder.php:55-56 | SQLite uses `sqlite:name` |
| `Dsn.OracleNeedsDriverKey` | src/DbBuilder.php:57-58 | db_driver "oracle" alone yields an empty data source name; the `driver` key chooses `oci:` |
| `Builder.DbBuilder.constructor` | src/DbBuilder.php:39-70 | a fresh builder has the reset clause fields, zero counters, no cache handle, the configured prefix, and the connect actions logged |
| `Builder.DbBuilder.Table` | src/DbBuilder.php:72-93 | table() sets only the FROM text |
| `Builder.DbBuilder.Select` | src/DbBuilder.php:95-100 | select() changes only the select list, replacing `*` or appending after ", " |
| `Builder.DbBuilder.AddAggregate` | src/DbBuilder.php:102-135 | the aggregates add their column to the select list and change nothing else |
| `Builder.DbBuilder.Join` | src/DbBuilder.php:137-183 | join() appends one clause with the prefixed table to the joins and changes nothing else |
| `Builder.DbBuilder.Where` | src/DbBuilder.php:185-239 | where() updates the WHERE text and group flag as `ApplyCond` says, and nothing else |
| `Builder.DbBuilder.WhereNull` | src/DbBuilder.php:241-252 | whereNull() appends with AND and leaves the group flag as it was |
| `Builder.DbBuilder.In` | src/DbBuilder.php:263-298 | in() appends `field [NOT ]IN (keys)` like any other condition |
| `Builder.DbBuilder.Between` | src/DbBuilder.php:300-328 | between() appends `(field [NOT ]BETWEEN a AND b)` |
| `Builder.DbBuilder.Like` | src/DbBuilder.php:330-360 | like() appends `field [NOT ]LIKE pattern` |
| `Builder.DbBuilder.Grouped` | src/DbBuilder.php:254-261 | grouped() sets the flag, runs the closure's calls on the builder in order, and appends `)` |
| `Builder.DbBuilder.Limit` | src/DbBuilder.php:362-369 | limit() overwrites only the limit |
| `Builder.DbBuilder.Offset` | src/DbBuilder.php:371-376 | offset() overwrites only the offset |
| `Builder.DbBuilder.Pagination` | src/DbBuilder.php:378-384 | pagination() sets the limit to perPage and the offset to `PageOffset`, and nothing else |
| `Builder.DbBuilder.OrderBy` | src/DbBuilder.php:386-397 | orderBy() overwrites only the ORDER BY text |
| `Builder.DbBuilder.GroupBy` | src/DbBuilder.php:399-404 | groupBy() overwrites only the GROUP BY text, joining a list with ", " |
| `Builder.DbBuilder.Having` | src/DbBuilder.php:406-424 | having() overwrites, rather than appends to, the HAVING text |
| `Builder.DbBuilder.Cache` | src/DbBuilder.php:749-754 | cache() attaches a handle whose expiry is fixed now, at creation |
| `Builder.DbBuilder.GetAllSql` | src/DbBuilder.php:459-492 | getAll(true) returns the SELECT statement of the fields and changes nothing |
| `Builder.DbBuilder.GetSql` | src/DbBuilder.php:452-457 | get(true) sets the limit to 1, changes nothing else, and returns the SELECT with `LIMIT 1` |
| `Builder.DbBuilder.InsertSql` | src/DbBuilder.php:494-515 | insert(data, true) returns the INSERT statement and changes nothing |
| `Builder.DbBuilder.UpdateSql` | src/DbBuilder.php:525-548 | update(data, true) returns the UPDATE statement and changes nothing |
| `Builder.DbBuilder.DeleteSql` | src/DbBuilder.php:550-571 | delete(true) returns the DELETE or TRUNCATE statement and changes nothing |
| `Builder.DbBuilder.Reset` | src/DbBuilder.php:771-789 | reset() restores every clause field to its default and the per-query fields as `ResetSession` says |
| `Builder.DbBuilder.RunStatement` | src/DbBuilder.php:702-739 | the read/write/cache-hit branches update the fields and the log as `ExecuteStatement` says |
| `Builder.DbBuilder.Query` | src/DbBuilder.php:671-740 | query() leaves the clause fields reset and the fields, outcome and log as `RunQuery` says |
| `Builder.DbBuilder.GetAll` | src/DbBuilder.php:459-492 | getAll() runs its SELECT statement as a read of all rows |
| `Builder.DbBuilder.Get` | src/DbBuilder.php:452-457 | get() runs the SELECT with `LIMIT 1` as a read of one row |
| `Builder.DbBuilder.Insert` | src/DbBuilder.php:494-523 | insert() runs its statement, records and returns the last insert id when the write affected rows, and returns false otherwise |
| `Builder.DbBuilder.Update` | src/DbBuilder.php:525-548 | update() runs its statement without the fetch-all flag |
| `Builder.DbBuilder.Delete` | src/DbBuilder.php:550-571 | delete() runs its DELETE or TRUNCATE statement |
| `Builder.DbBuilder.Maintain` | src/DbBuilder.php:573-596 | the maintenance calls run `KEYWORD TABLE tables` and bypass every other clause |
| `Builder.DbBuilder.Exec` | src/DbBuilder.php:627-640 | exec() leaves everything but the log and the error as it was |
| `Builder.DbBuilder.Fetch` | src/DbBuilder.php:642-669 | fetch() changes only the log, the error and numRows |
| `Builder.DbBuilder.Transaction` | src/DbBuilder.php:598-606 | transaction() increments the depth, and does a real begin from depth 0 or issues `SAVEPOINT trans<new depth>` |
| `Builder.DbBuilder.Commit` | src/DbBuilder.php:608-615 | commit() decrements the depth and commits for real only when it reaches 0 |
| `Builder.DbBuilder.RollBack` | src/DbBuilder.php:617-625 | rollBack() decrements the depth, rolls back to `trans<depth+1>` and answers true when it is not 0, and rolls back for real otherwise |
| `Builder.QueryInsideTransactionLosesCommit` | src/DbBuilder.php:788 | transaction(); query(...); commit() sends no real commit, because query() zeroed the depth |

## Left out

- The PDO connection is not modelled. This covers `new PDO`, `quote`, `query`, `exec`, `rowCount`, fetching, `lastInsertId` and `errorInfo`. Their answers are method arguments, and `quote` is a function the builder is constructed with.
- A failed connection in the constructor (`die`) is not modelled. The constructor assumes the connection succeeds.
- `error()` is not modelled as output. Its die/throw and its HTML or CLI message are presentation. A failure is the `Failed` outcome, which stops the call before `queryCount` is incremented.
- The cache store's file creation, md5 file names, JSON encoding and `time()` are left out. The store is one `CacheEntry` argument, and the clock is an argument `now`. Cached data keeps its `Payload` value; JSON's object-versus-array distinction is not modelled.
- The float branch of `escape` is left out, because floating point is out of scope. Values are null, integers and strings.
- PHP loose typing is left out. Arguments are small datatypes instead of `is_array` checks, and `in_array` compares strings only. `empty()` on a string is true for "" and "0", as in PHP.
- Typed-object hydration (`setFetchMode(FETCH_CLASS, $argument)`) is left out. Rows are abstract, and the class argument is not passed.
- `numRows()`, `insertId()`, `queryCount()` and `getQuery()` are field reads; the fields themselves are the model.
- `__destruct` is left out; it only drops the connection.
- `limit()`, `offset()` and `pagination()` take integers, although PHP would accept any value there.
- `cache(null)` is not modelled. A handle made with a null lifetime answers no lookup and stores nothing (src/Cache.php:26,47). `Cache` takes an integer lifetime.
- PageOffset: the offset is an unbounded integer. In PHP, `(page - 1) * perPage` becomes a float once it leaves the 64-bit integer range.
- The `Failed` outcome follows PDO's silent error mode, which the code's error branches are written for (src/DbBuilder.php:719-722, 728-731). The constructor does not set `ATTR_ERRMODE`. Under PHP 8's default exception mode, `PDO::query` and `PDO::exec` would throw before those branches run, and the model does not cover that.
