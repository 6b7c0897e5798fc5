/**
 * The builder object: its clause fields, which the chained calls update in
 * place, and its per-query fields, which query(), exec(), fetch() and the
 * transaction calls update. What it asks of the connection and the cache
 * directory is recorded in the ghost `log`; every answer it receives is a
 * parameter of the method that receives it.
 */
module Builder {
  import opened Wrappers
  import opened SqlText
  import opened Escaper
  import opened Clauses
  import opened Compiler
  import opened Connection
  import opened Dispatch
  import opened Transactions
  import opened Dsn

  /** What insert() returns: the last insert id, false when nothing was inserted, or the reported failure. */
  datatype InsertResult = Inserted(id: string) | NotInserted | InsertFailed(error: string, query: string)

  class DbBuilder {
    var select: string
    var from: Option<string>
    var where: Option<string>
    var limit: Option<string>
    var offset: Option<int>
    var join: Option<string>
    var orderBy: Option<string>
    var groupBy: Option<string>
    var having: Option<string>
    var grouped: bool

    var numRows: int
    var insertId: Option<string>
    var query: Option<string>
    var error: Option<string>
    var result: Payload
    var queryCount: int
    var transactionCount: int
    var cache: Option<CacheHandle>

    /** db_prefix, put in front of every table name. */
    const prefix: string
    /** PDO::quote() of the connection. */
    const quote: string -> string
    /** Everything asked of the connection and of the cache directory, in order. */
    ghost var log: seq<Action>

    /** The clause fields. */
    function ClauseState(): Parts
      reads this
    {
      Parts(select, from, where, limit, offset, join, orderBy, groupBy, having, grouped)
    }

    /** The per-query fields. */
    function SessionState(): Session
      reads this
    {
      Session(numRows, insertId, query, error, result, queryCount, transactionCount, cache)
    }

    /**
     * The constructor: fills in the configuration defaults, connects with
     * the data source name, and sets the character set and collation.
     */
    constructor (config: Config, quote: string -> string)
      ensures ClauseState() == EmptyParts
      ensures SessionState() == Session(0, None, None, None, Rows([]), 0, 0, None)
      ensures this.prefix == PrefixOf(config) && this.quote == quote
      ensures log == ConnectActions(config)
    {
      select, from, where, limit, offset := "*", None, None, None, None;
      join, orderBy, groupBy, having, grouped := None, None, None, None, false;
      numRows, insertId, query, error, result := 0, None, None, None, Rows([]);
      queryCount, transactionCount, cache := 0, 0, None;
      prefix := PrefixOf(config);
      this.quote := quote;
      log := ConnectActions(config);
    }

    // -------------------------------------------------------------------------
    // clause calls

    /** table() */
    method Table(arg: TableArg)
      modifies this`from
      ensures ClauseState() == old(ClauseState()).(from := Some(TableText(prefix, arg)))
    {
      match arg
      case TableList(names) =>
        var text := PrefixTables(prefix, names);
        from := Some(RTrim(text, {',', ' '}));
      case TableName(t) =>
        if IsCommaList(t) {
          from := Some(SqlText.Join(Split(t, ','), ", "));
        } else {
          from := Some(prefix + t);
        }
    }

    /** select() */
    method Select(fields: FieldList)
      modifies this`select
      ensures ClauseState() == old(ClauseState()).(select := AddSelect(old(select), FieldListText(fields)))
    {
      var expr := FieldListText(fields);
      select := if select == "*" then expr else select + ", " + expr;
    }

    /** max(), min(), sum(), count(), avg() */
    method AddAggregate(kind: Aggregate, field: string, name: Option<string>)
      modifies this`select
      ensures ClauseState() == old(ClauseState()).(select := AddSelect(old(select), AggregateText(kind, field, name)))
    {
      Select(Raw(AggregateText(kind, field, name)));
    }

    /** join() and its innerJoin() ... rightOuterJoin() wrappers. */
    method Join(kind: JoinKind, table: string, field1: Option<string>, op: Option<string>, field2: Option<string>)
      modifies this`join
      ensures ClauseState() == old(ClauseState()).(
                join := Some(AddJoin(old(join), JoinClause(kind, prefix, table, JoinCondition(field1, op, field2)))))
    {
      var clause := JoinClause(kind, prefix, table, JoinCondition(field1, op, field2));
      join := if join.None? then Some(clause) else Some(join.value + clause);
    }

    /** Stores a fragment the way where(), in(), between() and like() do. */
    method AddFragment(conn: Connector, fragment: string)
      modifies this`where, this`grouped
      ensures ClauseState() == WithPred(old(ClauseState()), AddCondition(old(PredOf(ClauseState())), conn, fragment))
    {
      var f := fragment;
      if grouped {
        f := "(" + f;
        grouped := false;
      }
      where := if where.None? then Some(f) else Some(where.value + " " + ConnectorText(conn) + " " + f);
    }

    /** where() and its orWhere(), notWhere(), orNotWhere() wrappers. */
    method Where(first: WhereFirst, second: WhereSecond, val: Value, negate: bool, conn: Connector)
      modifies this`where, this`grouped
      ensures ClauseState()
              == WithPred(old(ClauseState()), ApplyCond(old(PredOf(ClauseState())), WhereCall(first, second, val, negate, conn), quote))
    {
      var fragment: string;
      if first.NoCondition? {
        return;
      } else if first.Columns? {
        if first.pairs == [] {
          return;
        }
        var items := EqualityItems(NotText(negate), first.pairs, quote);
        fragment := SqlText.Join(items, " " + ConnectorText(conn) + " ");
      } else {
        var f := first.text;
        if IsEmptyText(f) {
          return;
        }
        if second.Params? {
          fragment := FillPlaceholders(Split(f, '?'), second.values, NotText(negate), quote);
        } else if !IsOperator(second.value) {
          fragment := NotText(negate) + f + " = " + Escape(second.value, quote);
        } else {
          fragment := NotText(negate) + f + " " + second.value.s + " " + Escape(val, quote);
        }
      }
      AddFragment(conn, fragment);
    }

    /** whereNull() and whereNotNull(): always AND, and an open group is left open. */
    method WhereNull(field: string, negate: bool)
      modifies this`where
      ensures ClauseState()
              == WithPred(old(ClauseState()), ApplyCond(old(PredOf(ClauseState())), WhereNullCall(field, negate), quote))
    {
      var fragment := NullFragment(field, negate);
      where := if where.None? then Some(fragment) else Some(where.value + " " + "AND" + " " + fragment);
    }

    /** in() and its notIn(), orIn(), orNotIn() wrappers. */
    method In(field: string, keys: seq<Value>, negate: bool, conn: Connector)
      modifies this`where, this`grouped
      ensures ClauseState()
              == WithPred(old(ClauseState()), ApplyCond(old(PredOf(ClauseState())), InCall(field, keys, negate, conn), quote))
    {
      var items := InKeyItems(keys, quote);
      AddFragment(conn, field + " " + NotText(negate) + "IN (" + SqlText.Join(items, ", ") + ")");
    }

    /** between() and its notBetween(), orBetween(), orNotBetween() wrappers. */
    method Between(field: string, low: Value, high: Value, negate: bool, conn: Connector)
      modifies this`where, this`grouped
      ensures ClauseState()
              == WithPred(old(ClauseState()), ApplyCond(old(PredOf(ClauseState())), BetweenCall(field, low, high, negate, conn), quote))
    {
      AddFragment(conn, BetweenFragment(field, low, high, negate, quote));
    }

    /** like() and its orLike(), notLike(), orNotLike() wrappers. */
    method Like(field: string, pattern: Value, negate: bool, conn: Connector)
      modifies this`where, this`grouped
      ensures ClauseState()
              == WithPred(old(ClauseState()), ApplyCond(old(PredOf(ClauseState())), LikeCall(field, pattern, negate, conn), quote))
    {
      AddFragment(conn, LikeFragment(field, pattern, negate, quote));
    }

    /** One call of the where family, as a grouped() closure makes it. */
    method Apply(c: Cond)
      modifies this`where, this`grouped
      ensures ClauseState() == WithPred(old(ClauseState()), ApplyCond(old(PredOf(ClauseState())), c, quote))
      decreases Size([c]), 0
    {
      match c
      case WhereCall(first, second, val, negate, conn) => Where(first, second, val, negate, conn);
      case WhereNullCall(field, negate) => WhereNull(field, negate);
      case InCall(field, keys, negate, conn) => In(field, keys, negate, conn);
      case BetweenCall(field, low, high, negate, conn) => Between(field, low, high, negate, conn);
      case LikeCall(field, pattern, negate, conn) => Like(field, pattern, negate, conn);
      case GroupedCall(body) =>
        assert [c][1..] == [];
        Grouped(body);
    }

    /**
     * grouped(): opens a group, runs the closure's calls on this builder in
     * order, and appends ")" to the WHERE text.
     */
    method Grouped(body: seq<Cond>)
      modifies this`where, this`grouped
      ensures ClauseState() == WithPred(old(ClauseState()), ApplyCond(old(PredOf(ClauseState())), GroupedCall(body), quote))
      decreases Size(body), 1
    {
      grouped := true;
      ghost var start := PredOf(ClauseState());
      ghost var others := ClauseState();
      var i := 0;
      while i < |body|
        invariant 0 <= i <= |body|
        invariant ApplyAll(PredOf(ClauseState()), body[i..], quote) == ApplyAll(start, body, quote)
        invariant ClauseState() == WithPred(others, PredOf(ClauseState()))
        invariant others == old(ClauseState()).(grouped := true)
      {
        SizeOfElement(body, i);
        assert body[i..][0] == body[i] && body[i..][1..] == body[i + 1..];
        Apply(body[i]);
        i := i + 1;
      }
      where := Some(OrEmpty(where) + ")");
    }

    /** limit(): "n", or "n, end" when an end is given. */
    method Limit(n: int, end: Option<int>)
      modifies this`limit
      ensures ClauseState() == old(ClauseState()).(limit := Some(LimitText(n, end)))
    {
      limit := Some(LimitText(n, end));
    }

    /** offset() */
    method Offset(n: int)
      modifies this`offset
      ensures ClauseState() == old(ClauseState()).(offset := Some(n))
    {
      offset := Some(n);
    }

    /** pagination(): perPage rows, starting after the pages before `page`. */
    method Pagination(perPage: int, page: int)
      modifies this`limit, this`offset
      ensures ClauseState() == old(ClauseState()).(limit := Some(IntText(perPage)), offset := Some(PageOffset(perPage, page)))
    {
      limit := Some(IntText(perPage));
      offset := Some(((if page > 0 then page else 1) - 1) * perPage);
    }

    /** orderBy() */
    method OrderBy(field: string, dir: Option<string>)
      modifies this`orderBy
      ensures ClauseState() == old(ClauseState()).(orderBy := Some(OrderText(field, dir)))
    {
      orderBy := Some(OrderText(field, dir));
    }

    /** groupBy(): an array is joined with ", ". */
    method GroupBy(fields: FieldList)
      modifies this`groupBy
      ensures ClauseState() == old(ClauseState()).(groupBy := Some(FieldListText(fields)))
    {
      groupBy := Some(FieldListText(fields));
    }

    /** having(): a template with parameters, or a comparison that defaults to ">". */
    method Having(field: string, second: WhereSecond, val: Value)
      modifies this`having
      ensures ClauseState() == old(ClauseState()).(having := Some(HavingText(field, second, val, quote)))
    {
      match second
      case Params(ps) =>
        var text := FillPlaceholders(Split(field, '?'), ps, "", quote);
        having := Some(text);
      case Scalar(v) =>
        if !IsOperator(v) {
          having := Some(field + " > " + Escape(v, quote));
        } else {
          having := Some(field + " " + v.s + " " + Escape(val, quote));
        }
    }

    /** cache(): a handle for the next statement, expiring `ttl` seconds after `now`. */
    method Cache(ttl: int, now: int)
      modifies this`cache
      ensures SessionState() == old(SessionState()).(cache := Some(CacheHandle(ttl, now + ttl)))
    {
      cache := Some(CacheHandle(ttl, now + ttl));
    }

    // -------------------------------------------------------------------------
    // compiling

    /** getAll(true): the SELECT statement of the clause fields, which it leaves as they are. */
    method GetAllSql() returns (sql: string)
      ensures sql == SelectStatement(ClauseState())
    {
      sql := "SELECT " + select + " FROM " + OrEmpty(from);
      if join.Some? {
        sql := sql + join.value;
      } else {
        assert sql + "" == sql;
      }
      sql := AppendIfSet(sql, " WHERE ", where);
      sql := AppendIfSet(sql, " GROUP BY ", groupBy);
      sql := AppendIfSet(sql, " HAVING ", having);
      sql := AppendIfSet(sql, " ORDER BY ", orderBy);
      sql := AppendIfSet(sql, " LIMIT ", limit);
      sql := AppendIfSet(sql, " OFFSET ", OffsetPart(offset));
    }

    /** get(true): sets the limit to 1, then compiles the SELECT statement as getAll(true) does. */
    method GetSql() returns (sql: string)
      modifies this`limit
      ensures ClauseState() == old(ClauseState()).(limit := Some("1"))
      ensures sql == SelectStatement(old(ClauseState()).(limit := Some("1")))
    {
      limit := Some("1");
      sql := GetAllSql();
    }

    /** insert(data, true): the INSERT statement; the columns come from the first row. */
    method InsertSql(data: InsertData) returns (sql: string)
      ensures sql == InsertStatement(from, data, quote)
    {
      sql := "INSERT INTO " + OrEmpty(from);
      match data
      case Many(first, more) =>
        sql := sql + " (" + SqlText.Join(Compiler.Columns(first), ", ") + ") VALUES ";
        var tuples := TupleList([first] + more, quote);
        sql := Trim(sql + tuples, {',', ' '});
      case Single(row) =>
        sql := sql + " (" + SqlText.Join(Compiler.Columns(row), ", ") + ") VALUES (" + SqlText.Join(Literals(row, quote), ", ") + ")";
    }

    /** update(data, true): the UPDATE statement with its column=value list. */
    method UpdateSql(pairs: seq<(string, Value)>) returns (sql: string)
      ensures sql == UpdateStatement(ClauseState(), pairs, quote)
    {
      var items := EqualityItems("", pairs, quote);
      sql := "UPDATE " + OrEmpty(from) + " SET " + SqlText.Join(items, ",");
      sql := AppendIfSet(sql, " WHERE ", where);
      sql := AppendIfSet(sql, " ORDER BY ", orderBy);
      sql := AppendIfSet(sql, " LIMIT ", limit);
    }

    /** delete(true): the DELETE statement, or TRUNCATE TABLE when it would have no clause. */
    method DeleteSql() returns (sql: string)
      ensures sql == DeleteStatement(ClauseState())
    {
      sql := "DELETE FROM " + OrEmpty(from);
      sql := AppendIfSet(sql, " WHERE ", where);
      sql := AppendIfSet(sql, " ORDER BY ", orderBy);
      sql := AppendIfSet(sql, " LIMIT ", limit);
      if sql == "DELETE FROM " + OrEmpty(from) {
        sql := "TRUNCATE TABLE " + OrEmpty(from);
      }
    }

    // -------------------------------------------------------------------------
    // running statements

    /** reset(): every clause field and every per-query field but the query count and the cache handle. */
    method Reset()
      modifies this`select, this`from, this`where, this`limit, this`offset, this`join, this`orderBy,
               this`groupBy, this`having, this`grouped
      modifies this`numRows, this`insertId, this`query, this`error, this`result, this`transactionCount
      ensures ClauseState() == EmptyParts
      ensures SessionState() == ResetSession(old(SessionState()))
    {
      ClearClauses();
      ClearSession();
    }

    /** The clause half of reset(). */
    method ClearClauses()
      modifies this`select, this`from, this`where, this`limit, this`offset, this`join, this`orderBy,
               this`groupBy, this`having, this`grouped
      ensures ClauseState() == EmptyParts
    {
      select, from, where, limit, offset := "*", None, None, None, None;
      orderBy, groupBy, having, join, grouped := None, None, None, None, false;
    }

    /** The per-query half of reset(). */
    method ClearSession()
      modifies this`numRows, this`insertId, this`query, this`error, this`result, this`transactionCount
      ensures numRows == 0 && insertId.None? && query.None? && error.None? && result == Rows([])
      ensures transactionCount == 0
    {
      numRows, insertId, query, error, result := 0, None, None, None, Rows([]);
      transactionCount := 0;
    }

    /**
     * The part of query() that runs a normalised, classified statement
     * once the cache has answered.
     */
    method RunStatement(q: string, read: bool, all: bool, mode: FetchMode, reply: Reply,
                   found: Option<Payload>, dropped: seq<Action>) returns (o: Outcome)
      modifies this`query, this`cache, this`log, this`error, this`numRows, this`result, this`queryCount
      ensures SessionState() == ExecuteStatement(old(SessionState()), q, read, all, mode, reply, found, dropped).session
      ensures o == ExecuteStatement(old(SessionState()), q, read, all, mode, reply, found, dropped).outcome
      ensures log == old(log) + ExecuteStatement(old(SessionState()), q, read, all, mode, reply, found, dropped).actions
    {
      var handle := cache;
      query := Some(q);
      cache := None;
      ghost var acts := dropped;
      var hit := found.Some? && Truthy(found.value, mode);
      if !hit && read {
        acts := acts + [Connection.Query(q)];
        match reply.read
        case None =>
          error := Some(reply.errorInfo);
          o := Failed(reply.errorInfo, q);
        case Some(cur) =>
          numRows := cur.rowCount;
          result := if cur.rowCount > 0 then Fetched(cur.rows, all) else Rows([]);
          if handle.Some? && mode != FetchClass {
            acts := acts + [CacheWrite(q, result, handle.value.finish)];
          }
          queryCount := queryCount + 1;
          o := Done(result);
      } else if !read {
        acts := acts + [Connection.Exec(q)];
        match reply.write
        case None =>
          result := NoRow;
          error := Some(reply.errorInfo);
          o := Failed(reply.errorInfo, q);
        case Some(n) =>
          result := Affected(n);
          queryCount := queryCount + 1;
          o := Done(result);
      } else {
        result := found.value;
        numRows := CountOf(result, mode);
        queryCount := queryCount + 1;
        o := Done(result);
      }
      log := log + acts;
    }

    /**
     * query(): reset, then prepare a template, or normalise the statement,
     * classify it, consult the cache and run it.
     */
    method Query(sql: string, args: QueryArgs, reply: Reply, stored: Option<CacheEntry>, now: int)
      returns (o: Outcome)
      modifies this
      ensures ClauseState() == EmptyParts
      ensures SessionState() == RunQuery(old(SessionState()), sql, args, reply, stored, now, quote).session
      ensures o == RunQuery(old(SessionState()), sql, args, reply, stored, now, quote).outcome
      ensures log == old(log) + RunQuery(old(SessionState()), sql, args, reply, stored, now, quote).actions
    {
      Reset();
      match args
      case Template(params) =>
        var text := FillPlaceholders(Split(sql, '?'), params, "", quote);
        query := Some(text);
        o := Prepared;
      case Execute(all, mode) =>
        ExecuteQuery(old(SessionState()), sql, all, mode, reply, stored, now, quote);
        var q := Normalize(sql);
        var str := ClassifyRead(q);
        o := RunStatement(q, str, all, mode, reply, CacheAnswer(cache, mode, stored, now),
                          CacheEvictions(cache, mode, stored, now, q));
    }

    /** getAll(): compiles the SELECT statement and reads every row. */
    method GetAll(fetchType: Option<string>, reply: Reply, stored: Option<CacheEntry>, now: int) returns (o: Outcome)
      modifies this
      ensures var r := RunQuery(old(SessionState()), SelectStatement(old(ClauseState())),
                                Execute(true, FetchModeOf(fetchType)), reply, stored, now, quote);
              ClauseState() == EmptyParts && SessionState() == r.session && o == r.outcome
              && log == old(log) + r.actions
    {
      var sql := GetAllSql();
      o := Query(sql, Execute(true, FetchModeOf(fetchType)), reply, stored, now);
    }

    /** get(): compiles the SELECT statement with limit 1 and reads one row. */
    method Get(fetchType: Option<string>, reply: Reply, stored: Option<CacheEntry>, now: int) returns (o: Outcome)
      modifies this
      ensures var r := RunQuery(old(SessionState()), SelectStatement(old(ClauseState()).(limit := Some("1"))),
                                Execute(false, FetchModeOf(fetchType)), reply, stored, now, quote);
              ClauseState() == EmptyParts && SessionState() == r.session && o == r.outcome
              && log == old(log) + r.actions
    {
      var sql := GetSql();
      o := Query(sql, Execute(false, FetchModeOf(fetchType)), reply, stored, now);
    }

    /**
     * insert(): runs the INSERT statement; when the affected count is not
     * 0, records and returns the connection's last insert id.
     */
    method Insert(data: InsertData, reply: Reply, stored: Option<CacheEntry>, now: int, lastId: string)
      returns (r: InsertResult)
      modifies this
      ensures var q := RunQuery(old(SessionState()), InsertStatement(old(from), data, quote),
                                Execute(false, FetchObj), reply, stored, now, quote);
              ClauseState() == EmptyParts && log == old(log) + q.actions
              && (q.outcome.Done? && Truthy(q.outcome.result, FetchObj) ==>
                    r == Inserted(lastId) && SessionState() == q.session.(insertId := Some(lastId)))
              && (q.outcome.Done? && !Truthy(q.outcome.result, FetchObj) ==>
                    r == NotInserted && SessionState() == q.session)
              && (q.outcome.Failed? ==> r == InsertFailed(q.outcome.error, q.outcome.query) && SessionState() == q.session)
    {
      var sql := InsertSql(data);
      var o := Query(sql, Execute(false, FetchObj), reply, stored, now);
      if o.Done? && Truthy(o.result, FetchObj) {
        insertId := Some(lastId);
        r := Inserted(lastId);
      } else if o.Done? {
        r := NotInserted;
      } else {
        r := InsertFailed(o.error, o.query);
      }
    }

    /** update(): runs the UPDATE statement. */
    method Update(pairs: seq<(string, Value)>, reply: Reply, stored: Option<CacheEntry>, now: int) returns (o: Outcome)
      modifies this
      ensures var r := RunQuery(old(SessionState()), UpdateStatement(old(ClauseState()), pairs, quote),
                                Execute(false, FetchObj), reply, stored, now, quote);
              ClauseState() == EmptyParts && SessionState() == r.session && o == r.outcome
              && log == old(log) + r.actions
    {
      var sql := UpdateSql(pairs);
      o := Query(sql, Execute(false, FetchObj), reply, stored, now);
    }

    /** delete(): runs the DELETE (or TRUNCATE) statement. */
    method Delete(reply: Reply, stored: Option<CacheEntry>, now: int) returns (o: Outcome)
      modifies this
      ensures var r := RunQuery(old(SessionState()), DeleteStatement(old(ClauseState())),
                                Execute(false, FetchObj), reply, stored, now, quote);
              ClauseState() == EmptyParts && SessionState() == r.session && o == r.outcome
              && log == old(log) + r.actions
    {
      var sql := DeleteSql();
      o := Query(sql, Execute(false, FetchObj), reply, stored, now);
    }

    /** analyze(), check(), checksum(), optimize(), repair(). */
    method Maintain(kind: Maintenance, reply: Reply, stored: Option<CacheEntry>, now: int) returns (o: Outcome)
      modifies this
      ensures var r := RunQuery(old(SessionState()), MaintenanceStatement(kind, old(from)),
                                Execute(false, FetchObj), reply, stored, now, quote);
              ClauseState() == EmptyParts && SessionState() == r.session && o == r.outcome
              && log == old(log) + r.actions
    {
      o := Query(MaintenanceStatement(kind, from), Execute(false, FetchObj), reply, stored, now);
    }

    /** exec(): runs the prepared query with PDO::exec(). */
    method Exec(reply: Reply) returns (o: Outcome)
      modifies this`log, this`error
      ensures SessionState() == RunExec(old(SessionState()), reply).session
      ensures o == RunExec(old(SessionState()), reply).outcome
      ensures log == old(log) + RunExec(old(SessionState()), reply).actions
    {
      if query.None? {
        return NoQuery;
      }
      var q := query.value;
      log := log + [Connection.Exec(q)];
      match reply.write
      case None =>
        error := Some(reply.errorInfo);
        o := Failed(reply.errorInfo, q);
      case Some(n) =>
        o := Done(Affected(n));
    }

    /** fetch() and fetchAll(): read the prepared query with PDO::query(). */
    method Fetch(fetchType: Option<string>, all: bool, reply: Reply) returns (o: Outcome)
      modifies this`log, this`error, this`numRows
      ensures SessionState() == RunFetch(old(SessionState()), FetchModeOf(fetchType), all, reply).session
      ensures o == RunFetch(old(SessionState()), FetchModeOf(fetchType), all, reply).outcome
      ensures log == old(log) + RunFetch(old(SessionState()), FetchModeOf(fetchType), all, reply).actions
    {
      if query.None? {
        return NoQuery;
      }
      var q := query.value;
      log := log + [Connection.Query(q)];
      match reply.read
      case None =>
        error := Some(reply.errorInfo);
        o := Failed(reply.errorInfo, q);
      case Some(cur) =>
        var rows := Fetched(cur.rows, all);
        numRows := if rows.Rows? then |rows.rows| else if rows.OneRow? && FetchModeOf(fetchType) == FetchAssoc then |rows.row| else 1;
        o := Done(rows);
    }

    // -------------------------------------------------------------------------
    // transactions

    /** transaction(): `driver` is what PDO::beginTransaction() answers. */
    method Transaction(driver: bool) returns (ok: bool)
      modifies this`transactionCount, this`log
      ensures transactionCount == BeginStep(old(transactionCount), driver).count
      ensures ok == BeginStep(old(transactionCount), driver).result
      ensures log == old(log) + BeginStep(old(transactionCount), driver).actions
    {
      var before := transactionCount;
      transactionCount := transactionCount + 1;
      if before == 0 {
        log := log + [BeginTx];
        return driver;
      }
      log := log + [Connection.Exec("SAVEPOINT " + SavepointName(transactionCount))];
      ok := transactionCount >= 0;
    }

    /** commit(): `driver` is what PDO::commit() answers. */
    method Commit(driver: bool) returns (ok: bool)
      modifies this`transactionCount, this`log
      ensures transactionCount == CommitStep(old(transactionCount), driver).count
      ensures ok == CommitStep(old(transactionCount), driver).result
      ensures log == old(log) + CommitStep(old(transactionCount), driver).actions
    {
      transactionCount := transactionCount - 1;
      if transactionCount == 0 {
        log := log + [CommitTx];
        return driver;
      }
      ok := transactionCount >= 0;
    }

    /** rollBack(): `driver` is what PDO::rollBack() answers. */
    method RollBack(driver: bool) returns (ok: bool)
      modifies this`transactionCount, this`log
      ensures transactionCount == RollbackStep(old(transactionCount), driver).count
      ensures ok == RollbackStep(old(transactionCount), driver).result
      ensures log == old(log) + RollbackStep(old(transactionCount), driver).actions
    {
      transactionCount := transactionCount - 1;
      if transactionCount != 0 {
        log := log + [Connection.Exec("ROLLBACK TO " + SavepointName(transactionCount + 1))];
        return true;
      }
      log := log + [RollbackTx];
      ok := driver;
    }
  }

  /**
   * query() resets the nesting depth, so a statement run inside a
   * transaction makes the closing commit() miss the real commit: the depth
   * goes from 0 to -1, the connection is not asked to commit, and false is
   * returned. transaction(); query(...); commit() leaves the transaction open.
   */
  lemma QueryInsideTransactionLosesCommit(s: Session, sql: string, args: QueryArgs, reply: Reply,
                                          stored: Option<CacheEntry>, now: int, quote: string -> string,
                                          driver: bool)
    requires s.transactionCount == 0
    ensures var began := BeginStep(s.transactionCount, driver);
            var ran := RunQuery(s.(transactionCount := began.count), sql, args, reply, stored, now, quote);
            began.actions == [BeginTx]
            && ran.session.transactionCount == 0
            && CommitStep(ran.session.transactionCount, driver) == TxStep(-1, false, [])
  {
  }

  /** A call in a grouped() closure is no larger than the closure. */
  lemma {:induction false} SizeOfElement(cs: seq<Cond>, i: nat)
    requires i < |cs|
    ensures Size([cs[i]]) <= Size(cs)
    decreases i
  {
    assert [cs[0]][1..] == [];
    if i > 0 {
      SizeOfElement(cs[1..], i - 1);
      assert cs[1..][i - 1] == cs[i];
    }
  }
}
