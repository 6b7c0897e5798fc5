/**
 * What the builder sees of the database connection and of the result cache.
 * The connection is not modelled: each call that reaches it receives the
 * connection's answer as an argument, and what the builder asks of it is
 * recorded as an `Action`.
 */
module Connection {
  import opened Wrappers
  import opened Escaper

  /** One fetched row: column name and value, in column order. */
  type Row = seq<(string, Value)>

  /**
   * What query(), exec() and fetch() return: several rows (fetchAll, and the
   * empty array a read with no rows leaves), one row (fetch), no row (fetch
   * returning false) or the affected-row count of exec().
   */
  datatype Payload = Rows(rows: seq<Row>) | OneRow(row: Row) | NoRow | Affected(count: int)

  /** PDO::FETCH_CLASS, FETCH_ASSOC or FETCH_OBJ. */
  datatype FetchMode = FetchClass | FetchAssoc | FetchObj

  /** getFetchType(): 'class' and 'array' pick their modes, anything else objects. */
  function FetchModeOf(t: Option<string>): (m: FetchMode)
    ensures m == FetchClass <==> t == Some("class")
    ensures m == FetchAssoc <==> t == Some("array")
  {
    if t == Some("class") then FetchClass
    else if t == Some("array") then FetchAssoc
    else FetchObj
  }

  /** The statement object PDO::query() returns: its rowCount() and the rows it would fetch. */
  datatype Cursor = Cursor(rowCount: int, rows: seq<Row>)

  /**
   * The connection's answer to the one call a query makes: `read` for
   * PDO::query() (None for false), `write` for PDO::exec() (None for false),
   * and `errorInfo` for the message errorInfo()[2] reports after a failure.
   */
  datatype Reply = Reply(read: Option<Cursor>, write: Option<int>, errorInfo: string)

  /** A cache() handle: its lifetime and the expiry time fixed when it was made. */
  datatype CacheHandle = CacheHandle(ttl: int, finish: int)

  /** A stored cache file: the data and the expiry time it was written with. */
  datatype CacheEntry = CacheEntry(data: Payload, finish: int)

  /** What the builder asks of the connection and of the cache directory. */
  datatype Action =
    | Connect(dsn: string)
    | Query(sql: string)
    | Exec(sql: string)
    | BeginTx
    | CommitTx
    | RollbackTx
    | CacheWrite(key: string, data: Payload, finish: int)
    | CacheDrop(key: string)

  /**
   * PHP truthiness of a result: an array is true when it is non-empty, an
   * object always, false never, an integer when it is not 0. A row is an
   * array in FETCH_ASSOC mode and an object otherwise.
   */
  predicate Truthy(p: Payload, mode: FetchMode)
  {
    match p
    case Rows(rs) => rs != []
    case OneRow(row) => mode != FetchAssoc || row != []
    case NoRow => false
    case Affected(n) => n != 0
  }

  /** numRows after a fetch or a cache hit: count() of an array, 1 for anything else. */
  function CountOf(p: Payload, mode: FetchMode): (n: int)
    ensures n >= 0
    ensures p.Rows? ==> n == |p.rows|
    ensures p.OneRow? && mode == FetchAssoc ==> n == |p.row|
    ensures !p.Rows? && !(p.OneRow? && mode == FetchAssoc) ==> n == 1
  {
    match p
    case Rows(rs) => |rs|
    case OneRow(row) => if mode == FetchAssoc then |row| else 1
    case _ => 1
  }

  /** fetchAll() returns every row; fetch() the first one, or false when there is none. */
  function Fetched(rows: seq<Row>, all: bool): (p: Payload)
    ensures all ==> p == Rows(rows)
    ensures !all ==> (p == NoRow <==> rows == []) && (rows != [] ==> p == OneRow(rows[0]))
  {
    if all then Rows(rows) else if rows == [] then NoRow else OneRow(rows[0])
  }
}
