/**
 * query(), exec() and fetch(): how a statement is prepared from a template,
 * normalised, classified as a read or a write, answered from the cache or
 * sent to the connection, and what the builder records about it.
 */
module Dispatch {
  import opened Wrappers
  import opened SqlText
  import opened Escaper
  import opened Clauses
  import opened Compiler
  import opened Connection

  /** The per-query fields of a builder, beside its clause fields. */
  datatype Session = Session(
    numRows: int,
    insertId: Option<string>,
    query: Option<string>,
    error: Option<string>,
    result: Payload,
    queryCount: int,
    transactionCount: int,
    cache: Option<CacheHandle>)

  /**
   * reset() as far as these fields go: the per-query fields and the
   * transaction nesting are cleared; the query count and a pending cache()
   * handle survive.
   */
  function ResetSession(s: Session): (r: Session)
    ensures r.queryCount == s.queryCount && r.cache == s.cache
    ensures r.transactionCount == 0 && r.query.None? && r.error.None? && r.insertId.None?
    ensures r.numRows == 0 && r.result == Rows([])
  {
    s.(numRows := 0, insertId := None, query := None, error := None, result := Rows([]), transactionCount := 0)
  }

  /**
   * How query() is called: with a parameter array, or with only the SQL
   * (a template, whose "?" marks are then simply dropped), or with the
   * fetch-all flag and the fetch type.
   */
  datatype QueryArgs = Template(params: seq<Value>) | Execute(all: bool, mode: FetchMode)

  /**
   * What a call ends in: a prepared template (the builder itself is
   * returned), a result, a connection failure reported through error(), or
   * nothing at all when there is no query to run.
   */
  datatype Outcome = Prepared | Done(result: Payload) | Failed(error: string, query: string) | NoQuery

  /** The fields after a call, its outcome, and what it asked of the connection and the cache. */
  datatype Step = Step(session: Session, outcome: Outcome, actions: seq<Action>)

  // ---------------------------------------------------------------------------
  // normalisation and classification

  /** trim() the statement, then replace every run of two or more whitespace characters by one space. */
  function Normalize(sql: string): string
  {
    Collapse(Trim(sql, TrimChars))
  }

  /** The statements that are read with PDO::query() rather than run with PDO::exec(). */
  const ReadKeywords: seq<string> := ["select", "optimize", "check", "repair", "checksum", "analyze"]

  /** stripos($query, $keyword) === 0 for one of the read keywords. */
  predicate IsRead(q: string)
  {
    exists k :: 0 <= k < |ReadKeywords| && HasPrefixIgnoreCase(q, ReadKeywords[k])
  }

  /** The keyword loop of query(), stopping at the first match. */
  method ClassifyRead(q: string) returns (str: bool)
    ensures str == IsRead(q)
  {
    str := false;
    var k := 0;
    while k < |ReadKeywords|
      invariant 0 <= k <= |ReadKeywords|
      invariant forall j :: 0 <= j < k ==> !HasPrefixIgnoreCase(q, ReadKeywords[j])
    {
      if HasPrefixIgnoreCase(q, ReadKeywords[k]) {
        str := true;
        break;
      }
      k := k + 1;
    }
  }

  /** A statement opening with an upper-case word keeps that word through normalisation. */
  lemma NormalizeKeepsWord(w: string, rest: string)
    requires w != [] && forall i :: 0 <= i < |w| ==> 'A' <= w[i] <= 'Z'
    ensures StartsWith(Normalize(w + rest), w)
  {
    TrimKeepsWord(w, rest, TrimChars);
    var t := Trim(w + rest, TrimChars);
    assert t == w + t[|w|..];
    CollapseKeepsWord(w, t[|w|..]);
  }

  /** A read statement starts with the first letter of a read keyword, in either case. */
  lemma ReadInitial(q: string)
    requires IsRead(q)
    ensures q != [] && LowerChar(q[0]) in {'s', 'o', 'c', 'r', 'a'}
  {
    var k :| 0 <= k < |ReadKeywords| && HasPrefixIgnoreCase(q, ReadKeywords[k]);
    var kw := ReadKeywords[k];
    assert LowerText(q[..|kw|])[0] == LowerText(kw)[0];
  }

  /** A statement is a write when its first character starts none of the read keywords. */
  lemma WriteInitial(sql: string)
    requires sql != [] && sql[0] in {'U', 'D', 'I', 'T'}
    ensures !IsRead(Normalize(sql))
  {
    TrimKeepsHead(sql, TrimChars);
    var q := Normalize(sql);
    if IsRead(q) {
      ReadInitial(q);
    }
  }

  /** A statement opening with `w` is read when w starts with a read keyword. */
  lemma KeywordIsRead(sql: string, w: string, rest: string, k: nat)
    requires sql == w + rest
    requires w != [] && forall i :: 0 <= i < |w| ==> 'A' <= w[i] <= 'Z'
    requires k < |ReadKeywords| && |ReadKeywords[k]| <= |w|
    requires LowerText(w[..|ReadKeywords[k]|]) == ReadKeywords[k]
    ensures IsRead(Normalize(sql))
  {
    NormalizeKeepsWord(w, rest);
    var q := Normalize(sql);
    var kw := ReadKeywords[k];
    assert q[..|kw|] == w[..|kw|];
    assert LowerText(kw) == kw;
    assert HasPrefixIgnoreCase(q, kw);
  }

  /** Compiled SELECT statements go to PDO::query(). */
  lemma SelectIsRead(p: Parts)
    ensures IsRead(Normalize(SelectStatement(p)))
  {
    var sql := SelectStatement(p);
    var h := SelectHead(p);
    assert h[..6] == "SELECT";
    assert sql[..6] == sql[..|h|][..6];
    OpensWithSelect(sql);
  }

  /** A statement whose text opens with SELECT is a read. */
  lemma OpensWithSelect(sql: string)
    requires |sql| >= 6 && sql[..6] == "SELECT"
    ensures IsRead(Normalize(sql))
  {
    var w := "SELECT";
    assert sql == w + sql[6..];
    assert LowerText(w[..6]) == ['s', 'e', 'l', 'e', 'c', 't'];
    KeywordIsRead(sql, w, sql[6..], 0);
  }

  /** The table-maintenance statements are reads, answered by PDO::query() with one row. */
  lemma MaintenanceIsRead(k: Maintenance, from: Option<string>)
    ensures IsRead(Normalize(MaintenanceStatement(k, from)))
  {
    var w := MaintenanceKeyword(k);
    MaintenanceKeywordStartsRead(k);
    KeywordIsRead(MaintenanceStatement(k, from), w, " TABLE " + OrEmpty(from), MaintenanceReadIndex(k));
  }

  /** The read keyword each maintenance statement opens with: CHECKSUM counts as CHECK. */
  function MaintenanceReadIndex(k: Maintenance): nat
  {
    match k
    case Analyze => 5
    case Check => 2
    case Checksum => 2
    case Optimize => 1
    case Repair => 3
  }

  lemma MaintenanceKeywordStartsRead(k: Maintenance)
    ensures var w, j := MaintenanceKeyword(k), MaintenanceReadIndex(k);
            w != [] && (forall i :: 0 <= i < |w| ==> 'A' <= w[i] <= 'Z')
            && j < |ReadKeywords| && |ReadKeywords[j]| <= |w| && LowerText(w[..|ReadKeywords[j]|]) == ReadKeywords[j]
  {
    var w := MaintenanceKeyword(k);
    match k
    case Analyze =>
      assert LowerText(w[..7]) == ['a', 'n', 'a', 'l', 'y', 'z', 'e'];
    case Check =>
      assert LowerText(w[..5]) == ['c', 'h', 'e', 'c', 'k'];
    case Checksum =>
      assert LowerText(w[..5]) == ['c', 'h', 'e', 'c', 'k'];
    case Optimize =>
      assert LowerText(w[..8]) == ['o', 'p', 't', 'i', 'm', 'i', 'z', 'e'];
    case Repair =>
      assert LowerText(w[..6]) == ['r', 'e', 'p', 'a', 'i', 'r'];
  }

  /** UPDATE, DELETE, TRUNCATE and INSERT statements go to PDO::exec(). */
  lemma ModificationsAreWrites(p: Parts, pairs: seq<(string, Value)>, data: InsertData, quote: string -> string)
    ensures !IsRead(Normalize(UpdateStatement(p, pairs, quote)))
    ensures !IsRead(Normalize(DeleteStatement(p)))
    ensures !IsRead(Normalize(InsertStatement(p.from, data, quote)))
  {
    WriteInitial(UpdateStatement(p, pairs, quote));
    WriteInitial(DeleteStatement(p));
    var ins := InsertStatement(p.from, data, quote);
    match data
    case Single(_) =>
      WriteInitial(ins);
    case Many(first, more) =>
      ManyRowsJoined(p.from, first, more, quote);
      WriteInitial(ins);
  }

  // ---------------------------------------------------------------------------
  // the cache

  /**
   * getCache(): with a handle and a mode other than FETCH_CLASS, the data of
   * a stored entry that has not expired; nothing otherwise.
   */
  function CacheAnswer(handle: Option<CacheHandle>, mode: FetchMode, stored: Option<CacheEntry>, now: int): (r: Option<Payload>)
    ensures r.Some? <==> handle.Some? && mode != FetchClass && stored.Some? && now <= stored.value.finish
    ensures r.Some? ==> r.value == stored.value.data
  {
    if handle.None? || mode == FetchClass || stored.None? then None
    else if stored.value.finish < now then None
    else Some(stored.value.data)
  }

  /** getCache() deletes an entry it finds expired. */
  function CacheEvictions(handle: Option<CacheHandle>, mode: FetchMode, stored: Option<CacheEntry>, now: int,
                          key: string): seq<Action>
  {
    if handle.Some? && mode != FetchClass && stored.Some? && stored.value.finish < now then [CacheDrop(key)]
    else []
  }

  // ---------------------------------------------------------------------------
  // query()

  /**
   * The part of query() after the statement is normalised (`q`) and
   * classified (`read`), and the cache has answered (`found`, with the
   * entries it dropped in `dropped`).
   */
  function ExecuteStatement(s: Session, q: string, read: bool, all: bool, mode: FetchMode, reply: Reply,
                            found: Option<Payload>, dropped: seq<Action>): (r: Step)
    ensures r.session.query == Some(q) && r.session.cache.None?
    ensures r.outcome.Done? || r.outcome.Failed?
    ensures r.outcome.Done? <==> r.session.queryCount == s.queryCount + 1
    ensures r.outcome.Failed? ==> r.session.queryCount == s.queryCount
    ensures r.outcome.Done? ==> r.session.result == r.outcome.result
    ensures r.outcome.Failed? ==> (r.outcome.query == q && r.session.error == Some(r.outcome.error)
                                   && r.outcome.error == reply.errorInfo)
    ensures r.session.(query := s.query, cache := s.cache, numRows := s.numRows, result := s.result,
                       queryCount := s.queryCount, error := s.error) == s
    ensures read && reply.read.Some? && (found.None? || !Truthy(found.value, mode)) ==>
              r.outcome == Done(if reply.read.value.rowCount > 0 then Fetched(reply.read.value.rows, all) else Rows([]))
              && r.session.numRows == reply.read.value.rowCount
  {
    var hit := found.Some? && Truthy(found.value, mode);
    var cleared := s.(query := Some(q), cache := None);
    if !hit && read then
      match reply.read
      case None =>
        Step(cleared.(error := Some(reply.errorInfo)), Failed(reply.errorInfo, q), dropped + [Query(q)])
      case Some(cur) =>
        var result := if cur.rowCount > 0 then Fetched(cur.rows, all) else Rows([]);
        var written := if s.cache.Some? && mode != FetchClass then [CacheWrite(q, result, s.cache.value.finish)] else [];
        Step(cleared.(numRows := cur.rowCount, result := result, queryCount := s.queryCount + 1),
             Done(result), dropped + [Query(q)] + written)
    else if !read then
      match reply.write
      case None =>
        Step(cleared.(result := NoRow, error := Some(reply.errorInfo)), Failed(reply.errorInfo, q), dropped + [Exec(q)])
      case Some(n) =>
        Step(cleared.(result := Affected(n), queryCount := s.queryCount + 1), Done(Affected(n)), dropped + [Exec(q)])
    else
      Step(cleared.(result := found.value, numRows := CountOf(found.value, mode), queryCount := s.queryCount + 1),
           Done(found.value), dropped)
  }

  /**
   * query($sql, ...): reset, then either prepare a template, or normalise
   * the statement, consult the cache, and read it with PDO::query(), run it
   * with PDO::exec(), or answer it from the cache. `stored` is the cache
   * file for the statement, `reply` the connection's answer, `now` the clock.
   */
  function RunQuery(s: Session, sql: string, args: QueryArgs, reply: Reply, stored: Option<CacheEntry>,
                    now: int, quote: string -> string): (r: Step)
    ensures r.session.transactionCount == 0 && r.session.insertId.None?
    ensures args.Template? ==> (r.outcome == Prepared && r.actions == []
      && r.session == ResetSession(s).(query := Some(Fill(Split(sql, '?'), args.params, "", quote, 0))))
    ensures args.Execute? ==> (r.session.query == Some(Normalize(sql)) && r.session.cache.None?
      && (r.outcome.Done? || r.outcome.Failed?))
    ensures args.Execute? ==> (r.outcome.Done? <==> r.session.queryCount == s.queryCount + 1)
    ensures !r.outcome.Done? ==> r.session.queryCount == s.queryCount
    ensures r.outcome.Done? ==> r.session.result == r.outcome.result
    ensures r.outcome.Failed? ==> (r.outcome.query == Normalize(sql) && r.session.error == Some(r.outcome.error)
      && r.outcome.error == reply.errorInfo)
  {
    var base := ResetSession(s);
    match args
    case Template(params) =>
      Step(base.(query := Some(Fill(Split(sql, '?'), params, "", quote, 0))), Prepared, [])
    case Execute(all, mode) =>
      var q := Normalize(sql);
      ExecuteStatement(base, q, IsRead(q), all, mode, reply,
                       CacheAnswer(s.cache, mode, stored, now), CacheEvictions(s.cache, mode, stored, now, q))
  }

  /** The write branch does not look at the cache answer. */
  lemma WriteBranch(s: Session, q: string, all: bool, mode: FetchMode, reply: Reply,
                    found: Option<Payload>, dropped: seq<Action>)
    ensures var r := ExecuteStatement(s, q, false, all, mode, reply, found, dropped);
            r.actions == dropped + [Exec(q)]
            && r.outcome == (if reply.write.Some? then Done(Affected(reply.write.value)) else Failed(reply.errorInfo, q))
            && r.session == ExecuteStatement(s, q, false, all, mode, reply, None, []).session
  {
  }

  /**
   * A statement that is not a read is run with PDO::exec() whatever the
   * cache holds for it: the state and the outcome do not depend on the
   * stored entry.
   */
  lemma WritesIgnoreCache(s: Session, sql: string, all: bool, mode: FetchMode, reply: Reply,
                          stored1: Option<CacheEntry>, stored2: Option<CacheEntry>, now: int, quote: string -> string)
    requires !IsRead(Normalize(sql))
    ensures var r1 := RunQuery(s, sql, Execute(all, mode), reply, stored1, now, quote);
            var r2 := RunQuery(s, sql, Execute(all, mode), reply, stored2, now, quote);
            r1.session == r2.session && r1.outcome == r2.outcome
            && Exec(Normalize(sql)) in r1.actions && Exec(Normalize(sql)) in r2.actions
  {
    var q := Normalize(sql);
    var base := ResetSession(s);
    var f1, d1 := CacheAnswer(s.cache, mode, stored1, now), CacheEvictions(s.cache, mode, stored1, now, q);
    var f2, d2 := CacheAnswer(s.cache, mode, stored2, now), CacheEvictions(s.cache, mode, stored2, now, q);
    assert RunQuery(s, sql, Execute(all, mode), reply, stored1, now, quote)
        == ExecuteStatement(base, q, false, all, mode, reply, f1, d1);
    assert RunQuery(s, sql, Execute(all, mode), reply, stored2, now, quote)
        == ExecuteStatement(base, q, false, all, mode, reply, f2, d2);
    WriteBranch(base, q, all, mode, reply, f1, d1);
    WriteBranch(base, q, all, mode, reply, f2, d2);
  }

  /**
   * A cached result that is empty (an empty array, no row, an empty
   * associative row) counts as a miss: the statement still goes to the
   * connection.
   */
  lemma FalsyCacheIsMiss(s: Session, sql: string, all: bool, mode: FetchMode, reply: Reply,
                         stored: Option<CacheEntry>, now: int, quote: string -> string)
    requires IsRead(Normalize(sql))
    requires stored.Some? && !Truthy(stored.value.data, mode)
    ensures Query(Normalize(sql)) in RunQuery(s, sql, Execute(all, mode), reply, stored, now, quote).actions
  {
    var q := Normalize(sql);
    ExecuteQuery(s, sql, all, mode, reply, stored, now, quote);
    var found := CacheAnswer(s.cache, mode, stored, now);
    var dropped := CacheEvictions(s.cache, mode, stored, now, q);
    MissBranch(ResetSession(s), q, true, all, mode, reply, found, dropped);
  }

  /** An expired entry is deleted, and the statement goes to the connection. */
  lemma ExpiredEntryIsDropped(s: Session, sql: string, all: bool, mode: FetchMode, reply: Reply,
                              entry: CacheEntry, now: int, quote: string -> string)
    requires s.cache.Some? && mode != FetchClass && entry.finish < now
    ensures var r := RunQuery(s, sql, Execute(all, mode), reply, Some(entry), now, quote);
            r.actions != [] && r.actions[0] == CacheDrop(Normalize(sql))
            && (IsRead(Normalize(sql)) ==> Query(Normalize(sql)) in r.actions)
  {
    var q := Normalize(sql);
    var read := IsRead(q);
    ExecuteQuery(s, sql, all, mode, reply, Some(entry), now, quote);
    assert CacheAnswer(s.cache, mode, Some(entry), now) == None;
    assert CacheEvictions(s.cache, mode, Some(entry), now, q) == [CacheDrop(q)];
    ExpiredBranch(ResetSession(s), q, read, all, mode, reply);
  }

  /**
   * A read that the cache does not answer and that PDO::query() answers
   * with no rows is not a failure: it counts as a query, leaves numRows at
   * 0, and returns an empty array.
   */
  lemma ZeroRowRead(s: Session, sql: string, all: bool, mode: FetchMode, reply: Reply,
                    stored: Option<CacheEntry>, now: int, quote: string -> string)
    requires IsRead(Normalize(sql))
    requires s.cache.None? || mode == FetchClass || stored.None? || stored.value.finish < now
             || !Truthy(stored.value.data, mode)
    requires reply.read.Some? && reply.read.value.rowCount == 0
    ensures var r := RunQuery(s, sql, Execute(all, mode), reply, stored, now, quote);
            r.outcome == Done(Rows([])) && r.session.result == Rows([]) && r.session.numRows == 0
            && r.session.queryCount == s.queryCount + 1
  {
    var q := Normalize(sql);
    ExecuteQuery(s, sql, all, mode, reply, stored, now, quote);
    var found := CacheAnswer(s.cache, mode, stored, now);
    assert found.None? || !Truthy(found.value, mode);
    ReadBranch(ResetSession(s), q, all, mode, reply, found, CacheEvictions(s.cache, mode, stored, now, q));
  }

  /** The read branch of query() when the cache did not answer and the connection did. */
  lemma ReadBranch(s: Session, q: string, all: bool, mode: FetchMode, reply: Reply,
                   found: Option<Payload>, dropped: seq<Action>)
    requires found.None? || !Truthy(found.value, mode)
    requires reply.read.Some?
    ensures var r := ExecuteStatement(s, q, true, all, mode, reply, found, dropped);
            r.outcome == Done(if reply.read.value.rowCount > 0 then Fetched(reply.read.value.rows, all) else Rows([]))
            && r.session.numRows == reply.read.value.rowCount && r.session.queryCount == s.queryCount + 1
  {
  }

  /** The branch of query() after an expired entry was dropped. */
  lemma ExpiredBranch(s: Session, q: string, read: bool, all: bool, mode: FetchMode, reply: Reply)
    ensures var r := ExecuteStatement(s, q, read, all, mode, reply, None, [CacheDrop(q)]);
            r.actions != [] && r.actions[0] == CacheDrop(q) && (read ==> Query(q) in r.actions)
  {
    MissBranch(s, q, read, all, mode, reply, None, [CacheDrop(q)]);
  }

  /**
   * A statement the cache did not answer goes to the connection after the
   * cache's own actions: to PDO::query() when it is a read.
   */
  lemma MissBranch(s: Session, q: string, read: bool, all: bool, mode: FetchMode, reply: Reply,
                    found: Option<Payload>, dropped: seq<Action>)
    requires found.None? || !Truthy(found.value, mode)
    ensures var r := ExecuteStatement(s, q, read, all, mode, reply, found, dropped);
            |r.actions| > |dropped| && (forall i :: 0 <= i < |dropped| ==> r.actions[i] == dropped[i])
            && r.actions[|dropped|] == (if read then Query(q) else Exec(q))
  {
  }

  /** query() with an execution request is ExecuteStatement on the normalised statement and the cache's answer. */
  lemma ExecuteQuery(s: Session, sql: string, all: bool, mode: FetchMode, reply: Reply,
                     stored: Option<CacheEntry>, now: int, quote: string -> string)
    ensures var q := Normalize(sql);
            RunQuery(s, sql, Execute(all, mode), reply, stored, now, quote)
            == ExecuteStatement(ResetSession(s), q, IsRead(q), all, mode, reply,
                                CacheAnswer(s.cache, mode, stored, now), CacheEvictions(s.cache, mode, stored, now, q))
  {
  }

  /** FETCH_CLASS reads bypass the cache in both directions. */
  lemma ClassModeBypassesCache(s: Session, sql: string, all: bool, reply: Reply,
                               stored: Option<CacheEntry>, now: int, quote: string -> string)
    ensures var r := RunQuery(s, sql, Execute(all, FetchClass), reply, stored, now, quote);
            r == RunQuery(s, sql, Execute(all, FetchClass), reply, None, now, quote)
            && forall a | a in r.actions :: !a.CacheWrite?
  {
    var q := Normalize(sql);
    ExecuteQuery(s, sql, all, FetchClass, reply, stored, now, quote);
    ExecuteQuery(s, sql, all, FetchClass, reply, None, now, quote);
    assert CacheAnswer(s.cache, FetchClass, stored, now) == None == CacheAnswer(s.cache, FetchClass, None, now);
    assert CacheEvictions(s.cache, FetchClass, stored, now, q) == [] == CacheEvictions(s.cache, FetchClass, None, now, q);
    ClassBranch(ResetSession(s), q, IsRead(q), all, reply);
  }

  /** Without a cache answer, a FETCH_CLASS statement writes nothing to the cache. */
  lemma ClassBranch(s: Session, q: string, read: bool, all: bool, reply: Reply)
    ensures var r := ExecuteStatement(s, q, read, all, FetchClass, reply, None, []);
            forall a | a in r.actions :: !a.CacheWrite?
  {
    var r := ExecuteStatement(s, q, read, all, FetchClass, reply, None, []);
    assert r.actions == [Query(q)] || r.actions == [Exec(q)];
  }

  /**
   * The cache round trip: a read made with a cache() handle stores its
   * result with the handle's expiry time, and the same statement read again
   * before that time, with any handle, is answered from the stored entry
   * without the connection, as long as the result was not empty.
   */
  lemma CachedReadReplays(s: Session, sql: string, all: bool, mode: FetchMode, reply: Reply, now: int,
                          s2: Session, reply2: Reply, now2: int, quote: string -> string)
    requires IsRead(Normalize(sql)) && s.cache.Some? && mode != FetchClass && reply.read.Some?
    requires s2.cache.Some? && now2 <= s.cache.value.finish
    ensures var r := RunQuery(s, sql, Execute(all, mode), reply, None, now, quote);
            r.outcome.Done?
            && r.actions == [Query(Normalize(sql)), CacheWrite(Normalize(sql), r.outcome.result, s.cache.value.finish)]
            && (Truthy(r.outcome.result, mode) ==>
                  var again := RunQuery(s2, sql, Execute(all, mode), reply2,
                                        Some(CacheEntry(r.outcome.result, s.cache.value.finish)), now2, quote);
                  again.outcome == r.outcome && again.actions == []
                  && again.session.numRows == CountOf(r.outcome.result, mode))
  {
    ReadIsStored(s, sql, all, mode, reply, now, quote);
    var r := RunQuery(s, sql, Execute(all, mode), reply, None, now, quote);
    if Truthy(r.outcome.result, mode) {
      CacheHitSkipsConnection(s2, sql, all, mode, reply2, CacheEntry(r.outcome.result, s.cache.value.finish), now2, quote);
    }
  }

  /** The first half of the round trip: the read is stored with the handle's expiry time. */
  lemma ReadIsStored(s: Session, sql: string, all: bool, mode: FetchMode, reply: Reply, now: int, quote: string -> string)
    requires IsRead(Normalize(sql)) && s.cache.Some? && mode != FetchClass && reply.read.Some?
    ensures var r := RunQuery(s, sql, Execute(all, mode), reply, None, now, quote);
            r.outcome.Done?
            && r.actions == [Query(Normalize(sql)), CacheWrite(Normalize(sql), r.outcome.result, s.cache.value.finish)]
  {
    var q := Normalize(sql);
    ExecuteQuery(s, sql, all, mode, reply, None, now, quote);
    assert CacheAnswer(s.cache, mode, None, now) == None;
    assert CacheEvictions(s.cache, mode, None, now, q) == [];
    StoreBranch(ResetSession(s), q, all, mode, reply);
  }

  /** A read with a cache() handle that the connection answers is stored with the handle's expiry time. */
  lemma StoreBranch(s: Session, q: string, all: bool, mode: FetchMode, reply: Reply)
    requires s.cache.Some? && mode != FetchClass && reply.read.Some?
    ensures var r := ExecuteStatement(s, q, true, all, mode, reply, None, []);
            r.outcome.Done? && r.actions == [Query(q), CacheWrite(q, r.outcome.result, s.cache.value.finish)]
  {
  }

  /** A read the cache answers with a non-empty result needs no connection. */
  lemma HitBranch(s: Session, q: string, all: bool, mode: FetchMode, reply: Reply, data: Payload)
    requires Truthy(data, mode)
    ensures var r := ExecuteStatement(s, q, true, all, mode, reply, Some(data), []);
            r.outcome == Done(data) && r.actions == [] && r.session.queryCount == s.queryCount + 1
            && r.session.cache.None? && r.session.numRows == CountOf(data, mode)
  {
  }

  /** A hit answers a read without the connection and counts as a query. */
  lemma CacheHitSkipsConnection(s: Session, sql: string, all: bool, mode: FetchMode, reply: Reply,
                                entry: CacheEntry, now: int, quote: string -> string)
    requires IsRead(Normalize(sql)) && s.cache.Some? && mode != FetchClass
    requires now <= entry.finish && Truthy(entry.data, mode)
    ensures var r := RunQuery(s, sql, Execute(all, mode), reply, Some(entry), now, quote);
            r.outcome == Done(entry.data) && r.actions == [] && r.session.queryCount == s.queryCount + 1
            && r.session.cache.None? && r.session.numRows == CountOf(entry.data, mode)
  {
    var q := Normalize(sql);
    ExecuteQuery(s, sql, all, mode, reply, Some(entry), now, quote);
    assert CacheAnswer(s.cache, mode, Some(entry), now) == Some(entry.data);
    assert CacheEvictions(s.cache, mode, Some(entry), now, q) == [];
    HitBranch(ResetSession(s), q, all, mode, reply, entry.data);
  }

  // ---------------------------------------------------------------------------
  // exec() and fetch()

  /** exec(): runs the stored query with PDO::exec(); nothing when there is none. */
  function RunExec(s: Session, reply: Reply): (r: Step)
    ensures s.query.None? <==> r.outcome == NoQuery
    ensures s.query.None? ==> r.session == s && r.actions == []
    ensures s.query.Some? ==> r.actions == [Exec(s.query.value)]
    ensures r.session.(error := s.error) == s
    ensures r.outcome.Done? ==> reply.write.Some? && r.outcome.result == Affected(reply.write.value)
  {
    match s.query
    case None => Step(s, NoQuery, [])
    case Some(q) =>
      match reply.write
      case None => Step(s.(error := Some(reply.errorInfo)), Failed(reply.errorInfo, q), [Exec(q)])
      case Some(n) => Step(s, Done(Affected(n)), [Exec(q)])
  }

  /**
   * fetch()/fetchAll(): reads the stored query with PDO::query() and
   * returns one row or all of them, setting numRows to the count of the
   * array returned, or 1 for anything else; the result field is not touched.
   */
  function RunFetch(s: Session, mode: FetchMode, all: bool, reply: Reply): (r: Step)
    ensures s.query.None? <==> r.outcome == NoQuery
    ensures s.query.None? ==> r.session == s && r.actions == []
    ensures s.query.Some? ==> r.actions == [Query(s.query.value)]
    ensures r.session.(error := s.error, numRows := s.numRows) == s
    ensures r.outcome.Done? ==> r.session.numRows == CountOf(r.outcome.result, mode)
    ensures r.outcome.Done? ==> reply.read.Some? && (all ==> r.outcome.result == Rows(reply.read.value.rows))
    ensures r.outcome.Done? && !all ==>
              r.outcome.result == (if reply.read.value.rows == [] then NoRow else OneRow(reply.read.value.rows[0]))
  {
    match s.query
    case None => Step(s, NoQuery, [])
    case Some(q) =>
      match reply.read
      case None => Step(s.(error := Some(reply.errorInfo)), Failed(reply.errorInfo, q), [Query(q)])
      case Some(cur) =>
        var result := Fetched(cur.rows, all);
        Step(s.(numRows := CountOf(result, mode)), Done(result), [Query(q)])
  }

  /**
   * query($sql, $params) followed by exec() runs the template with the
   * parameters in place of its marks, and query() alone never reaches the
   * connection.
   */
  lemma PreparedThenExec(s: Session, sql: string, params: seq<Value>, reply: Reply, stored: Option<CacheEntry>,
                         now: int, reply2: Reply, quote: string -> string)
    requires FillableTemplate(Split(sql, '?')) && |params| < |Split(sql, '?')|
    ensures var prepared := RunQuery(s, sql, Template(params), reply, stored, now, quote);
            prepared.actions == []
            && RunExec(prepared.session, reply2).actions == [Exec(Substitute(sql, params, quote, 0))]
  {
    TemplateIsSubstitution(sql, params, quote);
  }
}
