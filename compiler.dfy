/**
 * Statement compilation: how getAll(), update(), delete(), insert() and the
 * table-maintenance calls put the stored clause fragments together into one
 * SQL statement.
 */
module Compiler {
  import opened Wrappers
  import opened SqlText
  import opened Escaper
  import opened Clauses

  /** The clause fields of a builder, as they stand when a statement is compiled. */
  datatype Parts = Parts(
    select: string,
    from: Option<string>,
    where: Option<string>,
    limit: Option<string>,
    offset: Option<int>,
    join: Option<string>,
    orderBy: Option<string>,
    groupBy: Option<string>,
    having: Option<string>,
    grouped: bool)

  /** The clause fields after reset(): select everything, nothing else set. */
  const EmptyParts := Parts("*", None, None, None, None, None, None, None, None, false)

  function PredOf(p: Parts): PredState
  {
    PredState(p.where, p.grouped)
  }

  /** The clause fields with the where family's two fields replaced. */
  function WithPred(p: Parts, st: PredState): (r: Parts)
    ensures PredOf(r) == st
    ensures r.(where := p.where, grouped := p.grouped) == p
  {
    p.(where := st.where, grouped := st.grouped)
  }

  /** The clause `lead` introduces followed by the part when the part is set, nothing otherwise. */
  function Clause(lead: string, part: Option<string>): (r: string)
    requires lead != []
    ensures part.None? <==> r == ""
  {
    if part.None? then "" else lead + part.value
  }

  /** `if (!is_null($part)) $query .= lead . $part;`, the step every compiler repeats per clause. */
  method AppendIfSet(sql: string, lead: string, part: Option<string>) returns (r: string)
    requires lead != []
    ensures r == sql + Clause(lead, part)
  {
    r := sql;
    if part.Some? {
      r := r + lead + part.value;
    } else {
      assert r + "" == r;
    }
  }

  /** The OFFSET text: the integer in decimal. */
  function OffsetPart(offset: Option<int>): (r: Option<string>)
    ensures r.Some? <==> offset.Some?
    ensures r.Some? ==> ParseInt(r.value) == Some(offset.value)
  {
    if offset.None? then None else IntTextRoundTrip(offset.value); Some(IntText(offset.value))
  }

  /** "SELECT list FROM tables", the part every SELECT statement starts with. */
  function SelectHead(p: Parts): string
  {
    "SELECT " + p.select + " FROM " + OrEmpty(p.from)
  }

  /** getAll(): SELECT list FROM tables, then joins, WHERE, GROUP BY, HAVING, ORDER BY, LIMIT, OFFSET. */
  function SelectStatement(p: Parts): (r: string)
    ensures StartsWith(r, SelectHead(p))
  {
    var r := SelectHead(p) + OrEmpty(p.join) + Clause(" WHERE ", p.where) + Clause(" GROUP BY ", p.groupBy)
      + Clause(" HAVING ", p.having) + Clause(" ORDER BY ", p.orderBy) + Clause(" LIMIT ", p.limit)
      + Clause(" OFFSET ", OffsetPart(p.offset));
    assert r == SelectHead(p) + r[|SelectHead(p)|..];
    r
  }

  /** The optional clauses of a SELECT after its joins, each with the text that introduces it, in order. */
  function SelectClauses(p: Parts): seq<(string, Option<string>)>
  {
    [(" WHERE ", p.where), (" GROUP BY ", p.groupBy), (" HAVING ", p.having), (" ORDER BY ", p.orderBy),
     (" LIMIT ", p.limit), (" OFFSET ", OffsetPart(p.offset))]
  }

  /** The optional clauses UPDATE and DELETE take, in order. */
  function FilterClauses(p: Parts): seq<(string, Option<string>)>
  {
    [(" WHERE ", p.where), (" ORDER BY ", p.orderBy), (" LIMIT ", p.limit)]
  }

  /** The clauses that are set, rendered, in their given order; unset ones leave no trace. */
  function Present(cs: seq<(string, Option<string>)>): (r: seq<string>)
    ensures |r| <= |cs|
    ensures r == [] <==> forall i :: 0 <= i < |cs| ==> cs[i].1.None?
  {
    if cs == [] then []
    else (if cs[0].1.Some? then [cs[0].0 + cs[0].1.value] else []) + Present(cs[1..])
  }

  lemma PresentStep(c: (string, Option<string>), cs: seq<(string, Option<string>)>)
    requires c.0 != []
    ensures Concat(Present([c] + cs)) == Clause(c.0, c.1) + Concat(Present(cs))
  {
    assert ([c] + cs)[1..] == cs;
    if c.1.Some? {
      var x := c.0 + c.1.value;
      assert Present([c] + cs) == [x] + Present(cs);
      assert ([x] + Present(cs))[1..] == Present(cs);
    } else {
      assert Present([c] + cs) == Present(cs);
    }
  }

  /** Three clauses in a row render as their set parts in order. */
  lemma {:induction false} PresentThree(a: (string, Option<string>), b: (string, Option<string>), c: (string, Option<string>))
    requires a.0 != [] && b.0 != [] && c.0 != []
    ensures Concat(Present([a, b, c])) == Clause(a.0, a.1) + Clause(b.0, b.1) + Clause(c.0, c.1)
  {
    var x, y, z := Clause(a.0, a.1), Clause(b.0, b.1), Clause(c.0, c.1);
    assert [c] == [c] + [];
    PresentStep(c, []);
    assert Concat(Present([c])) == z + "";
    assert z + "" == z;
    assert [b, c] == [b] + [c];
    PresentStep(b, [c]);
    assert [a, b, c] == [a] + [b, c];
    PresentStep(a, [b, c]);
    assert Concat(Present([a, b, c])) == x + (y + z);
    assert x + (y + z) == x + y + z;
  }

  /**
   * The SELECT statement is its head, its joins, and then exactly the
   * clauses that are set, in the fixed order WHERE, GROUP BY, HAVING,
   * ORDER BY, LIMIT, OFFSET; with none set it is the head and joins alone.
   */
  lemma SelectClauseOrder(p: Parts)
    ensures SelectStatement(p) == SelectHead(p) + OrEmpty(p.join) + Concat(Present(SelectClauses(p)))
  {
    SelectClausesSplit(p);
    var w, g, h := Clause(" WHERE ", p.where), Clause(" GROUP BY ", p.groupBy), Clause(" HAVING ", p.having);
    var o, l, f := Clause(" ORDER BY ", p.orderBy), Clause(" LIMIT ", p.limit), Clause(" OFFSET ", OffsetPart(p.offset));
    var start := SelectHead(p) + OrEmpty(p.join);
    AppendThree(start, w, g, h);
    AppendThree(start + w + g + h, o, l, f);
  }

  /** A SELECT has no clause after its joins exactly when none of the six clause fields is set. */
  lemma SelectWithoutClauses(p: Parts)
    ensures Present(SelectClauses(p)) == [] <==>
              p.where.None? && p.groupBy.None? && p.having.None? && p.orderBy.None? && p.limit.None? && p.offset.None?
  {
    var cs := SelectClauses(p);
    assert cs[0].1 == p.where && cs[1].1 == p.groupBy && cs[2].1 == p.having;
    assert cs[3].1 == p.orderBy && cs[4].1 == p.limit && cs[5].1 == OffsetPart(p.offset);
  }

  /** The six SELECT clauses render as the first three followed by the last three. */
  lemma SelectClausesSplit(p: Parts)
    ensures Concat(Present(SelectClauses(p)))
         == (Clause(" WHERE ", p.where) + Clause(" GROUP BY ", p.groupBy) + Clause(" HAVING ", p.having))
            + (Clause(" ORDER BY ", p.orderBy) + Clause(" LIMIT ", p.limit) + Clause(" OFFSET ", OffsetPart(p.offset)))
  {
    var cs := SelectClauses(p);
    var front, back := cs[..3], cs[3..];
    assert cs == front + back;
    assert front == [cs[0], cs[1], cs[2]] && back == [cs[3], cs[4], cs[5]];
    PresentAppend(front, back);
    ConcatAppend(Present(front), Present(back));
    PresentThree(cs[0], cs[1], cs[2]);
    PresentThree(cs[3], cs[4], cs[5]);
  }

  lemma {:induction false} PresentAppend(a: seq<(string, Option<string>)>, b: seq<(string, Option<string>)>)
    ensures Present(a + b) == Present(a) + Present(b)
  {
    if a != [] {
      var h := if a[0].1.Some? then [a[0].0 + a[0].1.value] else [];
      assert (a + b)[0] == a[0] && (a + b)[1..] == a[1..] + b;
      assert Present(a + b) == h + Present(a[1..] + b);
      PresentAppend(a[1..], b);
      assert Present(a) == h + Present(a[1..]);
      assert h + (Present(a[1..]) + Present(b)) == (h + Present(a[1..])) + Present(b);
    } else {
      assert a + b == b;
    }
  }

  lemma {:induction false} ConcatAppend(a: seq<string>, b: seq<string>)
    ensures Concat(a + b) == Concat(a) + Concat(b)
  {
    if a != [] {
      assert (a + b)[0] == a[0] && (a + b)[1..] == a[1..] + b;
      ConcatAppend(a[1..], b);
    } else {
      assert a + b == b;
    }
  }

  /** A builder with only a table set selects everything from it. */
  lemma PlainSelect(table: string)
    ensures SelectStatement(EmptyParts.(from := Some(table))) == "SELECT * FROM " + table
  {
    var head := "SELECT * FROM " + table;
    assert head + "" + "" + "" + "" + "" + "" + "" == head;
  }

  /** update(): UPDATE tables SET column=value,... then WHERE, ORDER BY, LIMIT. */
  function UpdateStatement(p: Parts, pairs: seq<(string, Value)>, quote: string -> string): (r: string)
    ensures StartsWith(r, "UPDATE " + OrEmpty(p.from) + " SET " + Join(EqualityList("", pairs, quote), ","))
  {
    var head := "UPDATE " + OrEmpty(p.from) + " SET " + Join(EqualityList("", pairs, quote), ",");
    StartsBeforeThree(head, Clause(" WHERE ", p.where), Clause(" ORDER BY ", p.orderBy), Clause(" LIMIT ", p.limit));
    head + Clause(" WHERE ", p.where) + Clause(" ORDER BY ", p.orderBy) + Clause(" LIMIT ", p.limit)
  }

  /** The UPDATE statement ends with exactly the set clauses among WHERE, ORDER BY and LIMIT, in that order. */
  lemma UpdateClauseOrder(p: Parts, pairs: seq<(string, Value)>, quote: string -> string)
    ensures UpdateStatement(p, pairs, quote)
         == "UPDATE " + OrEmpty(p.from) + " SET " + Join(EqualityList("", pairs, quote), ",")
            + Concat(Present(FilterClauses(p)))
  {
    var cs := FilterClauses(p);
    PresentThree(cs[0], cs[1], cs[2]);
    assert cs == [cs[0], cs[1], cs[2]];
  }

  /**
   * delete(): DELETE FROM tables then WHERE, ORDER BY, LIMIT; a statement
   * with none of the three becomes TRUNCATE TABLE.
   */
  function DeleteStatement(p: Parts): (r: string)
    ensures r == "TRUNCATE TABLE " + OrEmpty(p.from)
        <==> p.where.None? && p.orderBy.None? && p.limit.None?
    ensures r != "TRUNCATE TABLE " + OrEmpty(p.from) ==> StartsWith(r, "DELETE FROM " + OrEmpty(p.from))
  {
    var base := "DELETE FROM " + OrEmpty(p.from);
    var q := base + Clause(" WHERE ", p.where) + Clause(" ORDER BY ", p.orderBy) + Clause(" LIMIT ", p.limit);
    assert q == base + q[|base|..];
    assert q == base <==> q[|base|..] == "";
    assert q[0] == 'D' && ("TRUNCATE TABLE " + OrEmpty(p.from))[0] == 'T';
    if q == base then "TRUNCATE TABLE " + OrEmpty(p.from) else q
  }

  /** A DELETE that is not a truncation ends with exactly the set clauses, in order. */
  lemma DeleteClauseOrder(p: Parts)
    requires p.where.Some? || p.orderBy.Some? || p.limit.Some?
    ensures DeleteStatement(p) == "DELETE FROM " + OrEmpty(p.from) + Concat(Present(FilterClauses(p)))
  {
    var cs := FilterClauses(p);
    PresentThree(cs[0], cs[1], cs[2]);
    assert cs == [cs[0], cs[1], cs[2]];
    var base := "DELETE FROM " + OrEmpty(p.from);
    var w, o, l := Clause(" WHERE ", p.where), Clause(" ORDER BY ", p.orderBy), Clause(" LIMIT ", p.limit);
    AppendThree(base, w, o, l);
    assert DeleteStatement(p) != "TRUNCATE TABLE " + OrEmpty(p.from);
  }

  /** The argument of insert(): one column => value row, or several rows. */
  datatype InsertData =
    | Single(row: seq<(string, Value)>)
    | Many(first: seq<(string, Value)>, more: seq<seq<(string, Value)>>)

  function Columns(row: seq<(string, Value)>): (r: seq<string>)
    ensures |r| == |row| && forall i :: 0 <= i < |row| ==> r[i] == row[i].0
  {
    seq(|row|, i requires 0 <= i < |row| => row[i].0)
  }

  function Literals(row: seq<(string, Value)>, quote: string -> string): (r: seq<string>)
    ensures |r| == |row| && forall i :: 0 <= i < |row| ==> r[i] == Escape(row[i].1, quote)
  {
    seq(|row|, i requires 0 <= i < |row| => Escape(row[i].1, quote))
  }

  /** One parenthesised VALUES tuple. */
  function Tuple(row: seq<(string, Value)>, quote: string -> string): string
  {
    "(" + Join(Literals(row, quote), ", ") + ")"
  }

  function Tuples(rows: seq<seq<(string, Value)>>, quote: string -> string): (r: seq<string>)
    ensures |r| == |rows| && forall i :: 0 <= i < |rows| ==> r[i] == Tuple(rows[i], quote)
  {
    seq(|rows|, i requires 0 <= i < |rows| => Tuple(rows[i], quote))
  }

  /** The loop of insert() over its rows: every tuple followed by ", ". */
  method TupleList(rows: seq<seq<(string, Value)>>, quote: string -> string) returns (text: string)
    ensures text == Terminated(Tuples(rows, quote), ", ")
  {
    text := "";
    var i := 0;
    while i < |rows|
      invariant 0 <= i <= |rows|
      invariant text == Terminated(Tuples(rows[..i], quote), ", ")
    {
      assert Tuples(rows[..i + 1], quote) == Tuples(rows[..i], quote) + [Tuple(rows[i], quote)];
      TerminatedSnoc(Tuples(rows[..i], quote), Tuple(rows[i], quote), ", ");
      text := text + Tuple(rows[i], quote) + ", ";
      i := i + 1;
    }
    assert rows[..i] == rows;
  }

  /**
   * insert(): the columns come from the first row; several rows are written
   * as tuples each followed by ", ", and commas and spaces are then trimmed
   * from both ends of the statement.
   */
  function InsertStatement(from: Option<string>, data: InsertData, quote: string -> string): string
  {
    var head := "INSERT INTO " + OrEmpty(from);
    match data
    case Single(row) =>
      head + " (" + Join(Columns(row), ", ") + ") VALUES (" + Join(Literals(row, quote), ", ") + ")"
    case Many(first, more) =>
      Trim(head + " (" + Join(Columns(first), ", ") + ") VALUES "
           + Terminated(Tuples([first] + more, quote), ", "), {',', ' '})
  }

  /** Joined tuples end with the closing parenthesis of the last one. */
  lemma JoinedTuplesClose(rows: seq<seq<(string, Value)>>, quote: string -> string)
    requires rows != []
    ensures var j := Join(Tuples(rows, quote), ", "); j != [] && j[|j| - 1] == ')'
  {
    var tuples := Tuples(rows, quote);
    var last := tuples[|tuples| - 1];
    TupleCloses(rows[|rows| - 1], quote);
    JoinLast(tuples, ", ");
    var j := Join(tuples, ", ");
    assert j[|j| - 1] == j[|j| - |last|..][|last| - 1];
  }

  /** A VALUES tuple ends with its closing parenthesis. */
  lemma TupleCloses(row: seq<(string, Value)>, quote: string -> string)
    ensures var t := Tuple(row, quote); t != [] && t[|t| - 1] == ')'
  {
    var inner := Join(Literals(row, quote), ", ");
    assert Tuple(row, quote) == "(" + inner + ")";
  }

  /** The trim of the multi-row form removes only the separator after the last tuple. */
  lemma ManyRowsJoined(from: Option<string>, first: seq<(string, Value)>, more: seq<seq<(string, Value)>>,
                       quote: string -> string)
    ensures InsertStatement(from, Many(first, more), quote)
         == "INSERT INTO " + OrEmpty(from) + " (" + Join(Columns(first), ", ") + ") VALUES "
            + Join(Tuples([first] + more, quote), ", ")
  {
    var tuples := Tuples([first] + more, quote);
    var head := "INSERT INTO " + OrEmpty(from) + " (" + Join(Columns(first), ", ") + ") VALUES ";
    var joined := Join(tuples, ", ");
    TerminatedIsJoin(tuples, ", ");
    JoinedTuplesClose([first] + more, quote);
    var body := head + joined;
    assert body[0] == 'I' && body[|body| - 1] == ')';
    assert head + Terminated(tuples, ", ") == body + ", ";
    TrimTail(body, ", ", {',', ' '});
  }

  /** A two-column tuple. */
  lemma PairTuple(c1: string, u: Value, c2: string, v: Value, quote: string -> string)
    ensures Tuple([(c1, u), (c2, v)], quote) == "(" + Escape(u, quote) + ", " + Escape(v, quote) + ")"
  {
    var lits := Literals([(c1, u), (c2, v)], quote);
    assert lits == [Escape(u, quote), Escape(v, quote)];
    JoinPair(Escape(u, quote), Escape(v, quote), ", ");
  }

  /** A tuple of two one-digit integers. */
  lemma DigitPairTuple(c1: string, x: nat, c2: string, y: nat, quote: string -> string)
    requires x < 10 && y < 10
    ensures Tuple([(c1, Int(x)), (c2, Int(y))], quote) == ['(', DigitChar(x), ',', ' ', DigitChar(y), ')']
  {
    PairTuple(c1, Int(x), c2, Int(y), quote);
    assert Escape(Int(x), quote) == [DigitChar(x)];
    assert Escape(Int(y), quote) == [DigitChar(y)];
  }

  /** The column list of the two-row example below. */
  lemma ExampleColumns(r1: seq<(string, Value)>)
    requires r1 == [("a", Int(1)), ("b", Int(2))]
    ensures Join(Columns(r1), ", ") == "a, b"
  {
    assert Columns(r1) == ["a", "b"];
    JoinPair("a", "b", ", ");
  }

  /** The tuple list of the two-row example below. */
  lemma ExampleTuples(r1: seq<(string, Value)>, r2: seq<(string, Value)>, quote: string -> string)
    requires r1 == [("a", Int(1)), ("b", Int(2))] && r2 == [("a", Int(3)), ("b", Int(4))]
    ensures Join(Tuples([r1] + [r2], quote), ", ") == "(1, 2), (3, 4)"
  {
    DigitPairTuple("a", 1, "b", 2, quote);
    DigitPairTuple("a", 3, "b", 4, quote);
    var tuples := Tuples([r1] + [r2], quote);
    assert tuples == [Tuple(r1, quote), Tuple(r2, quote)];
    JoinPair(Tuple(r1, quote), Tuple(r2, quote), ", ");
  }

  /** insert([[a=>1, b=>2], [a=>3, b=>4]]) compiles to one INSERT with both tuples. */
  lemma TwoRowInsert(table: string, r1: seq<(string, Value)>, r2: seq<(string, Value)>, quote: string -> string)
    requires r1 == [("a", Int(1)), ("b", Int(2))] && r2 == [("a", Int(3)), ("b", Int(4))]
    ensures InsertStatement(Some(table), Many(r1, [r2]), quote)
         == "INSERT INTO " + table + " (a, b) VALUES (1, 2), (3, 4)"
  {
    ManyRowsJoined(Some(table), r1, [r2], quote);
    ExampleColumns(r1);
    ExampleTuples(r1, r2, quote);
    InsertText(table, Join(Columns(r1), ", "), Join(Tuples([r1] + [r2], quote), ", "));
  }

  /** Concatenating the INSERT pieces once the column list and the tuples are known. */
  lemma InsertText(table: string, cols: string, vals: string)
    requires cols == "a, b" && vals == "(1, 2), (3, 4)"
    ensures "INSERT INTO " + table + " (" + cols + ") VALUES " + vals
         == "INSERT INTO " + table + " (a, b) VALUES (1, 2), (3, 4)"
  {
    var lit := " (" + cols + ") VALUES " + vals;
    assert lit == " (a, b) VALUES (1, 2), (3, 4)";
    assert "INSERT INTO " + table + " (" + cols + ") VALUES " + vals == "INSERT INTO " + table + lit;
  }

  /** The table-maintenance calls: analyze(), check(), checksum(), optimize(), repair(). */
  datatype Maintenance = Analyze | Check | Checksum | Optimize | Repair

  function MaintenanceKeyword(k: Maintenance): string
  {
    match k
    case Analyze => "ANALYZE"
    case Check => "CHECK"
    case Checksum => "CHECKSUM"
    case Optimize => "OPTIMIZE"
    case Repair => "REPAIR"
  }

  function MaintenanceStatement(k: Maintenance, from: Option<string>): string
  {
    MaintenanceKeyword(k) + " TABLE " + OrEmpty(from)
  }
}
