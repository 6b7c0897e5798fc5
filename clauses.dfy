/**
 * The clause builders of DbBuilder: what table(), select() and the
 * aggregates, join(), the where family (where, whereNull, in, between,
 * like and their or/not variants), grouped(), limit(), offset(),
 * pagination(), orderBy(), groupBy() and having() turn their arguments
 * into. Every builder writes one fragment of SQL text; the functions here
 * say which, and the class in Builder stores them.
 */
module Clauses {
  import opened Wrappers
  import opened SqlText
  import opened Escaper

  /** The comparison operators the builder recognises as such. */
  const Operators: seq<string> := ["=", "!=", "<", ">", "<=", ">=", "<>"]

  /** in_array($operator, $this->operators) for a value passed as the operator. */
  predicate IsOperator(v: Value)
  {
    v.Text? && v.s in Operators
  }

  /** The `$type` argument of the not-variants. */
  function NotText(negate: bool): string
  {
    if negate then "NOT " else ""
  }

  // ---------------------------------------------------------------------------
  // table()

  /** table() takes an array of names or a single string. */
  datatype TableArg = TableList(names: seq<string>) | TableName(text: string)

  /** Every name of the list with the table prefix in front. */
  function Prefixed(prefix: string, names: seq<string>): (r: seq<string>)
    ensures |r| == |names|
    ensures forall i :: 0 <= i < |names| ==> r[i] == prefix + names[i]
  {
    seq(|names|, i requires 0 <= i < |names| => prefix + names[i])
  }

  /** strpos($table, ', ') > 0: a ", " occurs, and not first at position 0. */
  predicate IsCommaList(t: string)
  {
    Contains(t, ", ") && !StartsWith(t, ", ")
  }

  /**
   * The FROM text table() stores: for a list, the prefixed names each
   * followed by ", " with every trailing comma and space then cut off; for a
   * string holding ", " after its start, the pieces between commas joined
   * again with ", " and no prefix; otherwise the prefixed string.
   */
  function TableText(prefix: string, arg: TableArg): string
  {
    match arg
    case TableList(names) => RTrim(Terminated(Prefixed(prefix, names), ", "), {',', ' '})
    case TableName(t) =>
      if IsCommaList(t) then Join(Split(t, ','), ", ") else prefix + t
  }

  /** The loop of table() over an array of names. */
  method PrefixTables(prefix: string, names: seq<string>) returns (from: string)
    ensures from == Terminated(Prefixed(prefix, names), ", ")
  {
    from := "";
    var i := 0;
    while i < |names|
      invariant 0 <= i <= |names|
      invariant from == Terminated(Prefixed(prefix, names[..i]), ", ")
    {
      assert Prefixed(prefix, names[..i + 1]) == Prefixed(prefix, names[..i]) + [prefix + names[i]];
      TerminatedSnoc(Prefixed(prefix, names[..i]), prefix + names[i], ", ");
      from := from + prefix + names[i] + ", ";
      i := i + 1;
    }
    assert names[..i] == names;
  }

  /**
   * For a non-empty list whose last prefixed name does not end in a comma or
   * a space, table() stores the prefixed names joined by ", ".
   */
  lemma TableListJoined(prefix: string, names: seq<string>)
    requires names != []
    requires var last := prefix + names[|names| - 1]; last != [] && last[|last| - 1] !in {',', ' '}
    ensures TableText(prefix, TableList(names)) == Join(Prefixed(prefix, names), ", ")
  {
    var items := Prefixed(prefix, names);
    var j := Join(items, ", ");
    TerminatedIsJoin(items, ", ");
    JoinLast(items, ", ");
    var last := items[|items| - 1];
    assert j[|j| - 1] == last[|last| - 1];
    RTrimDropsTail(j, ", ", {',', ' '});
  }

  /**
   * A string listing tables is split at every comma and joined again with
   * ", ", keeping the space that followed each comma; the table prefix is
   * not applied.
   */
  lemma CommaListIgnoresPrefix(prefix: string, a: string, b: string)
    requires a != [] && ',' !in a && ',' !in b
    ensures TableText(prefix, TableName(a + ", " + b)) == a + ",  " + b
  {
    var t := a + ", " + b;
    CommaListDetected(a, b);
    assert t == a + [','] + (" " + b);
    SplitAround(a, " " + b, ',');
    JoinPair(a, " " + b, ", ");
    assert ", " + " " == ",  ";
  }

  /** A ", " after a first character that is not a comma makes a comma list. */
  lemma CommaListDetected(a: string, b: string)
    requires a != [] && ',' !in a
    ensures IsCommaList(a + ", " + b)
  {
    var t := a + ", " + b;
    var sep := ", ";
    assert t[|a|..|a| + 2] == sep;
    ContainsAt(t, sep, |a|);
    assert t[0] == a[0] && a[0] != ',';
    assert !StartsWith(t, sep) by { assert t[..2][0] != sep[0]; }
  }

  /** An occurrence of `p` at position `k` makes strpos find something. */
  lemma {:induction false} ContainsAt(t: string, p: string, k: nat)
    requires k + |p| <= |t| && t[k..k + |p|] == p
    ensures Contains(t, p)
    decreases k
  {
    if k > 0 {
      assert t[1..][k - 1..k - 1 + |p|] == t[k..k + |p|];
      ContainsAt(t[1..], p, k - 1);
    }
  }

  // ---------------------------------------------------------------------------
  // select() and the aggregates

  /** select() takes an array of column expressions or a string. */
  datatype FieldList = Names(names: seq<string>) | Raw(text: string)

  function FieldListText(f: FieldList): string
  {
    match f
    case Names(ns) => Join(ns, ", ")
    case Raw(t) => t
  }

  /**
   * An array of names is written as the string of those names separated by
   * ", ": one name is that name, and each further name adds ", " and itself.
   */
  lemma FieldListJoined(ns: seq<string>, n: string)
    ensures FieldListText(Names([n])) == FieldListText(Raw(n))
    ensures ns != [] ==> FieldListText(Names(ns + [n])) == FieldListText(Names(ns)) + ", " + n
  {
    if ns != [] {
      JoinSnoc(ns, n, ", ");
    }
  }

  /** optimizeSelect(): the first expression replaces "*", later ones are appended after ", ". */
  function AddSelect(current: string, expr: string): string
  {
    if current == "*" then expr else current + ", " + expr
  }

  /** The select list after a series of select() calls from `current`. */
  function SelectAfter(current: string, exprs: seq<string>): string
    decreases |exprs|
  {
    if exprs == [] then current else SelectAfter(AddSelect(current, exprs[0]), exprs[1..])
  }

  lemma {:induction false} SelectAfterJoins(current: string, exprs: seq<string>)
    requires current != "*"
    ensures SelectAfter(current, exprs) == Join([current] + exprs, ", ")
    decreases |exprs|
  {
    if exprs != [] {
      var next := current + ", " + exprs[0];
      assert |next| >= 2;
      SelectAfterJoins(next, exprs[1..]);
      assert ([current] + exprs)[1..] == exprs;
      assert ([next] + exprs[1..])[1..] == exprs[1..];
      assert exprs == [exprs[0]] + exprs[1..];
      assert ([exprs[0]] + exprs[1..])[1..] == exprs[1..];
    }
  }

  /**
   * Starting from the default "*", successive select() calls build the
   * comma-separated list of what they were given, in call order, as long as
   * the first of them is not itself "*".
   */
  lemma SelectCallsAccumulate(exprs: seq<string>)
    requires exprs != [] && exprs[0] != "*"
    ensures SelectAfter("*", exprs) == Join(exprs, ", ")
  {
    SelectAfterJoins(exprs[0], exprs[1..]);
    assert [exprs[0]] + exprs[1..] == exprs;
  }

  datatype Aggregate = Max | Min | Sum | Count | Avg

  function AggregateName(k: Aggregate): string
  {
    match k
    case Max => "MAX"
    case Min => "MIN"
    case Sum => "SUM"
    case Count => "COUNT"
    case Avg => "AVG"
  }

  /** The column max()/min()/sum()/count()/avg() add: FN(field), with " AS name" when a name is given. */
  function AggregateText(k: Aggregate, field: string, name: Option<string>): (r: string)
    ensures StartsWith(r, AggregateName(k) + "(" + field + ")")
    ensures name.None? <==> r == AggregateName(k) + "(" + field + ")"
    ensures name.Some? ==> r == AggregateName(k) + "(" + field + ") AS " + name.value
  {
    var base := AggregateName(k) + "(" + field + ")";
    assert base + "" == base;
    if name.Some? then base + " AS " + name.value else base
  }

  // ---------------------------------------------------------------------------
  // join()

  datatype JoinKind = Plain | Inner | Left | Right | FullOuter | LeftOuter | RightOuter

  /** The `$type` each join wrapper passes. */
  function JoinKindText(k: JoinKind): string
  {
    match k
    case Plain => ""
    case Inner => "INNER "
    case Left => "LEFT "
    case Right => "RIGHT "
    case FullOuter => "FULL OUTER "
    case LeftOuter => "LEFT OUTER "
    case RightOuter => "RIGHT OUTER "
  }

  /**
   * The ON condition of join(): field1 alone without an operator; with an
   * operator that is not a comparison, field1 = operator (followed by field2
   * when given); otherwise field1 operator field2.
   */
  function JoinCondition(field1: Option<string>, op: Option<string>, field2: Option<string>): string
  {
    if op.None? then OrEmpty(field1)
    else if op.value !in Operators then
      OrEmpty(field1) + " = " + op.value + (if field2.Some? then " " + field2.value else "")
    else OrEmpty(field1) + " " + op.value + " " + OrEmpty(field2)
  }

  /** One JOIN clause, with the table prefix applied to the joined table. */
  function JoinClause(kind: JoinKind, prefix: string, table: string, on: string): string
  {
    " " + JoinKindText(kind) + "JOIN " + prefix + table + " ON " + on
  }

  /** join() appends its clause to those already there. */
  function AddJoin(current: Option<string>, clause: string): (r: string)
    ensures current.None? ==> r == clause
    ensures current.Some? ==> r == current.value + clause
  {
    if current.None? then clause else current.value + clause
  }

  /** The joins after a series of join() calls: their clauses in call order. */
  function JoinsAfter(current: Option<string>, clauses: seq<string>): Option<string>
    decreases |clauses|
  {
    if clauses == [] then current else JoinsAfter(Some(AddJoin(current, clauses[0])), clauses[1..])
  }

  lemma {:induction false} JoinsConcatenate(current: Option<string>, clauses: seq<string>)
    requires current.Some? || clauses != []
    ensures JoinsAfter(current, clauses) == Some(OrEmpty(current) + Concat(clauses))
    decreases |clauses|
  {
    if clauses == [] {
      assert current.value + "" == current.value;
    } else {
      var next := AddJoin(current, clauses[0]);
      JoinsConcatenate(Some(next), clauses[1..]);
      assert JoinsAfter(current, clauses) == JoinsAfter(Some(next), clauses[1..]);
      assert next == OrEmpty(current) + clauses[0];
      calc {
        OrEmpty(Some(next)) + Concat(clauses[1..]);
        (OrEmpty(current) + clauses[0]) + Concat(clauses[1..]);
        OrEmpty(current) + (clauses[0] + Concat(clauses[1..]));
        OrEmpty(current) + Concat(clauses);
      }
    }
  }

  function Concat(parts: seq<string>): string
  {
    if parts == [] then "" else parts[0] + Concat(parts[1..])
  }

  /** join($t, $f, $v) with a value that is no operator means join($t, $f, '=', $v). */
  lemma JoinShorthandIsEquality(f: string, v: string)
    requires v !in Operators
    ensures JoinCondition(Some(f), Some(v), None) == JoinCondition(Some(f), Some("="), Some(v))
  {
  }

  /**
   * The typed join wrappers default the operator and the second field to the
   * empty string, so called with one field they produce "field =  ".
   */
  lemma JoinWrapperDefaults(f: string)
    ensures JoinCondition(Some(f), Some(""), Some("")) == f + " =  "
  {
    assert "" !in Operators;
  }

  // ---------------------------------------------------------------------------
  // where(): its three argument shapes

  datatype Connector = And | Or

  function ConnectorText(c: Connector): string
  {
    match c
    case And => "AND"
    case Or => "OR"
  }

  /** The first argument of where(): nothing, a column => value array, or a field text. */
  datatype WhereFirst = NoCondition | Columns(pairs: seq<(string, Value)>) | Field(text: string)

  /** The second argument of where(): a parameter array for "?" marks, or one value. */
  datatype WhereSecond = Params(values: seq<Value>) | Scalar(value: Value)

  /** One column=value test of the array form. */
  function EqualityItem(prefix: string, pair: (string, Value), quote: string -> string): string
  {
    prefix + pair.0 + "=" + Escape(pair.1, quote)
  }

  function EqualityList(prefix: string, pairs: seq<(string, Value)>, quote: string -> string): (r: seq<string>)
    ensures |r| == |pairs|
    ensures forall i :: 0 <= i < |pairs| ==> r[i] == EqualityItem(prefix, pairs[i], quote)
  {
    seq(|pairs|, i requires 0 <= i < |pairs| => EqualityItem(prefix, pairs[i], quote))
  }

  /** The loop of where() over a column => value array. */
  method EqualityItems(prefix: string, pairs: seq<(string, Value)>, quote: string -> string)
    returns (items: seq<string>)
    ensures items == EqualityList(prefix, pairs, quote)
  {
    items := [];
    var i := 0;
    while i < |pairs|
      invariant 0 <= i <= |pairs|
      invariant |items| == i
      invariant forall k :: 0 <= k < i ==> items[k] == EqualityItem(prefix, pairs[k], quote)
    {
      items := items + [EqualityItem(prefix, pairs[i], quote)];
      i := i + 1;
    }
  }

  /** isset($params[$k]) ? escape($params[$k]) : '' (a null parameter counts as unset). */
  function Placeholder(params: seq<Value>, k: nat, quote: string -> string): string
  {
    if k < |params| && !params[k].Null? then Escape(params[k], quote) else ""
  }

  /**
   * The template form of where(), having() and query(): the text split at
   * every "?", each piece that is not empty() followed by the parameter of
   * the same index; `k` is the index of the first piece.
   */
  function Fill(pieces: seq<string>, params: seq<Value>, prefix: string, quote: string -> string, k: nat): string
    decreases |pieces|
  {
    if pieces == [] then ""
    else Chunk(pieces[0], params, prefix, quote, k) + Fill(pieces[1..], params, prefix, quote, k + 1)
  }

  /** What one piece of a template contributes: nothing when it is empty(), else the piece and its parameter. */
  function Chunk(piece: string, params: seq<Value>, prefix: string, quote: string -> string, k: nat): string
  {
    if IsEmptyText(piece) then "" else prefix + piece + Placeholder(params, k, quote)
  }

  /** One turn of the template loop: the text so far followed by the rest of the template. */
  lemma FillStep(text: string, pieces: seq<string>, params: seq<Value>, prefix: string, quote: string -> string, i: nat)
    requires i < |pieces|
    ensures IsEmptyText(pieces[i]) ==>
              text + Fill(pieces[i..], params, prefix, quote, i) == text + Fill(pieces[i + 1..], params, prefix, quote, i + 1)
    ensures !IsEmptyText(pieces[i]) ==>
              text + Fill(pieces[i..], params, prefix, quote, i)
              == text + (prefix + pieces[i] + Placeholder(params, i, quote)) + Fill(pieces[i + 1..], params, prefix, quote, i + 1)
  {
    assert pieces[i..][1..] == pieces[i + 1..];
  }

  /** The loop of the template form. */
  method FillPlaceholders(pieces: seq<string>, params: seq<Value>, prefix: string, quote: string -> string)
    returns (text: string)
    ensures text == Fill(pieces, params, prefix, quote, 0)
  {
    text := "";
    var i := 0;
    while i < |pieces|
      invariant 0 <= i <= |pieces|
      invariant text + Fill(pieces[i..], params, prefix, quote, i) == Fill(pieces, params, prefix, quote, 0)
    {
      FillStep(text, pieces, params, prefix, quote, i);
      if !IsEmptyText(pieces[i]) {
        text := text + (prefix + pieces[i] + Placeholder(params, i, quote));
      }
      i := i + 1;
    }
  }

  /**
   * The reference meaning of a template: every "?" replaced, from left to
   * right, by the next parameter.
   */
  function Substitute(t: string, params: seq<Value>, quote: string -> string, k: nat): string
    decreases |t|
  {
    if t == [] then []
    else if t[0] == '?' then Placeholder(params, k, quote) + Substitute(t[1..], params, quote, k + 1)
    else [t[0]] + Substitute(t[1..], params, quote, k)
  }

  lemma {:induction false} SubstituteLiteral(a: string, rest: string, params: seq<Value>, quote: string -> string, k: nat)
    requires '?' !in a
    ensures Substitute(a + rest, params, quote, k) == a + Substitute(rest, params, quote, k)
    decreases |a|
  {
    if a == [] {
      assert a + rest == rest;
    } else {
      assert (a + rest)[0] == a[0] && a[0] != '?';
      assert (a + rest)[1..] == a[1..] + rest;
      assert '?' !in a[1..] by {
        forall j | 0 <= j < |a[1..]| ensures a[1..][j] != '?' {
          assert a[1..][j] == a[j + 1];
        }
      }
      SubstituteLiteral(a[1..], rest, params, quote, k);
      calc {
        Substitute(a + rest, params, quote, k);
        [a[0]] + Substitute(a[1..] + rest, params, quote, k);
        [a[0]] + (a[1..] + Substitute(rest, params, quote, k));
        ([a[0]] + a[1..]) + Substitute(rest, params, quote, k);
        { assert [a[0]] + a[1..] == a; }
        a + Substitute(rest, params, quote, k);
      }
    }
  }

  /** No piece between marks is empty() and the last one is not "0". */
  predicate FillableTemplate(pieces: seq<string>)
  {
    (forall i :: 0 <= i < |pieces| ==> pieces[i] != "0")
    && (forall i :: 0 <= i < |pieces| - 1 ==> pieces[i] != "")
  }

  /** The first mark splits off the first piece, which is filled with parameter k. */
  lemma FillFirstPiece(t: string, params: seq<Value>, quote: string -> string, k: nat)
    requires '?' in t && FillableTemplate(Split(t, '?'))
    ensures var i := IndexOf(t, '?');
      FillableTemplate(Split(t[i + 1..], '?'))
      && Fill(Split(t, '?'), params, "", quote, k)
         == t[..i] + Placeholder(params, k, quote) + Fill(Split(t[i + 1..], '?'), params, "", quote, k + 1)
  {
    var i := IndexOf(t, '?');
    var pieces := Split(t, '?');
    var tail := Split(t[i + 1..], '?');
    assert pieces == [t[..i]] + tail;
    assert pieces[1..] == tail;
    assert |pieces| >= 2 && pieces[0] == t[..i];
    assert !IsEmptyText(t[..i]);
    forall j | 0 <= j < |tail| ensures tail[j] != "0" {
      assert tail[j] == pieces[j + 1];
    }
    forall j | 0 <= j < |tail| - 1 ensures tail[j] != "" {
      assert tail[j] == pieces[j + 1];
    }
    assert "" + t[..i] == t[..i];
  }

  /** The first mark is replaced by parameter k. */
  lemma SubstituteFirstMark(t: string, params: seq<Value>, quote: string -> string, k: nat)
    requires '?' in t
    ensures var i := IndexOf(t, '?');
      Substitute(t, params, quote, k)
      == t[..i] + Placeholder(params, k, quote) + Substitute(t[i + 1..], params, quote, k + 1)
  {
    var i := IndexOf(t, '?');
    var rest, s := t[i + 1..], t[i..];
    assert t == t[..i] + s;
    SubstituteLiteral(t[..i], s, params, quote, k);
    assert s[0] == '?' && s[1..] == rest;
    var p, r := Placeholder(params, k, quote), Substitute(rest, params, quote, k + 1);
    assert Substitute(s, params, quote, k) == p + r;
    assert t[..i] + (p + r) == t[..i] + p + r;
  }

  lemma {:induction false} FillSubstitutes(t: string, params: seq<Value>, quote: string -> string, k: nat)
    requires FillableTemplate(Split(t, '?'))
    requires |params| <= k + |Split(t, '?')| - 1
    ensures Fill(Split(t, '?'), params, "", quote, k) == Substitute(t, params, quote, k)
    decreases |t|
  {
    if '?' in t {
      var i := IndexOf(t, '?');
      var rest := t[i + 1..];
      FillFirstPiece(t, params, quote, k);
      assert Split(t, '?') == [t[..i]] + Split(rest, '?');
      FillSubstitutes(rest, params, quote, k + 1);
      SubstituteFirstMark(t, params, quote, k);
    } else {
      var pieces := Split(t, '?');
      assert pieces == [t];
      assert Placeholder(params, k, quote) == "";
      assert pieces[1..] == [];
      SubstituteLiteral(t, [], params, quote, k);
      assert t + [] == t;
      if t != [] {
        assert pieces[0] == t && t != "0";
        assert Fill(pieces, params, "", quote, k) == "" + t + "";
      }
    }
  }

  /**
   * where('a = ? AND b = ?', [x, y]) puts the parameters in place of the
   * marks, in order, as long as no piece between marks is empty() and no
   * parameter is left over.
   */
  lemma TemplateIsSubstitution(t: string, params: seq<Value>, quote: string -> string)
    requires FillableTemplate(Split(t, '?'))
    requires |params| < |Split(t, '?')|
    ensures Fill(Split(t, '?'), params, "", quote, 0) == Substitute(t, params, quote, 0)
  {
    FillSubstitutes(t, params, quote, 0);
  }

  /**
   * The fragment where() adds, or None when it returns without adding
   * anything (a null or empty() first argument, or an empty array).
   */
  function WhereFragment(first: WhereFirst, second: WhereSecond, val: Value, negate: bool,
                         conn: Connector, quote: string -> string): Option<string>
  {
    match first
    case NoCondition => None
    case Columns(pairs) =>
      if pairs == [] then None
      else Some(Join(EqualityList(NotText(negate), pairs, quote), " " + ConnectorText(conn) + " "))
    case Field(f) =>
      if IsEmptyText(f) then None
      else match second
        case Params(ps) => Some(Fill(Split(f, '?'), ps, NotText(negate), quote, 0))
        case Scalar(v) =>
          if !IsOperator(v) then Some(NotText(negate) + f + " = " + Escape(v, quote))
          else Some(NotText(negate) + f + " " + v.s + " " + Escape(val, quote))
  }

  /** where($f, $v) with a value that is no operator compares with "=". */
  lemma WhereDefaultsToEquals(f: string, v: Value, other: Value, negate: bool, conn: Connector, quote: string -> string)
    requires !IsEmptyText(f) && !IsOperator(v)
    ensures WhereFragment(Field(f), Scalar(v), other, negate, conn, quote)
         == WhereFragment(Field(f), Scalar(Text("=")), v, negate, conn, quote)
  {
    assert "=" in Operators;
    var head := NotText(negate) + f;
    assert head + " " + "=" + " " + Escape(v, quote) == head + " = " + Escape(v, quote);
  }

  /**
   * The array form joins its column=value tests with the connector, each
   * preceded by NOT when negated: one column gives its own test, and every
   * further column adds the connector and its test at the end.
   */
  lemma ColumnsJoinedByConnector(pairs: seq<(string, Value)>, p: (string, Value), second: WhereSecond, val: Value,
                                 negate: bool, conn: Connector, quote: string -> string)
    ensures WhereFragment(Columns([p]), second, val, negate, conn, quote) == Some(EqualityItem(NotText(negate), p, quote))
    ensures pairs != [] ==>
              WhereFragment(Columns(pairs + [p]), second, val, negate, conn, quote)
              == Some(WhereFragment(Columns(pairs), second, val, negate, conn, quote).value
                      + " " + ConnectorText(conn) + " " + EqualityItem(NotText(negate), p, quote))
  {
    var prefix, sep := NotText(negate), " " + ConnectorText(conn) + " ";
    var item := EqualityItem(prefix, p, quote);
    assert EqualityList(prefix, [p], quote) == [item];
    if pairs != [] {
      var items := EqualityList(prefix, pairs, quote);
      assert EqualityList(prefix, pairs + [p], quote) == items + [item];
      JoinSnoc(items, item, sep);
      AppendThree(Join(items, sep), " ", ConnectorText(conn), " ");
    }
  }

  // ---------------------------------------------------------------------------
  // whereNull(), in(), between(), like()

  /** whereNull(): "field IS  NULL", or "field IS NOT NULL" when negated. */
  function NullFragment(field: string, negate: bool): string
  {
    field + " IS " + (if negate then "NOT" else "") + " NULL"
  }

  /** The literals in() lists. */
  function InKeys(keys: seq<Value>, quote: string -> string): (r: seq<string>)
    ensures |r| == |keys|
    ensures forall i :: 0 <= i < |keys| ==> r[i] == InKey(keys[i], quote)
  {
    seq(|keys|, i requires 0 <= i < |keys| => InKey(keys[i], quote))
  }

  /** The loop of in() over its keys. */
  method InKeyItems(keys: seq<Value>, quote: string -> string) returns (items: seq<string>)
    ensures items == InKeys(keys, quote)
  {
    items := [];
    var i := 0;
    while i < |keys|
      invariant 0 <= i <= |keys|
      invariant items == InKeys(keys, quote)[..i]
    {
      items := items + [InKey(keys[i], quote)];
      i := i + 1;
    }
  }

  function InFragment(field: string, keys: seq<Value>, negate: bool, quote: string -> string): string
  {
    field + " " + NotText(negate) + "IN (" + Join(InKeys(keys, quote), ", ") + ")"
  }

  function BetweenFragment(field: string, low: Value, high: Value, negate: bool, quote: string -> string): string
  {
    "(" + field + " " + NotText(negate) + "BETWEEN " + Escape(low, quote) + " AND " + Escape(high, quote) + ")"
  }

  function LikeFragment(field: string, pattern: Value, negate: bool, quote: string -> string): string
  {
    field + " " + NotText(negate) + "LIKE " + Escape(pattern, quote)
  }

  // ---------------------------------------------------------------------------
  // The WHERE text and the grouped flag

  /** The two fields the where family updates. */
  datatype PredState = PredState(where: Option<string>, grouped: bool)

  /** Appends a fragment after the connector, or starts the WHERE text with it. */
  function Append(current: Option<string>, conn: string, fragment: string): (r: string)
    ensures current.None? ==> r == fragment
    ensures current.Some? ==> r == current.value + " " + conn + " " + fragment
  {
    if current.None? then fragment else current.value + " " + conn + " " + fragment
  }

  /**
   * How where(), in(), between() and like() store their fragment: an open
   * grouped() puts "(" in front of it and is then closed.
   */
  function AddCondition(st: PredState, conn: Connector, fragment: string): (r: PredState)
    ensures !r.grouped && r.where.Some?
    ensures r.where.value == Append(st.where, ConnectorText(conn), if st.grouped then "(" + fragment else fragment)
  {
    var f := if st.grouped then "(" + fragment else fragment;
    PredState(Some(Append(st.where, ConnectorText(conn), f)), false)
  }

  /** A call of the where family, as a grouped() closure or a caller makes it. */
  datatype Cond =
    | WhereCall(first: WhereFirst, second: WhereSecond, val: Value, negate: bool, conn: Connector)
    | WhereNullCall(field: string, negate: bool)
    | InCall(field: string, keys: seq<Value>, negate: bool, conn: Connector)
    | BetweenCall(field: string, low: Value, high: Value, negate: bool, conn: Connector)
    | LikeCall(field: string, pattern: Value, negate: bool, conn: Connector)
    | GroupedCall(body: seq<Cond>)

  /** A measure that decreases from a grouped() call to the calls in its closure. */
  function Size(cs: seq<Cond>): nat
  {
    if cs == [] then 0
    else (if cs[0].GroupedCall? then 1 + Size(cs[0].body) else 1) + Size(cs[1..])
  }

  /** The fragment of a call that goes through AddCondition, or None when it adds nothing. */
  function CondFragment(c: Cond, quote: string -> string): Option<string>
    requires !c.WhereNullCall? && !c.GroupedCall?
  {
    match c
    case WhereCall(first, second, val, negate, conn) => WhereFragment(first, second, val, negate, conn, quote)
    case InCall(field, keys, negate, _) => Some(InFragment(field, keys, negate, quote))
    case BetweenCall(field, low, high, negate, _) => Some(BetweenFragment(field, low, high, negate, quote))
    case LikeCall(field, pattern, negate, _) => Some(LikeFragment(field, pattern, negate, quote))
  }

  /**
   * The state after one call. whereNull() always connects with AND and
   * neither honours nor closes an open group; grouped() opens a group, runs
   * its closure and appends ")".
   */
  function ApplyCond(st: PredState, c: Cond, quote: string -> string): PredState
    decreases Size([c]), 0
  {
    match c
    case WhereNullCall(field, negate) =>
      PredState(Some(Append(st.where, "AND", NullFragment(field, negate))), st.grouped)
    case GroupedCall(body) =>
      assert [c][1..] == [];
      var inner := ApplyAll(st.(grouped := true), body, quote);
      PredState(Some(OrEmpty(inner.where) + ")"), inner.grouped)
    case _ =>
      match CondFragment(c, quote)
      case None => st
      case Some(f) => AddCondition(st, c.conn, f)
  }

  /** The state after a series of calls, in order. */
  function ApplyAll(st: PredState, cs: seq<Cond>, quote: string -> string): PredState
    decreases Size(cs), 1
  {
    if cs == [] then st
    else
      assert Size(cs) >= Size([cs[0]]) by { assert [cs[0]][1..] == []; }
      ApplyAll(ApplyCond(st, cs[0], quote), cs[1..], quote)
  }

  /** No call of the where family removes or rewrites WHERE text already there. */
  lemma {:induction false} CondExtends(st: PredState, c: Cond, quote: string -> string)
    requires st.where.Some?
    ensures ApplyCond(st, c, quote).where.Some?
    ensures st.where.value <= ApplyCond(st, c, quote).where.value
    decreases Size([c]), 0
  {
    var x := st.where.value;
    match c
    case WhereNullCall(field, negate) =>
      AppendExtends(x, "AND", NullFragment(field, negate));
    case GroupedCall(body) =>
      assert [c][1..] == [];
      AllExtend(st.(grouped := true), body, quote);
      var y := ApplyAll(st.(grouped := true), body, quote).where.value;
      assert (y + ")")[..|y|] == y;
      assert x <= y + ")";
    case _ =>
      match CondFragment(c, quote)
      case None =>
      case Some(f) =>
        AppendExtends(x, ConnectorText(c.conn), if st.grouped then "(" + f else f);
  }

  /** Connecting a fragment keeps the text it is appended to as a prefix. */
  lemma AppendExtends(x: string, conn: string, fragment: string)
    ensures x <= Append(Some(x), conn, fragment)
  {
    var tail := " " + conn + " " + fragment;
    assert Append(Some(x), conn, fragment) == x + tail;
    assert (x + tail)[..|x|] == x;
  }

  lemma {:induction false} AllExtend(st: PredState, cs: seq<Cond>, quote: string -> string)
    requires st.where.Some?
    ensures ApplyAll(st, cs, quote).where.Some?
    ensures st.where.value <= ApplyAll(st, cs, quote).where.value
    decreases Size(cs), 1
  {
    if cs != [] {
      assert Size(cs) >= Size([cs[0]]) by { assert [cs[0]][1..] == []; }
      CondExtends(st, cs[0], quote);
      AllExtend(ApplyCond(st, cs[0], quote), cs[1..], quote);
    }
  }

  /**
   * An open group puts "(" before the next fragment and only that one: the
   * fragment after it is connected as usual.
   */
  lemma GroupOpensOnce(st: PredState, c1: Connector, f1: string, c2: Connector, f2: string)
    requires st.grouped
    ensures var s1 := AddCondition(st, c1, f1);
      s1.where == Some(Append(st.where, ConnectorText(c1), "(" + f1))
      && AddCondition(s1, c2, f2).where == Some(s1.where.value + " " + ConnectorText(c2) + " " + f2)
  {
  }

  /** A grouped() around a single adding call wraps its fragment in parentheses. */
  lemma GroupWrapsOne(st: PredState, c: Cond, quote: string -> string)
    requires !st.grouped && !c.WhereNullCall? && !c.GroupedCall?
    requires CondFragment(c, quote).Some?
    ensures ApplyCond(st, GroupedCall([c]), quote)
         == PredState(Some(Append(st.where, ConnectorText(c.conn), "(" + CondFragment(c, quote).value + ")")), false)
  {
    assert [c][1..] == [];
    var f := CondFragment(c, quote).value;
    var open := st.(grouped := true);
    assert ApplyCond(open, c, quote) == AddCondition(open, c.conn, f);
    assert ApplyAll(open, [c], quote) == ApplyCond(open, c, quote);
    var w := Append(st.where, ConnectorText(c.conn), "(" + f);
    assert ApplyAll(open, [c], quote).where == Some(w);
    assert w + ")" == Append(st.where, ConnectorText(c.conn), "(" + f + ")");
  }

  /** A grouped() whose closure adds nothing appends ")" and leaves the group open. */
  lemma EmptyGroupStaysOpen(st: PredState, quote: string -> string)
    ensures ApplyCond(st, GroupedCall([]), quote) == PredState(Some(OrEmpty(st.where) + ")"), true)
  {
  }

  /** whereNull() leaves an open group open and connects with AND whatever the group state. */
  lemma WhereNullIgnoresGroup(st: PredState, field: string, quote: string -> string)
    ensures ApplyCond(st, WhereNullCall(field, false), quote)
         == PredState(Some(Append(st.where, "AND", field + " IS  NULL")), st.grouped)
  {
    assert field + " IS " + "" + " NULL" == field + " IS  NULL";
  }

  /** A where() call that returns early changes nothing. */
  lemma SkippedWhereChangesNothing(st: PredState, second: WhereSecond, val: Value, negate: bool,
                                   conn: Connector, quote: string -> string)
    ensures ApplyCond(st, WhereCall(NoCondition, second, val, negate, conn), quote) == st
    ensures ApplyCond(st, WhereCall(Columns([]), second, val, negate, conn), quote) == st
    ensures ApplyCond(st, WhereCall(Field(""), second, val, negate, conn), quote) == st
    ensures ApplyCond(st, WhereCall(Field("0"), second, val, negate, conn), quote) == st
  {
  }

  // ---------------------------------------------------------------------------
  // limit(), pagination(), orderBy(), groupBy(), having()

  /** The LIMIT text limit() stores: "n" or "n, end". */
  function LimitText(n: int, end: Option<int>): (r: string)
    ensures end.None? ==> ParseInt(r) == Some(n)
    ensures end.Some? ==> r == IntText(n) + ", " + IntText(end.value)
  {
    IntTextRoundTrip(n);
    if end.Some? then IntText(n) + ", " + IntText(end.value) else IntText(n)
  }

  /** The OFFSET pagination() stores: the rows of the pages before `page`, pages below 1 counting as page 1. */
  function PageOffset(perPage: int, page: int): (r: int)
    ensures page <= 1 ==> r == 0
    ensures page >= 1 ==> r == (page - 1) * perPage
    ensures perPage >= 0 ==> r >= 0
  {
    ((if page > 0 then page else 1) - 1) * perPage
  }

  /** Consecutive pages start exactly one page apart. */
  lemma NextPageOffset(perPage: int, page: int)
    requires page >= 1
    ensures PageOffset(perPage, page + 1) == PageOffset(perPage, page) + perPage
  {
  }

  /** The ORDER BY text orderBy() stores. */
  function OrderText(field: string, dir: Option<string>): string
  {
    if dir.Some? then field + " " + UpperText(dir.value)
    else if ' ' in field || LowerText(field) == "rand()" then field
    else field + " ASC"
  }

  /** Without a direction a plain column is ordered ascending, as if "asc" had been given. */
  lemma OrderDefaultsToAsc(field: string)
    requires ' ' !in field && LowerText(field) != "rand()"
    ensures OrderText(field, None) == OrderText(field, Some("asc"))
    ensures OrderText(field, None) == field + " ASC"
  {
    assert UpperText("asc") == "ASC";
  }

  /**
   * The direction is written after the field and a space, in upper case and
   * otherwise as given, so the case it was given in does not matter.
   */
  lemma OrderDirectionUpper(field: string, dir: string)
    ensures var t := OrderText(field, Some(dir));
            var d := t[|field| + 1..];
            |t| == |field| + 1 + |dir| && t[..|field| + 1] == field + " " && |d| == |dir|
            && (forall i :: 0 <= i < |d| ==> !('a' <= d[i] <= 'z') && LowerChar(d[i]) == LowerChar(dir[i]))
    ensures OrderText(field, Some(dir)) == OrderText(field, Some(LowerText(dir)))
  {
    var t := OrderText(field, Some(dir));
    assert t == (field + " ") + UpperText(dir);
    assert t[|field| + 1..] == UpperText(dir);
    assert UpperText(dir) == UpperText(LowerText(dir));
  }

  /** The HAVING text having() stores: like where(), but an unknown operator means ">". */
  function HavingText(field: string, second: WhereSecond, val: Value, quote: string -> string): string
  {
    match second
    case Params(ps) => Fill(Split(field, '?'), ps, "", quote, 0)
    case Scalar(v) =>
      if !IsOperator(v) then field + " > " + Escape(v, quote)
      else field + " " + v.s + " " + Escape(val, quote)
  }

  /** having($f, $v) with a value that is no operator compares with ">", where where() uses "=". */
  lemma HavingDefaultsToGreater(f: string, v: Value, other: Value, quote: string -> string)
    requires !IsOperator(v)
    ensures HavingText(f, Scalar(v), other, quote) == HavingText(f, Scalar(Text(">")), v, quote)
    ensures !IsEmptyText(f) ==> WhereFragment(Field(f), Scalar(v), other, false, And, quote)
                                == Some(f + " = " + Escape(v, quote))
  {
    assert ">" in Operators;
    assert f + " " + ">" + " " + Escape(v, quote) == f + " > " + Escape(v, quote);
    assert NotText(false) + f == f;
  }
}
