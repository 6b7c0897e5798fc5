/**
 * The escaper: how the builder turns a PHP value into a SQL literal
 * (DbBuilder::escape), and the variant in() uses for its key list.
 * Quoting a string is the connection's business (PDO::quote); it is a
 * parameter here.
 */
module Escaper {
  import opened Wrappers
  import opened SqlText

  /** The values a caller passes for a literal: null, an integer, or a string. */
  datatype Value = Null | Int(i: int) | Text(s: string)

  /**
   * escape(): null becomes the bare token NULL, an integer its unquoted
   * decimal text, and anything else whatever the connection's quote makes of it.
   */
  function Escape(v: Value, quote: string -> string): (r: string)
    ensures v.Null? ==> r == "NULL"
    ensures v.Int? ==> ParseInt(r) == Some(v.i)
    ensures v.Text? ==> r == quote(v.s)
  {
    match v
    case Null => "NULL"
    case Int(i) => IntTextRoundTrip(i); IntText(i)
    case Text(s) => quote(s)
  }

  /** Two integers escape to the same text only if they are equal. */
  lemma EscapeIntInjective(i: int, j: int, quote: string -> string)
    requires Escape(Int(i), quote) == Escape(Int(j), quote)
    ensures i == j
  {
    assert ParseInt(Escape(Int(i), quote)) == Some(i);
    assert ParseInt(Escape(Int(j), quote)) == Some(j);
  }

  // ---------------------------------------------------------------------------
  // is_numeric on a string

  /** The whitespace is_numeric accepts around a number: space, \t, \n, \r, \v and \f. */
  const NumericSpace: set<char> := {' ', '\t', '\n', '\r', 11 as char, 12 as char}

  /** Digits with at most one decimal point and at least one digit: "12", "1.5", ".5", "1.". */
  predicate IsMantissa(m: string)
  {
    if '.' in m then
      var k := IndexOf(m, '.');
      |m| >= 2 && AllDigits(m[..k]) && AllDigits(m[k + 1..])
    else |m| >= 1 && AllDigits(m)
  }

  /** An optionally signed run of digits after the e or E of an exponent. */
  predicate IsExponent(x: string)
  {
    var y := if |x| > 0 && (x[0] == '+' || x[0] == '-') then x[1..] else x;
    |y| >= 1 && AllDigits(y)
  }

  /** is_numeric($s) for a string: optional surrounding whitespace and sign, a decimal, an optional exponent. */
  predicate IsNumeric(s: string)
  {
    var t := Trim(s, NumericSpace);
    var u := if |t| > 0 && (t[0] == '+' || t[0] == '-') then t[1..] else t;
    if 'e' in u then
      var k := IndexOf(u, 'e');
      IsMantissa(u[..k]) && IsExponent(u[k + 1..])
    else if 'E' in u then
      var k := IndexOf(u, 'E');
      IsMantissa(u[..k]) && IsExponent(u[k + 1..])
    else IsMantissa(u)
  }

  /**
   * The literal in() writes for one key: a numeric value goes in as it is,
   * anything else through escape().
   */
  function InKey(v: Value, quote: string -> string): (r: string)
    ensures v.Text? && IsNumeric(v.s) ==> r == v.s
    ensures !(v.Text? && IsNumeric(v.s)) ==> r == Escape(v, quote)
  {
    match v
    case Text(s) => if IsNumeric(s) then s else quote(s)
    case _ => Escape(v, quote)
  }

  /** An integer's decimal text is numeric, so in() writes 5 and "5" alike. */
  lemma NumeralIsNumeric(i: int, quote: string -> string)
    ensures IsNumeric(IntText(i))
    ensures InKey(Text(IntText(i)), quote) == InKey(Int(i), quote)
  {
    var s := IntText(i);
    var n: nat := if i < 0 then -i else i;
    NatTextParses(n);
    var d := NatText(n);
    assert s == if i < 0 then "-" + d else d;
    assert s[0] !in NumericSpace && s[|s| - 1] !in NumericSpace;
    assert LTrim(s, NumericSpace) == s;
    assert Trim(s, NumericSpace) == s;
    var u := if s[0] == '+' || s[0] == '-' then s[1..] else s;
    assert u == d;
    assert '.' !in u && 'e' !in u && 'E' !in u;
  }
}
