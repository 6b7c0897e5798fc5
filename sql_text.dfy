/**
 * The string primitives the builder leans on, each the counterpart of a PHP
 * built-in: implode/explode, strval of an integer, trim/ltrim/rtrim with a
 * character list, the whitespace-collapsing preg_replace of query(),
 * strtoupper/strtolower, stripos at position 0, strpos, str_replace with an
 * empty replacement, and empty() on a string.
 */
module SqlText {
  import opened Wrappers

  /** PHP's string conversion of null: the empty string. */
  function OrEmpty(s: Option<string>): string
  {
    if s.Some? then s.value else ""
  }

  /** empty($s) for a string: true for "" and for "0". */
  predicate IsEmptyText(s: string)
  {
    s == "" || s == "0"
  }

  // ---------------------------------------------------------------------------
  // implode and explode

  /** implode($sep, $items). */
  function Join(items: seq<string>, sep: string): string
  {
    if items == [] then ""
    else if |items| == 1 then items[0]
    else items[0] + sep + Join(items[1..], sep)
  }

  /** Two items are joined by one separator. */
  lemma JoinPair(x: string, y: string, sep: string)
    ensures Join([x, y], sep) == x + sep + y
  {
    assert [x, y][1..] == [y];
  }

  /** The text a loop builds by appending every item followed by `sep`. */
  function Terminated(items: seq<string>, sep: string): string
  {
    if items == [] then "" else items[0] + sep + Terminated(items[1..], sep)
  }

  lemma {:induction false} TerminatedSnoc(items: seq<string>, x: string, sep: string)
    ensures Terminated(items + [x], sep) == Terminated(items, sep) + x + sep
  {
    if items != [] {
      assert (items + [x])[1..] == items[1..] + [x];
      TerminatedSnoc(items[1..], x, sep);
    }
  }

  /** Appending a separator after every item is joining them and appending one more. */
  lemma {:induction false} TerminatedIsJoin(items: seq<string>, sep: string)
    requires items != []
    ensures Terminated(items, sep) == Join(items, sep) + sep
  {
    if |items| > 1 {
      TerminatedIsJoin(items[1..], sep);
    }
  }

  lemma {:induction false} JoinSnoc(items: seq<string>, x: string, sep: string)
    requires items != []
    ensures Join(items + [x], sep) == Join(items, sep) + sep + x
  {
    if |items| > 1 {
      assert (items + [x])[1..] == items[1..] + [x];
      JoinSnoc(items[1..], x, sep);
    } else {
      assert items + [x] == [items[0], x];
    }
  }

  /** implode ends with its last item. */
  lemma JoinLast(items: seq<string>, sep: string)
    requires items != []
    ensures |Join(items, sep)| >= |items[|items| - 1]|
    ensures Join(items, sep)[|Join(items, sep)| - |items[|items| - 1]|..] == items[|items| - 1]
  {
    if |items| > 1 {
      var init := items[..|items| - 1];
      assert items == init + [items[|items| - 1]];
      JoinSnoc(init, items[|items| - 1], sep);
    }
  }

  /** strpos for a single character that is known to occur. */
  function IndexOf(s: string, c: char): (i: nat)
    requires c in s
    ensures i < |s| && s[i] == c && c !in s[..i]
  {
    if s[0] == c then 0
    else
      var j := IndexOf(s[1..], c);
      assert s[..j + 1] == [s[0]] + s[1..][..j];
      j + 1
  }

  /** A pattern whose first character does not occur is never found. */
  lemma {:induction false} RemoveAbsent(s: string, pat: string)
    requires pat != [] && pat[0] !in s
    ensures RemoveAll(s, pat) == s
    decreases |s|
  {
    if s != [] {
      assert s[0] != pat[0];
      RemoveAbsent(s[1..], pat);
      assert s[..1] + s[1..] == s;
    }
  }

  /** explode($c, $s) for a one-character delimiter. */
  function Split(s: string, c: char): (r: seq<string>)
    ensures |r| >= 1
    ensures forall k :: 0 <= k < |r| ==> c !in r[k]
    decreases |s|
  {
    if c in s then
      var i := IndexOf(s, c);
      [s[..i]] + Split(s[i + 1..], c)
    else [s]
  }

  /** explode and implode with the same delimiter are inverse. */
  lemma {:induction false} SplitJoin(s: string, c: char)
    ensures Join(Split(s, c), [c]) == s
    decreases |s|
  {
    if c in s {
      var i := IndexOf(s, c);
      var head, tail := s[..i], s[i + 1..];
      var rest := Split(tail, c);
      SplitJoin(tail, c);
      var pieces := [head] + rest;
      assert Split(s, c) == pieces;
      assert |pieces| >= 2 && pieces[0] == head && pieces[1..] == rest;
      assert Join(pieces, [c]) == head + [c] + Join(rest, [c]);
      assert s == head + [c] + tail;
    } else {
      assert Split(s, c) == [s];
    }
  }

  /** The first piece of explode is the text up to the first delimiter, or all of it. */
  lemma SplitFirst(s: string, c: char)
    ensures var p := Split(s, c)[0];
            StartsWith(s, p) && (|p| == |s| || s[|p|] == c)
  {
    if c in s {
      var i := IndexOf(s, c);
      assert Split(s, c)[0] == s[..i];
    }
  }

  /** Splitting `a c b` where neither side holds `c` gives exactly the two sides. */
  lemma SplitAround(a: string, b: string, c: char)
    requires c !in a && c !in b
    ensures Split(a + [c] + b, c) == [a, b]
  {
    var s := a + [c] + b;
    assert s[|a|] == c;
    var i := IndexOf(s, c);
    forall j | 0 <= j < i
      ensures s[j] != c
    {
      assert s[..i][j] == s[j];
    }
    forall j | 0 <= j < |a|
      ensures s[j] != c
    {
      assert s[j] == a[j];
    }
    assert s[..i] == a;
    assert s[i + 1..] == b;
  }

  /** strpos($t, $p) !== false. */
  predicate Contains(t: string, p: string)
    decreases |t|
  {
    |p| <= |t| && (t[..|p|] == p || Contains(t[1..], p))
  }

  predicate StartsWith(t: string, p: string)
  {
    |p| <= |t| && t[..|p|] == p
  }

  /** A text followed by three more pieces still starts with it. */
  lemma StartsBeforeThree(h: string, a: string, b: string, c: string)
    ensures StartsWith(h + a + b + c, h)
  {
    assert h + a + b + c == h + (a + b + c);
    assert (h + (a + b + c))[..|h|] == h;
  }

  /** Appending three pieces one at a time is appending their concatenation. */
  lemma AppendThree(x: string, a: string, b: string, c: string)
    ensures x + (a + b + c) == x + a + b + c
  {
  }

  // ---------------------------------------------------------------------------
  // integers as decimal text

  predicate IsDigit(ch: char)
  {
    '0' <= ch <= '9'
  }

  predicate AllDigits(s: string)
  {
    forall i :: 0 <= i < |s| ==> IsDigit(s[i])
  }

  function DigitChar(d: nat): char
    requires d < 10
  {
    ('0' as int + d) as char
  }

  function DigitValue(ch: char): nat
    requires IsDigit(ch)
  {
    ch as int - '0' as int
  }

  function NatText(n: nat): string
  {
    if n < 10 then [DigitChar(n)] else NatText(n / 10) + [DigitChar(n % 10)]
  }

  /** The decimal text PHP produces when an integer is concatenated to a string. */
  function IntText(i: int): string
  {
    if i < 0 then "-" + NatText(-i) else NatText(i)
  }

  function ParseNat(s: string): nat
    requires AllDigits(s)
  {
    if s == [] then 0 else ParseNat(s[..|s| - 1]) * 10 + DigitValue(s[|s| - 1])
  }

  /** Reads an optionally negative decimal numeral back; the inverse of IntText. */
  function ParseInt(s: string): Option<int>
  {
    if |s| >= 2 && s[0] == '-' && AllDigits(s[1..]) then Some(-(ParseNat(s[1..]) as int))
    else if |s| >= 1 && AllDigits(s) then Some(ParseNat(s))
    else None
  }

  lemma {:induction false} NatTextParses(n: nat)
    ensures |NatText(n)| >= 1 && AllDigits(NatText(n)) && ParseNat(NatText(n)) == n
  {
    if n >= 10 {
      NatTextParses(n / 10);
      var t := NatText(n);
      assert t[..|t| - 1] == NatText(n / 10);
    }
  }

  /** Integer text is unquoted decimal that reads back as the same integer. */
  lemma IntTextRoundTrip(i: int)
    ensures ParseInt(IntText(i)) == Some(i)
  {
    if i < 0 {
      NatTextParses(-i);
      assert IntText(i)[1..] == NatText(-i);
    } else {
      NatTextParses(i);
    }
  }

  // ---------------------------------------------------------------------------
  // trim, ltrim, rtrim

  /** The characters trim() strips by default: space, \t, \n, \r, \0 and \x0B. */
  const TrimChars: set<char> := {' ', '\t', '\n', '\r', '\0', 11 as char}

  /** ltrim($s, $cs): the longest suffix not starting with a character of cs. */
  function LTrim(s: string, cs: set<char>): (r: string)
    ensures |r| <= |s| && r == s[|s| - |r|..]
    ensures r == [] || r[0] !in cs
    ensures forall i :: 0 <= i < |s| - |r| ==> s[i] in cs
  {
    if s != [] && s[0] in cs then LTrim(s[1..], cs) else s
  }

  /** rtrim($s, $cs): the longest prefix not ending with a character of cs. */
  function RTrim(s: string, cs: set<char>): (r: string)
    ensures |r| <= |s| && r == s[..|r|]
    ensures r == [] || r[|r| - 1] !in cs
    ensures forall i :: |r| <= i < |s| ==> s[i] in cs
  {
    if s != [] && s[|s| - 1] in cs then RTrim(s[..|s| - 1], cs) else s
  }

  function Trim(s: string, cs: set<char>): string
  {
    RTrim(LTrim(s, cs), cs)
  }

  /** rtrim removes a tail made only of listed characters, and nothing before it. */
  lemma {:induction false} RTrimDropsTail(x: string, tail: string, cs: set<char>)
    requires forall i :: 0 <= i < |tail| ==> tail[i] in cs
    requires x == [] || x[|x| - 1] !in cs
    ensures RTrim(x + tail, cs) == x
    decreases |tail|
  {
    if tail == [] {
      assert x + tail == x;
    } else {
      var s := x + tail;
      assert s[|s| - 1] == tail[|tail| - 1];
      assert s[..|s| - 1] == x + tail[..|tail| - 1];
      RTrimDropsTail(x, tail[..|tail| - 1], cs);
    }
  }

  /** trim cuts a tail of listed characters from text that starts and ends outside the list. */
  lemma TrimTail(body: string, tail: string, cs: set<char>)
    requires body != [] && body[0] !in cs && body[|body| - 1] !in cs
    requires forall i :: 0 <= i < |tail| ==> tail[i] in cs
    ensures Trim(body + tail, cs) == body
  {
    assert (body + tail)[0] == body[0];
    assert LTrim(body + tail, cs) == body + tail;
    RTrimDropsTail(body, tail, cs);
  }

  /** Trimming keeps a first character that is not in the list. */
  lemma TrimKeepsHead(s: string, cs: set<char>)
    requires s != [] && s[0] !in cs
    ensures Trim(s, cs) != [] && Trim(s, cs)[0] == s[0]
  {
    assert LTrim(s, cs) == s;
  }

  /** Trimming keeps a leading word none of whose characters is in the list. */
  lemma TrimKeepsWord(w: string, rest: string, cs: set<char>)
    requires w != [] && forall i :: 0 <= i < |w| ==> w[i] !in cs
    ensures StartsWith(Trim(w + rest, cs), w)
  {
    var s := w + rest;
    assert LTrim(s, cs) == s;
    var r := RTrim(s, cs);
    assert s[|w| - 1] == w[|w| - 1] && s[|w| - 1] !in cs;
    assert |r| >= |w|;
    assert r[..|w|] == s[..|w|] == w;
  }

  // ---------------------------------------------------------------------------
  // the whitespace normalisation of query(): preg_replace('/\s\s+|\t\t+/', ' ', ...)

  /** PCRE's \s: space, \t, \n, \x0B, \f and \r. */
  predicate IsSpace(ch: char)
  {
    ch == ' ' || '\t' <= ch <= '\r'
  }

  /** The length of the run of whitespace that starts `s`. */
  function SpaceRun(s: string): (n: nat)
    ensures n <= |s|
    ensures forall i :: 0 <= i < n ==> IsSpace(s[i])
    ensures n < |s| ==> !IsSpace(s[n])
  {
    if s != [] && IsSpace(s[0]) then 1 + SpaceRun(s[1..]) else 0
  }

  predicate NoAdjacentSpaces(s: string)
  {
    forall i :: 0 <= i < |s| - 1 ==> !IsSpace(s[i]) || !IsSpace(s[i + 1])
  }

  /**
   * Replaces every run of two or more whitespace characters by one space; a
   * lone whitespace character (a single tab, a single newline) is kept as is.
   */
  function Collapse(s: string): (r: string)
    ensures |r| <= |s|
    ensures s != [] && !IsSpace(s[0]) ==> r != [] && r[0] == s[0]
    ensures s != [] && IsSpace(s[0]) ==> r != [] && IsSpace(r[0])
    ensures NoAdjacentSpaces(r)
    decreases |s|
  {
    if s == [] then []
    else if IsSpace(s[0]) then
      var n := SpaceRun(s);
      (if n >= 2 then " " else s[..1]) + Collapse(s[n..])
    else s[..1] + Collapse(s[1..])
  }

  /** The whitespace run at the start of `run + rest` is exactly `run` when `rest` does not open with whitespace. */
  lemma {:induction false} SpaceRunOf(run: string, rest: string)
    requires forall i :: 0 <= i < |run| ==> IsSpace(run[i])
    requires rest == [] || !IsSpace(rest[0])
    ensures SpaceRun(run + rest) == |run|
    decreases |run|
  {
    if run == [] {
      assert run + rest == rest;
    } else {
      assert (run + rest)[0] == run[0];
      assert (run + rest)[1..] == run[1..] + rest;
      SpaceRunOf(run[1..], rest);
    }
  }

  /**
   * A run of two or more whitespace characters becomes one space, and a
   * lone whitespace character stays as it is.
   */
  lemma CollapseRun(run: string, rest: string)
    requires run != [] && forall i :: 0 <= i < |run| ==> IsSpace(run[i])
    requires rest == [] || !IsSpace(rest[0])
    ensures |run| >= 2 ==> Collapse(run + rest) == " " + Collapse(rest)
    ensures |run| == 1 ==> Collapse(run + rest) == run + Collapse(rest)
  {
    var s := run + rest;
    SpaceRunOf(run, rest);
    assert s[0] == run[0] && IsSpace(s[0]);
    assert s[|run|..] == rest;
    assert |run| == 1 ==> s[..1] == run;
  }

  /** Text without adjacent whitespace is left alone. */
  lemma {:induction false} CollapseFixpoint(s: string)
    requires NoAdjacentSpaces(s)
    ensures Collapse(s) == s
    decreases |s|
  {
    if s != [] {
      if IsSpace(s[0]) {
        var n := SpaceRun(s);
        assert n <= 1 by {
          assert |s| >= 2 ==> !IsSpace(s[0]) || !IsSpace(s[1]);
        }
      }
      assert NoAdjacentSpaces(s[1..]) by {
        forall i | 0 <= i < |s[1..]| - 1
          ensures !IsSpace(s[1..][i]) || !IsSpace(s[1..][i + 1])
        {
          assert s[1..][i] == s[i + 1] && s[1..][i + 1] == s[i + 2];
        }
      }
      CollapseFixpoint(s[1..]);
      assert s == s[..1] + s[1..];
    }
  }

  lemma CollapseIdempotent(s: string)
    ensures Collapse(Collapse(s)) == Collapse(s)
  {
    CollapseFixpoint(Collapse(s));
  }

  /** The characters of a text that are not whitespace, in order. */
  function Words(s: string): string
  {
    if s == [] then [] else (if IsSpace(s[0]) then [] else [s[0]]) + Words(s[1..])
  }

  lemma {:induction false} WordsSkipRun(s: string, n: nat)
    requires n <= |s|
    requires forall i :: 0 <= i < n ==> IsSpace(s[i])
    ensures Words(s) == Words(s[n..])
  {
    if n > 0 {
      WordsSkipRun(s[1..], n - 1);
      assert s[1..][n - 1..] == s[n..];
    }
  }

  lemma WordsOfHead(h: string, t: string)
    requires |h| == 1
    ensures Words(h + t) == Words(h) + Words(t)
  {
    assert (h + t)[1..] == t;
    assert h[1..] == [];
  }

  /** Collapsing changes only whitespace: every other character survives, in order. */
  lemma {:induction false} CollapseKeepsWords(s: string)
    ensures Words(Collapse(s)) == Words(s)
    decreases |s|
  {
    if s != [] {
      if IsSpace(s[0]) {
        var n := SpaceRun(s);
        var h: string := if n >= 2 then " " else s[..1];
        CollapseKeepsWords(s[n..]);
        WordsOfHead(h, Collapse(s[n..]));
        WordsSkipRun(s, n);
      } else {
        CollapseKeepsWords(s[1..]);
        WordsOfHead(s[..1], Collapse(s[1..]));
      }
    }
  }

  /** Collapsing leaves a leading word without whitespace untouched. */
  lemma {:induction false} CollapseKeepsWord(w: string, rest: string)
    requires forall i :: 0 <= i < |w| ==> !IsSpace(w[i])
    ensures Collapse(w + rest) == w + Collapse(rest)
    decreases |w|
  {
    if w == [] {
      assert w + rest == rest;
    } else {
      var s := w + rest;
      assert s[0] == w[0] && !IsSpace(s[0]);
      assert s[1..] == w[1..] + rest;
      assert s[..1] == w[..1];
      CollapseKeepsWord(w[1..], rest);
      assert w[..1] + w[1..] == w;
    }
  }

  // ---------------------------------------------------------------------------
  // ASCII case mapping

  function LowerChar(ch: char): char
  {
    if 'A' <= ch <= 'Z' then (ch as int + 32) as char else ch
  }

  function UpperChar(ch: char): char
  {
    if 'a' <= ch <= 'z' then (ch as int - 32) as char else ch
  }

  /** strtolower. */
  function LowerText(s: string): string
  {
    seq(|s|, i requires 0 <= i < |s| => LowerChar(s[i]))
  }

  /** strtoupper: no lower-case ASCII letter is left, and the text is unchanged up to case. */
  function UpperText(s: string): (r: string)
    ensures |r| == |s|
    ensures forall i :: 0 <= i < |r| ==> !('a' <= r[i] <= 'z') && LowerChar(r[i]) == LowerChar(s[i])
  {
    seq(|s|, i requires 0 <= i < |s| => UpperChar(s[i]))
  }

  /** stripos($s, $p) === 0: `p` starts `s`, ignoring ASCII case. */
  predicate HasPrefixIgnoreCase(s: string, p: string)
  {
    |p| <= |s| && LowerText(s[..|p|]) == LowerText(p)
  }

  // ---------------------------------------------------------------------------
  // str_replace($pat, '', $s)

  /** Removes the occurrences of `pat` found scanning left to right. */
  function RemoveAll(s: string, pat: string): (r: string)
    requires pat != []
    ensures |r| <= |s|
    decreases |s|
  {
    if StartsWith(s, pat) then RemoveAll(s[|pat|..], pat)
    else if s == [] then []
    else s[..1] + RemoveAll(s[1..], pat)
  }

  /** Removing a pattern that can only occur at the very end strips it. */
  lemma {:induction false} RemoveTrailing(h: string, pat: string)
    requires pat != [] && pat[0] !in h
    ensures RemoveAll(h + pat, pat) == h
    decreases |h|
  {
    var s := h + pat;
    if h == [] {
      assert s == pat;
      assert s[|pat|..] == [];
    } else {
      assert s[0] == h[0] && h[0] != pat[0];
      assert !StartsWith(s, pat);
      assert s[1..] == h[1..] + pat;
      RemoveTrailing(h[1..], pat);
      assert s[..1] + h[1..] == h;
    }
  }
}
