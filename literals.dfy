/** The scalar encoder: the literal text the converters write for numbers,
    booleans, strings, fixed-size tuples and matrices, together with literal
    readers that invert it. Python's str() of a float is not modelled: a float
    carries the text str() gives for it. */
module Literals {
  import opened Strings

  /** A Python number as the converters see it: int, float or bool. */
  datatype Number = IntN(i: int) | FloatN(lit: string) | BoolN(b: bool)

  /** What Python's repr() of a float looks like, as far as the readers below
      need: never empty, never an integer literal or a boolean name (it always
      holds '.', 'e', 'inf' or 'nan'), and no space in front, no comma, no
      parenthesis and no newline anywhere. */
  predicate FloatLiteral(lit: string) {
    && lit != []
    && !IsIntLiteral(lit)
    && lit != "True" && lit != "False"
    && lit[0] != ' '
    && ',' !in lit && '(' !in lit && ')' !in lit && '\n' !in lit
  }

  predicate WellFormedNumber(n: Number) {
    n.FloatN? ==> FloatLiteral(n.lit)
  }

  /** str(n) for an int, float or bool. */
  function NumberRepr(n: Number): string
  {
    match n
    case IntN(i) => IntRepr(i)
    case FloatN(lit) => lit
    case BoolN(b) => if b then "True" else "False"
  }

  /** The text of a number literal holds none of the characters that delimit
      tuple and matrix literals. */
  lemma NumberReprShape(n: Number)
    requires WellFormedNumber(n)
    ensures NumberRepr(n) != [] && NumberRepr(n)[0] != ' '
    ensures ',' !in NumberRepr(n) && '(' !in NumberRepr(n) && ')' !in NumberRepr(n)
    ensures '\n' !in NumberRepr(n)
  {
    if n.IntN? {
      var r := IntRepr(n.i);
      IntReprRoundTrip(n.i);
      assert forall k :: 0 <= k < |r| ==> IsDigit(r[k]) || r[k] == '-' by {
        if !AllDigits(r) {
          forall k | 0 <= k < |r| ensures IsDigit(r[k]) || r[k] == '-' {
            if k > 0 { assert r[k] == r[1..][k - 1]; }
          }
        }
      }
    }
  }

  /** Reads a number literal back: the boolean names, then integer literals,
      and anything else is a float's text. */
  function ParseNumber(t: string): Number
  {
    if t == "True" then BoolN(true)
    else if t == "False" then BoolN(false)
    else if IsIntLiteral(t) then IntN(ParseInt(t))
    else FloatN(t)
  }

  lemma NumberRoundTrip(n: Number)
    requires WellFormedNumber(n)
    ensures ParseNumber(NumberRepr(n)) == n
  {
    if n.IntN? {
      IntReprRoundTrip(n.i);
      var r := IntRepr(n.i);
      assert r[0] == '-' || IsDigit(r[0]);
      assert r != "True" && r != "False";
    } else if n.BoolN? {
      assert !IsIntLiteral("True") by { assert "True"[0] == 'T'; }
      assert !IsIntLiteral("False") by { assert "False"[0] == 'F'; }
    }
  }

  // ---------------------------------------------------------------------
  // String literals
  // ---------------------------------------------------------------------

  /** The per-character map of `str.maketrans({'\'': r'\'', '\\': r'\\'})`. */
  function EscapeChar(c: char): string
  {
    if c == '\'' then "\\'" else if c == '\\' then "\\\\" else [c]
  }

  predicate Special(c: char) {
    c == '\'' || c == '\\'
  }

  /** `value.translate(...)`: each quote and backslash gets a backslash in
      front; a text with neither is unchanged, and no newline is introduced. */
  function Escape(s: string): (r: string)
    ensures |r| >= |s|
    ensures (forall i :: 0 <= i < |s| ==> !Special(s[i])) ==> r == s
    ensures '\n' !in s ==> '\n' !in r
    decreases |s|
  {
    if s == [] then "" else EscapeChar(s[0]) + Escape(s[1..])
  }

  /** The translation is one pass over the characters: escaping a
      concatenation escapes each part on its own. */
  lemma {:induction false} EscapeAppend(a: string, b: string)
    ensures Escape(a + b) == Escape(a) + Escape(b)
    decreases |a|
  {
    if a != [] {
      var c, rest := a[0], a[1..];
      assert a + b == [c] + (rest + b);
      EscapeAppend(rest, b);
      calc {
        Escape(a + b);
        EscapeChar(c) + Escape(rest + b);
        EscapeChar(c) + (Escape(rest) + Escape(b));
        (EscapeChar(c) + Escape(rest)) + Escape(b);
        { assert a == [c] + rest; }
        Escape(a) + Escape(b);
      }
    } else {
      assert a + b == b;
    }
  }

  /** Reads the body of a single-quoted literal: a backslash takes the next
      character literally. */
  function Unescape(t: string): string
    decreases |t|
  {
    if t == [] then ""
    else if t[0] == '\\' && |t| >= 2 then [t[1]] + Unescape(t[2..])
    else [t[0]] + Unescape(t[1..])
  }

  /** A raw line break, which ends a single-quoted Python literal. */
  predicate LineBreak(c: char) {
    c == '\n' || c == '\r'
  }

  predicate NoLineBreak(s: string) {
    '\n' !in s && '\r' !in s
  }

  /** A body Python reads as written between single quotes: every backslash
      starts `\\` or `\'`, no quote is bare, so none ends the literal early,
      and no raw line break ends the line. */
  predicate QuoteSafe(t: string)
    decreases |t|
  {
    || t == []
    || (|t| >= 2 && t[0] == '\\' && Special(t[1]) && QuoteSafe(t[2..]))
    || (t[0] != '\\' && t[0] != '\'' && !LineBreak(t[0]) && QuoteSafe(t[1..]))
  }

  /** Un-escaping inverts the translation, and the escaped body is one Python
      reads back exactly when the string has no line break: the translation
      leaves `\n` and `\r` alone. */
  lemma {:induction false} EscapeRoundTrip(s: string)
    ensures Unescape(Escape(s)) == s
    ensures QuoteSafe(Escape(s)) <==> NoLineBreak(s)
    decreases |s|
  {
    if s != [] {
      var rest := Escape(s[1..]);
      EscapeRoundTrip(s[1..]);
      var e := Escape(s);
      assert e == EscapeChar(s[0]) + rest;
      assert s == [s[0]] + s[1..];
      if Special(s[0]) {
        assert e[2..] == rest;
        assert Unescape(e) == [s[0]] + Unescape(rest);
        assert QuoteSafe(e) <==> QuoteSafe(rest);
      } else {
        assert e[1..] == rest;
        assert Unescape(e) == [s[0]] + Unescape(rest);
        assert QuoteSafe(e) <==> !LineBreak(s[0]) && QuoteSafe(rest);
      }
    }
  }

  /** `'\'' + value_escaped + '\''` */
  function StringLiteral(s: string): string
  {
    "'" + Escape(s) + "'"
  }

  /** Reads a single-quoted literal whose body uses only the two escapes the
      translation writes, `\\` and `\'`, as Python reads them; a body with a
      bare quote or a raw line break, which Python rejects, reads as None. */
  function ParseStringLiteral(t: string): Option<string>
  {
    if |t| >= 2 && t[0] == '\'' && t[|t| - 1] == '\'' && QuoteSafe(t[1..|t| - 1])
    then Some(Unescape(t[1..|t| - 1]))
    else None
  }

  /** The quoted literal reads back as the string, unless the string holds a
      line break, which the literal carries raw and Python rejects. */
  lemma StringLiteralRoundTrip(s: string)
    ensures ParseStringLiteral(StringLiteral(s)) == if NoLineBreak(s) then Some(s) else None
  {
    var t := StringLiteral(s);
    assert t[1..|t| - 1] == Escape(s);
    EscapeRoundTrip(s);
  }

  // ---------------------------------------------------------------------
  // Tuple and matrix literals
  // ---------------------------------------------------------------------

  /** `', '.join(parts)` for a non-empty list. */
  function JoinComma(parts: seq<string>): (r: string)
    requires |parts| >= 1
    ensures |r| >= 2 * (|parts| - 1)
    decreases |parts|
  {
    if |parts| == 1 then parts[0] else JoinComma(parts[..|parts| - 1]) + ", " + parts[|parts| - 1]
  }

  /** `', '.join(parts)` */
  function JoinCommaAll(parts: seq<string>): string
  {
    if parts == [] then "" else JoinComma(parts)
  }

  /** Joining one more part: the separator goes in front of it unless nothing
      was joined yet. */
  lemma JoinCommaAllSnoc(parts: seq<string>, i: nat)
    requires i < |parts| && parts[0] != []
    ensures JoinCommaAll(parts[..i + 1])
         == JoinCommaAll(parts[..i]) + (if JoinCommaAll(parts[..i]) != "" then ", " else "") + parts[i]
  {
    if i == 0 {
      assert parts[..1] == [parts[0]];
    } else {
      assert parts[..i + 1][..i] == parts[..i];
      if i == 1 {
        assert parts[..1] == [parts[0]];
      }
    }
  }

  function Reprs(items: seq<Number>): (r: seq<string>)
    ensures |r| == |items| && forall i :: 0 <= i < |items| ==> r[i] == NumberRepr(items[i])
  {
    seq(|items|, i requires 0 <= i < |items| => NumberRepr(items[i]))
  }

  /** str(tuple(value)): `()`, `(x,)`, or the items joined by `, ` in parentheses. */
  function TupleRepr(items: seq<Number>): string
  {
    if |items| == 1 then "(" + NumberRepr(items[0]) + ",)"
    else "(" + JoinCommaAll(Reprs(items)) + ")"
  }

  /** The matrix literal of `BLMatrix.to_source`: the rows' tuple literals joined
      by `, ` in parentheses. One row is written without a trailing comma. */
  function MatrixLiteral(rows: seq<seq<Number>>): string
  {
    "(" + JoinCommaAll(RowReprs(rows)) + ")"
  }

  function RowReprs(rows: seq<seq<Number>>): (r: seq<string>)
    ensures |r| == |rows| && forall i :: 0 <= i < |rows| ==> r[i] == TupleRepr(rows[i])
  {
    seq(|rows|, i requires 0 <= i < |rows| => TupleRepr(rows[i]))
  }

  function DropSpace(p: string): string
  {
    if p != [] && p[0] == ' ' then p[1..] else p
  }

  /** The item texts between the parentheses of a tuple literal. */
  function TupleParts(body: string): seq<string>
  {
    if body == [] then []
    else
      var parts := Split(body, ',');
      if |parts| == 2 && parts[1] == "" then [parts[0]]
      else [parts[0]] + Unspaced(parts[1..])
  }

  /** The items after the first, each without the space `, ` left in front. */
  function Unspaced(parts: seq<string>): (r: seq<string>)
    ensures |r| == |parts| && forall i :: 0 <= i < |parts| ==> r[i] == DropSpace(parts[i])
  {
    seq(|parts|, i requires 0 <= i < |parts| => DropSpace(parts[i]))
  }

  /** Reads a tuple literal of numbers. */
  function ParseTuple(t: string): Option<seq<Number>>
  {
    if |t| >= 2 && t[0] == '(' && t[|t| - 1] == ')' then
      var parts := TupleParts(t[1..|t| - 1]);
      Some(seq(|parts|, i requires 0 <= i < |parts| => ParseNumber(parts[i])))
    else None
  }

  lemma {:induction false} SplitJoinComma(parts: seq<string>)
    requires |parts| >= 1
    requires forall i :: 0 <= i < |parts| ==> ',' !in parts[i]
    ensures var split := Split(JoinComma(parts), ',');
      && |split| == |parts| && split[0] == parts[0]
      && forall i :: 1 <= i < |parts| ==> split[i] == " " + parts[i]
    decreases |parts|
  {
    var n := |parts|;
    if n == 1 {
      SplitWithoutSeparator(parts[0], ',');
    } else {
      var prefix := parts[..n - 1];
      SplitJoinComma(prefix);
      var last := " " + parts[n - 1];
      assert JoinComma(parts) == JoinComma(prefix) + [','] + last;
      SplitAppend(JoinComma(prefix), ',', last);
      assert ',' !in last by {
        forall k | 0 <= k < |last| ensures last[k] != ',' {
          if k > 0 { assert last[k] == parts[n - 1][k - 1]; }
        }
      }
      SplitWithoutSeparator(last, ',');
    }
  }

  lemma TuplePartsOfSplit(body: string)
    requires body != []
    requires |Split(body, ',')| >= 2 && Split(body, ',')[1] != ""
    ensures TupleParts(body) == [Split(body, ',')[0]] + Unspaced(Split(body, ',')[1..])
  {
  }

  lemma UnspacedTail(split: seq<string>, parts: seq<string>)
    requires |split| == |parts| >= 1
    requires forall i :: 1 <= i < |parts| ==> split[i] == " " + parts[i]
    ensures Unspaced(split[1..]) == parts[1..]
  {
    var tail := Unspaced(split[1..]);
    forall i | 0 <= i < |parts| - 1 ensures tail[i] == parts[1..][i] {
      assert split[1..][i] == split[i + 1];
    }
  }

  lemma TuplePartsFromSplit(body: string, parts: seq<string>)
    requires |parts| >= 2
    requires var split := Split(body, ',');
      && |split| == |parts| && split[0] == parts[0]
      && forall i :: 1 <= i < |parts| ==> split[i] == " " + parts[i]
    ensures TupleParts(body) == parts
  {
    var split := Split(body, ',');
    assert body != [];
    UnspacedTail(split, parts);
    assert split[1] != "" by {
      assert split[1] == " " + parts[1];
    }
    TuplePartsOfSplit(body);
    assert [parts[0]] + parts[1..] == parts;
  }

  lemma TuplePartsOfJoin(parts: seq<string>)
    requires |parts| >= 2
    requires forall i :: 0 <= i < |parts| ==> ',' !in parts[i]
    ensures TupleParts(JoinComma(parts)) == parts
  {
    SplitJoinComma(parts);
    TuplePartsFromSplit(JoinComma(parts), parts);
  }

  lemma TuplePartsOfRepr(items: seq<Number>)
    requires forall i :: 0 <= i < |items| ==> WellFormedNumber(items[i])
    ensures var t := TupleRepr(items); |t| >= 2 && TupleParts(t[1..|t| - 1]) == Reprs(items)
  {
    var t := TupleRepr(items);
    var reprs := Reprs(items);
    forall i | 0 <= i < |items| ensures ',' !in reprs[i] {
      NumberReprShape(items[i]);
    }
    if |items| == 0 {
      assert t[1..|t| - 1] == [];
    } else if |items| == 1 {
      var body := reprs[0] + [','] + "";
      assert t[1..|t| - 1] == body;
      assert Split(body, ',') == [reprs[0], ""] by {
        SplitAppend(reprs[0], ',', "");
        SplitWithoutSeparator(reprs[0], ',');
      }
    } else {
      assert t[1..|t| - 1] == JoinComma(reprs);
      TuplePartsOfJoin(reprs);
    }
  }

  /** str(tuple(value)) of well-formed numbers reads back as the same numbers. */
  lemma TupleRoundTrip(items: seq<Number>)
    requires forall i :: 0 <= i < |items| ==> WellFormedNumber(items[i])
    ensures ParseTuple(TupleRepr(items)) == Some(items)
  {
    var t := TupleRepr(items);
    TuplePartsOfRepr(items);
    var parts := Reprs(items);
    forall i | 0 <= i < |items| ensures ParseNumber(parts[i]) == items[i] {
      NumberRoundTrip(items[i]);
    }
    assert t[0] == '(' && t[|t| - 1] == ')';
    ParseTupleOfParts(t, parts, items);
  }

  /** A parenthesised text whose items read back one by one reads back as a tuple. */
  lemma ParseTupleOfParts(t: string, parts: seq<string>, items: seq<Number>)
    requires |t| >= 2 && t[0] == '(' && t[|t| - 1] == ')'
    requires TupleParts(t[1..|t| - 1]) == parts && |parts| == |items|
    requires forall i :: 0 <= i < |parts| ==> ParseNumber(parts[i]) == items[i]
    ensures ParseTuple(t) == Some(items)
  {
    var numbers := seq(|parts|, i requires 0 <= i < |parts| => ParseNumber(parts[i]));
    assert numbers == items;
  }

  // --- reading a matrix literal back

  function IndexOfChar(s: string, c: char): (r: Option<nat>)
    ensures r.Some? ==> r.value < |s| && s[r.value] == c && c !in s[..r.value]
    ensures r.None? ==> c !in s
    decreases |s|
  {
    if s == [] then None
    else if s[0] == c then Some(0)
    else match IndexOfChar(s[1..], c)
      case None => None
      case Some(k) => Some(k + 1)
  }

  /** Reads rows `(..), (..), ...` written one after another. */
  function ParseRows(body: string): Option<seq<seq<Number>>>
    decreases |body|
  {
    if body == [] then Some([])
    else match IndexOfChar(body, ')')
      case None => None
      case Some(k) =>
        match ParseTuple(body[..k + 1])
        case None => None
        case Some(row) =>
          var rest := body[k + 1..];
          if rest == [] then Some([row])
          else if |rest| >= 2 && rest[..2] == ", " then
            match ParseRows(rest[2..])
            case None => None
            case Some(more) => Some([row] + more)
          else None
  }

  function ParseMatrix(t: string): Option<seq<seq<Number>>>
  {
    if |t| >= 2 && t[0] == '(' && t[|t| - 1] == ')' then ParseRows(t[1..|t| - 1]) else None
  }

  lemma {:induction false} JoinCommaHead(parts: seq<string>)
    requires |parts| >= 2
    ensures JoinComma(parts) == parts[0] + ", " + JoinComma(parts[1..])
    decreases |parts|
  {
    var n := |parts|;
    if n > 2 {
      JoinCommaHead(parts[..n - 1]);
      assert parts[..n - 1][1..] == parts[1..][..n - 2];
    }
  }

  lemma {:induction false} JoinCommaAvoids(parts: seq<string>, c: char)
    requires |parts| >= 1 && c != ',' && c != ' '
    requires forall i :: 0 <= i < |parts| ==> c !in parts[i]
    ensures c !in JoinComma(parts)
    decreases |parts|
  {
    if |parts| > 1 {
      JoinCommaAvoids(parts[..|parts| - 1], c);
    }
  }

  /** A tuple literal of well-formed numbers closes at its last character only. */
  lemma TupleReprDelimited(items: seq<Number>)
    requires forall i :: 0 <= i < |items| ==> WellFormedNumber(items[i])
    ensures var t := TupleRepr(items); |t| >= 2 && t[0] == '(' && t[|t| - 1] == ')' && ')' !in t[..|t| - 1]
  {
    var reprs := Reprs(items);
    forall i | 0 <= i < |items| ensures ')' !in reprs[i] {
      NumberReprShape(items[i]);
    }
    var t := TupleRepr(items);
    if |items| == 1 {
      assert t[..|t| - 1] == "(" + reprs[0] + ",";
    } else if |items| >= 2 {
      JoinCommaAvoids(reprs, ')');
      assert t[..|t| - 1] == "(" + JoinComma(reprs);
    }
  }

  /** One row read off the front of a rows text. */
  lemma ParseRowsStep(t0: string, row: seq<Number>, rest: string)
    requires |t0| >= 2 && t0[|t0| - 1] == ')' && ')' !in t0[..|t0| - 1]
    requires ParseTuple(t0) == Some(row)
    ensures rest == [] ==> ParseRows(t0 + rest) == Some([row])
    ensures |rest| >= 2 && rest[..2] == ", " && ParseRows(rest[2..]).Some? ==>
      ParseRows(t0 + rest) == Some([row] + ParseRows(rest[2..]).value)
  {
    var body := t0 + rest;
    var k := |t0| - 1;
    assert body[k] == ')' && body[..k] == t0[..k];
    assert IndexOfChar(body, ')') == Some(k);
    assert body[..k + 1] == t0;
    assert body[k + 1..] == rest;
  }

  predicate WellFormedRows(rows: seq<seq<Number>>) {
    forall j, i :: 0 <= j < |rows| && 0 <= i < |rows[j]| ==> WellFormedNumber(rows[j][i])
  }

  /** The first row's literal is delimited and reads back as that row. */
  lemma FirstRowLiteral(rows: seq<seq<Number>>)
    requires |rows| >= 1 && WellFormedRows(rows)
    ensures var t0 := TupleRepr(rows[0]);
      |t0| >= 2 && t0[|t0| - 1] == ')' && ')' !in t0[..|t0| - 1] && ParseTuple(t0) == Some(rows[0])
  {
    TupleReprDelimited(rows[0]);
    TupleRoundTrip(rows[0]);
  }

  lemma RowReprsHead(rows: seq<seq<Number>>)
    requires |rows| >= 2
    ensures JoinComma(RowReprs(rows)) == TupleRepr(rows[0]) + ", " + JoinComma(RowReprs(rows[1..]))
  {
    var reprs := RowReprs(rows);
    JoinCommaHead(reprs);
    assert reprs[1..] == RowReprs(rows[1..]);
  }

  lemma ParseRowsCons(rows: seq<seq<Number>>, more: string)
    requires |rows| >= 2 && WellFormedRows(rows)
    requires ParseRows(more) == Some(rows[1..])
    ensures ParseRows(TupleRepr(rows[0]) + ", " + more) == Some(rows)
  {
    FirstRowLiteral(rows);
    ParseRowThenMore(TupleRepr(rows[0]), rows[0], more, rows[1..]);
    assert [rows[0]] + rows[1..] == rows;
  }

  /** A delimited row literal, a comma and further rows read as that row first. */
  lemma ParseRowThenMore(t0: string, row: seq<Number>, more: string, tail: seq<seq<Number>>)
    requires |t0| >= 2 && t0[|t0| - 1] == ')' && ')' !in t0[..|t0| - 1]
    requires ParseTuple(t0) == Some(row) && ParseRows(more) == Some(tail)
    ensures ParseRows(t0 + ", " + more) == Some([row] + tail)
  {
    var rest := ", " + more;
    assert rest[..2] == ", " && rest[2..] == more;
    ParseRowsStep(t0, row, rest);
    assert t0 + ", " + more == t0 + rest;
  }

  lemma {:induction false} RowsRoundTrip(rows: seq<seq<Number>>)
    requires |rows| >= 1 && WellFormedRows(rows)
    ensures ParseRows(JoinComma(RowReprs(rows))) == Some(rows)
    decreases |rows|
  {
    if |rows| == 1 {
      var t0 := TupleRepr(rows[0]);
      FirstRowLiteral(rows);
      ParseRowsStep(t0, rows[0], "");
      assert JoinComma(RowReprs(rows)) == t0 + "";
      assert rows == [rows[0]];
    } else {
      assert WellFormedRows(rows[1..]) by {
        forall j, i | 0 <= j < |rows| - 1 && 0 <= i < |rows[1..][j]|
          ensures WellFormedNumber(rows[1..][j][i])
        {
          assert rows[1..][j] == rows[j + 1];
        }
      }
      RowsRoundTrip(rows[1..]);
      RowReprsHead(rows);
      ParseRowsCons(rows, JoinComma(RowReprs(rows[1..])));
    }
  }

  /** The matrix literal of well-formed numbers reads back as the same rows. */
  lemma MatrixRoundTrip(rows: seq<seq<Number>>)
    requires WellFormedRows(rows)
    ensures ParseMatrix(MatrixLiteral(rows)) == Some(rows)
  {
    var t := MatrixLiteral(rows);
    if rows == [] {
      assert t[1..|t| - 1] == [];
    } else {
      assert t[1..|t| - 1] == JoinComma(RowReprs(rows));
      RowsRoundTrip(rows);
    }
  }
}
