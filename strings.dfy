/** Text utilities shared by the converters: failure-compatible wrappers, the
    indentation unit, Python's str() of an integer and its inverse, line
    splitting, and the Python slicing and strip() operations that the
    converters apply to expression paths. */
module Strings {

  datatype Option<+T> = None | Some(value: T)

  /** The converters either return text or raise a Python exception. */
  datatype Result<+T, +E> = Ok(value: T) | Err(error: E)

  /** `a + b` on two computations that may raise: the first exception wins. */
  function Then<E>(a: Result<string, E>, b: Result<string, E>): (r: Result<string, E>)
    ensures r.Ok? <==> a.Ok? && b.Ok?
    ensures r.Ok? ==> r.value == a.value + b.value
    ensures a.Err? ==> r == a
  {
    match a
    case Err(e) => Err(e)
    case Ok(x) =>
      match b
      case Err(e) => Err(e)
      case Ok(y) => Ok(x + y)
  }

  /** `'    ' * deep`: four spaces per nesting level. */
  function Indent(deep: nat): (r: string)
    ensures |r| == 4 * deep
    ensures forall i :: 0 <= i < |r| ==> r[i] == ' '
  {
    if deep == 0 then "" else "    " + Indent(deep - 1)
  }

  predicate StartsWith(s: string, prefix: string) {
    |prefix| <= |s| && s[..|prefix|] == prefix
  }

  predicate EndsWith(s: string, suffix: string) {
    |suffix| <= |s| && s[|s| - |suffix|..] == suffix
  }

  // ---------------------------------------------------------------------
  // str() of an integer, and int() of a decimal literal
  // ---------------------------------------------------------------------

  /** An ASCII decimal digit, 0-9. */
  predicate IsDigit(c: char) {
    '0' <= c <= '9'
  }

  predicate AllDigits(s: string) {
    forall i :: 0 <= i < |s| ==> IsDigit(s[i])
  }

  function DigitChar(d: nat): (c: char)
    requires d < 10
    ensures IsDigit(c)
  {
    ('0' as int + d) as char
  }

  function DigitValue(c: char): (d: nat)
    requires IsDigit(c)
    ensures d < 10 && DigitChar(d) == c
  {
    c as int - '0' as int
  }

  /** str(n) for a natural number: decimal digits, no leading zero. */
  function NatRepr(n: nat): (r: string)
    ensures |r| >= 1 && AllDigits(r)
    ensures r[0] == '0' ==> r == "0"
    decreases n
  {
    if n < 10 then [DigitChar(n)] else NatRepr(n / 10) + [DigitChar(n % 10)]
  }

  /** int(s) for a string of decimal digits (leading zeros allowed, as in Python). */
  function ParseNat(s: string): nat
    requires AllDigits(s)
    decreases |s|
  {
    if s == [] then 0 else ParseNat(s[..|s| - 1]) * 10 + DigitValue(s[|s| - 1])
  }

  lemma {:induction false} ParseNatRepr(n: nat)
    ensures ParseNat(NatRepr(n)) == n
    decreases n
  {
    if n >= 10 {
      var s := NatRepr(n);
      assert s == NatRepr(n / 10) + [DigitChar(n % 10)];
      assert s[..|s| - 1] == NatRepr(n / 10);
      ParseNatRepr(n / 10);
    }
  }

  lemma NatReprInjective(a: nat, b: nat)
    requires NatRepr(a) == NatRepr(b)
    ensures a == b
  {
    ParseNatRepr(a);
    ParseNatRepr(b);
  }

  /** str(i) for any integer: a minus sign in front of negative values. */
  function IntRepr(i: int): (r: string)
    ensures |r| >= 1
  {
    if i < 0 then "-" + NatRepr(-i) else NatRepr(i)
  }

  predicate IsIntLiteral(s: string) {
    (|s| >= 1 && AllDigits(s)) || (|s| >= 2 && s[0] == '-' && AllDigits(s[1..]))
  }

  function ParseInt(s: string): int
    requires IsIntLiteral(s)
  {
    if |s| >= 1 && AllDigits(s) then ParseNat(s) else -(ParseNat(s[1..]) as int)
  }

  lemma IntReprRoundTrip(i: int)
    ensures IsIntLiteral(IntRepr(i))
    ensures ParseInt(IntRepr(i)) == i
  {
    if i < 0 {
      var s := IntRepr(i);
      assert s[1..] == NatRepr(-i);
      assert !IsDigit(s[0]);
      ParseNatRepr(-i);
    } else {
      ParseNatRepr(i);
    }
  }

  // ---------------------------------------------------------------------
  // s.split(sep), and the lines of a text
  // ---------------------------------------------------------------------

  /** Python's `s.split(sep)` for a one-character separator. */
  function Split(s: string, sep: char): (r: seq<string>)
    ensures |r| >= 1
    decreases |s|
  {
    if s == [] then [""]
    else
      var rest := Split(s[1..], sep);
      if s[0] == sep then [""] + rest else [[s[0]] + rest[0]] + rest[1..]
  }

  lemma {:induction false} SplitWithoutSeparator(s: string, sep: char)
    requires sep !in s
    ensures Split(s, sep) == [s]
    decreases |s|
  {
    if s != [] {
      assert sep !in s[1..] by {
        forall k | 0 <= k < |s[1..]| ensures s[1..][k] != sep {
          assert s[1..][k] == s[k + 1];
        }
      }
      SplitWithoutSeparator(s[1..], sep);
      assert [s[0]] + s[1..] == s;
    }
  }

  lemma {:induction false} SplitAppend(a: string, sep: char, b: string)
    ensures Split(a + [sep] + b, sep) == Split(a, sep) + Split(b, sep)
    decreases |a|
  {
    if a == [] {
      assert a + [sep] + b == [sep] + b;
      assert ([sep] + b)[1..] == b;
    } else {
      var s := a + [sep] + b;
      assert s[0] == a[0];
      assert s[1..] == a[1..] + [sep] + b;
      SplitFront(s, sep);
      SplitFront(a, sep);
      SplitAppend(a[1..], sep, b);
      ConsPieces(a[0], sep, Split(a[1..], sep), Split(b, sep));
    }
  }

  /** The sequence algebra behind one step of `SplitAppend`. */
  lemma ConsPieces(c: char, sep: char, left: seq<string>, right: seq<string>)
    requires |left| >= 1
    ensures (if c == sep then [""] + (left + right) else [[c] + (left + right)[0]] + (left + right)[1..])
         == (if c == sep then [""] + left else [[c] + left[0]] + left[1..]) + right
  {
    if c == sep {
      ConcatAssoc([""], left, right);
    } else {
      assert (left + right)[0] == left[0];
      assert (left + right)[1..] == left[1..] + right;
      ConcatAssoc([[c] + left[0]], left[1..], right);
    }
  }

  lemma ConcatAssoc<T>(x: seq<T>, y: seq<T>, z: seq<T>)
    ensures x + (y + z) == (x + y) + z
  {
  }

  /** One step of `Split`: the first character either ends the first piece or joins it. */
  lemma SplitFront(s: string, sep: char)
    requires s != []
    ensures var rest := Split(s[1..], sep);
      Split(s, sep) == if s[0] == sep then [""] + rest else [[s[0]] + rest[0]] + rest[1..]
  {
  }

  /** The lines of a text, as `s.split('\n')` gives them. */
  function Lines(s: string): (r: seq<string>)
    ensures |r| >= 1
  {
    Split(s, '\n')
  }

  /** A text whose lines are the given ones, each terminated by a newline. */
  function Terminated(lines: seq<string>): string
  {
    if lines == [] then "" else lines[0] + "\n" + Terminated(lines[1..])
  }

  lemma {:induction false} LinesOfTerminated(lines: seq<string>)
    requires forall i :: 0 <= i < |lines| ==> '\n' !in lines[i]
    ensures Lines(Terminated(lines)) == lines + [""]
    decreases |lines|
  {
    if lines == [] {
    } else {
      LinesOfTerminated(lines[1..]);
      SplitAppend(lines[0], '\n', Terminated(lines[1..]));
      SplitWithoutSeparator(lines[0], '\n');
    }
  }

  /** Every line of the text is empty or starts with `deep` indentation units. */
  predicate IndentedAtLeast(s: string, deep: nat) {
    forall l :: l in Lines(s) ==> l == "" || StartsWith(l, Indent(deep))
  }

  lemma {:induction false} LinesCons(c: char, s: string)
    requires c != '\n'
    ensures Lines([c] + s) == [[c] + Lines(s)[0]] + Lines(s)[1..]
  {
    assert ([c] + s)[1..] == s;
  }

  /** The lines of `a + b` given the lines of `a` and of `b`: the last line of
      `a` and the first line of `b` are joined into one. */
  function Glue(la: seq<string>, lb: seq<string>): (r: seq<string>)
    requires |la| >= 1 && |lb| >= 1
    ensures |r| == |la| + |lb| - 1
  {
    la[..|la| - 1] + [la[|la| - 1] + lb[0]] + lb[1..]
  }

  lemma GlueEmptyFirst(l1: seq<string>, lb: seq<string>)
    requires |l1| >= 1 && |lb| >= 1
    ensures Glue([""] + l1, lb) == [""] + Glue(l1, lb)
  {
    var la := [""] + l1;
    assert la[..|la| - 1] == [""] + l1[..|l1| - 1];
  }

  lemma GlueExtendFirst(c: char, l1: seq<string>, lb: seq<string>)
    requires |l1| >= 1 && |lb| >= 1
    ensures Glue([[c] + l1[0]] + l1[1..], lb) == [[c] + Glue(l1, lb)[0]] + Glue(l1, lb)[1..]
  {
    var la := [[c] + l1[0]] + l1[1..];
    var g := Glue(l1, lb);
    if |l1| == 1 {
      assert la[..|la| - 1] == [];
      assert g == [l1[0] + lb[0]] + lb[1..];
      assert [c] + (l1[0] + lb[0]) == ([c] + l1[0]) + lb[0];
    } else {
      assert la[..|la| - 1] == [[c] + l1[0]] + l1[1..|l1| - 1];
      assert g[0] == l1[0];
      assert g[1..] == l1[1..|l1| - 1] + [l1[|l1| - 1] + lb[0]] + lb[1..];
    }
  }

  lemma {:induction false} LinesConcat(a: string, b: string)
    ensures Lines(a + b) == Glue(Lines(a), Lines(b))
    decreases |a|
  {
    if a == [] {
      assert a + b == b;
      var lb := Lines(b);
      assert Lines(a) == [""];
      assert "" + lb[0] == lb[0];
      assert Glue([""], lb) == [lb[0]] + lb[1..] == lb;
    } else {
      assert (a + b)[1..] == a[1..] + b;
      LinesConcat(a[1..], b);
      if a[0] == '\n' {
        GlueEmptyFirst(Lines(a[1..]), Lines(b));
      } else {
        GlueExtendFirst(a[0], Lines(a[1..]), Lines(b));
      }
    }
  }

  lemma IndentPrefix(deep: nat, k: nat)
    requires k <= deep
    ensures StartsWith(Indent(deep), Indent(k))
  {
  }

  /** Indentation is preserved by concatenation, whatever the seams. */
  lemma IndentedConcat(a: string, b: string, deep: nat)
    requires IndentedAtLeast(a, deep) && IndentedAtLeast(b, deep)
    ensures IndentedAtLeast(a + b, deep)
  {
    LinesConcat(a, b);
    var la, lb := Lines(a), Lines(b);
    var last := la[|la| - 1];
    assert last in la;
    assert lb[0] in lb;
    forall l | l in Lines(a + b) ensures l == "" || StartsWith(l, Indent(deep)) {
      if l in la[..|la| - 1] {
        assert l in la;
      } else if l in lb[1..] {
        assert l in lb;
      } else {
        assert l == last + lb[0];
        if last == "" {
          assert l == lb[0];
        } else {
          assert l[..4 * deep] == last[..4 * deep];
        }
      }
    }
  }

  /** A single line indented by at least `deep` units, newline-terminated or not. */
  lemma IndentedLine(line: string, k: nat, deep: nat, terminated: bool)
    requires k >= deep
    requires StartsWith(line, Indent(k)) && '\n' !in line
    ensures IndentedAtLeast(if terminated then line + "\n" else line, deep)
  {
    IndentPrefix(k, deep);
    assert line[..4 * deep] == Indent(k)[..4 * deep];
    if terminated {
      assert line + "\n" == Terminated([line]);
      LinesOfTerminated([line]);
    } else {
      SplitWithoutSeparator(line, '\n');
    }
  }

  lemma IndentedEmpty(deep: nat)
    ensures IndentedAtLeast("", deep)
  {
  }

  lemma IndentedNewline(deep: nat)
    ensures IndentedAtLeast("\n", deep)
  {
    assert "\n" == Terminated([""]);
    LinesOfTerminated([""]);
  }

  /** The statement `text` on a line of its own, `deep` levels deep. */
  function Stmt(deep: nat, text: string): string
  {
    Indent(deep) + text + "\n"
  }

  lemma IndentSingleLine(deep: nat)
    ensures '\n' !in Indent(deep)
  {
    var ind := Indent(deep);
    forall k | 0 <= k < |ind| ensures ind[k] != '\n' { }
  }

  lemma StmtIndented(k: nat, text: string, deep: nat)
    requires k >= deep && '\n' !in text
    ensures IndentedAtLeast(Stmt(k, text), deep)
  {
    var line := Indent(k) + text;
    IndentSingleLine(k);
    assert line[..4 * k] == Indent(k);
    IndentedLine(line, k, deep, true);
  }

  /** A statement is one line of the text it starts. */
  lemma StmtLines(k: nat, text: string, rest: string)
    requires '\n' !in text
    ensures Lines(Stmt(k, text) + rest) == [Indent(k) + text] + Lines(rest)
  {
    var line := Indent(k) + text;
    IndentSingleLine(k);
    assert Stmt(k, text) + rest == line + ['\n'] + rest;
    SplitAppend(line, '\n', rest);
    SplitWithoutSeparator(line, '\n');
  }

  lemma LineCons(line: string, rest: string)
    requires '\n' !in line
    ensures Lines(line + "\n" + rest) == [line] + Lines(rest)
  {
    SplitAppend(line, '\n', rest);
    SplitWithoutSeparator(line, '\n');
  }

  lemma ThreeStmtLines(k0: nat, a: string, k1: nat, b: string, k2: nat, c: string, rest: string)
    requires '\n' !in a && '\n' !in b && '\n' !in c
    ensures Lines(Stmt(k0, a) + (Stmt(k1, b) + (Stmt(k2, c) + rest)))
         == [Indent(k0) + a, Indent(k1) + b, Indent(k2) + c] + Lines(rest)
  {
    IndentSingleLine(k0);
    IndentSingleLine(k1);
    IndentSingleLine(k2);
    assert '\n' !in Indent(k0) + a && '\n' !in Indent(k1) + b && '\n' !in Indent(k2) + c;
    ThreeLines(Indent(k0) + a, Indent(k1) + b, Indent(k2) + c, rest);
  }

  lemma ThreeLines(l0: string, l1: string, l2: string, rest: string)
    requires '\n' !in l0 && '\n' !in l1 && '\n' !in l2
    ensures Lines(l0 + "\n" + (l1 + "\n" + (l2 + "\n" + rest))) == [l0, l1, l2] + Lines(rest)
  {
    LineCons(l2, rest);
    LineCons(l1, l2 + "\n" + rest);
    LineCons(l0, l1 + "\n" + (l2 + "\n" + rest));
    assert [l0] + ([l1] + ([l2] + Lines(rest))) == [l0, l1, l2] + Lines(rest);
  }

  /** The lines of a text that is empty or ends in a newline, followed by
      more text: its own lines, without the empty one after its last
      newline, then the lines of the rest. */
  lemma LinesAfterTerminated(w: string, rest: string)
    requires w == [] || w[|w| - 1] == '\n'
    ensures Lines(w + rest) == Lines(w)[..|Lines(w)| - 1] + Lines(rest)
  {
    if w != [] {
      var body := w[..|w| - 1];
      assert w == body + ['\n'] + "";
      assert w + rest == body + ['\n'] + rest;
      SplitAppend(body, '\n', "");
      SplitAppend(body, '\n', rest);
    } else {
      assert w + rest == rest;
    }
  }

  /** Five texts joined left to right, regrouped from the right: the form
      the line lemmas take apart one statement at a time. */
  lemma Regroup(a: string, b: string, c: string, d: string, e: string)
    ensures a + b + c + d + e == a + (b + (c + (d + e)))
  {
  }

  /** Deeper indentation is in particular at least as deep. */
  lemma IndentedWeaken(s: string, k: nat, deep: nat)
    requires k >= deep && IndentedAtLeast(s, k)
    ensures IndentedAtLeast(s, deep)
  {
    IndentPrefix(k, deep);
    forall l | l in Lines(s) ensures l == "" || StartsWith(l, Indent(deep)) {
      if l != "" {
        assert l[..4 * deep] == Indent(k)[..4 * deep];
      }
    }
  }

  // ---------------------------------------------------------------------
  // Python slicing and str.strip() on expression paths
  // ---------------------------------------------------------------------

  /** `s[:-k]` for k > 0: everything but the last k characters (empty if shorter). */
  function DropLast(s: string, k: nat): (r: string)
    ensures |r| == if |s| >= k then |s| - k else 0
    ensures r == s[..|r|]
  {
    s[..if |s| >= k then |s| - k else 0]
  }

  /** `s[-2:][:1]`: the last-but-one character, or the whole string if it has fewer than two. */
  function SecondToLast(s: string): (r: string)
    ensures |s| >= 2 ==> r == [s[|s| - 2]]
    ensures |s| < 2 ==> r == s
  {
    var tail := s[if |s| >= 2 then |s| - 2 else 0..];
    tail[..if |tail| >= 1 then 1 else 0]
  }

  /** The characters for which Python's str.isspace() holds, which str.strip() removes. */
  predicate IsPyWhitespace(c: char) {
    c == ' ' || ('\t' <= c <= '\r') || ('\U{1c}' <= c <= '\U{1f}') || c == '\U{85}' || c == '\U{a0}'
    || c == '\U{1680}' || ('\U{2000}' <= c <= '\U{200a}') || c == '\U{2028}' || c == '\U{2029}'
    || c == '\U{202f}' || c == '\U{205f}' || c == '\U{3000}'
  }

  function StripStart(s: string): (r: string)
    ensures |r| <= |s| && r == s[|s| - |r|..]
    ensures r == [] || !IsPyWhitespace(r[0])
    decreases |s|
  {
    if s != [] && IsPyWhitespace(s[0]) then StripStart(s[1..]) else s
  }

  function StripEnd(s: string): (r: string)
    ensures |r| <= |s| && r == s[..|r|]
    ensures r == [] || !IsPyWhitespace(r[|r| - 1])
    decreases |s|
  {
    if s != [] && IsPyWhitespace(s[|s| - 1]) then StripEnd(s[..|s| - 1]) else s
  }

  /** `s.strip()`: no leading or trailing whitespace; a text without such is unchanged. */
  function Strip(s: string): (r: string)
    ensures forall c :: c in r ==> c in s
    ensures r == [] || (!IsPyWhitespace(r[0]) && !IsPyWhitespace(r[|r| - 1]))
    ensures s == [] || (!IsPyWhitespace(s[0]) && !IsPyWhitespace(s[|s| - 1])) ==> r == s
  {
    StripEnd(StripStart(s))
  }
}
