/** What the converters promise: the shape of one-line statements and the
    literal they end with, the layout of the lookup and guarded-load
    converters, the order of the attribute walker, positional addressing of
    collection elements and its recovery by the recreate-in-place converters,
    and the indentation of every emitted line. */
module ConversionProperties {
  import opened Strings
  import opened Literals
  import opened BlValues
  import opened BlTypesConversion

  lemma StartsWithAppend(a: string, b: string, p: string)
    requires StartsWith(a, p)
    ensures StartsWith(a + b, p)
  {
    assert (a + b)[..|p|] == a[..|p|];
  }

  lemma IntReprShape(i: int)
    ensures '\n' !in IntRepr(i) && IntRepr(i)[0] != ' '
  {
    var r := IntRepr(i);
    IntReprRoundTrip(i);
    forall k | 0 <= k < |r| ensures r[k] != '\n' && r[k] != ' ' {
      if i < 0 && k > 0 {
        assert r[k] == r[1..][k - 1];
      }
    }
  }

  lemma TupleReprShape(items: seq<Number>)
    requires forall i :: 0 <= i < |items| ==> WellFormedNumber(items[i])
    ensures '\n' !in TupleRepr(items) && TupleRepr(items)[0] == '('
  {
    var reprs := Reprs(items);
    forall i | 0 <= i < |items| ensures '\n' !in reprs[i] {
      NumberReprShape(items[i]);
    }
    if |items| >= 2 {
      JoinCommaAvoids(reprs, '\n');
    }
  }

  lemma MatrixLiteralShape(rows: seq<seq<Number>>)
    requires WellFormedRows(rows)
    ensures '\n' !in MatrixLiteral(rows)
  {
    var reprs := RowReprs(rows);
    forall i | 0 <= i < |rows| ensures '\n' !in reprs[i] {
      TupleReprShape(rows[i]);
    }
    if rows != [] {
      JoinCommaAvoids(reprs, '\n');
    }
  }

  // ---------------------------------------------------------------------
  // One-line converters
  // ---------------------------------------------------------------------

  /** The head is one line: `deep` units of indentation, then the target
      assignment when there is a target expression. */
  lemma HeadShape(parent: string, deep: nat)
    requires '\n' !in parent
    ensures '\n' !in Head(parent, deep) && |Head(parent, deep)| >= 4 * deep
    ensures Head(parent, deep)[4 * deep..] == if parent != "" then parent + " = " else ""
  {
    var ind := Indent(deep);
    assert '\n' !in ind by {
      forall k | 0 <= k < |ind| ensures ind[k] != '\n' { }
    }
    var tail: string := if parent != "" then parent + " = " else "";
    assert '\n' !in tail;
    assert Head(parent, deep) == ind + tail;
    assert (ind + tail)[4 * deep..] == tail;
  }

  /** A head followed by a one-line literal that does not start with a space. */
  lemma HeadLine(parent: string, deep: nat, lit: string)
    requires '\n' !in parent && (parent == "" || parent[0] != ' ')
    requires '\n' !in lit && lit != [] && lit[0] != ' '
    ensures var line := Head(parent, deep) + lit;
      && StartsWith(line, Indent(deep)) && |line| > 4 * deep && line[4 * deep] != ' '
      && '\n' !in line
      && (StartsWith(line[4 * deep..], parent + " = ") <==> parent != "")
      && StartsWith(line, Head(parent, deep))
      && line[|Head(parent, deep)|..] == lit
  {
    var ind := Indent(deep);
    var tail: string := if parent != "" then parent + " = " else "";
    IndentSingleLine(deep);
    assert Head(parent, deep) == ind + tail;
    PrefixedLine(ind, tail, lit, parent);
  }

  /** The same, for any one-line prefix in front of the optional assignment. */
  lemma PrefixedLine(ind: string, tail: string, lit: string, parent: string)
    requires '\n' !in ind && '\n' !in parent && (parent == "" || parent[0] != ' ')
    requires tail == if parent != "" then parent + " = " else ""
    requires '\n' !in lit && lit != [] && lit[0] != ' '
    ensures var line := ind + tail + lit;
      && StartsWith(line, ind) && |line| > |ind| && line[|ind|] != ' '
      && '\n' !in line
      && (StartsWith(line[|ind|..], parent + " = ") <==> parent != "")
      && StartsWith(line, ind + tail)
      && line[|ind + tail|..] == lit
  {
    var line := ind + tail + lit;
    assert line[..|ind|] == ind;
    assert line[..|ind + tail|] == ind + tail;
    assert line[|ind|..] == tail + lit;
    assert line[|ind + tail|..] == lit;
    if parent != "" {
      assert (tail + lit)[..|parent + " = "|] == parent + " = ";
      assert line[|ind|] == parent[0];
    } else {
      assert (parent + " = ")[0] == ' ';
    }
  }

  /** A number, set, string or tuple becomes one line: exactly `deep`
      indentation units, then `parent_expr = ` if and only if there is a
      target expression, then a literal that reads back as the value. */
  lemma ScalarLine(v: Value, parent: string, deep: nat)
    requires v.Num? || v.PySet? || v.Str? || v.Tuple?
    requires SingleLineText(v) && '\n' !in parent && (parent == "" || parent[0] != ' ')
    ensures SourceByType(v, parent, deep).Ok? && SourceByType(v, parent, deep).value.Some?
    ensures var line := SourceByType(v, parent, deep).value.value;
      && StartsWith(line, Indent(deep)) && |line| > 4 * deep && line[4 * deep] != ' '
      && '\n' !in line
      && (StartsWith(line[4 * deep..], parent + " = ") <==> parent != "")
      && StartsWith(line, Head(parent, deep))
      && var lit := line[|Head(parent, deep)|..];
         && (v.Num? ==> ParseNumber(lit) == v.n)
         && (v.PySet? ==> lit == v.lit)
         && (v.Str? ==> ParseStringLiteral(lit) == if '\r' in v.s then None else Some(v.s))
         && (v.Tuple? ==> ParseTuple(lit) == Some(v.items))
  {
    var lit := ScalarLiteral(v);
    HeadLine(parent, deep, lit);
    assert SourceByType(v, parent, deep) == Ok(Some(Head(parent, deep) + lit));
    match v {
      case Num(n) => NumberRoundTrip(n);
      case PySet(l) =>
      case Str(s) => StringLiteralRoundTrip(s);
      case Tuple(_, items) => TupleRoundTrip(items);
    }
  }

  /** The literal a scalar is written as. */
  function ScalarLiteral(v: Value): (lit: string)
    requires v.Num? || v.PySet? || v.Str? || v.Tuple?
    requires SingleLineText(v)
    ensures '\n' !in lit && lit != [] && lit[0] != ' '
  {
    match v
    case Num(n) => NumberReprShape(n); NumberRepr(n)
    case PySet(l) => l
    case Str(s) => EscapeNoNewline(s); StringLiteral(s)
    case Tuple(_, items) => TupleReprShape(items); TupleRepr(items)
  }

  lemma EscapeNoNewline(s: string)
    requires '\n' !in s
    ensures '\n' !in StringLiteral(s) && StringLiteral(s)[0] == '\''
  {
  }

  /** `BLMatrix.to_source` always writes `parent_expr = `, even for an empty
      target expression, and its literal reads back as the rows. */
  lemma MatrixLine(rows: seq<seq<Number>>, parent: string, deep: nat)
    requires WellFormedRows(rows) && '\n' !in parent
    ensures SourceByType(Matrix(rows), parent, deep).Ok?
    ensures var line := SourceByType(Matrix(rows), parent, deep).value;
      && line.Some?
      && StartsWith(line.value, Indent(deep) + parent + " = ")
      && '\n' !in line.value
      && ParseMatrix(line.value[4 * deep + |parent| + 3..]) == Some(rows)
  {
    assert SourceByType(Matrix(rows), parent, deep) == Ok(Some(MatrixSource(rows, parent, deep)));
    var prefix := Indent(deep) + parent + " = ";
    var lit := MatrixLiteral(rows);
    assert MatrixSource(rows, parent, deep) == prefix + lit;
    assert (prefix + lit)[..|prefix|] == prefix && (prefix + lit)[|prefix|..] == lit;
    IndentSingleLine(deep);
    MatrixLiteralShape(rows);
    MatrixRoundTrip(rows);
  }

  // ---------------------------------------------------------------------
  // Lookup and guarded-load converters
  // ---------------------------------------------------------------------

  /** A lookup expression is one line ending in `.get('name')`. */
  lemma LookupExprShape(c: EntityClass, name: string, deep: nat)
    requires '\n' !in name
    ensures '\n' !in LookupExpr(c, name, deep)
    ensures EndsWith(LookupExpr(c, name, deep), ".get('" + name + "')")
  {
    LookupBaseSingleLine(c, deep);
    assert LookupExpr(c, name, deep) == LookupBase(c, deep) + (".get('" + name + "')");
    SuffixShape(LookupBase(c, deep), ".get('" + name + "')");
  }

  lemma LookupBaseSingleLine(c: EntityClass, deep: nat)
    ensures '\n' !in LookupBase(c, deep)
  {
    assert '\n' !in DataBlocks;
    match c {
      case ParticleSystem =>
        assert '\n' !in "bpy.context.active_object";
        assert '\n' !in ".particle_systems";
      case NodeFrame =>
        IntReprShape(deep - 1);
      case _ =>
    }
  }

  lemma SuffixShape(base: string, suffix: string)
    requires '\n' !in base && '\n' !in suffix
    ensures '\n' !in base + suffix && EndsWith(base + suffix, suffix)
  {
    assert (base + suffix)[|base + suffix| - |suffix|..] == suffix;
  }

  lemma EndsWithAppend(a: string, b: string, x: string)
    requires EndsWith(b, x)
    ensures EndsWith(a + b, x)
  {
    assert (a + b)[|a + b| - |x|..] == b[|b| - |x|..];
  }

  lemma OneLine(t: string)
    requires '\n' !in t
    ensures Lines(t) == [t]
  {
    SplitWithoutSeparator(t, '\n');
  }

  lemma LookupSource(c: EntityClass, name: string, parent: string, deep: nat)
    requires c != Image && c != CacheFile
    ensures SourceByType(Entity(c, name), parent, deep) == Ok(Some(Head(parent, deep) + LookupExpr(c, name, deep)))
  {
    assert EntitySource(c, name, parent, deep) == Head(parent, deep) + LookupExpr(c, name, deep);
  }

  /** A pure lookup converter emits exactly one line: the head, then the
      lookup ending in `.get('name')`. */
  lemma LookupLine(c: EntityClass, name: string, parent: string, deep: nat)
    requires c != Image && c != CacheFile
    requires '\n' !in name && '\n' !in parent
    ensures SourceByType(Entity(c, name), parent, deep).Ok?
    ensures var t := SourceByType(Entity(c, name), parent, deep).value;
      && t.Some?
      && Lines(t.value) == [t.value]
      && StartsWith(t.value, Head(parent, deep))
      && EndsWith(t.value, ".get('" + name + "')")
  {
    LookupSource(c, name, parent, deep);
    var head := Head(parent, deep);
    var expr := LookupExpr(c, name, deep);
    LookupExprShape(c, name, deep);
    HeadShape(parent, deep);
    OneLine(head + expr);
    StartsWithAppend(head, expr, head);
    EndsWithAppend(head, expr, ".get('" + name + "')");
  }

  lemma LoadTextsSingleLine(c: EntityClass, name: string)
    requires c == Image || c == CacheFile
    requires '\n' !in name
    ensures '\n' !in "if '" + name + "' not in bpy.data." + Library(c) + ":"
    ensures '\n' !in "if os.path.exists(" + ExternalItem(name) + "):"
    ensures '\n' !in Loader(c) + "(" + ExternalItem(name) + ")"
  {
    var item := ExternalItem(name);
    NoNewlineJoin("os.path.join(external_items_dir, '", name);
    NoNewlineJoin("os.path.join(external_items_dir, '" + name, "')");
    assert '\n' !in Loader(c) && '\n' !in Library(c);
    NoNewlineJoin("if '", name);
    NoNewlineJoin("if '" + name, "' not in bpy.data.");
    NoNewlineJoin("if '" + name + "' not in bpy.data.", Library(c));
    NoNewlineJoin("if '" + name + "' not in bpy.data." + Library(c), ":");
    NoNewlineJoin("if os.path.exists(", item);
    NoNewlineJoin("if os.path.exists(" + item, "):");
    NoNewlineJoin(Loader(c), "(");
    NoNewlineJoin(Loader(c) + "(", item);
    NoNewlineJoin(Loader(c) + "(" + item, ")");
  }

  lemma NoNewlineJoin(a: string, b: string)
    requires '\n' !in a && '\n' !in b
    ensures '\n' !in a + b
  {
  }

  lemma LoadSource(c: EntityClass, name: string, parent: string, deep: nat)
    requires c == Image || c == CacheFile
    ensures SourceByType(Entity(c, name), parent, deep) == Ok(Some(
      Stmt(deep, "if '" + name + "' not in bpy.data." + Library(c) + ":")
      + (Stmt(deep + 1, "if os.path.exists(" + ExternalItem(name) + "):")
      + (Stmt(deep + 2, Loader(c) + "(" + ExternalItem(name) + ")")
      + (Head(parent, deep) + LookupExpr(c, name, deep))))))
  {
    LoadText(c, name, parent, deep);
  }

  lemma LoadText(c: EntityClass, name: string, parent: string, deep: nat)
    requires c == Image || c == CacheFile
    ensures EntitySource(c, name, parent, deep) ==
      Stmt(deep, "if '" + name + "' not in bpy.data." + Library(c) + ":")
      + (Stmt(deep + 1, "if os.path.exists(" + ExternalItem(name) + "):")
      + (Stmt(deep + 2, Loader(c) + "(" + ExternalItem(name) + ")")
      + (Head(parent, deep) + LookupExpr(c, name, deep))))
  {
    var s0 := Stmt(deep, "if '" + name + "' not in bpy.data." + Library(c) + ":");
    var s1 := Stmt(deep + 1, "if os.path.exists(" + ExternalItem(name) + "):");
    var s2 := Stmt(deep + 2, Loader(c) + "(" + ExternalItem(name) + ")");
    var h, l := Head(parent, deep), LookupExpr(c, name, deep);
    assert LoadGuard(c, name, deep) == s0 + s1 + s2;
    assert EntitySource(c, name, parent, deep) == LoadGuard(c, name, deep) + h + l;
    Regroup(s0, s1, s2, h, l);
  }

  /** An image or a cache file is written as four lines: the `not in` guard at
      `deep`, the `os.path.exists` guard one level deeper, the load call two
      levels deeper, and last the lookup at `deep`. */
  lemma LoadLines(c: EntityClass, name: string, parent: string, deep: nat)
    requires c == Image || c == CacheFile
    requires '\n' !in name && '\n' !in parent
    ensures SourceByType(Entity(c, name), parent, deep).Ok?
    ensures var t := SourceByType(Entity(c, name), parent, deep).value;
      && t.Some?
      && Lines(t.value) == [
           Indent(deep) + ("if '" + name + "' not in bpy.data." + Library(c) + ":"),
           Indent(deep + 1) + ("if os.path.exists(" + ExternalItem(name) + "):"),
           Indent(deep + 2) + (Loader(c) + "(" + ExternalItem(name) + ")"),
           Head(parent, deep) + LookupExpr(c, name, deep)]
  {
    LoadSource(c, name, parent, deep);
    var a0 := "if '" + name + "' not in bpy.data." + Library(c) + ":";
    var a1 := "if os.path.exists(" + ExternalItem(name) + "):";
    var a2 := Loader(c) + "(" + ExternalItem(name) + ")";
    var l3 := Head(parent, deep) + LookupExpr(c, name, deep);
    LoadTextsSingleLine(c, name);
    LookupExprShape(c, name, deep);
    HeadShape(parent, deep);
    OneLine(l3);
    FourLines(deep, a0, deep + 1, a1, deep + 2, a2, l3);
  }

  lemma FourLines(k0: nat, a0: string, k1: nat, a1: string, k2: nat, a2: string, l3: string)
    requires '\n' !in a0 && '\n' !in a1 && '\n' !in a2 && '\n' !in l3
    ensures Lines(Stmt(k0, a0) + (Stmt(k1, a1) + (Stmt(k2, a2) + l3)))
         == [Indent(k0) + a0, Indent(k1) + a1, Indent(k2) + a2, l3]
  {
    IndentSingleLine(k0);
    IndentSingleLine(k1);
    IndentSingleLine(k2);
    LinesOfFour(Indent(k0) + a0, Indent(k1) + a1, Indent(k2) + a2, l3);
  }

  lemma LinesOfFour(l0: string, l1: string, l2: string, l3: string)
    requires '\n' !in l0 && '\n' !in l1 && '\n' !in l2 && '\n' !in l3
    ensures Lines(l0 + "\n" + (l1 + "\n" + (l2 + "\n" + l3))) == [l0, l1, l2, l3]
  {
    var r2 := l2 + "\n" + l3;
    var r1 := l1 + "\n" + r2;
    OneLine(l3);
    LineCons(l2, l3);
    LineCons(l1, r2);
    LineCons(l0, r1);
    assert [l0] + ([l1] + ([l2] + [l3])) == [l0, l1, l2, l3];
  }

  // ---------------------------------------------------------------------
  // The attribute walker
  // ---------------------------------------------------------------------

  /** The remaining-attribute filter keeps the listing's order: filtering two
      parts of the listing is filtering the whole. */
  lemma {:induction false} RemainingAppend(a1: seq<Attr>, a2: seq<Attr>, excluded: seq<string>, pre: seq<Attr>,
                                           complex: seq<string>)
    ensures RemainingAttributes(a1 + a2, excluded, pre, complex)
      == RemainingAttributes(a1, excluded, pre, complex) + RemainingAttributes(a2, excluded, pre, complex)
    decreases |a1|
  {
    if a1 == [] {
      assert a1 + a2 == a2;
    } else {
      assert (a1 + a2)[1..] == a1[1..] + a2;
      RemainingAppend(a1[1..], a2, excluded, pre, complex);
    }
  }

  /** The preordered filter keeps the preordered list's own order: filtering
      two parts of the list is filtering the whole, and the first name that
      raises, scanning front to back, decides the exception. */
  lemma {:induction false} PreorderedAppend(attrs: seq<Attr>, p1: seq<string>, p2: seq<string>,
                                            complex: Option<seq<string>>)
    ensures var r1, r2 := PreorderedAttributes(attrs, p1, complex), PreorderedAttributes(attrs, p2, complex);
      PreorderedAttributes(attrs, p1 + p2, complex)
        == if r1.Err? then r1 else if r2.Err? then r2 else Ok(r1.value + r2.value)
    decreases |p1|
  {
    if p1 == [] {
      assert p1 + p2 == p2;
      var r2 := PreorderedAttributes(attrs, p2, complex);
      if r2.Ok? {
        assert [] + r2.value == r2.value;
      }
    } else {
      assert (p1 + p2)[0] == p1[0] && (p1 + p2)[1..] == p1[1..] + p2;
      PreorderedAppend(attrs, p1[1..], p2, complex);
      var r1 := PreorderedAttributes(attrs, p1[1..], complex);
      var r2 := PreorderedAttributes(attrs, p2, complex);
      if r1.Ok? && r2.Ok? {
        forall a: Attr ensures [a] + (r1.value + r2.value) == ([a] + r1.value) + r2.value {
        }
      }
    }
  }

  /** The walker emits all kept preordered attributes before any remaining one. */
  lemma WalkerOrder(v: Value, excluded: seq<string>, pre: seq<string>, complex: Option<seq<string>>,
                    parent: string, deep: nat)
    requires v.Struct? && PreorderedAttributes(v.attrs, pre, complex).Ok?
    ensures var kept := PreorderedAttributes(v.attrs, pre, complex).value;
      var rest := RemainingAttributes(v.attrs, excluded, kept, if complex.Some? then complex.value else []);
      ComplexTypeSource(v, excluded, pre, complex, parent, deep)
        == Then(EmitAttributes(v, kept, parent, deep), EmitAttributes(v, rest, parent, deep))
  {
    var kept := PreorderedAttributes(v.attrs, pre, complex).value;
    var rest := RemainingAttributes(v.attrs, excluded, kept, if complex.Some? then complex.value else []);
    EmitAppend(v, kept, rest, parent, deep);
  }

  /** `BLImageFormatSettings` preorders `file_format` without a complex list:
      when that attribute is present and readonly the converter raises. */
  lemma FormatSettingsRaise(v: Value, parent: string, deep: nat)
    requires v.Struct? && v.structClass == ImageFormatSettings
    requires var f := GetAttr(v.attrs, "file_format"); f.Some? && f.value.readonly && Present(f.value.value)
    ensures SourceByType(v, parent, deep) == Err(PreorderedNotInComplex("file_format"))
  {
    var pre := ["file_format"];
    assert pre[0] == "file_format" && pre[1..] == [];
    assert PreorderedAttributes(v.attrs, pre, None) == Err(PreorderedNotInComplex("file_format"));
    assert WalkedAttributes(v.attrs, [], pre, None) == Err(PreorderedNotInComplex("file_format"));
    assert StructSource(v, parent, deep) == Err(PreorderedNotInComplex("file_format"));
  }

  // ---------------------------------------------------------------------
  // Collections and the recreate-in-place converters
  // ---------------------------------------------------------------------

  /** Distinct elements are addressed by distinct expressions. */
  lemma ElementExprInjective(parent: string, i: nat, j: nat)
    requires ElementExpr(parent, i) == ElementExpr(parent, j)
    ensures i == j
  {
    var a, b := ElementExpr(parent, i), ElementExpr(parent, j);
    assert NatRepr(i) == a[|parent| + 1..|a| - 1];
    assert NatRepr(j) == b[|parent| + 1..|b| - 1];
    NatReprInjective(i, j);
  }

  /** An element without a converter leaves the collection's text as it was. */
  lemma CollectionSkip(v: Value, parent: string, deep: nat, i: nat)
    requires v.Collection? && i < |v.elements| && !HasConverter(v.elements[i])
    ensures CollectionSource(v, parent, deep, i + 1) == CollectionSource(v, parent, deep, i)
  {
    var r := CollectionSource(v, parent, deep, i);
    if r.Ok? {
      assert r.value + "" == r.value;
    }
  }

  /** An element with a converter adds exactly its own text, written under
      `parent_expr[i]` at the collection's depth, after the earlier elements'. */
  lemma CollectionGrow(v: Value, parent: string, deep: nat, i: nat)
    requires v.Collection? && i < |v.elements| && HasConverter(v.elements[i])
    ensures var e := SourceByType(v.elements[i], ElementExpr(parent, i), deep);
      && (e.Ok? ==> e.value.Some?)
      && CollectionSource(v, parent, deep, i + 1)
         == Then(CollectionSource(v, parent, deep, i), if e.Ok? then Ok(e.value.value) else Err(e.error))
  {
  }

  /** Earlier elements' text comes first: the text of the first m elements
      begins the text of the first n. */
  lemma {:induction false} CollectionPrefix(v: Value, parent: string, deep: nat, m: nat, n: nat)
    requires v.Collection? && m <= n <= |v.elements| && CollectionSource(v, parent, deep, n).Ok?
    ensures CollectionSource(v, parent, deep, m).Ok?
    ensures StartsWith(CollectionSource(v, parent, deep, n).value, CollectionSource(v, parent, deep, m).value)
    decreases n - m
  {
    if m < n {
      CollectionPrefix(v, parent, deep, m, n - 1);
      var a := CollectionSource(v, parent, deep, n - 1).value;
      var b := CollectionSource(v, parent, deep, m).value;
      assert CollectionSource(v, parent, deep, n).value[..|a|] == a;
      assert a[..|b|] == b;
    }
  }

  /** Element i's own text sits in the collection's text right after the
      text of the elements before it. */
  lemma {:induction false} CollectionElementAt(v: Value, parent: string, deep: nat, i: nat, n: nat)
    requires v.Collection? && i < n <= |v.elements| && CollectionSource(v, parent, deep, n).Ok?
    ensures ElementText(v, parent, deep, i).Ok? && CollectionSource(v, parent, deep, i).Ok?
    ensures var t, start := ElementText(v, parent, deep, i).value, |CollectionSource(v, parent, deep, i).value|;
      && start + |t| <= |CollectionSource(v, parent, deep, n).value|
      && CollectionSource(v, parent, deep, n).value[start..start + |t|] == t
  {
    CollectionPrefix(v, parent, deep, i + 1, n);
    CollectionUnfold(v, parent, deep, i);
    ThenPiece(CollectionSource(v, parent, deep, i), ElementText(v, parent, deep, i),
              CollectionSource(v, parent, deep, n).value);
  }

  /** One step of the collection walk: the first i + 1 elements' text is the
      first i elements' text followed by element i's. */
  lemma CollectionUnfold(v: Value, parent: string, deep: nat, i: nat)
    requires v.Collection? && i < |v.elements|
    ensures CollectionSource(v, parent, deep, i + 1)
         == Then(CollectionSource(v, parent, deep, i), ElementText(v, parent, deep, i))
  {
  }

  /** A text that starts with the joined text of `a` and `b` holds `b`'s text
      right after `a`'s. */
  lemma ThenPiece(a: Outcome, b: Outcome, full: string)
    requires Then(a, b).Ok? && StartsWith(full, Then(a, b).value)
    ensures a.Ok? && b.Ok?
    ensures |a.value| + |b.value| <= |full| && full[|a.value|..|a.value| + |b.value|] == b.value
  {
    assert full[|a.value|..|a.value| + |b.value|] == (a.value + b.value)[|a.value|..];
  }

  /** A collection none of whose elements has a converter emits nothing. */
  lemma {:induction false} CollectionSkipsNone(v: Value, parent: string, deep: nat, n: nat)
    requires v.Collection? && n <= |v.elements|
    requires forall i :: 0 <= i < n ==> !HasConverter(v.elements[i])
    ensures CollectionSource(v, parent, deep, n) == Ok("")
    decreases n
  {
    if n > 0 {
      CollectionSkipsNone(v, parent, deep, n - 1);
      CollectionSkip(v, parent, deep, n - 1);
    }
  }

  lemma {:induction false} DigitRunExact(s: string, j: nat, n: nat)
    requires j + n < |s| && AllDigits(s[j..j + n]) && !IsDigit(s[j + n])
    ensures DigitRun(s, j) == n
    decreases n
  {
    if n > 0 {
      assert s[j + 1..j + 1 + (n - 1)] == s[j..j + n][1..];
      assert IsDigit(s[j..j + n][0]);
      DigitRunExact(s, j + 1, n - 1);
    }
  }

  lemma {:induction false} DigitRunStartExact(s: string, k: nat, j: nat)
    requires 1 <= k <= j <= |s| && AllDigits(s[k..j]) && !IsDigit(s[k - 1])
    ensures DigitRunStart(s, j) == k
    decreases j - k
  {
    if k < j {
      assert s[k..j - 1] == s[k..j][..j - 1 - k];
      assert IsDigit(s[k..j][j - 1 - k]);
      DigitRunStartExact(s, k, j - 1);
    }
  }

  /** A `[digits]` at position i is the match `re.search` reads there. */
  lemma BracketIndexAtOf(s: string, i: nat, d: string)
    requires d != [] && AllDigits(d) && i + |d| + 2 <= |s| && s[i..i + |d| + 2] == "[" + d + "]"
    ensures BracketIndexAt(s, i) == Some(d)
  {
    var m := s[i..i + |d| + 2];
    assert s[i] == m[0] == '[';
    forall k | 0 <= k < |d| ensures s[i + 1..i + 1 + |d|][k] == d[k] {
      assert s[i + 1 + k] == m[k + 1] == d[k];
    }
    assert s[i + 1..i + 1 + |d|] == d;
    assert s[i + 1 + |d|] == m[|d| + 1] == ']';
    DigitRunExact(s, i + 1, |d|);
  }

  /** The scan finds the leftmost `[digits]` match, and finds nothing exactly
      when no position holds a match. */
  lemma {:induction false} FirstBracketLeftmost(s: string, from: nat)
    requires from <= |s|
    ensures FirstBracketIndex(s, from).None? <==> NoBracketIndex(s, from, |s|)
    ensures FirstBracketIndex(s, from).Some? ==>
      exists i :: from <= i < |s| && NoBracketIndex(s, from, i) && BracketIndexAt(s, i) == FirstBracketIndex(s, from)
    decreases |s| - from
  {
    if from < |s| {
      var r := FirstBracketIndex(s, from);
      if BracketIndexAt(s, from).Some? {
        assert NoBracketIndex(s, from, from) && BracketIndexAt(s, from) == r;
      } else {
        assert r == FirstBracketIndex(s, from + 1);
        FirstBracketLeftmost(s, from + 1);
        if r.Some? {
          var i :| from + 1 <= i < |s| && NoBracketIndex(s, from + 1, i) && BracketIndexAt(s, i) == r;
          assert NoBracketIndex(s, from, i);
        } else {
          assert NoBracketIndex(s, from, |s|);
        }
      }
    }
  }

  /** A match that starts inside `base` and is followed by a `[` is the same
      match in `base` alone. */
  lemma MatchInBase(base: string, tail: string, j: nat)
    requires tail != [] && tail[0] == '[' && j < |base|
    ensures BracketIndexAt(base + tail, j) == BracketIndexAt(base, j)
  {
    var s := base + tail;
    if BracketIndexAt(s, j).Some? {
      var d := BracketIndexAt(s, j).value;
      MatchEndsInBase(base, tail, j, d);
      assert s[j..j + |d| + 2] == base[j..j + |d| + 2];
      BracketIndexAtOf(base, j, d);
    } else if BracketIndexAt(base, j).Some? {
      var d := BracketIndexAt(base, j).value;
      assert base[j..j + |d| + 2] == s[j..j + |d| + 2];
      BracketIndexAtOf(s, j, d);
      assert false;
    }
  }

  /** The `[` after `base` can be neither a digit nor the closing bracket, so
      a match starting inside `base` ends inside it. */
  lemma MatchEndsInBase(base: string, tail: string, j: nat, d: string)
    requires tail != [] && tail[0] == '[' && j < |base|
    requires AllDigits(d) && j + |d| + 2 <= |base + tail| && (base + tail)[j..j + |d| + 2] == "[" + d + "]"
    ensures j + |d| + 2 <= |base|
  {
    var s := base + tail;
    var m := s[j..j + |d| + 2];
    forall k | j < k <= j + 1 + |d| ensures s[k] != '[' {
      assert s[k] == m[k - j];
      if k < j + 1 + |d| {
        assert m[k - j] == d[k - j - 1];
      }
    }
    assert s[|base|] == '[';
  }

  /** The slot-file converter reads the first `[digits]` of its path: the
      index of `base[i]...` when `base` holds no `[digits]` of its own, even if
      it holds other subscripts such as `['File Output']`. */
  lemma SlotIndexFirst(base: string, i: nat, rest: string)
    requires NoBracketIndex(base, 0, |base|)
    ensures FirstBracketIndex(base + "[" + NatRepr(i) + "]" + rest, 0) == Some(NatRepr(i))
  {
    FirstDigitsInBrackets(base, NatRepr(i), rest);
  }

  lemma FirstDigitsInBrackets(base: string, idx: string, rest: string)
    requires NoBracketIndex(base, 0, |base|) && idx != [] && AllDigits(idx)
    ensures FirstBracketIndex(base + "[" + idx + "]" + rest, 0) == Some(idx)
  {
    var tail := "[" + idx + "]" + rest;
    var s := base + tail;
    assert s == base + "[" + idx + "]" + rest;
    var b := |base|;
    forall j | 0 <= j < b ensures BracketIndexAt(s, j).None? {
      MatchInBase(base, tail, j);
    }
    assert s[b..b + |idx| + 2] == "[" + idx + "]";
    BracketIndexAtOf(s, b, idx);
    FirstBracketSkip(s, 0, b);
  }

  /** Positions that hold no match are passed over by the scan. */
  lemma {:induction false} FirstBracketSkip(s: string, from: nat, k: nat)
    requires from <= k <= |s| && NoBracketIndex(s, from, k)
    ensures FirstBracketIndex(s, from) == FirstBracketIndex(s, k)
    decreases k - from
  {
    if from < k {
      FirstBracketSkip(s, from + 1, k);
    }
  }

  /** For a slot addressed `base[i]`, the converter creates a new slot exactly
      when i > 0, on the collection expression `base`. */
  lemma SlotNewIffPositive(base: string, i: nat, deep: nat)
    requires NoBracketIndex(base, 0, |base|)
    ensures SlotFileHeader(ElementExpr(base, i), deep)
      == Ok(if i > 0 then Stmt(deep, base + ".new('NodeOutputFileSlotFile')") else "")
  {
    var p := ElementExpr(base, i);
    SlotIndexFirst(base, i, "");
    assert p == base + "[" + NatRepr(i) + "]" + "";
    ParseNatRepr(i);
    assert DropLast(p, |NatRepr(i)| + 2) == base;
  }

  /** A slot path with no `[digits]` anywhere makes the converter raise. */
  lemma SlotNoIndexRaises(p: string, deep: nat)
    requires NoBracketIndex(p, 0, |p|)
    ensures SlotFileHeader(p, deep) == Err(NoSlotIndex(p))
  {
    FirstBracketLeftmost(p, 0);
  }

  /** Splitting an element path at its final `[digits]` gives back the
      collection expression and the index. */
  lemma ElementPathOf(base: string, i: nat)
    ensures ElementPath(ElementExpr(base, i)) == Some((base, NatRepr(i)))
  {
    var idx := NatRepr(i);
    var p := ElementExpr(base, i);
    var b := |base|;
    assert p[|p| - 1] == ']';
    assert p[b + 1..|p| - 1] == idx;
    assert p[b] == '[';
    DigitRunStartExact(p, b + 1, |p| - 1);
    assert p[..b] == base;
  }

  lemma StrippedElementPath(base: string, i: nat)
    requires base == [] || !IsPyWhitespace(base[0])
    ensures ElementPath(Strip(ElementExpr(base, i))) == Some((base, NatRepr(i)))
  {
    ElementPathOf(base, i);
    PathOfStripped(ElementExpr(base, i), base, NatRepr(i));
  }

  /** Stripping leaves an element path whose collection expression starts
      with a non-blank unchanged. */
  lemma PathOfStripped(p: string, base: string, idx: string)
    requires ElementPath(p) == Some((base, idx))
    requires base == [] || !IsPyWhitespace(base[0])
    ensures ElementPath(Strip(p)) == Some((base, idx))
  {
    assert p == base + "[" + idx + "]";
    assert p[0] == (if base == [] then '[' else base[0]);
    assert p[|p| - 1] == ']';
    assert Strip(p) == p;
  }

  /** The corrected element header recovers the whole index and the
      collection expression of any element path `base[i]`. */
  lemma ElementIndexRecovered(base: string, i: nat, args: string, deep: nat)
    requires base == [] || !IsPyWhitespace(base[0])
    ensures ElementHeader(ElementExpr(base, i), args, deep) == ElementHeaderText(NatRepr(i), base, args, deep)
  {
    StrippedElementPath(base, i);
  }

  /** What lines 335-336 read from a one-digit element path. */
  lemma AsWrittenParts(base: string, i: nat)
    requires i < 10
    ensures SecondToLast(ElementExpr(base, i)) == NatRepr(i)
    ensures DropLast(ElementExpr(base, i), 3) == base
  {
    var p := ElementExpr(base, i);
    assert p[|p| - 2] == NatRepr(i)[0];
    assert p[..|base|] == base;
  }

  lemma AsWrittenOfStripped(p: string, args: string, deep: nat)
    requires p != [] && !IsPyWhitespace(p[0]) && !IsPyWhitespace(p[|p| - 1])
    ensures ElementHeaderAsWritten(p, args, deep) == ElementHeaderText(SecondToLast(p), DropLast(p, 3), args, deep)
  {
    assert Strip(p) == p;
  }

  lemma AsWrittenOfElement(base: string, i: nat, args: string, deep: nat)
    requires base == [] || !IsPyWhitespace(base[0])
    ensures var p := ElementExpr(base, i);
      ElementHeaderAsWritten(p, args, deep) == ElementHeaderText(SecondToLast(p), DropLast(p, 3), args, deep)
  {
    var p := ElementExpr(base, i);
    assert p[0] == (if base == [] then '[' else base[0]);
    assert p[|p| - 1] == ']';
    AsWrittenOfStripped(p, args, deep);
  }

  /** For indices 0 to 9 the header as written is the intended one. */
  lemma AsWrittenAgreesBelowTen(base: string, i: nat, args: string, deep: nat)
    requires i < 10 && (base == [] || !IsPyWhitespace(base[0]))
    ensures ElementHeaderAsWritten(ElementExpr(base, i), args, deep) == ElementHeader(ElementExpr(base, i), args, deep)
  {
    ElementIndexRecovered(base, i, args, deep);
    AsWrittenOfElement(base, i, args, deep);
    AsWrittenParts(base, i);
  }

  /** The index test of an element header holds the index right after `if `,
      followed by a space. */
  lemma HeaderIndexChars(idx: string, base: string, args: string, deep: nat)
    ensures var t := ElementHeaderText(idx, base, args, deep);
      |t| >= 4 * deep + 4 + |idx| && t[4 * deep + 3..4 * deep + 4 + |idx|] == idx + " "
  {
    var text := "if " + idx + " >= len(" + base + "):";
    var u := Indent(deep) + text;
    var t := ElementHeaderText(idx, base, args, deep);
    assert t == u + "\n" + Stmt(deep + 1, base + ".new(" + args + ")");
    assert t[..|u|] == u;
    var rest := " >= len(" + base + "):";
    assert text == "if " + idx + rest;
    IndexSlice(idx, rest);
    assert u[4 * deep + 3..4 * deep + 4 + |idx|] == text[3..4 + |idx|];
  }

  lemma IndexSlice(idx: string, rest: string)
    requires rest != [] && rest[0] == ' '
    ensures ("if " + idx + rest)[3..4 + |idx|] == idx + " "
  {
    var a := "if " + idx;
    assert a[3..] == idx;
    assert (a + rest)[3..4 + |idx|] == a[3..] + rest[..1];
  }

  lemma NatReprTwoDigits(i: nat)
    requires i >= 10
    ensures |NatRepr(i)| >= 2 && IsDigit(NatRepr(i)[1])
  {
    assert NatRepr(i) == NatRepr(i / 10) + [DigitChar(i % 10)];
  }

  /** Headers whose index texts differ in length at the second character
      differ. */
  lemma HeadersDiffer(one: string, b1: string, idx: string, b2: string, args: string, deep: nat)
    requires |one| == 1 && |idx| >= 2 && IsDigit(idx[1])
    ensures ElementHeaderText(one, b1, args, deep) != ElementHeaderText(idx, b2, args, deep)
  {
    var written := ElementHeaderText(one, b1, args, deep);
    var intended := ElementHeaderText(idx, b2, args, deep);
    var k := 4 * deep + 3;
    HeaderIndexChars(one, b1, args, deep);
    HeaderIndexChars(idx, b2, args, deep);
    assert written[k + 1] == written[k..k + 2][1] == ' ';
    assert intended[k + 1] == intended[k..k + 1 + |idx|][1] == idx[1];
  }

  /** From index 10 on the header as written differs from the intended one:
      it tests only the last digit of the index, the character before the
      closing bracket. */
  lemma AsWrittenWrongFromTen(base: string, i: nat, args: string, deep: nat)
    requires i >= 10 && (base == [] || !IsPyWhitespace(base[0]))
    ensures ElementHeaderAsWritten(ElementExpr(base, i), args, deep) != ElementHeader(ElementExpr(base, i), args, deep)
  {
    var p := ElementExpr(base, i);
    ElementIndexRecovered(base, i, args, deep);
    AsWrittenOfElement(base, i, args, deep);
    NatReprTwoDigits(i);
    HeadersDiffer(SecondToLast(p), DropLast(p, 3), NatRepr(i), base, args, deep);
  }

  /** Empty, or ending in a newline: a text whose last line is closed. */
  predicate Closed(s: string) {
    s == [] || s[|s| - 1] == '\n'
  }

  /** Each walker fragment closes its last line, so the walk does too. */
  lemma {:induction false} EmitClosed(v: Value, sel: seq<Attr>, parent: string, deep: nat)
    requires v.Struct? && forall a :: a in sel ==> a in v.attrs
    ensures var r := EmitAttributes(v, sel, parent, deep); r.Ok? ==> Closed(r.value)
    decreases |sel|
  {
    if sel != [] {
      var init := sel[..|sel| - 1];
      EmitClosed(v, init, parent, deep);
      var a := EmitAttributes(v, init, parent, deep);
      var f := AttributeFragment(sel[|sel| - 1], parent, deep);
      if a.Ok? && f.Ok? {
        if f.value == "" {
          assert a.value + f.value == a.value;
        } else {
          assert (a.value + f.value)[|a.value + f.value| - 1] == f.value[|f.value| - 1];
        }
      }
    }
  }

  lemma ComplexClosed(v: Value, excluded: seq<string>, pre: seq<string>, complex: Option<seq<string>>,
                      parent: string, deep: nat)
    requires v.Struct?
    ensures var r := ComplexTypeSource(v, excluded, pre, complex, parent, deep); r.Ok? ==> Closed(r.value)
  {
    var w := WalkedAttributes(v.attrs, excluded, pre, complex);
    if w.Ok? {
      EmitClosed(v, w.value, parent, deep);
    }
  }

  /** `BLImageTexture`: the three lines that find or create the texture at
      `deep`, the walk of the texture one level deeper under `image_texture`,
      and last `parent_expr = image_texture` back at `deep`. */
  lemma TextureLines(v: Value, parent: string, deep: nat)
    requires v.Struct? && v.structClass.Texture? && Registered(v.structClass)
    requires '\n' !in v.structClass.texName && '\n' !in v.structClass.texType && '\n' !in parent
    requires ComplexTypeSource(v, [], ["use_color_ramp"], Some(["color_ramp"]), "image_texture", deep + 1).Ok?
    ensures SourceByType(v, parent, deep).Ok? && SourceByType(v, parent, deep).value.Some?
    ensures var name, texType := v.structClass.texName, v.structClass.texType;
      var w := ComplexTypeSource(v, [], ["use_color_ramp"], Some(["color_ramp"]), "image_texture", deep + 1).value;
      Lines(SourceByType(v, parent, deep).value.value)
        == [Indent(deep) + ("image_texture = " + TextureLibrary + ".get('" + name + "')"),
            Indent(deep) + "if not image_texture:",
            Indent(deep + 1) + ("image_texture = " + TextureLibrary + ".new(name='" + name + "', type='" + texType + "')")]
           + Lines(w)[..|Lines(w)| - 1]
           + [Indent(deep) + (parent + " = image_texture"), ""]
  {
    var name, texType := v.structClass.texName, v.structClass.texType;
    var w := ComplexTypeSource(v, [], ["use_color_ramp"], Some(["color_ramp"]), "image_texture", deep + 1).value;
    assert SourceByType(v, parent, deep)
        == Ok(Some(TextureHeader(name, texType, deep) + w + Stmt(deep, parent + " = image_texture")));
    ComplexClosed(v, [], ["use_color_ramp"], Some(["color_ramp"]), "image_texture", deep + 1);
    TextureTextLines(name, texType, parent, w, deep);
  }

  lemma TextureTextLines(name: string, texType: string, parent: string, w: string, deep: nat)
    requires '\n' !in name && '\n' !in texType && '\n' !in parent && Closed(w)
    ensures Lines(TextureHeader(name, texType, deep) + w + Stmt(deep, parent + " = image_texture"))
         == [Indent(deep) + ("image_texture = " + TextureLibrary + ".get('" + name + "')"),
             Indent(deep) + "if not image_texture:",
             Indent(deep + 1) + ("image_texture = " + TextureLibrary + ".new(name='" + name + "', type='" + texType + "')")]
            + Lines(w)[..|Lines(w)| - 1]
            + [Indent(deep) + (parent + " = image_texture"), ""]
  {
    TextureTextsSingleLine(name, texType);
    assert '\n' !in parent + " = image_texture";
    WrappedLines("image_texture = " + TextureLibrary + ".get('" + name + "')", "if not image_texture:",
                 "image_texture = " + TextureLibrary + ".new(name='" + name + "', type='" + texType + "')",
                 w, parent + " = image_texture", deep);
  }

  /** Three header statements, a closed block and a trailer statement. */
  lemma WrappedLines(a: string, b: string, c: string, w: string, t: string, deep: nat)
    requires '\n' !in a && '\n' !in b && '\n' !in c && '\n' !in t && Closed(w)
    ensures Lines(Stmt(deep, a) + Stmt(deep, b) + Stmt(deep + 1, c) + w + Stmt(deep, t))
         == [Indent(deep) + a, Indent(deep) + b, Indent(deep + 1) + c]
            + Lines(w)[..|Lines(w)| - 1] + [Indent(deep) + t, ""]
  {
    var last := Stmt(deep, t);
    assert Stmt(deep, a) + Stmt(deep, b) + Stmt(deep + 1, c) + w + last
        == Stmt(deep, a) + (Stmt(deep, b) + (Stmt(deep + 1, c) + (w + last)));
    ThreeStmtLines(deep, a, deep, b, deep + 1, c, w + last);
    LinesAfterTerminated(w, last);
    assert last == last + "";
    StmtLines(deep, t, "");
  }

  /** `BLCurveProfile`: the `for` line that adds the missing points at `deep`,
      the `points.add` line one level deeper, then the walk of the profile,
      which writes each point's text. */
  lemma ProfileLines(v: Value, parent: string, deep: nat)
    requires v.Struct? && v.structClass.CurveProfile? && '\n' !in parent
    requires Walk(v, Some(["points"]), parent, deep).Ok?
    ensures SourceByType(v, parent, deep).Ok? && SourceByType(v, parent, deep).value.Some?
    ensures var w := Walk(v, Some(["points"]), parent, deep).value;
      Lines(SourceByType(v, parent, deep).value.value)
        == [Indent(deep) + ("for i in range(" + IntRepr(v.structClass.pointCount - 2) + "):"),
            Indent(deep + 1) + (parent + ".points.add(x=0.0, y=0.0)")]
           + Lines(w)
  {
    var n := v.structClass.pointCount;
    var w := Walk(v, Some(["points"]), parent, deep).value;
    assert SourceByType(v, parent, deep) == Ok(Some(ProfileHeader(n, parent, deep) + w));
    ProfileTextLines(n, parent, w, deep);
  }

  lemma ProfileTextLines(n: nat, parent: string, w: string, deep: nat)
    requires '\n' !in parent
    ensures Lines(ProfileHeader(n, parent, deep) + w)
         == [Indent(deep) + ("for i in range(" + IntRepr(n as int - 2) + "):"),
             Indent(deep + 1) + (parent + ".points.add(x=0.0, y=0.0)")]
            + Lines(w)
  {
    var header := "for i in range(" + IntRepr(n as int - 2) + "):";
    var add := parent + ".points.add(x=0.0, y=0.0)";
    assert ProfileHeader(n, parent, deep) + w == Stmt(deep, header) + (Stmt(deep + 1, add) + w);
    IntReprShape(n as int - 2);
    assert '\n' !in header;
    assert '\n' !in add;
    StmtLines(deep + 1, add, w);
    StmtLines(deep, header, Stmt(deep + 1, add) + w);
  }

  // ---------------------------------------------------------------------
  // Indentation of everything the converters emit
  // ---------------------------------------------------------------------

  predicate OkIndented(r: Outcome, deep: nat) {
    r.Ok? ==> IndentedAtLeast(r.value, deep)
  }

  lemma ThenIndented(a: Outcome, b: Outcome, deep: nat)
    requires OkIndented(a, deep) && OkIndented(b, deep)
    ensures OkIndented(Then(a, b), deep)
  {
    if a.Ok? && b.Ok? {
      IndentedConcat(a.value, b.value, deep);
    }
  }

  /** A head followed by the rest of a one-line statement. */
  lemma HeadIndented(parent: string, deep: nat, rest: string)
    requires '\n' !in parent && '\n' !in rest
    ensures IndentedAtLeast(Head(parent, deep) + rest, deep)
  {
    var head := Head(parent, deep);
    HeadShape(parent, deep);
    StartsWithAppend(head, rest, Indent(deep));
    IndentedLine(head + rest, deep, deep, false);
  }

  lemma TwoStmtsIndented(k0: nat, t0: string, k1: nat, t1: string, deep: nat)
    requires k0 >= deep && k1 >= deep && '\n' !in t0 && '\n' !in t1
    ensures IndentedAtLeast(Stmt(k0, t0) + Stmt(k1, t1), deep)
  {
    StmtIndented(k0, t0, deep);
    StmtIndented(k1, t1, deep);
    IndentedConcat(Stmt(k0, t0), Stmt(k1, t1), deep);
  }

  lemma ElementHeaderTextIndented(idx: string, base: string, args: string, deep: nat)
    requires '\n' !in idx && '\n' !in base && '\n' !in args
    ensures IndentedAtLeast(ElementHeaderText(idx, base, args, deep), deep)
  {
    TwoStmtsIndented(deep, "if " + idx + " >= len(" + base + "):", deep + 1, base + ".new(" + args + ")", deep);
  }

  lemma ElementHeaderIndented(parent: string, args: string, deep: nat)
    requires '\n' !in parent && '\n' !in args
    ensures IndentedAtLeast(ElementHeader(parent, args, deep), deep)
  {
    var p := Strip(parent);
    assert '\n' !in p;
    match ElementPath(p) {
      case Some((base, idx)) =>
        assert p == base + "[" + idx + "]";
        assert '\n' !in base && '\n' !in idx;
        ElementHeaderTextIndented(idx, base, args, deep);
      case None =>
        assert '\n' !in SecondToLast(p);
        assert '\n' !in DropLast(p, 3);
        ElementHeaderTextIndented(SecondToLast(p), DropLast(p, 3), args, deep);
    }
  }

  lemma EntityIndented(c: EntityClass, name: string, parent: string, deep: nat)
    requires '\n' !in name && '\n' !in parent
    ensures var r := SourceByType(Entity(c, name), parent, deep);
      r.Ok? && r.value.Some? && IndentedAtLeast(r.value.value, deep)
  {
    var l3 := Head(parent, deep) + LookupExpr(c, name, deep);
    LookupExprShape(c, name, deep);
    HeadIndented(parent, deep, LookupExpr(c, name, deep));
    if c == Image || c == CacheFile {
      LoadSource(c, name, parent, deep);
      LoadTextsSingleLine(c, name);
      var s0 := Stmt(deep, "if '" + name + "' not in bpy.data." + Library(c) + ":");
      var s1 := Stmt(deep + 1, "if os.path.exists(" + ExternalItem(name) + "):");
      var s2 := Stmt(deep + 2, Loader(c) + "(" + ExternalItem(name) + ")");
      StmtIndented(deep, "if '" + name + "' not in bpy.data." + Library(c) + ":", deep);
      StmtIndented(deep + 1, "if os.path.exists(" + ExternalItem(name) + "):", deep);
      StmtIndented(deep + 2, Loader(c) + "(" + ExternalItem(name) + ")", deep);
      IndentedConcat(s2, l3, deep);
      IndentedConcat(s1, s2 + l3, deep);
      IndentedConcat(s0, s1 + (s2 + l3), deep);
    } else {
      LookupSource(c, name, parent, deep);
    }
  }

  lemma TextureHeaderIndented(name: string, texType: string, deep: nat)
    requires '\n' !in name && '\n' !in texType
    ensures IndentedAtLeast(TextureHeader(name, texType, deep), deep)
  {
    var t0 := "image_texture = " + TextureLibrary + ".get('" + name + "')";
    var t1 := "if not image_texture:";
    var t2 := "image_texture = " + TextureLibrary + ".new(name='" + name + "', type='" + texType + "')";
    TextureTextsSingleLine(name, texType);
    ThreeStmtsIndented(deep, t0, deep, t1, deep + 1, t2, deep);
  }

  lemma TextureTextsSingleLine(name: string, texType: string)
    requires '\n' !in name && '\n' !in texType
    ensures '\n' !in "image_texture = " + TextureLibrary + ".get('" + name + "')"
    ensures '\n' !in "if not image_texture:"
    ensures '\n' !in "image_texture = " + TextureLibrary + ".new(name='" + name + "', type='" + texType + "')"
  {
    assert '\n' !in TextureLibrary;
  }

  lemma ThreeStmtsIndented(k0: nat, t0: string, k1: nat, t1: string, k2: nat, t2: string, deep: nat)
    requires k0 >= deep && k1 >= deep && k2 >= deep && '\n' !in t0 && '\n' !in t1 && '\n' !in t2
    ensures IndentedAtLeast(Stmt(k0, t0) + Stmt(k1, t1) + Stmt(k2, t2), deep)
  {
    TwoStmtsIndented(k0, t0, k1, t1, deep);
    StmtIndented(k2, t2, deep);
    IndentedConcat(Stmt(k0, t0) + Stmt(k1, t1), Stmt(k2, t2), deep);
  }

  lemma SlotFileHeaderIndented(parent: string, deep: nat)
    requires '\n' !in parent
    ensures OkIndented(SlotFileHeader(parent, deep), deep)
  {
    match FirstBracketIndex(parent, 0) {
      case None =>
      case Some(idx) =>
        var reduced := DropLast(parent, |idx| + 2);
        assert '\n' !in reduced;
        StmtIndented(deep, reduced + ".new('NodeOutputFileSlotFile')", deep);
        IndentedEmpty(deep);
    }
  }

  lemma ProfileHeaderIndented(n: nat, parent: string, deep: nat)
    requires '\n' !in parent
    ensures IndentedAtLeast(ProfileHeader(n, parent, deep), deep)
  {
    var count := IntRepr(n - 2);
    IntReprShape(n as int - 2);
    assert '\n' !in "for i in range(" + count + "):";
    assert '\n' !in parent + ".points.add(x=0.0, y=0.0)";
    TwoStmtsIndented(deep, "for i in range(" + count + "):", deep + 1, parent + ".points.add(x=0.0, y=0.0)", deep);
  }

  lemma ScalarIndented(v: Value, parent: string, deep: nat)
    requires v.Num? || v.PySet? || v.Str? || v.Tuple?
    requires SingleLineText(v) && '\n' !in parent
    ensures var r := SourceByType(v, parent, deep);
      r.Ok? && r.value.Some? && IndentedAtLeast(r.value.value, deep)
  {
    var lit := ScalarLiteral(v);
    assert SourceByType(v, parent, deep) == Ok(Some(Head(parent, deep) + lit));
    HeadIndented(parent, deep, lit);
  }

  lemma MatrixIndented(rows: seq<seq<Number>>, parent: string, deep: nat)
    requires WellFormedRows(rows) && '\n' !in parent
    ensures IndentedAtLeast(MatrixSource(rows, parent, deep), deep)
  {
    var rest := parent + " = " + MatrixLiteral(rows);
    MatrixLiteralShape(rows);
    assert '\n' !in rest;
    assert MatrixSource(rows, parent, deep) == Indent(deep) + rest;
    StartsWithAppend(Indent(deep), rest, Indent(deep));
    IndentSingleLine(deep);
    IndentedLine(Indent(deep) + rest, deep, deep, false);
  }

  /** Every line the dispatcher emits for a value is empty or indented by at
      least `deep` units: nested attributes go deeper, never shallower. */
  lemma {:induction false} SourceIndented(v: Value, parent: string, deep: nat)
    requires SingleLineText(v) && '\n' !in parent
    ensures var r := SourceByType(v, parent, deep);
      r.Ok? && r.value.Some? ==> IndentedAtLeast(r.value.value, deep)
    decreases v, 3, 0
  {
    match v {
      case Num(_) => ScalarIndented(v, parent, deep);
      case PySet(_) => ScalarIndented(v, parent, deep);
      case Str(_) => ScalarIndented(v, parent, deep);
      case Tuple(_, _) => ScalarIndented(v, parent, deep);
      case Matrix(rows) =>
        assert SourceByType(Matrix(rows), parent, deep) == Ok(Some(MatrixSource(rows, parent, deep)));
        MatrixIndented(rows, parent, deep);
      case Entity(c, name) => EntityIndented(c, name, parent, deep);
      case Collection(_) => CollectionIndented(v, parent, deep, |v.elements|);
      case Struct(c, _) =>
        if Registered(c) {
          StructIndented(v, parent, deep);
        }
      case NoneValue =>
    }
  }

  lemma {:induction false} StructIndented(v: Value, parent: string, deep: nat)
    requires v.Struct? && Registered(v.structClass)
    requires SingleLineText(v) && '\n' !in parent
    ensures OkIndented(StructSource(v, parent, deep), deep)
    decreases v, 2, 1
  {
    match v.structClass {
      case Texture(_, _, _) => TextureIndented(v, parent, deep);
      case ImageFormatSettings => ComplexIndented(v, [], ["file_format"], None, parent, deep);
      case NodeOutputFileSlotFile => SlotFileIndented(v, parent, deep);
      case NodeOutputFileSlotLayer => ComplexIndented(v, [], [], None, parent, deep);
      case CurveMapping => ComplexIndented(v, [], [], Some(["curves"]), parent, deep);
      case CurveMap => ComplexIndented(v, [], [], Some(["points"]), parent, deep);
      case CurveMapPoint(_, _) => ElementStructIndented(v, parent, deep);
      case CurveProfile(_) => ProfileIndented(v, parent, deep);
      case CurveProfilePoint => ComplexIndented(v, [], [], None, parent, deep);
      case ColorRamp => ComplexIndented(v, [], [], Some(["elements"]), parent, deep);
      case ColorRampElement(_) => ElementStructIndented(v, parent, deep);
      case NodeSocket(_) => ComplexIndented(v, [], [], None, parent, deep);
    }
  }

  lemma {:induction false} TextureIndented(v: Value, parent: string, deep: nat)
    requires v.Struct? && v.structClass.Texture? && Registered(v.structClass)
    requires SingleLineText(v) && '\n' !in parent
    ensures OkIndented(StructSource(v, parent, deep), deep)
    decreases v, 2, 0
  {
    TextureWalkIndented(v, deep + 1);
    TextureAroundWalk(v, parent, deep);
  }

  /** Given an indented walk, the texture's header and trailer keep the whole text indented. */
  lemma TextureAroundWalk(v: Value, parent: string, deep: nat)
    requires v.Struct? && v.structClass.Texture? && Registered(v.structClass) && '\n' !in parent
    requires '\n' !in v.structClass.texName && '\n' !in v.structClass.texType
    requires OkIndented(ComplexTypeSource(v, [], ["use_color_ramp"], Some(["color_ramp"]), "image_texture", deep + 1), deep + 1)
    ensures OkIndented(StructSource(v, parent, deep), deep)
  {
    var name, texType := v.structClass.texName, v.structClass.texType;
    var header := TextureHeader(name, texType, deep);
    var walk := ComplexTypeSource(v, [], ["use_color_ramp"], Some(["color_ramp"]), "image_texture", deep + 1);
    var last := Stmt(deep, parent + " = image_texture");
    assert StructSource(v, parent, deep) == Then(Then(Ok(header), walk), Ok(last));
    TextureHeaderIndented(name, texType, deep);
    StmtIndented(deep, parent + " = image_texture", deep);
    WrappedIndented(header, walk, last, deep);
  }

  lemma {:induction false} TextureWalkIndented(v: Value, deep: nat)
    requires v.Struct? && SingleLineText(v)
    ensures OkIndented(ComplexTypeSource(v, [], ["use_color_ramp"], Some(["color_ramp"]), "image_texture", deep), deep)
    decreases v, 1, 1
  {
    ComplexIndented(v, [], ["use_color_ramp"], Some(["color_ramp"]), "image_texture", deep);
  }

  /** A header, a walk one level deeper and a trailer stay indented at the header's depth. */
  lemma WrappedIndented(header: string, walk: Outcome, trailer: string, deep: nat)
    requires IndentedAtLeast(header, deep) && OkIndented(walk, deep + 1) && IndentedAtLeast(trailer, deep)
    ensures OkIndented(Then(Then(Ok(header), walk), Ok(trailer)), deep)
  {
    if walk.Ok? {
      IndentedWeaken(walk.value, deep + 1, deep);
    }
    ThenIndented(Ok(header), walk, deep);
    ThenIndented(Then(Ok(header), walk), Ok(trailer), deep);
  }

  lemma {:induction false} SlotFileIndented(v: Value, parent: string, deep: nat)
    requires v.Struct? && v.structClass.NodeOutputFileSlotFile?
    requires SingleLineText(v) && '\n' !in parent
    ensures OkIndented(StructSource(v, parent, deep), deep)
    decreases v, 2, 0
  {
    SlotFileHeaderIndented(parent, deep);
    ComplexIndented(v, [], [], Some(["format"]), parent, deep);
    ThenIndented(SlotFileHeader(parent, deep), Walk(v, Some(["format"]), parent, deep), deep);
  }

  lemma {:induction false} ElementStructIndented(v: Value, parent: string, deep: nat)
    requires v.Struct? && (v.structClass.CurveMapPoint? || v.structClass.ColorRampElement?)
    requires SingleLineText(v) && '\n' !in parent
    ensures OkIndented(StructSource(v, parent, deep), deep)
    decreases v, 2, 0
  {
    var args := if v.structClass.CurveMapPoint?
      then NumberRepr(v.structClass.x) + ", " + NumberRepr(v.structClass.y)
      else NumberRepr(v.structClass.position);
    if v.structClass.CurveMapPoint? {
      NumberReprShape(v.structClass.x);
      NumberReprShape(v.structClass.y);
    } else {
      NumberReprShape(v.structClass.position);
    }
    ElementHeaderIndented(parent, args, deep);
    ComplexIndented(v, [], [], None, parent, deep);
    ThenIndented(Ok(ElementHeader(parent, args, deep)), Walk(v, None, parent, deep), deep);
  }

  lemma {:induction false} ProfileIndented(v: Value, parent: string, deep: nat)
    requires v.Struct? && v.structClass.CurveProfile?
    requires SingleLineText(v) && '\n' !in parent
    ensures OkIndented(StructSource(v, parent, deep), deep)
    decreases v, 2, 0
  {
    var n := v.structClass.pointCount;
    ProfileHeaderIndented(n, parent, deep);
    ComplexIndented(v, [], [], Some(["points"]), parent, deep);
    ThenIndented(Ok(ProfileHeader(n, parent, deep)), Walk(v, Some(["points"]), parent, deep), deep);
  }

  lemma {:induction false} ComplexIndented(v: Value, excluded: seq<string>, pre: seq<string>,
                                           complex: Option<seq<string>>, parent: string, deep: nat)
    requires v.Struct? && SingleLineText(v) && '\n' !in parent
    ensures OkIndented(ComplexTypeSource(v, excluded, pre, complex, parent, deep), deep)
    decreases v, 1, 0
  {
    match WalkedAttributes(v.attrs, excluded, pre, complex) {
      case Err(_) =>
      case Ok(sel) =>
        EmitIndented(v, sel, parent, deep);
    }
  }

  lemma {:induction false} EmitIndented(v: Value, sel: seq<Attr>, parent: string, deep: nat)
    requires v.Struct? && (forall a :: a in sel ==> a in v.attrs)
    requires SingleLineText(v) && '\n' !in parent
    ensures OkIndented(EmitAttributes(v, sel, parent, deep), deep)
    decreases v, 0, |sel|
  {
    if sel == [] {
      IndentedEmpty(deep);
    } else {
      var last := sel[|sel| - 1];
      assert last in v.attrs;
      var k :| 0 <= k < |v.attrs| && v.attrs[k] == last;
      EmitIndented(v, sel[..|sel| - 1], parent, deep);
      FragmentIndented(last, parent, deep);
      ThenIndented(EmitAttributes(v, sel[..|sel| - 1], parent, deep), AttributeFragment(last, parent, deep), deep);
    }
  }

  lemma {:induction false} FragmentIndented(a: Attr, parent: string, deep: nat)
    requires SingleLineText(a.value) && '\n' !in a.name && '\n' !in parent
    ensures OkIndented(AttributeFragment(a, parent, deep), deep)
    decreases a.value, 4, 0
  {
    var path := parent + "." + a.name;
    SourceIndented(a.value, path, deep + 1);
    match SourceByType(a.value, path, deep + 1) {
      case Err(_) =>
      case Ok(None) =>
        IndentedEmpty(deep);
      case Ok(Some(t)) =>
        GuardedIndented(parent, a.name, t, deep);
    }
  }

  /** A guard line followed by text one level deeper, closed by a newline. */
  lemma GuardedIndented(parent: string, name: string, t: string, deep: nat)
    requires '\n' !in name && '\n' !in parent && IndentedAtLeast(t, deep + 1)
    ensures IndentedAtLeast(Guard(parent, name, deep) + t + (if EndsWith(t, "\n") then "" else "\n"), deep)
  {
    var guard := Guard(parent, name, deep);
    StmtIndented(deep, "if hasattr(" + parent + ", '" + name + "'):", deep);
    IndentedWeaken(t, deep + 1, deep);
    IndentedEmpty(deep);
    IndentedNewline(deep);
    IndentedConcat(guard, t, deep);
    IndentedConcat(guard + t, if EndsWith(t, "\n") then "" else "\n", deep);
  }

  lemma {:induction false} CollectionIndented(v: Value, parent: string, deep: nat, n: nat)
    requires v.Collection? && n <= |v.elements|
    requires SingleLineText(v) && '\n' !in parent
    ensures OkIndented(CollectionSource(v, parent, deep, n), deep)
    decreases v, 0, n
  {
    if n == 0 {
      IndentedEmpty(deep);
    } else {
      CollectionIndented(v, parent, deep, n - 1);
      var e := v.elements[n - 1];
      var path := ElementExpr(parent, n - 1);
      assert '\n' !in NatRepr(n - 1) by {
        var r := NatRepr(n - 1);
        assert forall k :: 0 <= k < |r| ==> IsDigit(r[k]);
      }
      SourceIndented(e, path, deep);
      IndentedEmpty(deep);
      var item: Outcome := match SourceByType(e, path, deep)
        case Err(err) => Err(err)
        case Ok(None) => Ok("")
        case Ok(Some(t)) => Ok(t);
      ThenIndented(CollectionSource(v, parent, deep, n - 1), item, deep);
    }
  }
}
