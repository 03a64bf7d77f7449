/** The value-to-statement converters: `BlTypesConversion.source_by_type`
    dispatches on the kind of a value and returns the Python statement text
    that assigns it to `parent_expr`, indented `deep` levels, or `None` when
    no converter applies; `source_from_complex_type` walks the attributes of
    a composite and emits one guarded assignment per selected attribute. */
module BlTypesConversion {
  import opened Strings
  import opened Literals
  import opened BlValues

  /** The Python exceptions the converters can raise. */
  datatype ConversionError =
    /** `attr in complex_attributes` while `complex_attributes` is still None. */
    | PreorderedNotInComplex(attribute: string)
    /** `idx_match.group(1)` on a path without `[digits]`. */
    | NoSlotIndex(path: string)

  type Outcome = Result<string, ConversionError>

  /** The front of every one-line converter: the indentation, then
      `parent_expr = ` when there is a target expression. */
  function Head(parent: string, deep: nat): (r: string)
    ensures StartsWith(r, Indent(deep))
    ensures StartsWith(r[4 * deep..], parent + " = ") <==> parent != ""
  {
    Indent(deep) + (if parent != "" then parent + " = " else "")
  }

  function Lift(r: Outcome): Result<Option<string>, ConversionError>
  {
    match r
    case Ok(t) => Ok(Some(t))
    case Err(e) => Err(e)
  }

  // ---------------------------------------------------------------------
  // One-line converters
  // ---------------------------------------------------------------------

  /** `TupleType.to_source`: Vector, Color, bpy_prop_array and Euler. */
  function TupleSource(items: seq<Number>, parent: string, deep: nat): string
  {
    Head(parent, deep) + TupleRepr(items)
  }

  /** The text `BLMatrix.to_source` returns. Unlike the other converters it
      writes ` = ` even when there is no target expression. */
  function MatrixSource(rows: seq<seq<Number>>, parent: string, deep: nat): string
  {
    Indent(deep) + parent + " = " + MatrixLiteral(rows)
  }

  /** The library of `bpy.data` an asset of a guarded-load class lives in. */
  function Library(c: EntityClass): string
    requires c == Image || c == CacheFile
  {
    if c == Image then "images" else "cache_files"
  }

  /** The call that loads a missing asset from the external items directory. */
  function Loader(c: EntityClass): string
    requires c == Image || c == CacheFile
  {
    if c == Image then "bpy.data.images.load" else "bpy.ops.cachefile.open"
  }

  /** The collection a data-block of each class is looked up in. A frame is
      found in the node tree one level up, whose alias is `node_tree<deep - 1>`. */
  function LookupBase(c: EntityClass, deep: nat): string
  {
    match c
    case Scene => DataBlocks + "scenes"
    case Object => DataBlocks + "objects"
    case Image => DataBlocks + "images"
    case CacheFile => DataBlocks + "cache_files"
    case Text => DataBlocks + "texts"
    case ParticleSystem => "bpy.context.active_object" + ".particle_systems"
    case ShaderNodeTree => DataBlocks + "node_groups"
    case CompositorNodeTree => DataBlocks + "node_groups"
    case NodeFrame => "node_tree" + IntRepr(deep - 1) + ".nodes"
  }

  const DataBlocks := "bpy.data."

  /** The lookup-by-name expression of each data-block class. */
  function LookupExpr(c: EntityClass, name: string, deep: nat): string
  {
    LookupBase(c, deep) + ".get('" + name + "')"
  }

  /** Where an external asset of the given name is stored. */
  function ExternalItem(name: string): string
  {
    "os.path.join(external_items_dir, '" + name + "')"
  }

  /** The three lines in front of the lookup of an image or a cache file:
      load it from the external items directory when it is not loaded yet. */
  function LoadGuard(c: EntityClass, name: string, deep: nat): string
    requires c == Image || c == CacheFile
  {
    Stmt(deep, "if '" + name + "' not in bpy.data." + Library(c) + ":")
    + Stmt(deep + 1, "if os.path.exists(" + ExternalItem(name) + "):")
    + Stmt(deep + 2, Loader(c) + "(" + ExternalItem(name) + ")")
  }

  /** The lookup converters, and `BLImage`/`BLCacheFile`. */
  function EntitySource(c: EntityClass, name: string, parent: string, deep: nat): string
  {
    if c == Image || c == CacheFile then LoadGuard(c, name, deep) + Head(parent, deep) + LookupExpr(c, name, deep)
    else Head(parent, deep) + LookupExpr(c, name, deep)
  }

  // ---------------------------------------------------------------------
  // Recreate-in-place headers
  // ---------------------------------------------------------------------

  const TextureLibrary := "bpy.data.textures"

  /** `BLImageTexture`: find the texture by name or create it with its type. */
  function TextureHeader(name: string, texType: string, deep: nat): string
  {
    Stmt(deep, "image_texture = " + TextureLibrary + ".get('" + name + "')")
    + Stmt(deep, "if not image_texture:")
    + Stmt(deep + 1, "image_texture = " + TextureLibrary + ".new(name='" + name + "', type='" + texType + "')")
  }

  /** The length of the run of decimal digits that starts at `j`. */
  function DigitRun(s: string, j: nat): (n: nat)
    requires j <= |s|
    ensures j + n <= |s| && AllDigits(s[j..j + n])
    ensures j + n == |s| || !IsDigit(s[j + n])
    decreases |s| - j
  {
    if j == |s| || !IsDigit(s[j]) then 0
    else
      var n := DigitRun(s, j + 1);
      assert s[j..j + 1 + n] == [s[j]] + s[j + 1..j + 1 + n];
      1 + n
  }

  /** The digits of a `[digits]` match starting at position i, if there is one. */
  function BracketIndexAt(s: string, i: nat): (r: Option<string>)
    requires i < |s|
    ensures r.Some? ==>
      (&& r.value != [] && AllDigits(r.value)
       && i + |r.value| + 2 <= |s| && s[i..i + |r.value| + 2] == "[" + r.value + "]")
  {
    if s[i] != '[' then None
    else
      var n := DigitRun(s, i + 1);
      if n > 0 && i + 1 + n < |s| && s[i + 1 + n] == ']' then Some(s[i + 1..i + 1 + n]) else None
  }

  /** No `[digits]` match starts at a position from `from` up to `to`. */
  predicate NoBracketIndex(s: string, from: nat, to: nat)
    requires from <= to <= |s|
  {
    forall j :: from <= j < to ==> BracketIndexAt(s, j).None?
  }

  /** `re.search('\[(\d+)\]', s).group(1)`: the digits of the leftmost match
      (`ConversionProperties.FirstBracketLeftmost`). */
  function FirstBracketIndex(s: string, from: nat): (r: Option<string>)
    requires from <= |s|
    ensures r.Some? ==> r.value != [] && AllDigits(r.value)
    decreases |s| - from
  {
    if from == |s| then None
    else match BracketIndexAt(s, from)
      case Some(idx) => Some(idx)
      case None => FirstBracketIndex(s, from + 1)
  }

  /** The line `BLNodeOutputFileSlotFile` writes in front of the slot's
      attributes: a new slot is created for every index but the first. A path
      without an index raises before the test. */
  function SlotFileHeader(parent: string, deep: nat): Outcome
  {
    match FirstBracketIndex(parent, 0)
    case None => Err(NoSlotIndex(parent))
    case Some(idx) =>
      var reduced := DropLast(parent, |idx| + 2);
      Ok(if ParseNat(idx) > 0 then Stmt(deep, reduced + ".new('NodeOutputFileSlotFile')") else "")
  }

  /** The two lines that recreate a curve point or a ramp element when the
      target collection is too short: a test of the index against the length
      of the collection, then the `.new(...)` call. */
  function ElementHeaderText(idx: string, base: string, args: string, deep: nat): string
  {
    Stmt(deep, "if " + idx + " >= len(" + base + "):") + Stmt(deep + 1, base + ".new(" + args + ")")
  }

  /** The element header as lines 335-336 and 393-394 compute it: the index is
      the single character before the closing bracket, and the collection is
      the path without its last three characters. */
  function ElementHeaderAsWritten(parent: string, args: string, deep: nat): string
  {
    var p := Strip(parent);
    ElementHeaderText(SecondToLast(p), DropLast(p, 3), args, deep)
  }

  /** Splits `base[digits]` into the collection expression and the index. */
  function ElementPath(p: string): (r: Option<(string, string)>)
    ensures r.Some? ==>
      (r.value.1 != [] && AllDigits(r.value.1) && p == r.value.0 + "[" + r.value.1 + "]")
  {
    if |p| >= 3 && p[|p| - 1] == ']' then
      var k := DigitRunStart(p, |p| - 1);
      if 1 <= k < |p| - 1 && p[k - 1] == '[' then
        Some((p[..k - 1], p[k..|p| - 1]))
      else None
    else None
  }

  /** The start of the run of decimal digits that ends just before j. */
  function DigitRunStart(s: string, j: nat): (k: nat)
    requires j <= |s|
    ensures k <= j && AllDigits(s[k..j])
    ensures k == 0 || !IsDigit(s[k - 1])
    decreases j
  {
    if j == 0 || !IsDigit(s[j - 1]) then j
    else
      var k := DigitRunStart(s, j - 1);
      assert s[k..j] == s[k..j - 1] + [s[j - 1]];
      k
  }

  /** The element header with the whole trailing index: the path is split at
      its final `[digits]`. A path without one is treated as written. */
  function ElementHeader(parent: string, args: string, deep: nat): string
  {
    match ElementPath(Strip(parent))
    case Some((base, idx)) => ElementHeaderText(idx, base, args, deep)
    case None => ElementHeaderAsWritten(parent, args, deep)
  }

  /** `BLCurveProfile`: add points until the profile has as many as the
      original; a new profile starts with two. */
  function ProfileHeader(pointCount: nat, parent: string, deep: nat): string
  {
    Stmt(deep, "for i in range(" + IntRepr(pointCount - 2) + "):")
    + Stmt(deep + 1, parent + ".points.add(x=0.0, y=0.0)")
  }

  // ---------------------------------------------------------------------
  // The attribute walker
  // ---------------------------------------------------------------------

  /** The comprehension at lines 47-53: each preordered name that the value
      has, whose value is present, and that is writable or listed in the
      complex list. Testing a readonly one against a missing complex list
      raises. */
  function PreorderedAttributes(attrs: seq<Attr>, pre: seq<string>, complex: Option<seq<string>>)
    : (r: Result<seq<Attr>, ConversionError>)
    ensures r.Ok? ==> forall a :: a in r.value ==> a in attrs && a.name in pre
    ensures r.Ok? ==> forall name :: name in pre ==>
      (PreorderedKept(attrs, name, complex) <==> exists a :: a in r.value && a.name == name)
    ensures r.Err? <==> exists name :: name in pre && PreorderedRaises(attrs, name, complex)
    decreases |pre|
  {
    if pre == [] then Ok([])
    else
      var name := pre[0];
      var rest := PreorderedAttributes(attrs, pre[1..], complex);
      match GetAttr(attrs, name)
      case None => rest
      case Some(a) =>
        if !Present(a.value) then rest
        else if !a.readonly then Prepend(a, rest)
        else if complex.None? then
          assert pre[0] in pre && PreorderedRaises(attrs, pre[0], complex);
          Err(PreorderedNotInComplex(name))
        else if name in complex.value then Prepend(a, rest)
        else rest
  }

  function Prepend(a: Attr, r: Result<seq<Attr>, ConversionError>): Result<seq<Attr>, ConversionError>
  {
    match r
    case Ok(s) => Ok([a] + s)
    case Err(e) => Err(e)
  }

  /** Whether a preordered name is kept by the comprehension. */
  predicate PreorderedKept(attrs: seq<Attr>, name: string, complex: Option<seq<string>>) {
    match GetAttr(attrs, name)
    case None => false
    case Some(a) => Present(a.value) && (!a.readonly || (complex.Some? && name in complex.value))
  }

  /** Whether a preordered name reaches the `in None` test. */
  predicate PreorderedRaises(attrs: seq<Attr>, name: string, complex: Option<seq<string>>) {
    match GetAttr(attrs, name)
    case None => false
    case Some(a) => Present(a.value) && a.readonly && complex.None?
  }

  /** The selection of lines 56-67 for one entry of `dir(value)`. */
  predicate Selectable(a: Attr, excluded: seq<string>, pre: seq<Attr>, complex: seq<string>) {
    && !StartsWith(a.name, "__")
    && (!StartsWith(a.name, "bl_") || a.name == "bl_idname")
    && a.name !in excluded
    && (forall p :: p in pre ==> p.name != a.name)
    && !a.callable
    && Present(a.value)
    && (!a.readonly || a.name in complex)
  }

  /** The comprehension at lines 56-67, over the `dir()` listing in order. */
  function RemainingAttributes(attrs: seq<Attr>, excluded: seq<string>, pre: seq<Attr>, complex: seq<string>)
    : (r: seq<Attr>)
    ensures forall a :: a in r <==> a in attrs && Selectable(a, excluded, pre, complex)
    decreases |attrs|
  {
    if attrs == [] then []
    else
      var rest := RemainingAttributes(attrs[1..], excluded, pre, complex);
      if Selectable(attrs[0], excluded, pre, complex) then [attrs[0]] + rest else rest
  }

  /** The attributes the walker emits, in order: the kept preordered ones, then
      the selected remaining ones. */
  function WalkedAttributes(attrs: seq<Attr>, excluded: seq<string>, pre: seq<string>, complex: Option<seq<string>>)
    : (r: Result<seq<Attr>, ConversionError>)
    ensures r.Ok? <==> PreorderedAttributes(attrs, pre, complex).Ok?
    ensures r.Ok? ==> forall a :: a in r.value ==> a in attrs
    ensures r.Ok? ==>
      var kept := PreorderedAttributes(attrs, pre, complex).value;
      && |r.value| >= |kept|
      && r.value[..|kept|] == kept
      && forall a :: a in r.value[|kept|..] ==>
           Selectable(a, excluded, kept, if complex.Some? then complex.value else [])
  {
    match PreorderedAttributes(attrs, pre, complex)
    case Err(e) => Err(e)
    case Ok(kept) =>
      Ok(kept + RemainingAttributes(attrs, excluded, kept, if complex.Some? then complex.value else []))
  }

  /** `if hasattr(parent_expr, 'name'):` at the walker's depth. */
  function Guard(parent: string, name: string, deep: nat): string
  {
    Stmt(deep, "if hasattr(" + parent + ", '" + name + "'):")
  }

  /** What one attribute contributes: nothing when its value has no converter,
      otherwise the guard, then the value's statement one level deeper under
      `parent_expr.name`, closed by a newline unless it already ends in one. */
  function AttributeFragment(a: Attr, parent: string, deep: nat): (r: Outcome)
    ensures r == Ok("") <==> !HasConverter(a.value)
    ensures r.Err? <==> SourceByType(a.value, parent + "." + a.name, deep + 1).Err?
    ensures r.Ok? && r.value != "" ==>
      var t := SourceByType(a.value, parent + "." + a.name, deep + 1);
      && t.Ok? && t.value.Some?
      && StartsWith(r.value, Guard(parent, a.name, deep) + t.value.value)
      && |r.value| <= |Guard(parent, a.name, deep) + t.value.value| + 1
      && EndsWith(r.value, "\n")
    decreases a.value, 4, 0
  {
    match SourceByType(a.value, parent + "." + a.name, deep + 1)
    case Err(e) => Err(e)
    case Ok(None) => Ok("")
    case Ok(Some(t)) => Ok(Guard(parent, a.name, deep) + t + (if EndsWith(t, "\n") then "" else "\n"))
  }

  /** The fragments of the given attributes of `v`, concatenated in order. */
  function EmitAttributes(v: Value, sel: seq<Attr>, parent: string, deep: nat): Outcome
    requires v.Struct? && forall a :: a in sel ==> a in v.attrs
    decreases v, 0, |sel|
  {
    if sel == [] then Ok("")
    else
      var last := sel[|sel| - 1];
      assert last in v.attrs;
      Then(EmitAttributes(v, sel[..|sel| - 1], parent, deep), AttributeFragment(last, parent, deep))
  }

  /** `source_from_complex_type`. */
  function ComplexTypeSource(v: Value, excluded: seq<string>, pre: seq<string>, complex: Option<seq<string>>,
                             parent: string, deep: nat): Outcome
    requires v.Struct?
    decreases v, 1, 0
  {
    match WalkedAttributes(v.attrs, excluded, pre, complex)
    case Err(e) => Err(e)
    case Ok(sel) => EmitAttributes(v, sel, parent, deep)
  }

  /** The walker with no excluded and no preordered attributes. */
  function Walk(v: Value, complex: Option<seq<string>>, parent: string, deep: nat): Outcome
    requires v.Struct?
    decreases v, 1, 1
  {
    ComplexTypeSource(v, [], [], complex, parent, deep)
  }

  // ---------------------------------------------------------------------
  // Composite converters and the dispatcher
  // ---------------------------------------------------------------------

  /** The `to_source` of each registered composite class. */
  function StructSource(v: Value, parent: string, deep: nat): Outcome
    requires v.Struct? && Registered(v.structClass)
    decreases v, 2, 0
  {
    match v.structClass
    case Texture(_, name, texType) =>
      Then(Then(Ok(TextureHeader(name, texType, deep)),
                ComplexTypeSource(v, [], ["use_color_ramp"], Some(["color_ramp"]), "image_texture", deep + 1)),
           Ok(Stmt(deep, parent + " = image_texture")))
    case ImageFormatSettings => ComplexTypeSource(v, [], ["file_format"], None, parent, deep)
    case NodeOutputFileSlotFile => Then(SlotFileHeader(parent, deep), Walk(v, Some(["format"]), parent, deep))
    case NodeOutputFileSlotLayer => Walk(v, None, parent, deep)
    case CurveMapping => Walk(v, Some(["curves"]), parent, deep)
    case CurveMap => Walk(v, Some(["points"]), parent, deep)
    case CurveMapPoint(x, y) =>
      Then(Ok(ElementHeader(parent, NumberRepr(x) + ", " + NumberRepr(y), deep)), Walk(v, None, parent, deep))
    case CurveProfile(n) => Then(Ok(ProfileHeader(n, parent, deep)), Walk(v, Some(["points"]), parent, deep))
    case CurveProfilePoint => Walk(v, None, parent, deep)
    case ColorRamp => Walk(v, Some(["elements"]), parent, deep)
    case ColorRampElement(position) =>
      Then(Ok(ElementHeader(parent, NumberRepr(position), deep)), Walk(v, None, parent, deep))
    case NodeSocket(_) => Walk(v, None, parent, deep)
  }

  /** `parent_expr[i]`: how a collection addresses its i-th element. */
  function ElementExpr(parent: string, i: nat): string
  {
    parent + "[" + NatRepr(i) + "]"
  }

  /** `BLbpy_prop_collection.to_source` over the first n elements: each element
      at the same depth under `parent_expr[i]`; elements without a converter
      contribute nothing. */
  function CollectionSource(v: Value, parent: string, deep: nat, n: nat): Outcome
    requires v.Collection? && n <= |v.elements|
    decreases v, 0, n
  {
    if n == 0 then Ok("")
    else Then(CollectionSource(v, parent, deep, n - 1), ElementText(v, parent, deep, n - 1))
  }

  /** What element i adds to the collection's text: its own text at the same
      depth under `parent_expr[i]`, nothing when it has no converter, or its
      exception. */
  function ElementText(v: Value, parent: string, deep: nat, i: nat): Outcome
    requires v.Collection? && i < |v.elements|
    decreases v, 0, 0
  {
    match SourceByType(v.elements[i], ElementExpr(parent, i), deep)
    case Err(e) => Err(e)
    case Ok(None) => Ok("")
    case Ok(Some(t)) => Ok(t)
  }

  /** `source_by_type`: Vector and Color, then numbers, booleans and sets, then
      strings, then a registered `BL<ClassName>` converter; anything else has
      no converter and yields None. */
  function SourceByType(v: Value, parent: string, deep: nat): (r: Result<Option<string>, ConversionError>)
    ensures r == Ok(None) <==> !HasConverter(v)
    decreases v, 3, 0
  {
    match v
    case Tuple(_, items) => Ok(Some(TupleSource(items, parent, deep)))
    case Num(n) => Ok(Some(Head(parent, deep) + NumberRepr(n)))
    case PySet(lit) => Ok(Some(Head(parent, deep) + lit))
    case Str(s) => Ok(Some(Head(parent, deep) + StringLiteral(s)))
    case Matrix(rows) => Ok(Some(MatrixSource(rows, parent, deep)))
    case Entity(c, name) => Ok(Some(EntitySource(c, name, parent, deep)))
    case Collection(_) => Lift(CollectionSource(v, parent, deep, |v.elements|))
    case Struct(c, _) => if Registered(c) then Lift(StructSource(v, parent, deep)) else Ok(None)
    case NoneValue => Ok(None)
  }

  // ---------------------------------------------------------------------
  // The three accumulating loops
  // ---------------------------------------------------------------------

  /** The loop of `BLMatrix.to_source`: the rows' tuples joined by `, `. */
  method MatrixToSource(rows: seq<seq<Number>>, parent: string, deep: nat) returns (line: string)
    ensures line == MatrixSource(rows, parent, deep)
  {
    var source := "";
    for i := 0 to |rows|
      invariant source == JoinCommaAll(RowReprs(rows)[..i])
    {
      assert |TupleRepr(rows[0])| >= 2;
      JoinCommaAllSnoc(RowReprs(rows), i);
      source := source + (if source != "" then ", " else "") + TupleRepr(rows[i]);
    }
    assert RowReprs(rows)[..|rows|] == RowReprs(rows);
    source := "(" + source + ")";
    line := Indent(deep) + parent + " = " + source;
  }

  lemma {:induction false} CollectionErrPersists(v: Value, parent: string, deep: nat, i: nat, n: nat)
    requires v.Collection? && i <= n <= |v.elements|
    requires CollectionSource(v, parent, deep, i).Err?
    ensures CollectionSource(v, parent, deep, n) == CollectionSource(v, parent, deep, i)
    decreases n - i
  {
    if i < n {
      CollectionErrPersists(v, parent, deep, i, n - 1);
    }
  }

  /** One element of the collection loop: its text, if any, is appended. */
  lemma CollectionStep(v: Value, parent: string, deep: nat, i: nat, source: string)
    requires v.Collection? && i < |v.elements|
    requires CollectionSource(v, parent, deep, i) == Ok(source)
    requires SourceByType(v.elements[i], ElementExpr(parent, i), deep).Ok?
    ensures var t := SourceByType(v.elements[i], ElementExpr(parent, i), deep).value;
      CollectionSource(v, parent, deep, i + 1) == Ok(if t.Some? then source + t.value else source)
  {
    assert source + "" == source;
  }

  /** An element that raises ends the collection loop with its exception. */
  lemma CollectionErrEnds(v: Value, parent: string, deep: nat, i: nat)
    requires v.Collection? && i < |v.elements|
    requires CollectionSource(v, parent, deep, i).Ok?
    requires SourceByType(v.elements[i], ElementExpr(parent, i), deep).Err?
    ensures CollectionSource(v, parent, deep, |v.elements|)
         == Err(SourceByType(v.elements[i], ElementExpr(parent, i), deep).error)
  {
    CollectionErrPersists(v, parent, deep, i + 1, |v.elements|);
  }

  /** The loop of `BLbpy_prop_collection.to_source`. */
  method CollectionToSource(v: Value, parent: string, deep: nat) returns (r: Outcome)
    requires v.Collection?
    ensures r == CollectionSource(v, parent, deep, |v.elements|)
  {
    var source := "";
    var i := 0;
    while i < |v.elements|
      invariant i <= |v.elements|
      invariant CollectionSource(v, parent, deep, i) == Ok(source)
    {
      var expr := SourceByType(v.elements[i], ElementExpr(parent, i), deep);
      if expr.Err? {
        CollectionErrEnds(v, parent, deep, i);
        return Err(expr.error);
      }
      CollectionStep(v, parent, deep, i, source);
      if expr.value.Some? {
        source := source + expr.value.value;
      }
      i := i + 1;
    }
    r := Ok(source);
  }

  lemma ThenAssoc(a: Outcome, b: Outcome, c: Outcome)
    ensures Then(Then(a, b), c) == Then(a, Then(b, c))
  {
    if a.Ok? && b.Ok? && c.Ok? {
      assert (a.value + b.value) + c.value == a.value + (b.value + c.value);
    }
  }

  /** Emitting two lists of attributes one after the other is emitting their
      concatenation: the fragments keep their order. */
  lemma {:induction false} EmitAppend(v: Value, s1: seq<Attr>, s2: seq<Attr>, parent: string, deep: nat)
    requires v.Struct? && (forall a :: a in s1 ==> a in v.attrs) && (forall a :: a in s2 ==> a in v.attrs)
    ensures EmitAttributes(v, s1 + s2, parent, deep)
      == Then(EmitAttributes(v, s1, parent, deep), EmitAttributes(v, s2, parent, deep))
    decreases |s2|
  {
    if s2 == [] {
      assert s1 + s2 == s1;
      var e1 := EmitAttributes(v, s1, parent, deep);
      if e1.Ok? {
        assert e1.value + "" == e1.value;
      }
    } else {
      var n := |s2|;
      var last := s2[n - 1];
      assert (s1 + s2)[..|s1 + s2| - 1] == s1 + s2[..n - 1];
      EmitAppend(v, s1, s2[..n - 1], parent, deep);
      ThenAssoc(EmitAttributes(v, s1, parent, deep), EmitAttributes(v, s2[..n - 1], parent, deep),
                AttributeFragment(last, parent, deep));
    }
  }

  lemma EmitStep(v: Value, sel: seq<Attr>, i: nat, parent: string, deep: nat)
    requires v.Struct? && (forall a :: a in sel ==> a in v.attrs) && i < |sel|
    ensures EmitAttributes(v, sel[..i + 1], parent, deep)
      == Then(EmitAttributes(v, sel[..i], parent, deep), AttributeFragment(sel[i], parent, deep))
  {
    assert sel[..i + 1][..i] == sel[..i];
  }

  /** One attribute of the walker loop whose value converts: its guard and
      statement, if any, are appended. */
  lemma EmitNext(v: Value, sel: seq<Attr>, i: nat, parent: string, deep: nat, source: string)
    requires v.Struct? && (forall a :: a in sel ==> a in v.attrs) && i < |sel|
    requires EmitAttributes(v, sel[..i], parent, deep) == Ok(source)
    requires SourceByType(sel[i].value, parent + "." + sel[i].name, deep + 1).Ok?
    ensures var t := SourceByType(sel[i].value, parent + "." + sel[i].name, deep + 1).value;
      EmitAttributes(v, sel[..i + 1], parent, deep)
        == Ok(if t.None? then source
              else source + (Stmt(deep, "if hasattr(" + parent + ", '" + sel[i].name + "'):") + t.value
                             + (if EndsWith(t.value, "\n") then "" else "\n")))
  {
    EmitStep(v, sel, i, parent, deep);
    assert source + "" == source;
  }

  /** An attribute whose fragment raises ends the walk with its exception. */
  lemma EmitErrEnds(v: Value, sel: seq<Attr>, i: nat, parent: string, deep: nat, e: ConversionError)
    requires v.Struct? && (forall a :: a in sel ==> a in v.attrs) && i < |sel|
    requires EmitAttributes(v, sel[..i], parent, deep).Ok?
    requires AttributeFragment(sel[i], parent, deep) == Err(e)
    ensures EmitAttributes(v, sel, parent, deep) == Err(e)
  {
    EmitStep(v, sel, i, parent, deep);
    var head, tail := sel[..i + 1], sel[i + 1..];
    assert EmitAttributes(v, head, parent, deep) == Err(e);
    assert forall a :: a in tail ==> a in v.attrs by {
      forall a | a in tail ensures a in v.attrs { assert a in sel; }
    }
    EmitAppend(v, head, tail, parent, deep);
    assert head + tail == sel;
  }

  /** The loop of `source_from_complex_type` (lines 68-81). */
  method SourceFromComplexType(v: Value, excluded: seq<string>, pre: seq<string>, complex: Option<seq<string>>,
                               parent: string, deep: nat) returns (r: Outcome)
    requires v.Struct?
    ensures r == ComplexTypeSource(v, excluded, pre, complex, parent, deep)
  {
    var walked := WalkedAttributes(v.attrs, excluded, pre, complex);
    if walked.Err? {
      return Err(walked.error);
    }
    var all := walked.value;
    var source := "";
    for i := 0 to |all|
      invariant EmitAttributes(v, all[..i], parent, deep) == Ok(source)
    {
      var attribute := all[i];
      var cond := Stmt(deep, "if hasattr(" + parent + ", '" + attribute.name + "'):");
      var expr := SourceByType(attribute.value, parent + "." + attribute.name, deep + 1);
      if expr.Err? {
        assert AttributeFragment(attribute, parent, deep) == Err(expr.error);
        EmitErrEnds(v, all, i, parent, deep, expr.error);
        return Err(expr.error);
      }
      EmitNext(v, all, i, parent, deep, source);
      if expr.value.Some? {
        var t := expr.value.value;
        source := source + (cond + t + (if EndsWith(t, "\n") then "" else "\n"));
      }
    }
    assert all[..|all|] == all;
    r := Ok(source);
  }
}
