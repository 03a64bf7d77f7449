/** Blender values as the converters see them. A value is tagged by the
    Python type the dispatcher tests for; a composite carries its `dir()`
    listing as attribute descriptors, and the few fields that a
    recreate-in-place converter reads directly (a texture's name and type, a
    curve point's location, a ramp element's position, the length of a
    profile's point list) are carried by its class tag. */
module BlValues {
  import opened Strings
  import opened Literals

  /** The tuple-like classes: mathutils Vector and Color (tested first by
      `isinstance`), bpy_prop_array and Euler (found as BL converters). All
      four render through `TupleType.to_source`. */
  datatype TupleClass = Vector | Color | PropArray | Euler

  /** Data-blocks that are written as a lookup by name. */
  datatype EntityClass =
    | Scene | Object | Image | CacheFile | Text | ParticleSystem
    | ShaderNodeTree | CompositorNodeTree | NodeFrame

  /** Composite classes. `Texture` and `NodeSocket` carry their Python class
      name; the dispatcher finds a converter for them only when that name is
      one of the registered subclasses. `Unregistered` is any other class. */
  datatype StructClass =
    | Texture(texClass: string, texName: string, texType: string)
    | ImageFormatSettings
    | NodeOutputFileSlotFile
    | NodeOutputFileSlotLayer
    | CurveMapping
    | CurveMap
    | CurveMapPoint(x: Number, y: Number)
    | CurveProfile(pointCount: nat)
    | CurveProfilePoint
    | ColorRamp
    | ColorRampElement(position: Number)
    | NodeSocket(socketClass: string)
    | Unregistered(className: string)

  /** One entry of `dir(value)`: its name, what `getattr` returns for it,
      `is_property_readonly` and `callable`. */
  datatype Attr = Attr(name: string, value: Value, readonly: bool, callable: bool)

  datatype Value =
    | Num(n: Number)
    | PySet(lit: string)
    | Str(s: string)
    | Tuple(tupleClass: TupleClass, items: seq<Number>)
    | Matrix(rows: seq<seq<Number>>)
    | Entity(entityClass: EntityClass, name: string)
    | Struct(structClass: StructClass, attrs: seq<Attr>)
    | Collection(elements: seq<Value>)
    | NoneValue

  /** The texture classes that derive from `BLImageTexture`. */
  const TextureClasses: set<string> := {
    "ImageTexture", "BlendTexture", "CloudsTexture", "DistortedNoiseTexture",
    "MagicTexture", "MarbleTexture", "MusgraveTexture", "NoiseTexture",
    "StucciTexture", "VoronoiTexture", "WoodTexture"
  }

  /** The socket classes that derive from `BLNodeSocket`. */
  const SocketClasses: set<string> := {
    "NodeSocket", "NodeSocketBool", "NodeSocketCollection", "NodeSocketColor",
    "NodeSocketFloat", "NodeSocketFloatAngle", "NodeSocketFloatFactor",
    "NodeSocketFloatPercentage", "NodeSocketFloatTime", "NodeSocketFloatUnsigned",
    "NodeSocketGeometry", "NodeSocketImage", "NodeSocketInt", "NodeSocketIntFactor",
    "NodeSocketIntPercentage", "NodeSocketIntUnsigned", "NodeSocketObject",
    "NodeSocketShader", "NodeSocketString", "NodeSocketVector",
    "NodeSocketVectorAcceleration", "NodeSocketVectorDirection",
    "NodeSocketVectorEuler", "NodeSocketVectorTranslation",
    "NodeSocketVectorVelocity", "NodeSocketVectorXYZ", "NodeSocketVirtual"
  }

  /** Whether a `BL<ClassName>` converter exists for a composite class. */
  predicate Registered(c: StructClass) {
    match c
    case Texture(cls, _, _) => cls in TextureClasses
    case NodeSocket(cls) => cls in SocketClasses
    case Unregistered(_) => false
    case _ => true
  }

  /** Whether the dispatcher produces text for a value at all: every tagged
      kind except `None` and a composite without a registered converter. */
  predicate HasConverter(v: Value) {
    match v
    case NoneValue => false
    case Struct(c, _) => Registered(c)
    case _ => true
  }

  /** `getattr(value, name)` over the `dir()` listing: the first entry so named. */
  function GetAttr(attrs: seq<Attr>, name: string): (r: Option<Attr>)
    ensures r.Some? ==> r.value in attrs && r.value.name == name
    ensures r.None? <==> forall a :: a in attrs ==> a.name != name
    decreases |attrs|
  {
    if attrs == [] then None
    else if attrs[0].name == name then Some(attrs[0])
    else GetAttr(attrs[1..], name)
  }

  /** `getattr(value, name) is not None` and not the empty string. */
  predicate Present(v: Value) {
    v != NoneValue && v != Str("")
  }

  /** No text that ends up in the generated script holds a line break: names,
      string payloads, float and set literals. A set's text, like every
      literal, does not start with a space. */
  predicate SingleLineText(v: Value)
    decreases v
  {
    match v
    case Num(n) => WellFormedNumber(n)
    case PySet(lit) => lit != [] && lit[0] != ' ' && '\n' !in lit
    case Str(s) => '\n' !in s
    case Tuple(_, items) => forall i :: 0 <= i < |items| ==> WellFormedNumber(items[i])
    case Matrix(rows) => WellFormedRows(rows)
    case Entity(_, name) => '\n' !in name
    case Struct(c, attrs) =>
      && SingleLineClass(c)
      && forall i :: 0 <= i < |attrs| ==> '\n' !in attrs[i].name && SingleLineText(attrs[i].value)
    case Collection(elements) => forall i :: 0 <= i < |elements| ==> SingleLineText(elements[i])
    case NoneValue => true
  }

  predicate SingleLineClass(c: StructClass) {
    match c
    case Texture(_, name, texType) => '\n' !in name && '\n' !in texType
    case CurveMapPoint(x, y) => WellFormedNumber(x) && WellFormedNumber(y)
    case ColorRampElement(position) => WellFormedNumber(position)
    case _ => true
  }
}
