# Blender node-tree source generator, modelled in Dafny

This project models the core of a generator that turns a Blender node tree
into a Python script that rebuilds the tree when it is run. There are two parts:

- `BlTypesConversion` (`conversion.dfy`) models the value converters.
  `source_by_type` dispatches on the kind of a value. It renders numbers,
  booleans, sets, strings, tuples and matrices as literals. It writes named
  data-blocks (scenes, objects, texts, particle systems, node groups, frames)
  as a lookup by name. Images and cache files get a guarded load before the
  lookup. Collections are written element by element as `parent_expr[i]`.
  Composites go through the attribute walker `source_from_complex_type`,
  sometimes behind a recreate-in-place header (textures, file-output slots,
  curve points, curve profiles, colour-ramp elements).
- `NodeTreeSource` (`node_tree.dfy`) models `NodeTree.to_source`. It writes the
  INPUTS, OUTPUTS, NODES and LINKS sections in that order. It recurses into
  the tree of every `GROUP` node one level deeper, and addresses each link's
  sockets by position. `NodeTree.clear_source` is modelled too.

Supporting modules:

- `Strings` (`strings.dfy`): `Option`/`Result`, the indentation unit,
  `str()` of an integer and its inverse, line splitting, and the Python
  slicing and `strip()` used on expression paths.
- `Literals` (`literals.dfy`): the literal encoder and readers that invert it.
- `BlValues` (`values.dfy`): the value datatype.
- `ConversionProperties` (`conversion_props.dfy`) and `NodeTreeProperties`
  (`node_tree_props.dfy`): the lemmas.
- `Scenarios` (`scenarios.dfy`): worked cases written out as text.

Values are a closed datatype tagged by the Python type the dispatcher tests.
A composite carries its `dir()` listing as attribute descriptors
`(name, value, readonly, callable)`. `getattr` is the first descriptor with
that name. A Python exception becomes an `Err` of a `Result`. The three
accumulating loops of the converters (`BLMatrix`, `BLbpy_prop_collection`,
`source_from_complex_type`) and the loops of `NodeTree.to_source` are methods.
Each is proved equal to a specification function, and the lemmas are stated
about those functions.

Where the code does something other than its names and docstrings suggest, the
model follows the code:

- `BLMatrix` writes ` = ` even when there is no target expression.
- The file-output slot converter creates a slot for every index above 0. It
  does not compare the index with the length of the collection.
- A readonly preordered attribute with no complex list raises `TypeError`.
  Line 52 tests `attr in complex_attributes` before line 55 replaces `None`
  with `[]`. `BLImageFormatSettings` reaches this path.
- In a nested tree the group's tree is looked up as `<parent_expr><deep+1>`
  (line 35) but created as `node_tree<deep+1>` (line 37). These are the same
  variable only when `parent_expr` is `node_tree`
  (`NodeTreeProperties.GroupAliasAgrees`).
- The INPUTS and OUTPUTS sections appear when the tree's own ports are
  non-empty, but their lines list the owner's ports.
- The slot converter reads the leftmost `[digits]` of its path but cuts that
  index's length off the end of the path. A path with an earlier numeric
  subscript, such as `n[3].s[12]`, tests 3 and creates on `n[3].s[`
  (`Scenarios.SlotEarlierSubscript`).
- `translate` escapes only quotes and backslashes. A string holding a line
  break therefore gives a single-quoted literal that Python cannot read
  (`Literals.StringLiteralRoundTrip`).

## Model

| member | source | states |
|---|---|---|
| `Literals.EscapeAppend` | nodetree_source_bl_types_conversion.py:27 | the translation maps each character on its own: escaping `a + b` is escaping `a`, then `b` |
| `Literals.Escape` | nodetree_source_bl_types_conversion.py:27 | escaping never shortens the text, leaves a text with no quote or backslash unchanged, and adds no newline |
| `Literals.EscapeRoundTrip` | nodetree_source_bl_types_conversion.py:27-28 | un-escaping the escaped body gives back the original string; the body has no unescaped quote that could end the literal early and no raw line break exactly when the string has no line break |
| `Literals.StringLiteralRoundTrip` | nodetree_source_bl_types_conversion.py:28 | the quoted literal reads back as the original string exactly when the string has no `\n` or `\r`; with one, the literal is unreadable |
| `Literals.NumberRoundTrip` | nodetree_source_bl_types_conversion.py:25 | `str()` of an int, float or bool reads back as the same number |
| `Literals.TupleRoundTrip` | nodetree_source_bl_types_conversion.py:89 | `str(tuple(value))` reads back as the same items, including the one-item form `(x,)` |
| `Literals.MatrixRoundTrip` | nodetree_source_bl_types_conversion.py:103-108 | the matrix literal, a tuple of row tuples, reads back as the same rows |
| `Strings.IntReprRoundTrip` | nodetree_source_bl_types_conversion.py:130 | `str()` of an integer is a decimal literal that `int()` reads back as the same integer |
| `Strings.Indent` | nodetree_source_bl_types_conversion.py:25 | `'    ' * deep` is exactly `4 * deep` spaces |
| `BlValues.GetAttr` | nodetree_source_bl_types_conversion.py:49-50 | `getattr` finds a descriptor with that name, and returns nothing exactly when no descriptor has that name |
| `BlTypesConversion.Head` | nodetree_source_bl_types_conversion.py:25 | a line starts with `deep` indentation units, followed by `parent_expr = ` exactly when `parent_expr` is non-empty |
| `BlTypesConversion.SourceByType` | nodetree_source_bl_types_conversion.py:18-39 | dispatch returns `None` exactly for `None` and for a composite with no registered `BL<ClassName>` converter |
| `BlTypesConversion.PreorderedAttributes` | nodetree_source_bl_types_conversion.py:47-53 | keeps exactly the preordered names that are present, non-`None`, non-empty, and writable or complex; raises exactly when one of them is readonly and the complex list is `None` |
| `BlTypesConversion.RemainingAttributes` | nodetree_source_bl_types_conversion.py:56-67 | an attribute is selected exactly when it has no `__` prefix, has no `bl_` prefix unless it is `bl_idname`, is neither excluded nor preordered, is not callable, is not `None` or `''`, and is writable or complex |
| `BlTypesConversion.WalkedAttributes` | nodetree_source_bl_types_conversion.py:47-70 | raises exactly when the preordered filter does; otherwise the list starts with the kept preordered names in their given order, and every later attribute is one the remaining filter selects; every walked attribute is one of the value's own |
| `BlTypesConversion.AttributeFragment` | nodetree_source_bl_types_conversion.py:72-80 | an attribute whose value has no converter contributes nothing, guard included; it raises exactly when converting the value under `parent_expr.name` at `deep+1` raises; otherwise its text is the `if hasattr(parent_expr, 'name'):` guard, then that value's text, closed by at most one added newline |
| `BlTypesConversion.FirstBracketIndex` | nodetree_source_bl_types_conversion.py:273 | the `re.search('\[(\d+)\]')` group is a non-empty run of ASCII digits 0-9 |
| `ConversionProperties.FirstBracketLeftmost` | nodetree_source_bl_types_conversion.py:273-274 | the search returns the digits of the leftmost `[digits]` match, and finds nothing exactly when no position of the path holds a match |
| `BlTypesConversion.BracketIndexAt` | nodetree_source_bl_types_conversion.py:273 | a match at position i is `[`, digits, `]` at that position |
| `ConversionProperties.BracketIndexAtOf` | nodetree_source_bl_types_conversion.py:273 | conversely, `[`, a non-empty run of ASCII digits 0-9 and `]` at position i are a match there, with those digits |
| `BlTypesConversion.ElementPath` | nodetree_source_bl_types_conversion.py:335 | a recovered element path splits into a collection expression and its whole trailing index `base[digits]` |
| `BlTypesConversion.MatrixToSource` | nodetree_source_bl_types_conversion.py:103-108 | the row loop writes exactly the matrix line of the specification |
| `BlTypesConversion.CollectionToSource` | nodetree_source_bl_types_conversion.py:124-135 | the element loop writes exactly the concatenated element texts, or raises the first element's exception |
| `BlTypesConversion.SourceFromComplexType` | nodetree_source_bl_types_conversion.py:68-81 | the attribute loop writes exactly the concatenated fragments of the walked attributes, or raises the first exception |
| `BlTypesConversion.EmitAppend` | nodetree_source_bl_types_conversion.py:71-80 | emitting two attribute lists in sequence is emitting their concatenation, so fragments keep their order |
| `ConversionProperties.ScalarLine` | nodetree_source_bl_types_conversion.py:24-28 | for a value whose number and set literals are as `str()` writes them and whose strings and names hold no newline, and a target with no newline and no leading space, a number, set, string or tuple is one line: exactly `4*deep` spaces, then `parent_expr = ` exactly when the target is non-empty, then a literal that reads back as the value, except that a string holding `\r` gives a literal that does not read back |
| `ConversionProperties.MatrixLine` | nodetree_source_bl_types_conversion.py:108 | a matrix is one line that always contains `parent_expr = `, and its literal reads back as the rows |
| `ConversionProperties.LookupLine` | nodetree_source_bl_types_conversion.py:142 | a pure lookup converter (scene, object, text, particle system, node group, frame) emits exactly one line, which ends in `.get('name')` |
| `ConversionProperties.LoadLines` | nodetree_source_bl_types_conversion.py:156-159 | an image or cache file is four lines: the `not in` guard at `deep`, `os.path.exists` at `deep+1`, the load at `deep+2`, and the `get(name)` lookup last at `deep` |
| `ConversionProperties.PreorderedAppend` | nodetree_source_bl_types_conversion.py:47-53 | the preordered filter keeps the preordered list's order: filtering two parts of the list is filtering the whole, and the first name that raises decides the exception |
| `ConversionProperties.RemainingAppend` | nodetree_source_bl_types_conversion.py:56-67 | the attribute filter keeps the `dir()` order: filtering two parts is filtering the whole |
| `ConversionProperties.WalkerOrder` | nodetree_source_bl_types_conversion.py:70-80 | all kept preordered attributes are emitted before any remaining one |
| `ConversionProperties.FormatSettingsRaise` | nodetree_source_bl_types_conversion.py:47-55 | an image-format value whose `file_format` is present and readonly raises instead of producing text |
| `ConversionProperties.ElementExprInjective` | nodetree_source_bl_types_conversion.py:130 | distinct collection positions get distinct `parent_expr[i]` expressions |
| `ConversionProperties.CollectionSkipsNone` | nodetree_source_bl_types_conversion.py:133-134 | elements with no converter contribute nothing |
| `ConversionProperties.CollectionSkip` | nodetree_source_bl_types_conversion.py:133-134 | an element without a converter leaves the text of the elements so far unchanged |
| `ConversionProperties.CollectionElementAt` | nodetree_source_bl_types_conversion.py:126-134 | when the collection's text is produced, element i's own text (converted under `parent_expr[i]` at the collection's depth, empty when it has no converter) was produced too and sits in the collection's text right after the text of the elements before it |
| `ConversionProperties.CollectionPrefix` | nodetree_source_bl_types_conversion.py:126-134 | the text of the first m elements begins the text of the first n, so elements appear in collection order |
| `ConversionProperties.TextureLines` | nodetree_source_bl_types_conversion.py:166-178 | a texture's text is, line by line: the `get` lookup and the `if not image_texture:` guard at `deep`, the `new(name=..., type=...)` creation at `deep+1`, the lines of the walk under `image_texture` at `deep+1`, and last `parent_expr = image_texture` at `deep` |
| `ConversionProperties.ProfileLines` | nodetree_source_bl_types_conversion.py:349-358 | a curve profile's text is the `for i in range(len(points) - 2):` line at `deep`, the `parent_expr.points.add(x=0.0, y=0.0)` line at `deep+1`, and then the lines of the walk of the profile |
| `ConversionProperties.SlotIndexFirst` | nodetree_source_bl_types_conversion.py:273-274 | the slot converter reads the index i of a path `base[i]...` whenever `base` holds no `[digits]` of its own, including bases with string subscripts such as `n['File Output']` |
| `ConversionProperties.SlotNewIffPositive` | nodetree_source_bl_types_conversion.py:273-278 | for a slot `base[i]` whose `base` holds no `[digits]`, `base.new('NodeOutputFileSlotFile')` is written exactly when i > 0 |
| `ConversionProperties.SlotNoIndexRaises` | nodetree_source_bl_types_conversion.py:273-274 | a slot path with no `[digits]` anywhere raises at `group(1)`, before the test on line 277 |
| `ConversionProperties.ElementIndexRecovered` | nodetree_source_bl_types_conversion.py:335-336 | the corrected element header tests the whole index of `base[i]` against `len(base)` |
| `ConversionProperties.AsWrittenAgreesBelowTen` | nodetree_source_bl_types_conversion.py:393-394 | for indices 0 to 9 the header as written equals the corrected one |
| `ConversionProperties.AsWrittenWrongFromTen` | nodetree_source_bl_types_conversion.py:335-336 | from index 10 on, the header as written differs from the corrected one |
| `ConversionProperties.SourceIndented` | nodetree_source_bl_types_conversion.py:71-80 | for a value whose number and set literals are as `str()` writes them and whose strings and names hold no newline, and a target with no newline, every line the dispatcher emits is empty or indented by at least `deep` units |
| `Scenarios.QuoteAndBackslashEscaped` | nodetree_source_bl_types_conversion.py:27-28 | `O'Brien\path` is written `'O\'Brien\\path'` |
| `Scenarios.ColorAssignment` | nodetree_source_bl_types_conversion.py:89 | the colour `(1.0, 0.5, 0.25)` assigned to `x.color` at depth 1 is `    x.color = (1.0, 0.5, 0.25)` |
| `Scenarios.MatrixWithoutTarget` | nodetree_source_bl_types_conversion.py:103-108 | a one-row matrix with no target is ` = ((1,))` |
| `Scenarios.SlotUnderNamedNode` | nodetree_source_bl_types_conversion.py:273-278 | the slot `n['a'].s[1]` reads index 1 past the string subscript and writes `n['a'].s.new('NodeOutputFileSlotFile')` |
| `Scenarios.SlotEarlierSubscript` | nodetree_source_bl_types_conversion.py:273-278 | the slot `n[3].s[12]` reads the leftmost index 3 and writes `n[3].s[.new('NodeOutputFileSlotFile')` |
| `Scenarios.Unconvertible` | nodetree_source_bl_types_conversion.py:32-39 | an unregistered composite and `None` produce no text |
| `NodeTreeSource.IndexOf` | nodetree_source_node_tree.py:50-51 | `list(...).index(x)` is the first position of x, and raises exactly when x is absent |
| `NodeTreeSource.ToSource` | nodetree_source_node_tree.py:13-53 | the method writes exactly the four sections of the specification, or raises the first exception |
| `NodeTreeSource.AppendPortSection` | nodetree_source_node_tree.py:18-22 | appends a port section's header and lines |
| `NodeTreeSource.AppendPorts` | nodetree_source_node_tree.py:20-22 | the port loop appends one creation line per owner port, in order |
| `NodeTreeSource.AppendNodesSection` | nodetree_source_node_tree.py:30-31 | appends the NODES header and the node loop's text when the tree has nodes |
| `NodeTreeSource.AppendNodes` | nodetree_source_node_tree.py:32-42 | the node loop appends each node's text in order, or raises |
| `NodeTreeSource.AppendNode` | nodetree_source_node_tree.py:33-42 | one node's turn: for a group, the header, the recursive text and the node itself; otherwise the node alone |
| `NodeTreeSource.AppendLinksSection` | nodetree_source_node_tree.py:44-45 | appends the LINKS header and the link loop's text when the tree has links |
| `NodeTreeSource.AppendLinks` | nodetree_source_node_tree.py:46-52 | the link loop appends each link's line in order, or raises |
| `NodeTreeSource.AppendLink` | nodetree_source_node_tree.py:47-52 | one link's line, with its socket positions looked up |
| `NodeTreeProperties.TreeOkIff` | nodetree_source_node_tree.py:33-51 | the linearizer produces text exactly when every group node at every depth has a tree and every link's sockets belong to their nodes |
| `NodeTreeProperties.LinksOkIff` | nodetree_source_node_tree.py:46-51 | the link loop produces text exactly when every link's source socket is among its source node's outputs and its target socket among its target node's inputs |
| `NodeTreeProperties.ThenAllOkIff` | nodetree_source_node_tree.py:46-52 | the link loop produces text exactly when every link line does |
| `NodeTreeProperties.SectionsInOrder` | nodetree_source_node_tree.py:18-45 | the output is INPUTS, OUTPUTS, NODES, LINKS concatenated in that order, each present with its header exactly when the tree's collection is non-empty, so every link line follows every node line |
| `NodeTreeProperties.PortSectionLines` | nodetree_source_node_tree.py:20-28 | a written port section is its header and then one `<parent><deep>.<kind>.new(...)` line per owner port, whatever the tree's own port count |
| `NodeTreeProperties.PlainNodesInOrder` | nodetree_source_node_tree.py:40-42 | with no group nodes, each node is written once, in node order, under `node_tree<deep>` |
| `NodeTreeProperties.GroupNodeLayout` | nodetree_source_node_tree.py:33-39 | a group node writes the lookup at `deep`, the `if not` guard, the creation at `deep+1`, the nested text, and last the node itself |
| `NodeTreeProperties.GroupAliasAgrees` | nodetree_source_node_tree.py:35-37 | the looked-up and the created nested tree variables coincide exactly when `parent_expr` is `node_tree` |
| `NodeTreeProperties.LinkLineAddresses` | nodetree_source_node_tree.py:49-51 | a link line addresses the first position of its source socket among the source node's outputs and of its target socket among the target node's inputs |
| `NodeTreeProperties.ClearSourceLines` | nodetree_source_node_tree.py:56-60 | `clear_source` is exactly two lines: the `for node in X.nodes:` loop, then the indented `X.nodes.remove(node)` |
| `Scenarios.TwoNodesOneLink` | nodetree_source_node_tree.py:30-52 | nodes A and B and a link from A's output 1 to B's input 0 give the NODES section with A then B, then `node_tree0.links.new(a.outputs[1], b.inputs[0])` |

## Findings

| source | as written | input that shows it | evidently intended | confidence | as-written member | corrected member |
|---|---|---|---|---|---|---|
| nodetree_source_bl_types_conversion.py:335-336 | the curve-point header takes only the last digit of the index (`[-2:][:1]`) and cuts the path three characters from its end (`[:-3]`) | path `m.curves[0].points[12]`: the header is `if 2 >= len(m.curves[0].points[):` | test the whole index `12` against `len(m.curves[0].points)` | high; not executed | `ConversionProperties.AsWrittenWrongFromTen` | `ConversionProperties.ElementIndexRecovered` |
| nodetree_source_bl_types_conversion.py:393-394 | the colour-ramp-element header has the same one-digit index and three-character cut | path `r.elements[10]`: the header is `if 0 >= len(r.elements[):` | test `10` against `len(r.elements)` | high; not executed | `ConversionProperties.AsWrittenWrongFromTen` | `ConversionProperties.ElementIndexRecovered` |

`BlTypesConversion.ElementHeaderAsWritten` is the header as written, and
`BlTypesConversion.ElementHeader` is the corrected header used by the
dispatcher. The corrected header splits the stripped path at its final
`[digits]`. A path without one keeps the behaviour as written.

## Left out

- Blender's runtime reflection (`dir`, `hasattr`, `getattr`, `callable`, `is_property_readonly`, `isinstance` on mathutils types) is replaced by descriptor data in the value datatype.
- Python's `str()` of a float or a set is not modelled. A float or set value carries the literal text `str()` gives for it.
- `Node.to_source` and `Node.node_alias` live in a module that is not part of this model. They are function parameters of the linearizer.
- The `print` diagnostics (unknown type, node tree, socket) are not modelled, because they write to the console and not to the script.
- What the generated script does when run (`os.path.exists`, `bpy.data.images.load`, `bpy.ops.cachefile.open`) is not modelled. Only the emitted text is.
- `re.search` is modelled as an explicit scan for the leftmost `[digits]`, not as a regular-expression engine.
- BlTypesConversion.FirstBracketIndex: `\d` is modelled as the ASCII digits 0-9; Python's `\d` and `int()` also accept other Unicode decimal digits, such as `٣`.
- The commented-out `has_node_groups` and `external_items` are not part of the code and are not modelled.
- The fields that recreate-in-place converters read directly come from the class tag, not from the attribute list: a texture's name and type, a curve point's location, a ramp element's position, and a profile's point count.
- BlTypesConversion.ElementHeader: the corrected header replaces the as-written one inside the dispatcher, so `SourceByType` on a curve point or a ramp element with an index of 10 or more does not reproduce the source's text.
