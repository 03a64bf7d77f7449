/** Worked cases of the converters and the linearizer, each written out in
    full as the text the code produces. */
module Scenarios {
  import opened Strings
  import opened Literals
  import opened BlValues
  import opened BlTypesConversion
  import opened NodeTreeSource
  import ConversionProperties

  /** A quote and a backslash in a string each get a backslash in front, and
      the body is wrapped in single quotes. */
  lemma QuoteAndBackslashEscaped()
    ensures StringLiteral("O'Brien\\path") == "'O\\'Brien\\\\path'"
  {
    ExampleSplit();
    EscapeAppend("O" + "'" + "Brien" + "\\", "path");
    EscapeAppend("O" + "'" + "Brien", "\\");
    EscapeAppend("O" + "'", "Brien");
    EscapeAppend("O", "'");
    EscapedLetters();
    EscapedSpecials();
    ExampleLiteral();
  }

  lemma ExampleSplit()
    ensures "O'Brien\\path" == "O" + "'" + "Brien" + "\\" + "path"
  {
  }

  lemma EscapedLetters()
    ensures Escape("O") == "O" && Escape("Brien") == "Brien" && Escape("path") == "path"
  {
    EscapeUnchanged("O");
    EscapeUnchanged("Brien");
    EscapeUnchanged("path");
  }

  lemma EscapedSpecials()
    ensures Escape("'") == "\\'" && Escape("\\") == "\\\\"
  {
    assert "'"[1..] == [] && "\\"[1..] == [];
  }

  lemma EscapeUnchanged(s: string)
    requires forall i :: 0 <= i < |s| ==> 'A' <= s[i] <= 'z' && s[i] != '\\'
    ensures Escape(s) == s
  {
  }

  lemma ExampleLiteral()
    ensures "'" + ("O" + "\\'" + "Brien" + "\\\\" + "path") + "'" == "'O\\'Brien\\\\path'"
  {
  }

  /** A three-element colour assigned to `x.color` one level deep is one line
      with one indentation unit. */
  lemma ColorAssignment()
    ensures SourceByType(Tuple(Color, [FloatN("1.0"), FloatN("0.5"), FloatN("0.25")]), "x.color", 1)
         == Ok(Some("    x.color = (1.0, 0.5, 0.25)"))
  {
    var items := [FloatN("1.0"), FloatN("0.5"), FloatN("0.25")];
    ColorTuple();
    ColorHead();
    assert SourceByType(Tuple(Color, items), "x.color", 1) == Ok(Some(Head("x.color", 1) + TupleRepr(items)));
    ColorLine();
  }

  lemma ColorTuple()
    ensures TupleRepr([FloatN("1.0"), FloatN("0.5"), FloatN("0.25")]) == "(" + ("1.0" + ", " + "0.5" + ", " + "0.25") + ")"
  {
    var items := [FloatN("1.0"), FloatN("0.5"), FloatN("0.25")];
    var reprs := Reprs(items);
    assert reprs == ["1.0", "0.5", "0.25"];
    assert reprs[..2] == ["1.0", "0.5"] && reprs[..2][..1] == ["1.0"];
    assert JoinComma(reprs[..2]) == "1.0" + ", " + "0.5";
  }

  lemma ColorHead()
    ensures Head("x.color", 1) == "    " + "x.color" + " = "
  {
    assert Indent(1) == "    " + Indent(0);
  }

  lemma ColorLine()
    ensures "    " + "x.color" + " = " + ("(" + ("1.0" + ", " + "0.5" + ", " + "0.25") + ")")
         == "    x.color = (1.0, 0.5, 0.25)"
  {
  }

  /** An integer at depth 0 without a target expression is its bare literal. */
  lemma IntWithoutTarget()
    ensures SourceByType(Num(IntN(-12)), "", 0) == Ok(Some("-12"))
  {
    assert NatRepr(1) == "1" && NatRepr(2) == "2";
    assert NatRepr(12) == NatRepr(1) + [DigitChar(2)];
    assert IntRepr(-12) == "-" + "12";
    assert NumberRepr(IntN(-12)) == "-12";
    assert Head("", 0) + NumberRepr(IntN(-12)) == "-12";
  }

  /** A boolean two levels deep is written as Python's `True`. */
  lemma BoolAtDepthTwo()
    ensures SourceByType(Num(BoolN(true)), "n.mute", 2) == Ok(Some("        n.mute = True"))
  {
    assert Indent(2) == "    " + ("    " + "");
    assert Head("n.mute", 2) == "    " + ("    " + "") + ("n.mute" + " = ");
    assert Head("n.mute", 2) + "True" == "        n.mute = True";
  }

  /** A matrix writes ` = ` even without a target expression, and a one-row
      matrix has no trailing comma after its row. */
  lemma MatrixWithoutTarget()
    ensures SourceByType(Matrix([[IntN(1)]]), "", 0) == Ok(Some(" = ((1,))"))
  {
    var rows := [[IntN(1)]];
    assert SourceByType(Matrix(rows), "", 0) == Ok(Some(MatrixSource(rows, "", 0)));
    assert MatrixSource(rows, "", 0) == " = ((1,))" by {
      OneRowLiteral();
      assert Indent(0) == "";
    }
  }

  lemma OneRowLiteral()
    ensures MatrixLiteral([[IntN(1)]]) == "((1,))"
  {
    assert NatRepr(1) == "1";
    assert TupleRepr([IntN(1)]) == "(" + "1" + ",)";
    var reprs := RowReprs([[IntN(1)]]);
    assert reprs == [TupleRepr([IntN(1)])];
    assert JoinCommaAll(reprs) == "(1,)";
    assert MatrixLiteral([[IntN(1)]]) == "(" + "(1,)" + ")";
  }

  /** A slot of a node addressed by name: the string subscript is no match,
      so the slot's own index 1 is read and a slot is created. */
  lemma SlotUnderNamedNode()
    ensures SlotFileHeader(ElementExpr("n['a'].s", 1), 0) == Ok(Stmt(0, "n['a'].s" + ".new('NodeOutputFileSlotFile')"))
  {
    NamedNodeNoMatch();
    ConversionProperties.SlotNewIffPositive("n['a'].s", 1, 0);
  }

  lemma NamedNodeNoMatch()
    ensures NoBracketIndex("n['a'].s", 0, 8)
  {
    var base := "n['a'].s";
    forall j | 0 <= j < 8 ensures BracketIndexAt(base, j).None? {
      if j == 1 {
        assert DigitRun(base, 2) == 0;
      } else {
        assert base[j] != '[';
      }
    }
  }

  /** A slot path with an earlier numeric subscript: the leftmost match `3`
      is read, and three characters are cut from the end of the path. */
  lemma SlotEarlierSubscript()
    ensures SlotFileHeader("n[3].s[12]", 0) == Ok(Stmt(0, "n[3].s[" + ".new('NodeOutputFileSlotFile')"))
  {
    EarlierSubscriptRead();
    assert ParseNat("3") == 3 by {
      assert "3"[..0] == [];
    }
    assert DropLast("n[3].s[12]", 3) == "n[3].s[";
  }

  lemma EarlierSubscriptRead()
    ensures FirstBracketIndex("n[3].s[12]", 0) == Some("3")
  {
    assert BracketIndexAt("n", 0).None?;
    ConversionProperties.FirstDigitsInBrackets("n", "3", ".s[12]");
    assert "n" + "[" + "3" + "]" + ".s[12]" == "n[3].s[12]";
  }

  /** An unregistered composite and None produce no text. */
  lemma Unconvertible()
    ensures SourceByType(Struct(Unregistered("Lamp"), []), "n.lamp", 1) == Ok(None)
    ensures SourceByType(NoneValue, "n.lamp", 1) == Ok(None)
  {
  }

  const A := Node(0, "MATH", [], [Socket(1, "NodeSocketFloat", "Value"), Socket(2, "NodeSocketFloat", "Other")], None)
  const B := Node(3, "OUTPUT", [Socket(4, "NodeSocketShader", "Surface")], [], None)
  const TwoNodes := NodeTree("T", "ShaderNodeTree", [], [], [A, B], [Link(A, A.outputs[1], B, B.inputs[0])])

  /** The aliases of the two nodes, standing for `Node.node_alias`. */
  function ExampleAlias(n: Node, deep: nat): string {
    if n == A then "a" else "b"
  }

  /** Two nodes A and B and a link from A's second output to B's first
      input: the NODES section with A then B, then the LINKS section with the
      link addressed by socket positions. */
  lemma TwoNodesOneLink(render: Render)
    ensures TreeSource(Ports([], []), TwoNodes, "node_tree", 0, render, ExampleAlias)
         == Ok("# NODES\n" + (render(A, "node_tree0", 0) + "\n" + (render(B, "node_tree0", 0) + "\n"))
               + ("# LINKS\n" + "node_tree0.links.new(a.outputs[1], b.inputs[0])\n"))
  {
    var owner := Ports([], []);
    TwoNodesSection(render);
    ExampleLinksSection();
    assert PortSection("# INPUTS", "inputs", [], [], "node_tree", 0) == "";
    assert PortSection("# OUTPUTS", "outputs", [], [], "node_tree", 0) == "";
    var nodes := "# NODES\n" + (render(A, "node_tree0", 0) + "\n" + (render(B, "node_tree0", 0) + "\n"));
    assert ("" + "") + nodes == nodes;
  }

  lemma TwoNodesSection(render: Render)
    ensures NodesSection(Ports([], []), TwoNodes, "node_tree", 0, render, ExampleAlias)
         == Ok("# NODES\n" + (render(A, "node_tree0", 0) + "\n" + (render(B, "node_tree0", 0) + "\n")))
  {
    var owner := Ports([], []);
    assert NatRepr(0) == "0";
    assert "node_tree" + NatRepr(0) == "node_tree0";
    var a := render(A, "node_tree0", 0) + "\n";
    var b := render(B, "node_tree0", 0) + "\n";
    assert NodeText(owner, TwoNodes, 0, "node_tree", 0, render, ExampleAlias) == Ok(a);
    assert NodeText(owner, TwoNodes, 1, "node_tree", 0, render, ExampleAlias) == Ok(b);
    assert NodesText(owner, TwoNodes, "node_tree", 0, render, ExampleAlias, 0) == Ok("");
    assert NodesText(owner, TwoNodes, "node_tree", 0, render, ExampleAlias, 1) == Ok("" + a);
    assert "" + a == a;
    assert NodesText(owner, TwoNodes, "node_tree", 0, render, ExampleAlias, 2) == Ok(a + b);
    assert Stmt(0, "# NODES") == "# NODES\n";
  }

  lemma ExampleLinksSection()
    ensures LinksSection(TwoNodes, "node_tree", 0, ExampleAlias)
         == Ok("# LINKS\n" + "node_tree0.links.new(a.outputs[1], b.inputs[0])\n")
  {
    var line := "node_tree0.links.new(a.outputs[1], b.inputs[0])\n";
    var links := TwoNodes.links;
    ExampleLinkLine();
    assert links[..0] == [] && links[..1] == links;
    assert ThenAll(links, LinkLineOf("node_tree", 0, ExampleAlias))
        == Then(Ok(""), LinkLine(links[0], "node_tree", 0, ExampleAlias));
    assert "" + line == line;
    assert Stmt(0, "# LINKS") == "# LINKS\n";
  }

  /** The link's source socket is A's output 1 and its target socket B's input 0. */
  lemma ExampleLinkLine()
    ensures LinkLine(TwoNodes.links[0], "node_tree", 0, ExampleAlias)
         == Ok("node_tree0.links.new(a.outputs[1], b.inputs[0])\n")
  {
    var link := TwoNodes.links[0];
    assert A.outputs[0] != A.outputs[1] && A.outputs[1..] == [A.outputs[1]];
    assert IndexOf(A.outputs[1..], link.fromSocket) == Some(0);
    assert IndexOf(A.outputs, link.fromSocket) == Some(1);
    assert IndexOf(B.inputs, link.toSocket) == Some(0);
    assert A != B;
    assert ExampleAlias(A, 0) == "a" && ExampleAlias(B, 0) == "b";
    assert NatRepr(0) == "0" && NatRepr(1) == "1";
    ExampleLinkCall();
  }

  lemma ExampleLinkCall()
    ensures Stmt(0, LinkCall("a", 1, "b", 0, "node_tree", 0)) == "node_tree0.links.new(a.outputs[1], b.inputs[0])\n"
  {
    assert NatRepr(0) == "0" && NatRepr(1) == "1";
    var call, from, to := "node_tree0.links.new(", "a.outputs[1]", "b.inputs[0]";
    assert "node_tree" + "0" + ".links.new(" == call;
    assert call + "a" + ".outputs[" + "1" + "]" == call + from;
    assert call + from + ", " + "b" + ".inputs[" + "0" + "]" == call + from + ", " + to;
    assert LinkCall("a", 1, "b", 0, "node_tree", 0) == call + from + ", " + to + ")";
    ExampleLinkText();
    assert Indent(0) == "";
  }

  lemma ExampleLinkText()
    ensures "" + ("node_tree0.links.new(" + "a.outputs[1]" + ", " + "b.inputs[0]" + ")") + "\n"
         == "node_tree0.links.new(a.outputs[1], b.inputs[0])\n"
  {
  }
}
