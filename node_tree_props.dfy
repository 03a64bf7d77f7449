/** What `NodeTree.to_source` and `NodeTree.clear_source` promise about the
    text they write: when an exception is raised, the order and presence of
    the sections, whose ports the port lines list, the layout of a group
    node, and the socket positions a link line addresses. */
module NodeTreeProperties {
  import opened Strings
  import opened NodeTreeSource

  // ---------------------------------------------------------------------
  // When the linearizer raises
  // ---------------------------------------------------------------------

  /** Every group node, at every depth, has a tree, and every link's sockets
      belong to the nodes it joins. */
  predicate Resolvable(tree: NodeTree)
    decreases tree, 1, 0
  {
    NodesResolvable(tree, |tree.nodes|) && LinksResolvable(tree.links)
  }

  /** The first n nodes of the tree are resolvable. */
  predicate NodesResolvable(tree: NodeTree, n: nat)
    requires n <= |tree.nodes|
    decreases tree, 0, n
  {
    n == 0 || (NodesResolvable(tree, n - 1) && NodeResolvable(tree, n - 1))
  }

  predicate LinksResolvable(links: seq<Link>) {
    forall i :: 0 <= i < |links| ==> LinkResolvable(links[i])
  }

  predicate NodeResolvable(tree: NodeTree, i: nat)
    requires i < |tree.nodes|
    decreases tree, 0, 0
  {
    var node := tree.nodes[i];
    node.nodeType == "GROUP" ==> node.group.Some? && Resolvable(node.group.value)
  }

  predicate LinkResolvable(link: Link) {
    link.fromSocket in link.fromNode.outputs && link.toSocket in link.toNode.inputs
  }

  /** The linearizer returns text exactly when nothing is unresolved. */
  lemma {:induction false} TreeOkIff(owner: Ports, tree: NodeTree, parent: string, deep: nat,
                                     render: Render, alias: Alias)
    ensures TreeSource(owner, tree, parent, deep, render, alias).Ok? <==> Resolvable(tree)
    decreases tree, 2, 0
  {
    NodesOkIff(owner, tree, parent, deep, render, alias, |tree.nodes|);
    LinksOkIff(tree, parent, deep, alias);
  }

  lemma {:induction false} NodesOkIff(owner: Ports, tree: NodeTree, parent: string, deep: nat,
                                      render: Render, alias: Alias, n: nat)
    requires n <= |tree.nodes|
    ensures NodesText(owner, tree, parent, deep, render, alias, n).Ok? <==> NodesResolvable(tree, n)
    decreases tree, 1, 2 * n
  {
    if n > 0 {
      NodesOkIff(owner, tree, parent, deep, render, alias, n - 1);
      NodesOkStep(owner, tree, parent, deep, render, alias, n - 1);
    }
  }

  lemma {:induction false} NodeOkIff(owner: Ports, tree: NodeTree, i: nat, parent: string, deep: nat,
                                     render: Render, alias: Alias)
    requires i < |tree.nodes|
    ensures NodeText(owner, tree, i, parent, deep, render, alias).Ok? <==> NodeResolvable(tree, i)
    decreases tree, 0, 0
  {
    var node := tree.nodes[i];
    if node.nodeType == "GROUP" && node.group.Some? {
      TreeOkIff(Ports(node.inputs, node.outputs), node.group.value, parent, deep + 1, render, alias);
    }
  }

  lemma LinksOkIff(tree: NodeTree, parent: string, deep: nat, alias: Alias)
    ensures ThenAll(tree.links, LinkLineOf(parent, deep, alias)).Ok? <==> LinksResolvable(tree.links)
  {
    var line := LinkLineOf(parent, deep, alias);
    ThenAllOkIff(tree.links, line);
    forall k | 0 <= k < |tree.links| ensures line(tree.links[k]).Ok? == LinkResolvable(tree.links[k]) {
      LinkLineOk(tree.links[k], parent, deep, alias);
    }
  }

  /** A join returns text exactly when every item does. */
  lemma {:induction false} ThenAllOkIff<T>(items: seq<T>, text: T -> Outcome)
    ensures ThenAll(items, text).Ok? <==> forall k :: 0 <= k < |items| ==> text(items[k]).Ok?
    decreases |items|
  {
    if items != [] {
      var front := items[..|items| - 1];
      ThenAllOkIff(front, text);
      assert forall k :: 0 <= k < |front| ==> front[k] == items[k];
    }
  }

  lemma {:induction false} NodesOkStep(owner: Ports, tree: NodeTree, parent: string, deep: nat,
                                       render: Render, alias: Alias, m: nat)
    requires m < |tree.nodes|
    requires NodesText(owner, tree, parent, deep, render, alias, m).Ok? == NodesResolvable(tree, m)
    ensures NodesText(owner, tree, parent, deep, render, alias, m + 1).Ok? == NodesResolvable(tree, m + 1)
    decreases tree, 1, 2 * m + 1
  {
    NodeOkIff(owner, tree, m, parent, deep, render, alias);
  }

  lemma LinkLineOk(link: Link, parent: string, deep: nat, alias: Alias)
    ensures LinkLine(link, parent, deep, alias).Ok? <==> LinkResolvable(link)
  {
  }

  // ---------------------------------------------------------------------
  // Sections
  // ---------------------------------------------------------------------

  /** A section is empty when its collection is, and otherwise opens with its header line. */
  predicate Section(text: string, header: string, deep: nat, present: bool) {
    if present then StartsWith(text, Indent(deep) + header + "\n") else text == ""
  }

  /** INPUTS, OUTPUTS, NODES, LINKS: in this order, each there only when the
      tree's own collection is non-empty. */
  lemma SectionsInOrder(owner: Ports, tree: NodeTree, parent: string, deep: nat,
                        render: Render, alias: Alias)
    requires TreeSource(owner, tree, parent, deep, render, alias).Ok?
    ensures var inputs := PortSection("# INPUTS", "inputs", tree.inputs, owner.inputs, parent, deep);
      var outputs := PortSection("# OUTPUTS", "outputs", tree.outputs, owner.outputs, parent, deep);
      var nodes := NodesSection(owner, tree, parent, deep, render, alias);
      var links := LinksSection(tree, parent, deep, alias);
      && nodes.Ok? && links.Ok?
      && TreeSource(owner, tree, parent, deep, render, alias).value == inputs + outputs + nodes.value + links.value
      && Section(inputs, "# INPUTS", deep, tree.inputs != [])
      && Section(outputs, "# OUTPUTS", deep, tree.outputs != [])
      && Section(nodes.value, "# NODES", deep, tree.nodes != [])
      && Section(links.value, "# LINKS", deep, tree.links != [])
  {
    var inputs := PortSection("# INPUTS", "inputs", tree.inputs, owner.inputs, parent, deep);
    var outputs := PortSection("# OUTPUTS", "outputs", tree.outputs, owner.outputs, parent, deep);
    HeaderOpens("# INPUTS", PortLines(owner.inputs, "inputs", parent, deep), deep);
    HeaderOpens("# OUTPUTS", PortLines(owner.outputs, "outputs", parent, deep), deep);
    var nodes := NodesSection(owner, tree, parent, deep, render, alias);
    var links := LinksSection(tree, parent, deep, alias);
    if tree.nodes != [] {
      HeaderOpens("# NODES", NodesText(owner, tree, parent, deep, render, alias, |tree.nodes|).value, deep);
    }
    if tree.links != [] {
      HeaderOpens("# LINKS", ThenAll(tree.links, LinkLineOf(parent, deep, alias)).value, deep);
    }
  }

  lemma HeaderOpens(header: string, rest: string, deep: nat)
    ensures StartsWith(Stmt(deep, header) + rest, Indent(deep) + header + "\n")
  {
    var h := Indent(deep) + header + "\n";
    assert (Stmt(deep, header) + rest)[..|h|] == h;
  }

  // ---------------------------------------------------------------------
  // INPUTS and OUTPUTS
  // ---------------------------------------------------------------------

  /** The lines a port section writes after its header: one per port of the owner. */
  function PortLineTexts(ports: seq<Socket>, kind: string, parent: string, deep: nat): (r: seq<string>)
    ensures |r| == |ports|
  {
    seq(|ports|, k requires 0 <= k < |ports| => Indent(deep) + PortCall(kind, ports[k], parent, deep))
  }

  predicate SingleLinePorts(ports: seq<Socket>) {
    forall k :: 0 <= k < |ports| ==> '\n' !in ports[k].blIdname && '\n' !in ports[k].name
  }

  /** A port section that is written has its header line, then one line per
      port of the owner (whatever the tree's own port count), then nothing. */
  lemma PortSectionLines(header: string, kind: string, treePorts: seq<Socket>, ownerPorts: seq<Socket>,
                         parent: string, deep: nat)
    requires treePorts != []
    requires '\n' !in header && '\n' !in kind && '\n' !in parent && SingleLinePorts(ownerPorts)
    ensures Lines(PortSection(header, kind, treePorts, ownerPorts, parent, deep))
         == [Indent(deep) + header] + PortLineTexts(ownerPorts, kind, parent, deep) + [""]
  {
    var lines := [Indent(deep) + header] + PortLineTexts(ownerPorts, kind, parent, deep);
    PortLinesTerminated(ownerPorts, kind, parent, deep);
    assert Stmt(deep, header) == lines[0] + "\n";
    assert lines[1..] == PortLineTexts(ownerPorts, kind, parent, deep);
    IndentSingleLine(deep);
    forall k | 0 <= k < |lines| ensures '\n' !in lines[k] {
      if k > 0 {
        PortCallSingleLine(kind, ownerPorts[k - 1], parent, deep);
      }
    }
    LinesOfTerminated(lines);
  }

  lemma {:induction false} PortLinesTerminated(ports: seq<Socket>, kind: string, parent: string, deep: nat)
    ensures PortLines(ports, kind, parent, deep) == Terminated(PortLineTexts(ports, kind, parent, deep))
    decreases |ports|
  {
    if ports != [] {
      var front := ports[..|ports| - 1];
      PortLinesTerminated(front, kind, parent, deep);
      assert PortLineTexts(ports, kind, parent, deep)
          == PortLineTexts(front, kind, parent, deep) + [Indent(deep) + PortCall(kind, ports[|ports| - 1], parent, deep)];
      TerminatedSnoc(PortLineTexts(front, kind, parent, deep), Indent(deep) + PortCall(kind, ports[|ports| - 1], parent, deep));
    }
  }

  lemma {:induction false} TerminatedSnoc(lines: seq<string>, last: string)
    ensures Terminated(lines + [last]) == Terminated(lines) + last + "\n"
    decreases |lines|
  {
    if lines != [] {
      assert (lines + [last])[1..] == lines[1..] + [last];
      TerminatedSnoc(lines[1..], last);
    }
  }

  lemma PortCallSingleLine(kind: string, s: Socket, parent: string, deep: nat)
    requires '\n' !in kind && '\n' !in parent && '\n' !in s.blIdname && '\n' !in s.name
    ensures '\n' !in PortCall(kind, s, parent, deep)
  {
    NatReprSingleLine(deep);
  }

  lemma NatReprSingleLine(n: nat)
    ensures '\n' !in NatRepr(n)
  {
    var r := NatRepr(n);
    forall k | 0 <= k < |r| ensures r[k] != '\n' {
      assert IsDigit(r[k]);
    }
  }

  // ---------------------------------------------------------------------
  // NODES
  // ---------------------------------------------------------------------

  /** The line that writes a node itself, as the caller's `Node.to_source` gives it. */
  function OwnText(node: Node, deep: nat, render: Render): string {
    render(node, "node_tree" + NatRepr(deep), deep) + "\n"
  }

  /** The nodes' own texts one after another, front to back. */
  function OwnTexts(nodes: seq<Node>, deep: nat, render: Render): string {
    if nodes == [] then "" else OwnText(nodes[0], deep, render) + OwnTexts(nodes[1..], deep, render)
  }

  /** A tree without group nodes writes each node once, in node order. */
  lemma {:induction false} PlainNodesInOrder(owner: Ports, tree: NodeTree, parent: string, deep: nat,
                                             render: Render, alias: Alias, n: nat)
    requires n <= |tree.nodes|
    requires forall i :: 0 <= i < n ==> tree.nodes[i].nodeType != "GROUP"
    ensures NodesText(owner, tree, parent, deep, render, alias, n) == Ok(OwnTexts(tree.nodes[..n], deep, render))
  {
    if n > 0 {
      PlainNodesInOrder(owner, tree, parent, deep, render, alias, n - 1);
      OwnTextsSnoc(tree.nodes[..n - 1], tree.nodes[n - 1], deep, render);
      assert tree.nodes[..n - 1] + [tree.nodes[n - 1]] == tree.nodes[..n];
    }
  }

  lemma {:induction false} OwnTextsSnoc(nodes: seq<Node>, last: Node, deep: nat, render: Render)
    ensures OwnTexts(nodes + [last], deep, render) == OwnTexts(nodes, deep, render) + OwnText(last, deep, render)
    decreases |nodes|
  {
    if nodes != [] {
      assert (nodes + [last])[1..] == nodes[1..] + [last];
      OwnTextsSnoc(nodes[1..], last, deep, render);
    }
  }

  /** The name a nested tree is looked up under (`<parent><deep + 1>`) and the
      name it is created under (`node_tree<deep + 1>`) are the same variable
      exactly when the caller's parent expression is `node_tree`. */
  lemma GroupAliasAgrees(parent: string, deep: nat)
    ensures parent + NatRepr(deep + 1) == "node_tree" + NatRepr(deep + 1) <==> parent == "node_tree"
  {
    var d := NatRepr(deep + 1);
    if parent + d == "node_tree" + d {
      assert |parent| == |"node_tree"|;
      assert parent == (parent + d)[..|parent|];
    }
  }

  /** A group node writes, in order: the lookup of `<parent><deep + 1>`, the
      guard, the creation of `node_tree<deep + 1>` one level deeper with the
      type of the enclosing tree, the nested tree's text, an empty line's
      newline, and then the node itself under `node_tree<deep>`. */
  lemma GroupNodeLayout(owner: Ports, tree: NodeTree, i: nat, parent: string, deep: nat,
                        render: Render, alias: Alias, inner: string)
    requires i < |tree.nodes| && tree.nodes[i].nodeType == "GROUP" && tree.nodes[i].group.Some?
    requires TreeSource(Ports(tree.nodes[i].inputs, tree.nodes[i].outputs), tree.nodes[i].group.value,
                        parent, deep + 1, render, alias) == Ok(inner)
    requires '\n' !in parent && '\n' !in tree.nodes[i].group.value.name && '\n' !in tree.blIdname
    ensures var sub := tree.nodes[i].group.value;
      var nested := parent + NatRepr(deep + 1);
      && NodeText(owner, tree, i, parent, deep, render, alias).Ok?
      && Lines(NodeText(owner, tree, i, parent, deep, render, alias).value)
         == [Indent(deep) + (nested + " = bpy.data.node_groups.get('" + sub.name + "')"),
             Indent(deep) + ("if not " + nested + ":"),
             Indent(deep + 1) + ("node_tree" + NatRepr(deep + 1) + " = bpy.data.node_groups.new('"
                                 + sub.name + "', '" + tree.blIdname + "')")]
            + Lines(inner + "\n" + OwnText(tree.nodes[i], deep, render))
  {
    var sub := tree.nodes[i].group.value;
    var nested := parent + NatRepr(deep + 1);
    var get := nested + " = bpy.data.node_groups.get('" + sub.name + "')";
    var guard := "if not " + nested + ":";
    var create := "node_tree" + NatRepr(deep + 1) + " = bpy.data.node_groups.new('" + sub.name + "', '" + tree.blIdname + "')";
    var rest := inner + "\n" + OwnText(tree.nodes[i], deep, render);
    GroupTextsSingleLine(parent, deep, sub.name, tree.blIdname);
    assert GroupHeader(sub.name, tree.blIdname, parent, deep) == Stmt(deep, get) + Stmt(deep, guard) + Stmt(deep + 1, create);
    assert NodeText(owner, tree, i, parent, deep, render, alias).value
        == Stmt(deep, get) + Stmt(deep, guard) + Stmt(deep + 1, create) + inner + ("\n" + OwnText(tree.nodes[i], deep, render));
    Regroup(Stmt(deep, get), Stmt(deep, guard), Stmt(deep + 1, create), inner, "\n" + OwnText(tree.nodes[i], deep, render));
    ConcatAssoc(inner, "\n", OwnText(tree.nodes[i], deep, render));
    ThreeStmtLines(deep, get, deep, guard, deep + 1, create, rest);
  }

  lemma GroupTextsSingleLine(parent: string, deep: nat, name: string, treeType: string)
    requires '\n' !in parent && '\n' !in name && '\n' !in treeType
    ensures var nested := parent + NatRepr(deep + 1);
      && '\n' !in nested + " = bpy.data.node_groups.get('" + name + "')"
      && '\n' !in "if not " + nested + ":"
      && '\n' !in "node_tree" + NatRepr(deep + 1) + " = bpy.data.node_groups.new('" + name + "', '" + treeType + "')"
  {
    NatReprSingleLine(deep + 1);
  }

  // ---------------------------------------------------------------------
  // LINKS
  // ---------------------------------------------------------------------

  /** A link line addresses the first output of the source node holding the
      link's source socket, and the first input of the target node holding
      its target socket. */
  lemma LinkLineAddresses(link: Link, parent: string, deep: nat, alias: Alias, i: nat, j: nat)
    requires i < |link.fromNode.outputs| && link.fromNode.outputs[i] == link.fromSocket
    requires link.fromSocket !in link.fromNode.outputs[..i]
    requires j < |link.toNode.inputs| && link.toNode.inputs[j] == link.toSocket
    requires link.toSocket !in link.toNode.inputs[..j]
    ensures LinkLine(link, parent, deep, alias)
         == Ok(Stmt(deep, LinkCall(alias(link.fromNode, deep), i, alias(link.toNode, deep), j, parent, deep)))
  {
    FirstPosition(link.fromNode.outputs, link.fromSocket, i);
    FirstPosition(link.toNode.inputs, link.toSocket, j);
  }

  lemma FirstPosition(s: seq<Socket>, x: Socket, i: nat)
    requires i < |s| && s[i] == x && x !in s[..i]
    ensures IndexOf(s, x) == Some(i)
  {
  }

  // ---------------------------------------------------------------------
  // `clear_source`
  // ---------------------------------------------------------------------

  /** Exactly two lines: the loop over the nodes, and its indented body
      removing each node. */
  lemma ClearSourceLines(parent: string)
    requires '\n' !in parent
    ensures Lines(ClearSource(parent))
         == ["for node in " + parent + ".nodes:", "    " + parent + ".nodes.remove(node)", ""]
  {
    var l0 := "for node in " + parent + ".nodes:";
    var l1 := "    " + parent + ".nodes.remove(node)";
    assert ClearSource(parent) == l0 + "\n" + (l1 + "\n" + "");
    LineCons(l0, l1 + "\n" + "");
    LineCons(l1, "");
    SplitWithoutSeparator("", '\n');
  }
}
