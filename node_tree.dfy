/** `NodeTree.to_source`: the linearizer that writes a node tree as a Python
    script. It emits up to four sections in a fixed order (INPUTS, OUTPUTS,
    NODES, LINKS), recursing into the tree of every group node one level
    deeper, and `NodeTree.clear_source`, the two lines that empty a tree.

    How a single node is written (`Node.to_source`) and how a node is named
    (`Node.node_alias`) belong to a module that is not part of this model:
    both are parameters here. */
module NodeTreeSource {
  import opened Strings

  /** A socket of a node, or an interface port of a tree. `id` stands for the
      identity Blender compares sockets by. */
  datatype Socket = Socket(id: nat, blIdname: string, name: string)

  /** A node; a node of type `GROUP` refers to the tree it instantiates. */
  datatype Node = Node(id: nat, nodeType: string, inputs: seq<Socket>, outputs: seq<Socket>,
                       group: Option<NodeTree>)

  datatype Link = Link(fromNode: Node, fromSocket: Socket, toNode: Node, toSocket: Socket)

  datatype NodeTree = NodeTree(name: string, blIdname: string, inputs: seq<Socket>, outputs: seq<Socket>,
                               nodes: seq<Node>, links: seq<Link>)

  /** The `owner` whose ports the INPUTS and OUTPUTS sections list: the caller's
      owner at the top level, the group node for a nested tree. */
  datatype Ports = Ports(inputs: seq<Socket>, outputs: seq<Socket>)

  /** The Python exceptions the linearizer can raise: a group node without a
      tree (`node.node_tree.name` on `None`), and a link socket that is not
      among its node's sockets (`list.index`). */
  datatype TreeError = GroupWithoutTree | SocketNotFound

  type Outcome = Result<string, TreeError>

  /** `Node.to_source(node, parent_expr, deep)` */
  type Render = (Node, string, nat) -> string

  /** `Node.node_alias(node, deep)` */
  type Alias = (Node, nat) -> string

  // ---------------------------------------------------------------------
  // Specification of `to_source`
  // ---------------------------------------------------------------------

  /** The call that creates one interface port: `<parent><deep>.<kind>.new('<type>', '<name>')`. */
  function PortCall(kind: string, s: Socket, parent: string, deep: nat): string
  {
    parent + NatRepr(deep) + "." + kind + ".new('" + s.blIdname + "', '" + s.name + "')"
  }

  /** The creation lines of the given ports, in order. */
  function PortLines(ports: seq<Socket>, kind: string, parent: string, deep: nat): string
  {
    if ports == [] then ""
    else PortLines(ports[..|ports| - 1], kind, parent, deep) + Stmt(deep, PortCall(kind, ports[|ports| - 1], parent, deep))
  }

  /** A section of interface ports. Whether it appears is decided by the
      tree's own ports; its lines come from the owner's ports. */
  function PortSection(header: string, kind: string, treePorts: seq<Socket>, ownerPorts: seq<Socket>,
                       parent: string, deep: nat): string
  {
    if treePorts == [] then "" else Stmt(deep, header) + PortLines(ownerPorts, kind, parent, deep)
  }

  /** The three lines in front of a nested tree: look the group's tree up under
      `<parent><deep + 1>`, and create it as `node_tree<deep + 1>` when it is
      missing, with the type of the tree being written. */
  function GroupHeader(groupName: string, treeType: string, parent: string, deep: nat): string
  {
    var alias := parent + NatRepr(deep + 1);
    Stmt(deep, alias + " = bpy.data.node_groups.get('" + groupName + "')")
    + Stmt(deep, "if not " + alias + ":")
    + Stmt(deep + 1, "node_tree" + NatRepr(deep + 1) + " = bpy.data.node_groups.new('" + groupName + "', '" + treeType + "')")
  }

  /** The text of the i-th node of `tree`. */
  function NodeText(owner: Ports, tree: NodeTree, i: nat, parent: string, deep: nat,
                    render: Render, alias: Alias): Outcome
    requires i < |tree.nodes|
    decreases tree, 0, 0
  {
    var node := tree.nodes[i];
    var own := render(node, "node_tree" + NatRepr(deep), deep) + "\n";
    if node.nodeType == "GROUP" then
      match node.group
      case None => Err(GroupWithoutTree)
      case Some(sub) =>
        Then(Then(Ok(GroupHeader(sub.name, tree.blIdname, parent, deep)),
                  TreeSource(Ports(node.inputs, node.outputs), sub, parent, deep + 1, render, alias)),
             Ok("\n" + own))
    else Ok(own)
  }

  /** The texts of the first n nodes, in order. */
  function NodesText(owner: Ports, tree: NodeTree, parent: string, deep: nat,
                     render: Render, alias: Alias, n: nat): Outcome
    requires n <= |tree.nodes|
    decreases tree, 1, n
  {
    if n == 0 then Ok("")
    else Then(NodesText(owner, tree, parent, deep, render, alias, n - 1),
              NodeText(owner, tree, n - 1, parent, deep, render, alias))
  }

  function NodesSection(owner: Ports, tree: NodeTree, parent: string, deep: nat,
                        render: Render, alias: Alias): Outcome
    decreases tree, 1, |tree.nodes| + 1
  {
    if tree.nodes == [] then Ok("")
    else Then(Ok(Stmt(deep, "# NODES")), NodesText(owner, tree, parent, deep, render, alias, |tree.nodes|))
  }

  /** `list(s).index(x)`: the first position of x, or None where Python raises. */
  function IndexOf(s: seq<Socket>, x: Socket): (r: Option<nat>)
    ensures r.Some? ==> r.value < |s| && s[r.value] == x && x !in s[..r.value]
    ensures r.None? <==> x !in s
  {
    if s == [] then None
    else if s[0] == x then Some(0)
    else match IndexOf(s[1..], x)
      case None => None
      case Some(k) =>
        assert s[..k + 1] == [s[0]] + s[1..][..k];
        Some(k + 1)
  }

  /** The call that recreates one link between two addressed sockets. */
  function LinkCall(fromAlias: string, i: nat, toAlias: string, j: nat, parent: string, deep: nat): string
  {
    parent + NatRepr(deep) + ".links.new(" + fromAlias + ".outputs[" + NatRepr(i) + "]"
    + ", " + toAlias + ".inputs[" + NatRepr(j) + "]" + ")"
  }

  function LinkLine(link: Link, parent: string, deep: nat, alias: Alias): Outcome
  {
    match IndexOf(link.fromNode.outputs, link.fromSocket)
    case None => Err(SocketNotFound)
    case Some(i) =>
      match IndexOf(link.toNode.inputs, link.toSocket)
      case None => Err(SocketNotFound)
      case Some(j) =>
        Ok(Stmt(deep, LinkCall(alias(link.fromNode, deep), i, alias(link.toNode, deep), j, parent, deep)))
  }

  /** `LinkLine` with the caller's context fixed, as a function of the link. */
  function LinkLineOf(parent: string, deep: nat, alias: Alias): Link -> Outcome
  {
    link => LinkLine(link, parent, deep, alias)
  }

  /** The texts of the items in order, joined; the first exception raised ends it. */
  function ThenAll<T>(items: seq<T>, text: T -> Outcome): Outcome
  {
    if items == [] then Ok("")
    else Then(ThenAll(items[..|items| - 1], text), text(items[|items| - 1]))
  }

  function LinksSection(tree: NodeTree, parent: string, deep: nat, alias: Alias): Outcome
  {
    if tree.links == [] then Ok("")
    else Then(Ok(Stmt(deep, "# LINKS")), ThenAll(tree.links, LinkLineOf(parent, deep, alias)))
  }

  /** `NodeTree.to_source(owner, node_tree, parent_expr, deep)`: the four
      sections in order; the first exception raised ends the whole call. */
  function TreeSource(owner: Ports, tree: NodeTree, parent: string, deep: nat,
                      render: Render, alias: Alias): Outcome
    decreases tree, 2, 0
  {
    var ports := PortSection("# INPUTS", "inputs", tree.inputs, owner.inputs, parent, deep)
               + PortSection("# OUTPUTS", "outputs", tree.outputs, owner.outputs, parent, deep);
    Then(Then(Ok(ports), NodesSection(owner, tree, parent, deep, render, alias)),
         LinksSection(tree, parent, deep, alias))
  }

  // ---------------------------------------------------------------------
  // The method
  // ---------------------------------------------------------------------

  lemma {:induction false} NodesErrPersists(owner: Ports, tree: NodeTree, parent: string, deep: nat,
                                            render: Render, alias: Alias, i: nat, n: nat)
    requires i <= n <= |tree.nodes|
    requires NodesText(owner, tree, parent, deep, render, alias, i).Err?
    ensures NodesText(owner, tree, parent, deep, render, alias, n) == NodesText(owner, tree, parent, deep, render, alias, i)
    decreases n - i
  {
    if i < n {
      NodesErrPersists(owner, tree, parent, deep, render, alias, i, n - 1);
    }
  }

  /** An exception raised by one item ends the whole join with that exception. */
  lemma {:induction false} ThenAllErrPersists<T>(items: seq<T>, text: T -> Outcome, i: nat)
    requires i <= |items| && ThenAll(items[..i], text).Err?
    ensures ThenAll(items, text) == ThenAll(items[..i], text)
    decreases |items|
  {
    if i < |items| {
      var front := items[..|items| - 1];
      assert front[..i] == items[..i];
      ThenAllErrPersists(front, text, i);
    } else {
      assert items[..i] == items;
    }
  }

  /** Joining one more item appends its text. */
  lemma ThenAllSnoc<T>(items: seq<T>, text: T -> Outcome, i: nat)
    requires i < |items|
    ensures ThenAll(items[..i + 1], text) == Then(ThenAll(items[..i], text), text(items[i]))
  {
    assert items[..i + 1][..i] == items[..i];
  }

  /** A node that raises ends the node loop with its exception. */
  lemma NodeErrEnds(owner: Ports, tree: NodeTree, i: nat, parent: string, deep: nat,
                    render: Render, alias: Alias)
    requires i < |tree.nodes|
    requires NodesText(owner, tree, parent, deep, render, alias, i).Ok?
    requires NodeText(owner, tree, i, parent, deep, render, alias).Err?
    ensures NodesText(owner, tree, parent, deep, render, alias, |tree.nodes|)
         == NodeText(owner, tree, i, parent, deep, render, alias)
  {
    NodesErrPersists(owner, tree, parent, deep, render, alias, i + 1, |tree.nodes|);
  }

  /** One turn of the node loop appends the node's text. */
  lemma NodeStep(owner: Ports, tree: NodeTree, i: nat, parent: string, deep: nat,
                 render: Render, alias: Alias, source: string, prev: string, next: string)
    requires i < |tree.nodes|
    requires NodesText(owner, tree, parent, deep, render, alias, i).Ok?
    requires prev == source + NodesText(owner, tree, parent, deep, render, alias, i).value
    requires Ok(next) == Then(Ok(prev), NodeText(owner, tree, i, parent, deep, render, alias))
    ensures NodesText(owner, tree, parent, deep, render, alias, i + 1).Ok?
    ensures next == source + NodesText(owner, tree, parent, deep, render, alias, i + 1).value
  {
    Associate(source, NodesText(owner, tree, parent, deep, render, alias, i).value,
              NodeText(owner, tree, i, parent, deep, render, alias).value);
  }

  /** The text of a group node whose tree is written without an exception, as `AppendNode` appends it. */
  lemma GroupNodeText(owner: Ports, tree: NodeTree, i: nat, parent: string, deep: nat,
                      render: Render, alias: Alias, source: string, inner: string)
    requires i < |tree.nodes| && tree.nodes[i].nodeType == "GROUP" && tree.nodes[i].group.Some?
    requires TreeSource(Ports(tree.nodes[i].inputs, tree.nodes[i].outputs), tree.nodes[i].group.value,
                        parent, deep + 1, render, alias) == Ok(inner)
    ensures NodeText(owner, tree, i, parent, deep, render, alias).Ok?
    ensures var node, sub := tree.nodes[i], tree.nodes[i].group.value;
      var nested := parent + NatRepr(deep + 1);
      source + Stmt(deep, nested + " = bpy.data.node_groups.get('" + sub.name + "')")
      + Stmt(deep, "if not " + nested + ":")
      + Stmt(deep + 1, "node_tree" + NatRepr(deep + 1) + " = bpy.data.node_groups.new('"
                       + sub.name + "', '" + tree.blIdname + "')")
      + inner + "\n" + render(node, "node_tree" + NatRepr(deep), deep) + "\n"
      == Then(Ok(source), NodeText(owner, tree, i, parent, deep, render, alias)).value
  {
    var node, sub := tree.nodes[i], tree.nodes[i].group.value;
    var nested := parent + NatRepr(deep + 1);
    var a := Stmt(deep, nested + " = bpy.data.node_groups.get('" + sub.name + "')");
    var b := Stmt(deep, "if not " + nested + ":");
    var c := Stmt(deep + 1, "node_tree" + NatRepr(deep + 1) + " = bpy.data.node_groups.new('"
                            + sub.name + "', '" + tree.blIdname + "')");
    var own := render(node, "node_tree" + NatRepr(deep), deep) + "\n";
    assert GroupHeader(sub.name, tree.blIdname, parent, deep) == a + b + c;
    assert NodeText(owner, tree, i, parent, deep, render, alias) == Ok(a + b + c + inner + ("\n" + own));
    AssociateGroup(source, a, b, c, inner, own);
  }

  /** The exception of the second part, when the first returns text. */
  lemma ThenErrRight(a: string, b: Outcome)
    requires b.Err?
    ensures Then(Ok(a), b) == b
  {
  }

  lemma AssociateGroup(source: string, a: string, b: string, c: string, inner: string, own: string)
    ensures source + a + b + c + inner + "\n" + own == source + (a + b + c + inner + ("\n" + own))
  {
  }

  lemma Associate(a: string, b: string, c: string)
    ensures a + b + c == a + (b + c)
  {
  }

  /** `NodeTree.to_source`: the four sections, each appended by the method
      below named after it; the first exception ends the call. */
  method ToSource(owner: Ports, tree: NodeTree, parent: string, deep: nat,
                  render: Render, alias: Alias) returns (r: Outcome)
    ensures r == TreeSource(owner, tree, parent, deep, render, alias)
    decreases tree, 2
  {
    var source := AppendPortSection("", "# INPUTS", "inputs", tree.inputs, owner.inputs, parent, deep);
    source := AppendPortSection(source, "# OUTPUTS", "outputs", tree.outputs, owner.outputs, parent, deep);
    assert source == PortSection("# INPUTS", "inputs", tree.inputs, owner.inputs, parent, deep)
                   + PortSection("# OUTPUTS", "outputs", tree.outputs, owner.outputs, parent, deep);
    r := AppendNodesSection(source, owner, tree, parent, deep, render, alias);
    if r.Err? {
      return;
    }
    r := AppendLinksSection(r.value, tree, parent, deep, alias);
  }

  /** The NODES section: its header when the tree has nodes, then the node loop. */
  method AppendNodesSection(source: string, owner: Ports, tree: NodeTree, parent: string, deep: nat,
                            render: Render, alias: Alias) returns (r: Outcome)
    ensures r == Then(Ok(source), NodesSection(owner, tree, parent, deep, render, alias))
    decreases tree, 1, 1
  {
    if tree.nodes == [] {
      assert source + "" == source;
      return Ok(source);
    }
    r := AppendNodes(source + Stmt(deep, "# NODES"), owner, tree, parent, deep, render, alias);
    ThenPrefix(source, Stmt(deep, "# NODES"), NodesText(owner, tree, parent, deep, render, alias, |tree.nodes|));
  }

  /** The LINKS section: its header when the tree has links, then the link loop. */
  method AppendLinksSection(source: string, tree: NodeTree, parent: string, deep: nat, alias: Alias)
    returns (r: Outcome)
    ensures r == Then(Ok(source), LinksSection(tree, parent, deep, alias))
  {
    if tree.links == [] {
      assert source + "" == source;
      return Ok(source);
    }
    r := AppendLinks(source + Stmt(deep, "# LINKS"), tree, parent, deep, alias);
    ThenPrefix(source, Stmt(deep, "# LINKS"), ThenAll(tree.links, LinkLineOf(parent, deep, alias)));
  }

  /** Appending a header in front of a section is the same as writing the
      header as the section's first part. */
  lemma ThenPrefix<E>(a: string, header: string, rest: Result<string, E>)
    ensures Then(Ok(a + header), rest) == Then(Ok(a), Then(Ok(header), rest))
  {
    if rest.Ok? {
      Associate(a, header, rest.value);
    }
  }

  /** The INPUTS or the OUTPUTS section: a header when the tree has such
      ports, then one line per port of the owner. */
  method AppendPortSection(source: string, header: string, kind: string, treePorts: seq<Socket>,
                           ownerPorts: seq<Socket>, parent: string, deep: nat) returns (s: string)
    ensures s == source + PortSection(header, kind, treePorts, ownerPorts, parent, deep)
  {
    s := source;
    if treePorts != [] {
      s := s + Stmt(deep, header);
      s := AppendPorts(s, ownerPorts, kind, parent, deep);
      Associate(source, Stmt(deep, header), PortLines(ownerPorts, kind, parent, deep));
    } else {
      assert s + "" == s;
    }
  }

  /** The loop over `owner.inputs` or `owner.outputs`. */
  method AppendPorts(source: string, ports: seq<Socket>, kind: string, parent: string, deep: nat)
    returns (s: string)
    ensures s == source + PortLines(ports, kind, parent, deep)
  {
    s := source;
    for i := 0 to |ports|
      invariant s == source + PortLines(ports[..i], kind, parent, deep)
    {
      assert ports[..i + 1][..i] == ports[..i];
      s := s + Stmt(deep, PortCall(kind, ports[i], parent, deep));
    }
    assert ports[..|ports|] == ports;
  }

  /** The loop over `node_tree.nodes`. */
  method AppendNodes(source: string, owner: Ports, tree: NodeTree, parent: string, deep: nat,
                     render: Render, alias: Alias) returns (r: Outcome)
    ensures r == Then(Ok(source), NodesText(owner, tree, parent, deep, render, alias, |tree.nodes|))
    decreases tree, 1, 0
  {
    var s := source;
    for i := 0 to |tree.nodes|
      invariant NodesText(owner, tree, parent, deep, render, alias, i).Ok?
      invariant s == source + NodesText(owner, tree, parent, deep, render, alias, i).value
    {
      ghost var prev := s;
      r := AppendNode(s, owner, tree, i, parent, deep, render, alias);
      if r.Err? {
        NodeErrEnds(owner, tree, i, parent, deep, render, alias);
        return;
      }
      s := r.value;
      NodeStep(owner, tree, i, parent, deep, render, alias, source, prev, s);
    }
    r := Ok(s);
  }

  /** One turn of the node loop: a group node's tree first, then the node. */
  method AppendNode(source: string, owner: Ports, tree: NodeTree, i: nat, parent: string, deep: nat,
                    render: Render, alias: Alias) returns (r: Outcome)
    requires i < |tree.nodes|
    ensures r == Then(Ok(source), NodeText(owner, tree, i, parent, deep, render, alias))
    decreases tree, 0
  {
    var node := tree.nodes[i];
    var s := source;
    if node.nodeType == "GROUP" {
      if node.group.None? {
        ThenErrRight(source, NodeText(owner, tree, i, parent, deep, render, alias));
        return Err(GroupWithoutTree);
      }
      var sub := node.group.value;
      var nested := parent + NatRepr(deep + 1);
      s := s + Stmt(deep, nested + " = bpy.data.node_groups.get('" + sub.name + "')");
      s := s + Stmt(deep, "if not " + nested + ":");
      s := s + Stmt(deep + 1, "node_tree" + NatRepr(deep + 1) + " = bpy.data.node_groups.new('"
                              + sub.name + "', '" + tree.blIdname + "')");
      var inner := ToSource(Ports(node.inputs, node.outputs), sub, parent, deep + 1, render, alias);
      if inner.Err? {
        ThenErrRight(GroupHeader(sub.name, tree.blIdname, parent, deep), inner);
        ThenErrRight(source, NodeText(owner, tree, i, parent, deep, render, alias));
        return Err(inner.error);
      }
      s := s + inner.value + "\n";
      s := s + render(node, "node_tree" + NatRepr(deep), deep) + "\n";
      GroupNodeText(owner, tree, i, parent, deep, render, alias, source, inner.value);
    } else {
      s := s + render(node, "node_tree" + NatRepr(deep), deep) + "\n";
      Associate(source, render(node, "node_tree" + NatRepr(deep), deep), "\n");
    }
    r := Ok(s);
  }

  /** The loop over `node_tree.links`. */
  method AppendLinks(source: string, tree: NodeTree, parent: string, deep: nat, alias: Alias) returns (r: Outcome)
    ensures r == Then(Ok(source), ThenAll(tree.links, LinkLineOf(parent, deep, alias)))
  {
    ghost var line := LinkLineOf(parent, deep, alias);
    var s := source;
    for i := 0 to |tree.links|
      invariant ThenAll(tree.links[..i], line).Ok?
      invariant s == source + ThenAll(tree.links[..i], line).value
    {
      ghost var done := ThenAll(tree.links[..i], line).value;
      ThenAllSnoc(tree.links, line, i);
      r := AppendLink(s, tree.links[i], parent, deep, alias);
      if r.Err? {
        ThenAllErrPersists(tree.links, line, i + 1);
        return;
      }
      Associate(source, done, line(tree.links[i]).value);
      s := r.value;
    }
    assert tree.links[..|tree.links|] == tree.links;
    r := Ok(s);
  }

  /** One turn of the link loop: the sockets' positions, then the line. */
  method AppendLink(source: string, link: Link, parent: string, deep: nat, alias: Alias) returns (r: Outcome)
    ensures r == Then(Ok(source), LinkLineOf(parent, deep, alias)(link))
  {
    var fromAlias := alias(link.fromNode, deep);
    var toAlias := alias(link.toNode, deep);
    var fromIndex := IndexOf(link.fromNode.outputs, link.fromSocket);
    var toIndex := IndexOf(link.toNode.inputs, link.toSocket);
    if fromIndex.None? || toIndex.None? {
      return Err(SocketNotFound);
    }
    r := Ok(source + Stmt(deep, LinkCall(fromAlias, fromIndex.value, toAlias, toIndex.value, parent, deep)));
  }

  // ---------------------------------------------------------------------
  // `clear_source`
  // ---------------------------------------------------------------------

  /** `NodeTree.clear_source(parent_expr)` */
  function ClearSource(parent: string): string
  {
    "for node in " + parent + ".nodes:" + "\n" + "    " + parent + ".nodes.remove(node)" + "\n"
  }
}
