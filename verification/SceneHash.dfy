// The text of a scene before and after it was stored: it is the same exactly when the scene is.

module SceneHash {
  import opened Text
  import opened SceneModel
  import opened SceneTree
  import opened ScenePreorder
  import opened SceneSections
  import opened SceneText
  import opened SceneWriter
  import opened SceneStability
  import opened SiblingNames
  import opened SceneStore

  // ---------- renamed nodes are printed in the same places ----------

  // The tree with other names.
  function Renamed(t: Tree, nodes: Nodes): Tree
  {
    t.(nodes := nodes)
  }

  lemma RenamedLinked(t: Tree, nodes: Nodes)
    requires Linked(t) && SameButNames(t.nodes, nodes)
    ensures Linked(Renamed(t, nodes))
  {
    var r := Renamed(t, nodes);
    forall k | k in r.nodes && k != r.root ensures HasParent(r, k) { assert HasParent(t, k); }
    forall k, i | k in r.nodes && 0 <= i < |r.nodes[k].children| ensures HasChild(r, k, r.nodes[k].children[i]) {
      assert HasChild(t, k, t.nodes[k].children[i]);
    }
  }

  lemma {:induction false} RenamedPreorder(t: Tree, nodes: Nodes, k: NodeId)
    requires Linked(t) && SameButNames(t.nodes, nodes) && Linked(Renamed(t, nodes)) && k in t.nodes
    ensures Preorder(Renamed(t, nodes), k) == Preorder(t, k)
    decreases t.bound - t.depth[k], |t.nodes[k].children| + 1
  {
    RenamedForest(t, nodes, k, 0);
  }

  lemma {:induction false} RenamedForest(t: Tree, nodes: Nodes, k: NodeId, i: nat)
    requires Linked(t) && SameButNames(t.nodes, nodes) && Linked(Renamed(t, nodes)) && k in t.nodes && i <= |t.nodes[k].children|
    ensures Forest(Renamed(t, nodes), k, i) == Forest(t, k, i)
    decreases t.bound - t.depth[k], |t.nodes[k].children| - i
  {
    if i < |t.nodes[k].children| {
      ChildDepth(t, k, i);
      RenamedPreorder(t, nodes, t.nodes[k].children[i]);
      RenamedForest(t, nodes, k, i + 1);
    }
  }

  // ---------- and differ in their names ----------

  lemma PrintedName(n: Node, parentName: Option<string>, s: Section)
    requires PrintsNode(n, parentName, s)
    ensures Lookup(s.attributes, Name) == Some(Quote(n.name))
  {
    NodeAttributes(n, parentName);
  }

  lemma SameSectionSameName(a: Node, b: Node, x: Option<string>, y: Option<string>, s: Section)
    requires PrintsNode(a, x, s) && PrintsNode(b, y, s)
    ensures a.name == b.name
  {
    PrintedName(a, x, s);
    PrintedName(b, y, s);
    UnquoteQuote(a.name);
    UnquoteQuote(b.name);
  }

  lemma SameNodesText(p: Pieces, q: Pieces)
    requires |p.ext| == |q.ext| && |p.sub| == |q.sub| && p.main == q.main == [] && |p.nodes| == |q.nodes|
    requires AllSections(p) == AllSections(q)
    ensures p.nodes == q.nodes
  {
    var n := 1 + |p.ext| + |p.sub|;
    assert AllSections(p)[n..n + |p.nodes|] == p.nodes;
    assert AllSections(q)[n..n + |q.nodes|] == q.nodes;
  }

  lemma NamesAgree(t: Tree, nodes: Nodes, sections: seq<Section>, k: NodeId)
    requires Linked(t) && SameButNames(t.nodes, nodes) && Linked(Renamed(t, nodes)) && k in t.nodes
    requires PrintsNodes(t, Preorder(t, t.root), sections)
    requires PrintsNodes(Renamed(t, nodes), Preorder(t, t.root), sections)
    ensures nodes[k] == t.nodes[k]
  {
    PreorderCovers(t, k);
    var o, r := Preorder(t, t.root), Renamed(t, nodes);
    var i :| 0 <= i < |o| && o[i] == k;
    SameSectionSameName(t.nodes[k], nodes[k], PrintedParent(t, k), PrintedParent(r, k), sections[i]);
  }

  // All nodes of the scene are printed.
  ghost predicate AllPrinted(s: Scene, t: Tree)
  {
    s.nodes == map[] || TreePrinted(s, t)
  }

  ghost predicate TreePrinted(s: Scene, t: Tree)
  {
    TreeOf(s, t) && s.root.Some? && t.nodes == s.nodes && s.mainResource.None?
  }

  // Other names, another text.
  lemma RenamedText(s: Scene, t: Tree, nodes: Nodes, l1: Layout, p1: Pieces, l2: Layout, p2: Pieces)
    requires TreePrinted(s, t) && SameButNames(s.nodes, nodes) && TreeOf(s.(nodes := nodes), Renamed(t, nodes))
    requires Prints(s, t, l1, p1) && Prints(s.(nodes := nodes), Renamed(t, nodes), l2, p2)
    requires AllSections(p1) == AllSections(p2)
    ensures nodes == s.nodes
  {
    RenamedLinked(t, nodes);
    RenamedPreorder(t, nodes, t.root);
    SameNodesText(p1, p2);
    forall k | k in nodes ensures nodes[k] == s.nodes[k] { NamesAgree(t, nodes, p1.nodes, k); }
  }

  lemma ReadRenames(order: Order, s: Scene, st: Stored)
    requires OrderOk(order) && Stores(s, st) && KeysReadable(s.nodes) && ReadStored(order, st).Some?
    ensures var nodes := ReadStored(order, st).value.nodes; ReadStored(order, st).value == s.(nodes := nodes) && SameButNames(s.nodes, nodes)
  {
    ReadKeysBack(s.nodes, st.nodes);
  }

  // The text of a stored scene as it is read back is its text at the commit exactly when the
  // scene survived: nothing was renamed.
  lemma TextReadBack(order: Order, s: Scene, t: Tree, st: Stored, nodes: Nodes, l1: Layout, p1: Pieces, l2: Layout, p2: Pieces)
    requires OrderOk(order) && Stores(s, st) && KeysReadable(s.nodes) && ReadStored(order, st) == Some(s.(nodes := nodes))
    requires TreePrinted(s, t) && OneText(s, t) && Prints(s, t, l1, p1)
    requires TreeOf(s.(nodes := nodes), Renamed(t, nodes)) && Prints(s.(nodes := nodes), Renamed(t, nodes), l2, p2)
    ensures AllSections(p1) == AllSections(p2) <==> Survives(s)
  {
    ReadRenames(order, s, st);
    SceneReadBack(order, s, st);
    if AllSections(p1) == AllSections(p2) { RenamedText(s, t, nodes, l1, p1, l2, p2); }
    if Survives(s) { SameTexts(s, t, nodes, l1, p1, l2, p2); }
  }

  lemma SameTexts(s: Scene, t: Tree, nodes: Nodes, l1: Layout, p1: Pieces, l2: Layout, p2: Pieces)
    requires TreePrinted(s, t) && OneText(s, t) && s.(nodes := nodes) == s && Prints(s, t, l1, p1)
    requires TreeOf(s.(nodes := nodes), Renamed(t, nodes)) && Prints(s.(nodes := nodes), Renamed(t, nodes), l2, p2)
    ensures AllSections(p1) == AllSections(p2)
  {
    assert Renamed(t, nodes) == t;
  }

  // ---------- a renamed scene can be printed ----------

  lemma {:induction false} SettleNamed(name: string, taken: set<string>)
    requires name != ""
    ensures Settle(name, taken).Some? ==> Settle(name, taken).value != ""
    decreases Ahead(name, taken)
  {
    if name in taken && NextName(name).Some? {
      if Tail(name) != "" { DigitsValue(SiblingNames.Number(name) + 1); }
      AheadShrinks(name, NextName(name).value, taken);
      SettleNamed(NextName(name).value, taken);
    }
  }

  lemma {:induction false} NamesStay(start: Nodes, order: seq<NodeId>, k: NodeId)
    requires (forall x :: x in order ==> x in start) && RenameAll(start, order).Some? && k in start && start[k].name != ""
    ensures RenameAll(start, order).value[k].name != ""
  {
    if order != [] {
      var front, id := order[..|order| - 1], order[|order| - 1];
      NamesStay(start, front, k);
      var done := RenameAll(start, front).value;
      if k == id { SettleNamed(done[id].name, Taken(done, Kids(done, id), id)); }
    }
  }

  lemma RenamedPrintable(s: Scene, t: Tree, nodes: Nodes)
    requires TreePrinted(s, t) && Printable(s, t) && SameButNames(s.nodes, nodes)
    requires forall k :: k in nodes && s.nodes[k].name != "" ==> nodes[k].name != ""
    ensures Printable(s.(nodes := nodes), Renamed(t, nodes))
  {
    RenamedLinked(t, nodes);
  }

  lemma ReadPrintable(order: Order, s: Scene, t: Tree, st: Stored)
    requires OrderOk(order) && Stores(s, st) && KeysReadable(s.nodes) && ReadStored(order, st).Some?
    requires TreePrinted(s, t) && Printable(s, t)
    ensures Printable(ReadStored(order, st).value, Renamed(t, ReadStored(order, st).value.nodes))
  {
    ReadRenames(order, s, st);
    ReadNamed(order, s, st);
    RenamedPrintable(s, t, ReadStored(order, st).value.nodes);
  }

  lemma ReadNamed(order: Order, s: Scene, st: Stored)
    requires OrderOk(order) && Stores(s, st) && KeysReadable(s.nodes) && ReadStored(order, st).Some?
    ensures var nodes := ReadStored(order, st).value.nodes;
      nodes.Keys == s.nodes.Keys && forall k :: k in nodes && s.nodes[k].name != "" ==> nodes[k].name != ""
  {
    ReadKeysBack(s.nodes, st.nodes);
    AllNamed(s.nodes, order(s.nodes));
  }

  lemma AllNamed(start: Nodes, order: seq<NodeId>)
    requires (forall x :: x in order ==> x in start) && RenameAll(start, order).Some?
    ensures forall k :: k in start && start[k].name != "" ==> RenameAll(start, order).value[k].name != ""
  {
    forall k | k in start && start[k].name != "" ensures RenameAll(start, order).value[k].name != "" { NamesStay(start, order, k); }
  }
}
