// Concrete texts. Two are accepted by the parser. The printed form of the first is not taken for the same
// scene: in the printed order a typed node follows an edited node with the same number. The
// second has two siblings of the same name, one of which is renamed when the scene is read from
// a document. The third keeps the parser in its ancestor walk for ever. Last, a tree whose
// siblings have distinct names for the renaming pass and the same path all the same.

module SceneExamples {
  import opened Text
  import opened SceneModel
  import opened SceneTree
  import opened ScenePreorder
  import opened SceneLinks
  import opened SceneLinkProof
  import opened SceneSections
  import opened SceneText
  import opened SceneRelink
  import opened SceneRoundTrip
  import opened SceneExact
  import opened SiblingNames
  import opened SceneStore

  const ROOT := NodeId(1, None)
  const INSTANCE := NodeId(2, None)
  const TYPED := NodeId(5, None)
  const EDITED := NodeId(5, Some([2]))

  function SimpleNode(id: NodeId, name: string, kind: Option<TypeOrInstance>, parent: Option<NodeId>, fallback: Option<string>,
                      children: seq<NodeId>): Node
  {
    Node(id, name, kind, None, parent, fallback, None, None, None, None, None, None, map[], children)
  }

  const RAW_ROOT := SimpleNode(NodeId(1, None), "R", Some(Type("Node")), None, None, [])
  const RAW_INSTANCE := SimpleNode(NodeId(2, None), "I", Some(Instance("scene")), None, Some("."), [])
  const RAW_TYPED := SimpleNode(NodeId(5, None), "T", Some(Type("Node")), None, Some("."), [])
  const RAW_EDITED := SimpleNode(NodeId(5, None), "E", None, None, Some("I"), [])

  const RAWS := [RAW_ROOT, RAW_INSTANCE, RAW_TYPED, RAW_EDITED]

  function NODES(): map<NodeId, Node>
  {
    map[ROOT := SimpleNode(ROOT, "R", Some(Type("Node")), None, None, [INSTANCE, TYPED]),
        INSTANCE := SimpleNode(INSTANCE, "I", Some(Instance("scene")), Some(ROOT), None, [EDITED]),
        TYPED := SimpleNode(TYPED, "T", Some(Type("Node")), Some(ROOT), None, []),
        EDITED := SimpleNode(EDITED, "E", None, Some(INSTANCE), None, [])]
  }

  const HEADER := Metadata(0, 3, "uid", None, PACKED_SCENE)

  function NodeText(raw: Node): Section
  {
    Section(NodeSection, Present(NodeFields(raw, raw.fallback)), [])
  }

  // A header and one section for each node.
  function Texts(raws: seq<Node>): seq<Section>
  {
    if raws == [] then [PrintHeader(HEADER)] else Texts(raws[..|raws| - 1]) + [NodeText(raws[|raws| - 1])]
  }

  const TEXT := Texts(RAWS)

  const SCENE := Scene(0, 3, "uid", None, PACKED_SCENE, Some(ROOT), map[], map[], NODES(), map[], [], None)

  // ---------- reading it ----------

  lemma ReadNodeText(step: Step, p: Parsed, raw: Node)
    requires ReadsNodes(step) && NodeTextOk(raw, raw.fallback.None?) && raw.properties == map[]
    requires raw.id.rootInstance == None && raw.parent == None && raw.children == []
    ensures step(p, NodeText(raw)) == Ok(AddNode(p, raw))
  {
    assert PrintsNode(raw, raw.fallback, NodeText(raw));
    assert RawNode(raw, raw.fallback) == raw;
  }

  function After(raws: seq<Node>, seen: set<int>): Parsed
  {
    NOTHING_PARSED.(meta := Some(HEADER), raws := raws, seen := seen)
  }

  lemma ReadNext(step: Step, raws: seq<Node>, seen: set<int>, raw: Node)
    requires ReadsNodes(step) && NodeTextOk(raw, raw.fallback.None?) && raw.properties == map[]
    requires raw.id.rootInstance == None && raw.parent == None && raw.children == [] && (raw.id.id in seen ==> raw.kind.None?)
    ensures step(After(raws, seen), NodeText(raw)) == Ok(After(raws + [raw], seen + {raw.id.id}))
  {
    ReadNodeText(step, After(raws, seen), raw);
  }

  function NumbersIn(raws: seq<Node>): set<int>
  {
    set raw | raw in raws :: raw.id.id
  }

  // A raw node without properties whose section is read back.
  predicate Plainly(raw: Node, seen: set<int>)
  {
    && NodeTextOk(raw, raw.fallback.None?) && raw.properties == map[]
    && raw.id.rootInstance == None && raw.parent == None && raw.children == [] && (raw.id.id in seen ==> raw.kind.None?)
  }

  lemma {:induction false} ReadTexts(step: Step, raws: seq<Node>)
    requires ReadsHeaders(step) && ReadsNodes(step)
    requires forall i :: 0 <= i < |raws| ==> Plainly(raws[i], NumbersIn(raws[..i]))
    ensures Fold(step, NOTHING_PARSED, Texts(raws)) == Ok(After(raws, NumbersIn(raws)))
  {
    if raws == [] {
      ReadHeaderOnly(step);
    } else {
      var front, last := raws[..|raws| - 1], raws[|raws| - 1];
      PlainFront(raws);
      ReadTexts(step, front);
      ReadNext(step, front, NumbersIn(front), last);
      NumbersSnoc(raws);
      FoldSnoc(step, NOTHING_PARSED, Texts(front), NodeText(last));
    }
  }

  lemma NumbersSnoc(raws: seq<Node>)
    requires raws != []
    ensures var front, last := raws[..|raws| - 1], raws[|raws| - 1]; raws == front + [last] && NumbersIn(raws) == NumbersIn(front) + {last.id.id}
  {
    var front, last := raws[..|raws| - 1], raws[|raws| - 1];
    assert raws == front + [last];
  }

  lemma PlainFront(raws: seq<Node>)
    requires raws != [] && forall i :: 0 <= i < |raws| ==> Plainly(raws[i], NumbersIn(raws[..i]))
    ensures var front := raws[..|raws| - 1]; forall i :: 0 <= i < |front| ==> Plainly(front[i], NumbersIn(front[..i]))
  {
    var front := raws[..|raws| - 1];
    forall i | 0 <= i < |front| ensures Plainly(front[i], NumbersIn(front[..i])) { assert front[..i] == raws[..i]; }
  }

  lemma ReadHeaderOnly(step: Step)
    requires ReadsHeaders(step)
    ensures Fold(step, NOTHING_PARSED, Texts([])) == Ok(After([], NumbersIn([])))
  {
    assert Texts([]) == [PrintHeader(HEADER)];
    FoldSnoc(step, NOTHING_PARSED, [], PrintHeader(HEADER));
    assert [] + [PrintHeader(HEADER)] == [PrintHeader(HEADER)];
    assert After([], NumbersIn([])) == NOTHING_PARSED.(meta := Some(HEADER));
  }

  lemma FoldSnoc<S, A>(step: (S, A) -> Result<S>, s: S, xs: seq<A>, x: A)
    requires Fold(step, s, xs).Ok?
    ensures Fold(step, s, xs + [x]) == step(Fold(step, s, xs).value, x)
  {
    assert (xs + [x])[..|xs|] == xs;
  }

  lemma RawsPlain()
    ensures forall i :: 0 <= i < 4 ==> Plainly(RAWS[i], NumbersIn(RAWS[..i]))
  {
    assert Plainly(RAW_ROOT, NumbersIn(RAWS[..0])) && Plainly(RAW_INSTANCE, NumbersIn(RAWS[..1]));
    assert RAWS[..2] == [RAW_ROOT, RAW_INSTANCE];
    assert Plainly(RAW_TYPED, NumbersIn(RAWS[..2]));
    assert Plainly(RAW_EDITED, NumbersIn(RAWS[..3]));
  }

  // ---------- linking it ----------

  lemma Passed(front: seq<Node>, l: Links, raw: Node, next: Links)
    requires IdPass(front) == Ok(l) && IdStep(l, raw) == Ok(next)
    ensures IdPass(front + [raw]) == Ok(next)
  {
    assert (front + [raw])[..|front|] == front;
  }

  // The links after node `n` was made of `raw`.
  function Next(l: Links, raw: Node, n: Node): Links
  {
    RecordPath(l, raw.fallback, raw.name, n.id).(nodes := l.nodes[n.id := n], keys := l.keys + [n.id])
  }

  const IDENTIFIED := RAW_EDITED.(id := EDITED, parent := Some(INSTANCE), fallback := None)

  const L1 := Next(NO_LINKS, RAW_ROOT, RAW_ROOT)
  const L2 := Next(L1, RAW_INSTANCE, RAW_INSTANCE)
  const L3 := Next(L2, RAW_TYPED, RAW_TYPED)
  const L4 := Next(L3, RAW_EDITED, IDENTIFIED)

  lemma NextStep(l: Links, raw: Node, n: Node)
    requires raw.id != UNASSIGNED && Identify(l, raw) == Ok(n) && n.id !in l.nodes
    ensures IdStep(l, raw) == Ok(Next(l, raw, n))
  {
  }

  lemma PopLetter(c: char)
    requires c != '/'
    ensures Pop([c]) == ""
  {
    assert [c][..0] == "";
  }

  lemma WalkedEdited()
    ensures Identify(L3, RAW_EDITED) == Ok(IDENTIFIED)
  {
    PopLetter('I');
    assert "I" == ['I'];
    assert "I" in L3.paths && L3.paths["I"] == INSTANCE && L3.nodes[INSTANCE] == RAW_INSTANCE;
    assert Walk(L3.paths, L3.nodes, "", Ancestry(Some(INSTANCE), [2] + [])) == Some(Ancestry(Some(INSTANCE), [2] + []));
    assert [2] + [] == [2];
    assert Walk(L3.paths, L3.nodes, "I", Ancestry(None, [])) == Some(Ancestry(Some(INSTANCE), [2]));
  }

  lemma FirstPass()
    ensures IdPass(RAWS) == Ok(L4)
  {
    NextStep(NO_LINKS, RAW_ROOT, RAW_ROOT);
    Passed([], NO_LINKS, RAW_ROOT, L1);
    NextStep(L1, RAW_INSTANCE, RAW_INSTANCE);
    Passed([] + [RAW_ROOT], L1, RAW_INSTANCE, L2);
    NextStep(L2, RAW_TYPED, RAW_TYPED);
    Passed([] + [RAW_ROOT] + [RAW_INSTANCE], L2, RAW_TYPED, L3);
    WalkedEdited();
    NextStep(L3, RAW_EDITED, IDENTIFIED);
    Passed([] + [RAW_ROOT] + [RAW_INSTANCE] + [RAW_TYPED], L3, RAW_EDITED, L4);
    assert RAWS == [] + [RAW_ROOT] + [RAW_INSTANCE] + [RAW_TYPED] + [RAW_EDITED];
  }

  const CHILD := RAW_INSTANCE.(parent := Some(ROOT), fallback := None)
  const SIBLING := RAW_TYPED.(parent := Some(ROOT), fallback := None)

  const N1 := Store(L4.nodes, ROOT, RAW_ROOT)
  const N2 := Store(N1, INSTANCE, CHILD)
  const N3 := Store(N2, TYPED, SIBLING)
  const N4 := Store(N3, EDITED, IDENTIFIED)

  lemma NextAdopted(paths: map<string, NodeId>, nodes: map<NodeId, Node>, front: seq<NodeId>, before: map<NodeId, Node>, k: NodeId, n: Node)
    requires (forall i :: 0 <= i < |front| ==> front[i] in nodes) && k in nodes && ParentPass(paths, nodes, front) == Ok(before)
    requires Adopt(paths, before[k]) == Ok(n) && (n.parent.Some? ==> n.parent.value in before)
    ensures ParentPass(paths, nodes, front + [k]) == Ok(Store(before, k, n))
  {
    assert (front + [k])[..|front|] == front;
    ParentStepStores(paths, before, k, n);
  }

  lemma SecondPass()
    ensures ROOT in L4.nodes && INSTANCE in L4.nodes && TYPED in L4.nodes && EDITED in L4.nodes
    ensures ParentPass(L4.paths, L4.nodes, [] + [ROOT] + [INSTANCE] + [TYPED] + [EDITED]) == Ok(N4)
  {
    var paths := L4.paths;
    assert "." in paths && paths["."] == ROOT;
    NextAdopted(paths, L4.nodes, [], L4.nodes, ROOT, RAW_ROOT);
    NextAdopted(paths, L4.nodes, [] + [ROOT], N1, INSTANCE, CHILD);
    NextAdopted(paths, L4.nodes, [] + [ROOT] + [INSTANCE], N2, TYPED, SIBLING);
    NextAdopted(paths, L4.nodes, [] + [ROOT] + [INSTANCE] + [TYPED], N3, EDITED, IDENTIFIED);
  }

  lemma Stored()
    ensures N4 == NODES()
  {
    var nodes := NODES();
    assert N4.Keys == nodes.Keys;
    assert N4[ROOT] == nodes[ROOT] by { assert [] + [INSTANCE] + [TYPED] == [INSTANCE, TYPED]; }
    assert N4[INSTANCE] == nodes[INSTANCE] by { assert [] + [EDITED] == [EDITED]; }
    assert N4[TYPED] == nodes[TYPED];
    assert N4[EDITED] == nodes[EDITED];
  }

  lemma TextAccepted()
    ensures Parse(TEXT) == Ok(SCENE)
  {
    ReadSectionReadsPrinted();
    RawsPlain();
    ReadTexts(ReadSection, RAWS);
    FirstPass();
    SecondPass();
    Stored();
    assert L4.keys == [] + [ROOT] + [INSTANCE] + [TYPED] + [EDITED];
    var p := After(RAWS, NumbersIn(RAWS));
    assert ReadAll(TEXT) == Ok(p);
    assert Link(p.raws) == Ok(L4.(nodes := NODES()));
    assert Finish(p) == Ok(SCENE);
  }

  // ---------- printing it ----------

  lemma PrintedOrder(t: Tree)
    requires TreeOf(SCENE, t)
    ensures Preorder(t, t.root) == [ROOT, INSTANCE, EDITED, TYPED]
  {
    var nodes := NODES();
    assert t.nodes[ROOT] == nodes[ROOT];
    ChildDepth(t, ROOT, 0);
    ChildDepth(t, ROOT, 1);
    assert t.nodes[INSTANCE] == nodes[INSTANCE] && t.nodes[TYPED] == nodes[TYPED];
    ChildDepth(t, INSTANCE, 0);
    assert t.nodes[EDITED] == nodes[EDITED];
    assert Forest(t, EDITED, 0) == [] && Forest(t, TYPED, 0) == [];
    assert Preorder(t, EDITED) == [EDITED] && Preorder(t, TYPED) == [TYPED];
    assert Forest(t, INSTANCE, 1) == [];
    assert Forest(t, INSTANCE, 0) == [EDITED];
    assert Preorder(t, INSTANCE) == [INSTANCE, EDITED];
    assert Forest(t, ROOT, 2) == [];
    assert Forest(t, ROOT, 1) == [TYPED];
    assert Forest(t, ROOT, 0) == [INSTANCE, EDITED] + [TYPED];
  }

  lemma NumberRepeated(t: Tree)
    requires TreeOf(SCENE, t)
    ensures !FreshNumbers(t, Preorder(t, t.root))
  {
    PrintedOrder(t);
    var o := Preorder(t, t.root);
    assert o[2] == EDITED && o[3] == TYPED;
    PreorderBelow(t, t.root, o[3]);
    assert t.nodes[TYPED] == NODES()[TYPED];
  }

  lemma NamesProper(t: Tree)
    requires TreeOf(SCENE, t)
    ensures ProperNames(t)
  {
    forall k | k in t.nodes && k != t.root ensures NameOk(t, k) { OneLetter(k); }
  }

  lemma OneLetter(k: NodeId)
    requires k in NODES()
    ensures var name := NODES()[k].name; name != "" && Lacks(name, '/') && name != "."
  {
    assert "R" != "." && "I" != "." && "T" != "." && "E" != ".";
  }

  lemma OkIsFresh(s: Scene, t: Tree)
    requires SceneOk(s, t) && s.root.Some?
    ensures FreshNumbers(t, Preorder(t, t.root))
  {
  }

  // The printed text of this scene is not taken for the scene again: the typed node stands
  // behind the edited one and loses its number.
  lemma PrintedTextDiffers(t: Tree, layout: Layout, p: Pieces)
    requires TreeOf(SCENE, t) && Prints(SCENE, t, layout, p)
    ensures Parse(TEXT) == Ok(SCENE) && Parse(AllSections(p)) != Ok(SCENE)
  {
    TextAccepted();
    NumberRepeated(t);
    NamesProper(t);
    if SceneOk(SCENE, t) { OkIsFresh(SCENE, t); }
    ReparsedExactly(TEXT, SCENE, t, layout, p);
  }

  // ---------- two siblings with the same name ----------

  const FIRST := NodeId(2, None)
  const SECOND := NodeId(3, None)
  const RAW_FIRST := SimpleNode(FIRST, "A", Some(Type("Node")), None, Some("."), [])
  const RAW_SECOND := SimpleNode(SECOND, "A", Some(Type("Node")), None, Some("."), [])

  const TWIN_RAWS := [RAW_ROOT, RAW_FIRST, RAW_SECOND]
  const TWIN_TEXT := Texts(TWIN_RAWS)

  function TWIN_NODES(): map<NodeId, Node>
  {
    map[ROOT := SimpleNode(ROOT, "R", Some(Type("Node")), None, None, [FIRST, SECOND]),
        FIRST := SimpleNode(FIRST, "A", Some(Type("Node")), Some(ROOT), None, []),
        SECOND := SimpleNode(SECOND, "A", Some(Type("Node")), Some(ROOT), None, [])]
  }

  const TWINS := Scene(0, 3, "uid", None, PACKED_SCENE, Some(ROOT), map[], map[], TWIN_NODES(), map[], [], None)

  const M2 := Next(L1, RAW_FIRST, RAW_FIRST)
  const M3 := Next(M2, RAW_SECOND, RAW_SECOND)

  const ADOPTED_FIRST := RAW_FIRST.(parent := Some(ROOT), fallback := None)
  const ADOPTED_SECOND := RAW_SECOND.(parent := Some(ROOT), fallback := None)

  const K1 := Store(M3.nodes, ROOT, RAW_ROOT)
  const K2 := Store(K1, FIRST, ADOPTED_FIRST)
  const K3 := Store(K2, SECOND, ADOPTED_SECOND)

  lemma TwinsFirstPass()
    ensures IdPass(TWIN_RAWS) == Ok(M3)
  {
    NextStep(NO_LINKS, RAW_ROOT, RAW_ROOT);
    Passed([], NO_LINKS, RAW_ROOT, L1);
    NextStep(L1, RAW_FIRST, RAW_FIRST);
    Passed([] + [RAW_ROOT], L1, RAW_FIRST, M2);
    NextStep(M2, RAW_SECOND, RAW_SECOND);
    Passed([] + [RAW_ROOT] + [RAW_FIRST], M2, RAW_SECOND, M3);
    assert TWIN_RAWS == [] + [RAW_ROOT] + [RAW_FIRST] + [RAW_SECOND];
  }

  lemma TwinsSecondPass()
    ensures ROOT in M3.nodes && FIRST in M3.nodes && SECOND in M3.nodes
    ensures ParentPass(M3.paths, M3.nodes, [] + [ROOT] + [FIRST] + [SECOND]) == Ok(K3)
  {
    var paths := M3.paths;
    assert "." in paths && paths["."] == ROOT;
    NextAdopted(paths, M3.nodes, [], M3.nodes, ROOT, RAW_ROOT);
    NextAdopted(paths, M3.nodes, [] + [ROOT], K1, FIRST, ADOPTED_FIRST);
    NextAdopted(paths, M3.nodes, [] + [ROOT] + [FIRST], K2, SECOND, ADOPTED_SECOND);
  }

  lemma TwinsStored()
    ensures K3 == TWIN_NODES()
  {
    var nodes := TWIN_NODES();
    assert K3.Keys == nodes.Keys;
    assert K3[ROOT] == nodes[ROOT] by { assert [] + [FIRST] + [SECOND] == [FIRST, SECOND]; }
    assert K3[FIRST] == nodes[FIRST];
    assert K3[SECOND] == nodes[SECOND];
  }

  lemma TwinsPlain()
    ensures forall i :: 0 <= i < 3 ==> Plainly(TWIN_RAWS[i], NumbersIn(TWIN_RAWS[..i]))
  {
    assert Plainly(RAW_ROOT, NumbersIn(TWIN_RAWS[..0])) && Plainly(RAW_FIRST, NumbersIn(TWIN_RAWS[..1]));
    assert TWIN_RAWS[..2] == [RAW_ROOT, RAW_FIRST];
    assert Plainly(RAW_SECOND, NumbersIn(TWIN_RAWS[..2]));
  }

  lemma TwinsAccepted()
    ensures Parse(TWIN_TEXT) == Ok(TWINS)
  {
    ReadSectionReadsPrinted();
    TwinsPlain();
    ReadTexts(ReadSection, TWIN_RAWS);
    TwinsFirstPass();
    TwinsSecondPass();
    TwinsStored();
    assert M3.keys == [] + [ROOT] + [FIRST] + [SECOND];
    var p := After(TWIN_RAWS, NumbersIn(TWIN_RAWS));
    assert ReadAll(TWIN_TEXT) == Ok(p);
    assert Link(p.raws) == Ok(M3.(nodes := TWIN_NODES()));
    assert Finish(p) == Ok(TWINS);
  }

  lemma TwinsClash()
    ensures !Unclashed(TWIN_NODES()) && KeysReadable(TWIN_NODES())
  {
    var nodes := TWIN_NODES();
    assert Kids(nodes, FIRST) == [FIRST, SECOND];
    assert [FIRST, SECOND][1] == SECOND;
    assert nodes[SECOND].name in Taken(nodes, Kids(nodes, FIRST), FIRST);
    forall k | k in nodes ensures KeyReadable(k) { assert IdNumbers(k) == [k.id]; }
  }

  // One commit by a single writer, and no order of visiting the nodes reads the scene back.
  lemma TwinsRenamed(order: Order, st: Stored)
    requires OrderOk(order) && Stores(TWINS, st)
    ensures Parse(TWIN_TEXT) == Ok(TWINS) && ReadStored(order, st) != Some(TWINS)
  {
    TwinsAccepted();
    TwinsClash();
    SceneReadBack(order, TWINS, st);
  }

  // ---------- an ancestor that was never recorded ----------

  const RAW_LOST := SimpleNode(NodeId(2, None), "B", Some(Type("Node")), None, Some("A"), [])
  const RAW_BELOW := SimpleNode(NodeId(3, None), "E", None, None, Some("A/B"), [])
  const LOST_RAWS := [RAW_ROOT, RAW_LOST, RAW_BELOW]
  const LOST_TEXT := Texts(LOST_RAWS)
  const H2 := Next(L1, RAW_LOST, RAW_LOST)

  lemma LostPlain()
    ensures forall i :: 0 <= i < 3 ==> Plainly(LOST_RAWS[i], NumbersIn(LOST_RAWS[..i]))
  {
    assert Plainly(RAW_ROOT, NumbersIn(LOST_RAWS[..0])) && Plainly(RAW_LOST, NumbersIn(LOST_RAWS[..1]));
    assert LOST_RAWS[..2] == [RAW_ROOT, RAW_LOST];
    assert Plainly(RAW_BELOW, NumbersIn(LOST_RAWS[..2]));
  }

  lemma LostWalk()
    ensures Identify(H2, RAW_BELOW) == Err(NeverEnds)
  {
    assert "A" + "/" + "B" == "A/B" && Lacks("B", '/');
    PopChild("A", "B");
    assert "A/B" in H2.paths && H2.paths["A/B"] == RAW_LOST.id;
    assert Passes(H2.paths, H2.nodes, "A/B") && "A" !in H2.paths;
    assert Popped("A/B", 0) == "A/B" && Popped("A/B", 1) == Popped("A", 0) == "A";
    assert StuckAt(H2.paths, H2.nodes, "A/B", 1);
    WalkNeverEnds(H2.paths, H2.nodes, "A/B", Ancestry(None, []));
  }

  lemma LostFirstPass()
    ensures IdPass(LOST_RAWS) == Err(NeverEnds)
  {
    NextStep(NO_LINKS, RAW_ROOT, RAW_ROOT);
    Passed([], NO_LINKS, RAW_ROOT, L1);
    NextStep(L1, RAW_LOST, RAW_LOST);
    Passed([] + [RAW_ROOT], L1, RAW_LOST, H2);
    LostWalk();
    assert LOST_RAWS[..2] == [] + [RAW_ROOT] + [RAW_LOST];
  }

  // The parent path of the last node is recorded, the path above it is not.
  lemma LostTextHangs()
    ensures Parse(LOST_TEXT) == Err(NeverEnds)
  {
    ReadSectionReadsPrinted();
    LostPlain();
    ReadTexts(ReadSection, LOST_RAWS);
    LostFirstPass();
    var p := After(LOST_RAWS, NumbersIn(LOST_RAWS));
    assert ReadAll(LOST_TEXT) == Ok(p);
    assert Link(p.raws) == Err(NeverEnds);
  }

  // ---------- a typed and an edited child of the root ----------

  const EDITED_TWIN := NodeId(3, Some([1]))

  function MIXED(): Tree
  {
    Tree(map[ROOT := SimpleNode(ROOT, "R", Some(Type("Node")), None, None, [FIRST, EDITED_TWIN]),
             FIRST := SimpleNode(FIRST, "A", Some(Type("Node")), Some(ROOT), None, []),
             EDITED_TWIN := SimpleNode(EDITED_TWIN, "A", None, Some(ROOT), Some("."), [])],
         ROOT, map[ROOT := 0, FIRST := 1, EDITED_TWIN := 1], 1)
  }

  lemma MixedLinked()
    ensures Linked(MIXED())
  {
    var t := MIXED();
    assert [FIRST, EDITED_TWIN][0] == FIRST && [FIRST, EDITED_TWIN][1] == EDITED_TWIN;
    assert HasParent(t, FIRST) && HasParent(t, EDITED_TWIN);
    assert HasChild(t, ROOT, FIRST) && HasChild(t, ROOT, EDITED_TWIN);
  }

  lemma MixedDistinct()
    ensures NamesDistinct(MIXED().nodes)
  {
    var nodes := MIXED().nodes;
    assert nodes[FIRST].fallback != nodes[EDITED_TWIN].fallback;
    assert nodes[ROOT].parent == None;
  }

  lemma MixedPlaced(k: NodeId)
    requires Linked(MIXED()) && k in MIXED().nodes && k != ROOT
    ensures PlacedOk(MIXED(), k) && Parent(MIXED(), k) == ROOT
  {
  }

  // The renaming pass leaves both their name, and both are printed under it.
  lemma MixedTwins()
    ensures Linked(MIXED()) && NamesDistinct(MIXED().nodes)
    ensures FIRST in MIXED().nodes && EDITED_TWIN in MIXED().nodes
    ensures NodePath(MIXED(), FIRST) == NodePath(MIXED(), EDITED_TWIN) && !SiblingsOk(MIXED())
  {
    MixedLinked();
    MixedDistinct();
    var t := MIXED();
    forall k | k in t.nodes && k != t.root ensures PlacedOk(t, k) { MixedPlaced(k); }
    MixedPlaced(FIRST);
    MixedPlaced(EDITED_TWIN);
    assert RootTwins(t, FIRST, EDITED_TWIN);
    PathsSeparated(t);
  }
}
