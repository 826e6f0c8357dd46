// An accepted text with nested instances: two instances of one scene, an edited node in each of
// them and an edited node below that. Nodes of one number are told apart by their instance paths.

module SceneNested {
  import opened Text
  import opened SceneModel
  import opened SceneTree
  import opened SceneLinks
  import opened SceneParsed
  import opened ScenePreorder
  import opened SceneText
  import opened SceneRoundTrip
  import opened SceneExamples
  import opened SceneInstances
  import opened SceneVerdict

  const FIRST_INNER := NodeId(6, Some([2, 5]))
  const OTHER := NodeId(3, None)
  const OTHER_EDITED := NodeId(5, Some([3]))
  const OTHER_INNER := NodeId(6, Some([3, 5]))

  const RAW_INNER := SimpleNode(NodeId(6, None), "F", None, None, Some("I/E"), [])
  const RAW_OTHER := SimpleNode(NodeId(3, None), "J", Some(Instance("scene")), None, Some("."), [])
  const RAW_OTHER_EDITED := SimpleNode(NodeId(5, None), "E", None, None, Some("J"), [])
  const RAW_OTHER_INNER := SimpleNode(NodeId(6, None), "F", None, None, Some("J/E"), [])

  const NESTED_RAWS := [RAW_ROOT, RAW_INSTANCE, RAW_EDITED, RAW_INNER, RAW_OTHER, RAW_OTHER_EDITED, RAW_OTHER_INNER]
  const NESTED_TEXT := Texts(NESTED_RAWS)

  lemma NestedPlain()
    ensures forall i :: 0 <= i < 7 ==> Plainly(NESTED_RAWS[i], NumbersIn(NESTED_RAWS[..i]))
  {
    assert Plainly(RAW_ROOT, NumbersIn(NESTED_RAWS[..0])) && Plainly(RAW_INSTANCE, NumbersIn(NESTED_RAWS[..1]));
    assert Plainly(RAW_EDITED, NumbersIn(NESTED_RAWS[..2])) && Plainly(RAW_INNER, NumbersIn(NESTED_RAWS[..3]));
    assert NESTED_RAWS[..4] == [RAW_ROOT, RAW_INSTANCE, RAW_EDITED, RAW_INNER];
    assert Plainly(RAW_OTHER, NumbersIn(NESTED_RAWS[..4])) && Plainly(RAW_OTHER_EDITED, NumbersIn(NESTED_RAWS[..5]));
    assert Plainly(RAW_OTHER_INNER, NumbersIn(NESTED_RAWS[..6]));
  }

  // ---------- first pass ----------

  // An edited node right below an instance that is a child of the root.
  lemma BelowInstance(l: Links, raw: Node, c: char, k: NodeId)
    requires ByParentPath(raw, [c]) && c != '/' && [c] in l.paths && l.paths[[c]] == k
    requires k in l.nodes && l.nodes[k].id == k && k.rootInstance == None && IsInstance(l.nodes[k])
    ensures Identify(l, raw) == Ok(raw.(id := NodeId(raw.id.id, Some([k.id])), parent := Some(k), fallback := None))
  {
    PopLetter(c);
    assert NodesAbove(l, [c], [k]);
    InstancePathOf(l, raw, [c], [k]);
    assert [k][1..] == [] && NumbersAbove(l, [k]) == [] + [k.id];
    assert LastOnes([], [k.id]) + [k.id] == [k.id];
  }

  // An edited node right below an edited one.
  lemma BelowEdited(l: Links, raw: Node, path: string, k: NodeId, above: int)
    requires ByParentPath(raw, path) && path in l.paths && l.paths[path] == k
    requires k in l.nodes && l.nodes[k].id == k && k.rootInstance == Some([above]) && above != k.id
    ensures Identify(l, raw) == Ok(raw.(id := NodeId(raw.id.id, Some([above, k.id])), parent := Some(k), fallback := None))
  {
    assert NodesAbove(l, path, [k]);
    InstancePathOf(l, raw, path, [k]);
    TopAlone(l, [k]);
    LastOnesMembers([above], [k.id]);
    assert [above] + [k.id] == [above, k.id];
  }

  const FIRST_EDITED_DONE := RAW_EDITED.(id := EDITED, parent := Some(INSTANCE), fallback := None)
  const FIRST_INNER_DONE := RAW_INNER.(id := FIRST_INNER, parent := Some(EDITED), fallback := None)
  const OTHER_EDITED_DONE := RAW_OTHER_EDITED.(id := OTHER_EDITED, parent := Some(OTHER), fallback := None)
  const OTHER_INNER_DONE := RAW_OTHER_INNER.(id := OTHER_INNER, parent := Some(OTHER_EDITED), fallback := None)

  const P3 := Next(L2, RAW_EDITED, FIRST_EDITED_DONE)
  const P4 := Next(P3, RAW_INNER, FIRST_INNER_DONE)
  const P5 := Next(P4, RAW_OTHER, RAW_OTHER)
  const P6 := Next(P5, RAW_OTHER_EDITED, OTHER_EDITED_DONE)
  const P7 := Next(P6, RAW_OTHER_INNER, OTHER_INNER_DONE)

  lemma FirstHalf()
    ensures IdPass([] + [RAW_ROOT] + [RAW_INSTANCE] + [RAW_EDITED] + [RAW_INNER]) == Ok(P4)
  {
    NextStep(NO_LINKS, RAW_ROOT, RAW_ROOT);
    Passed([], NO_LINKS, RAW_ROOT, L1);
    NextStep(L1, RAW_INSTANCE, RAW_INSTANCE);
    Passed([] + [RAW_ROOT], L1, RAW_INSTANCE, L2);
    assert "I" == ['I'] && "I" in L2.paths && L2.paths["I"] == INSTANCE && L2.nodes[INSTANCE] == RAW_INSTANCE;
    BelowInstance(L2, RAW_EDITED, 'I', INSTANCE);
    NextStep(L2, RAW_EDITED, FIRST_EDITED_DONE);
    Passed([] + [RAW_ROOT] + [RAW_INSTANCE], L2, RAW_EDITED, P3);
    assert Under("I", "E") == "I/E" && "I/E" in P3.paths && P3.paths["I/E"] == EDITED;
    BelowEdited(P3, RAW_INNER, "I/E", EDITED, 2);
    NextStep(P3, RAW_INNER, FIRST_INNER_DONE);
    Passed([] + [RAW_ROOT] + [RAW_INSTANCE] + [RAW_EDITED], P3, RAW_INNER, P4);
  }

  lemma SecondHalf(front: seq<Node>)
    requires IdPass(front) == Ok(P4)
    ensures IdPass(front + [RAW_OTHER] + [RAW_OTHER_EDITED] + [RAW_OTHER_INNER]) == Ok(P7)
  {
    NextStep(P4, RAW_OTHER, RAW_OTHER);
    Passed(front, P4, RAW_OTHER, P5);
    assert "J" == ['J'] && "J" in P5.paths && P5.paths["J"] == OTHER && P5.nodes[OTHER] == RAW_OTHER;
    BelowInstance(P5, RAW_OTHER_EDITED, 'J', OTHER);
    NextStep(P5, RAW_OTHER_EDITED, OTHER_EDITED_DONE);
    Passed(front + [RAW_OTHER], P5, RAW_OTHER_EDITED, P6);
    assert Under("J", "E") == "J/E" && "J/E" in P6.paths && P6.paths["J/E"] == OTHER_EDITED;
    BelowEdited(P6, RAW_OTHER_INNER, "J/E", OTHER_EDITED, 3);
    NextStep(P6, RAW_OTHER_INNER, OTHER_INNER_DONE);
    Passed(front + [RAW_OTHER] + [RAW_OTHER_EDITED], P6, RAW_OTHER_INNER, P7);
  }

  lemma NestedFirstPass()
    ensures IdPass(NESTED_RAWS) == Ok(P7)
  {
    var front := [] + [RAW_ROOT] + [RAW_INSTANCE] + [RAW_EDITED] + [RAW_INNER];
    FirstHalf();
    SecondHalf(front);
    assert NESTED_RAWS == front + [RAW_OTHER] + [RAW_OTHER_EDITED] + [RAW_OTHER_INNER];
  }

  // ---------- second pass ----------

  lemma NestedKeys()
    ensures P7.keys == [ROOT, INSTANCE, EDITED, FIRST_INNER, OTHER, OTHER_EDITED, OTHER_INNER]
    ensures P7.nodes.Keys == {ROOT, INSTANCE, EDITED, FIRST_INNER, OTHER, OTHER_EDITED, OTHER_INNER}
    ensures forall k :: k in P7.nodes ==> P7.nodes[k].children == []
  {
  }

  lemma NestedParents()
    ensures forall k :: k in P7.nodes ==> Adoptable(P7.paths, P7.nodes, k)
  {
    assert "." in P7.paths && P7.paths["."] == ROOT;
  }

  lemma LinkFrom(raws: seq<Node>, l: Links)
    requires IdPass(raws) == Ok(l) && NoDuplicates(l.keys) && (forall k :: k in l.keys ==> k in l.nodes)
    requires forall k :: k in l.nodes ==> l.nodes[k].children == [] && Adoptable(l.paths, l.nodes, k)
    ensures Link(raws).Ok? && Link(raws).value.nodes.Keys == l.nodes.Keys
  {
    forall i | 0 <= i < |l.keys| ensures l.keys[i] in l.nodes && Adoptable(l.paths, l.nodes, l.keys[i]) { assert l.keys[i] in l.keys; }
    ParentsFound(l.paths, l.nodes, l.keys);
  }

  lemma DistinctKeys(keys: seq<NodeId>)
    requires keys == [ROOT, INSTANCE, EDITED, FIRST_INNER, OTHER, OTHER_EDITED, OTHER_INNER]
    ensures NoDuplicates(keys) && forall k :: k in keys ==> k in {ROOT, INSTANCE, EDITED, FIRST_INNER, OTHER, OTHER_EDITED, OTHER_INNER}
  {
  }

  lemma NestedLinked(l: Links)
    requires l == P7
    ensures Link(NESTED_RAWS).Ok? && Link(NESTED_RAWS).value.nodes.Keys == l.nodes.Keys
  {
    NestedFirstPass();
    NestedKeys();
    NestedParents();
    DistinctKeys(l.keys);
    LinkFrom(NESTED_RAWS, l);
  }

  // The text is accepted, and the nodes E and F of the two instances have different keys.
  lemma NestedAccepted()
    ensures Parse(NESTED_TEXT).Ok?
    ensures Parse(NESTED_TEXT).value.nodes.Keys
      == {NodeId(1, None), NodeId(2, None), NodeId(5, Some([2])), NodeId(6, Some([2, 5])),
          NodeId(3, None), NodeId(5, Some([3])), NodeId(6, Some([3, 5]))}
  {
    ReadSectionReadsPrinted();
    NestedPlain();
    ReadTexts(ReadSection, NESTED_RAWS);
    assert ReadAll(NESTED_TEXT) == Ok(After(NESTED_RAWS, NumbersIn(NESTED_RAWS)));
    NestedLinked(P7);
    NestedKeys();
  }
}
