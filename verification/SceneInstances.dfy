// The instance paths the parser gives to edited nodes inside instanced scenes: what an edited
// node takes over from the nodes above it.

module SceneInstances {
  import opened Text
  import opened SceneModel
  import opened SceneTree
  import opened ScenePreorder
  import opened SceneLinks
  import opened SceneSections
  import opened SceneParsed
  import opened SceneText
  import opened SceneAccepted

  // ---------- what is taken over from an instance path ----------

  // `r` ends in `below`; in front of it stand the numbers of `path` that are not in `below`,
  // each once, in the order of their last occurrence.
  predicate TakesOver(path: seq<int>, below: seq<int>, r: seq<int>)
  {
    r == LastOnes(path, below) + below
  }

  function LastOnes(path: seq<int>, below: seq<int>): seq<int>
  {
    if path == [] then []
    else (if path[0] in path[1..] || path[0] in below then [] else [path[0]]) + LastOnes(path[1..], below)
  }

  lemma {:induction false} LastOnesMembers(path: seq<int>, below: seq<int>)
    ensures forall x :: x in LastOnes(path, below) <==> x in path && x !in below
    ensures NoDuplicates(LastOnes(path, below))
    ensures NoDuplicates(path) && (forall x :: x in path ==> x !in below) ==> LastOnes(path, below) == path
  {
    if path != [] {
      var rest := path[1..];
      LastOnesMembers(rest, below);
      assert path == [path[0]] + rest;
      assert forall x :: x in path <==> x == path[0] || x in rest;
      if NoDuplicates(path) {
        forall i | 0 <= i < |rest| ensures rest[i] != path[0] { assert path[i + 1] == rest[i]; }
        assert forall i, j :: 0 <= i < j < |rest| ==> rest[i] == path[i + 1] && rest[j] == path[j + 1];
      }
    }
  }

  lemma {:induction false} LastOnesSnoc(path: seq<int>, last: int, below: seq<int>)
    ensures LastOnes(path + [last], below) == if last in below then LastOnes(path, below) else LastOnes(path, [last] + below) + [last]
    decreases |path|
  {
    if path == [] {
      assert path + [last] == [last] && [last][1..] == [];
    } else {
      LastOnesSnoc(path[1..], last, below);
      var whole := path + [last];
      assert whole[1..] == path[1..] + [last] && whole[0] == path[0];
    }
  }

  lemma {:induction false} PrependTakesOver(path: seq<int>, below: seq<int>)
    ensures TakesOver(path, below, PrependMissing(path, below))
  {
    if path != [] {
      var front, last := path[..|path| - 1], path[|path| - 1];
      PrependTakesOver(front, if last in below then below else [last] + below);
      assert path == front + [last];
      LastOnesSnoc(front, last, below);
    }
  }

  // ---------- the nodes above an edited node ----------

  // The nodes recorded under `path` and its prefixes, up to the first with an instance path or
  // to a child of the root.
  predicate NodesAbove(l: Links, path: string, chain: seq<NodeId>)
    decreases |chain|
  {
    && chain != [] && path != "" && path in l.paths && l.paths[path] == chain[0]
    && chain[0] in l.nodes && l.nodes[chain[0]].id == chain[0]
    && if chain[0].rootInstance.Some? || Pop(path) == "" then |chain| == 1 else NodesAbove(l, Pop(path), chain[1..])
  }

  predicate IsInstance(n: Node) { n.kind.Some? && n.kind.value.Instance? }

  // The numbers of the instanced nodes, and of a last node with an instance path; the topmost first.
  function NumbersAbove(l: Links, chain: seq<NodeId>): seq<int>
  {
    if chain == [] then []
    else
      var k := chain[0];
      NumbersAbove(l, chain[1..]) + if k.rootInstance.Some? || (k in l.nodes && IsInstance(l.nodes[k])) then [k.id] else []
  }

  // The instance path the last of the nodes has, if it has one.
  function TopPath(chain: seq<NodeId>): seq<int>
    requires chain != []
  {
    match chain[|chain| - 1].rootInstance case None => [] case Some(path) => path
  }

  lemma TopAlone(l: Links, chain: seq<NodeId>)
    requires |chain| == 1 && chain[0].rootInstance.Some?
    ensures NumbersAbove(l, chain) == [chain[0].id] && TopPath(chain) == chain[0].rootInstance.value
  {
    assert chain[1..] == [] && NumbersAbove(l, []) == [];
  }

  lemma {:induction false} WalkCollects(l: Links, path: string, chain: seq<NodeId>, found: Ancestry)
    requires NodesAbove(l, path, chain)
    ensures var numbers := NumbersAbove(l, chain) + found.ids;
      Walk(l.paths, l.nodes, path, found)
      == Some(Ancestry(if found.parent.None? then Some(chain[0]) else found.parent, LastOnes(TopPath(chain), numbers) + numbers))
    decreases |chain|
  {
    var k := chain[0];
    if k.rootInstance.Some? {
      TopAlone(l, chain);
      PrependTakesOver(k.rootInstance.value, [k.id] + found.ids);
    } else {
      var parent := if found.parent.None? then Some(k) else found.parent;
      var ids := if IsInstance(l.nodes[k]) then [k.id] + found.ids else found.ids;
      assert NumbersAbove(l, chain) + found.ids == NumbersAbove(l, chain[1..]) + ids;
      if Pop(path) == "" {
        assert chain[1..] == [] && NumbersAbove(l, []) == [];
        assert NumbersAbove(l, chain) + found.ids == ids && TopPath(chain) == [];
        assert LastOnes([], ids) + ids == ids;
      } else {
        WalkCollects(l, Pop(path), chain[1..], Ancestry(parent, ids));
        assert TopPath(chain[1..]) == TopPath(chain);
      }
    }
  }

  // Recorded paths lead to nodes under their identifiers.
  predicate PathsLead(l: Links)
  {
    forall path :: path in l.paths ==> l.paths[path] in l.nodes && l.nodes[l.paths[path]].id == l.paths[path]
  }

  lemma {:induction false} AboveExists(l: Links, path: string, found: Ancestry) returns (chain: seq<NodeId>)
    requires PathsLead(l) && path != "" && Walk(l.paths, l.nodes, path, found).Some?
    ensures NodesAbove(l, path, chain)
    decreases |path|
  {
    var k := l.paths[path];
    if k.rootInstance.Some? || Pop(path) == "" {
      chain := [k];
    } else {
      var parent := if found.parent.None? then Some(k) else found.parent;
      var ids := if IsInstance(l.nodes[k]) then [k.id] + found.ids else found.ids;
      var rest := AboveExists(l, Pop(path), Ancestry(parent, ids));
      chain := [k] + rest;
    }
  }

  predicate ByParentPath(raw: Node, path: string)
  {
    IsEdited(raw) && raw.fallback == Some(path) && path != "" && path != "." && (raw.parentIdPath == None || raw.parentIdPath == Some([]))
  }

  // An edited node that names a parent path, and no instance path of its own, gets the numbers
  // of the instanced nodes above it, continued by what it takes over from the first instance
  // path found there.
  lemma InstancePathOf(l: Links, raw: Node, path: string, chain: seq<NodeId>)
    requires ByParentPath(raw, path) && NodesAbove(l, path, chain)
    ensures var numbers := NumbersAbove(l, chain);
      Identify(l, raw) == Ok(raw.(id := NodeId(raw.id.id, Some(LastOnes(TopPath(chain), numbers) + numbers)), parent := Some(chain[0]), fallback := None))
  {
    WalkCollects(l, path, chain, Ancestry(None, []));
    assert NumbersAbove(l, chain) + [] == NumbersAbove(l, chain);
  }

  // It is identified only if such nodes are above it.
  lemma IdentifiedAbove(l: Links, raw: Node, path: string) returns (chain: seq<NodeId>)
    requires PathsLead(l) && ByParentPath(raw, path) && Identify(l, raw).Ok?
    ensures NodesAbove(l, path, chain)
  {
    chain := AboveExists(l, path, Ancestry(None, []));
  }

  // ---------- in every accepted text ----------

  // An edited node without an instance path of its own whose parent has one: its path ends in
  // the parent's number and contains every number of the parent's path.
  ghost predicate Nested(n: Node)
  {
    n.parent.Some? ==> NestedBelow(n, n.parent.value)
  }

  ghost predicate NestedBelow(n: Node, p: NodeId)
  {
    IsEdited(n) && (n.parentIdPath == None || n.parentIdPath == Some([])) && n.fallback == None && p.rootInstance.Some? ==>
      && n.id.rootInstance.Some?
      && TakesOver(p.rootInstance.value, [p.id], n.id.rootInstance.value)
  }

  lemma IdentifyNests(l: Links, raw: Node)
    requires PathsLead(l) && raw.parent == None && Identify(l, raw).Ok?
    ensures Nested(Identify(l, raw).value)
  {
    if IsEdited(raw) && raw.fallback.Some? && ByParentPath(raw, raw.fallback.value) {
      var chain := IdentifiedAbove(l, raw, raw.fallback.value);
      InstancePathOf(l, raw, raw.fallback.value, chain);
      if chain[0].rootInstance.Some? { TopAlone(l, chain); }
    }
  }

  ghost predicate AllNested(nodes: map<NodeId, Node>) { forall k :: k in nodes ==> Nested(nodes[k]) }

  lemma {:induction false} IdPassNests(raws: seq<Node>)
    requires (forall i :: 0 <= i < |raws| ==> raws[i].parent == None) && IdPass(raws).Ok?
    ensures PathsLead(IdPass(raws).value) && AllNested(IdPass(raws).value.nodes)
  {
    if raws != [] {
      var front, raw := raws[..|raws| - 1], raws[|raws| - 1];
      IdPassNests(front);
      IdentifyNests(IdPass(front).value, raw);
    }
  }

  lemma PlacedNests(l: Links, after: map<NodeId, Node>)
    requires AllNested(l.nodes) && Placed(l.paths, l.nodes, l.keys, after)
    requires forall k :: k in l.nodes && IsEdited(l.nodes[k]) && l.nodes[k].parent.None? ==>
      l.nodes[k].parentIdPath.Some? && l.nodes[k].parentIdPath != Some([])
    ensures AllNested(after)
  {
    forall k | k in after ensures Nested(after[k]) {
      assert Nested(l.nodes[k]);
      if k in l.keys { assert Adoptable(l.paths, l.nodes, k); }
    }
  }

  // Every edited node of an accepted text is nested so.
  lemma ParsedNested(sections: seq<Section>)
    requires Parse(sections).Ok?
    ensures AllNested(Parse(sections).value.nodes)
  {
    var p := ReadAll(sections).value;
    ReadAllOk(sections);
    var done := FinishGives(p);
    var l := LinkGives(p.raws);
    IdPassNests(p.raws);
    forall k | k in l.nodes && IsEdited(l.nodes[k]) && l.nodes[k].parent.None?
      ensures l.nodes[k].parentIdPath.Some? && l.nodes[k].parentIdPath != Some([]) {
      var i :| 0 <= i < |l.keys| && l.keys[i] == k;
      assert IdentifiedFrom(p.raws[..i], l.keys[..i], p.raws[i], l.nodes[k]);
      assert RawOk(p.raws[i]);
    }
    PlacedNests(l, done.nodes);
  }

  // In plain terms.
  lemma NestedMeans(n: Node, p: NodeId)
    requires NestedBelow(n, p) && IsEdited(n) && n.parentIdPath == None && n.fallback == None && p.rootInstance.Some?
    ensures n.id.rootInstance.Some?
    ensures var path, r := p.rootInstance.value, n.id.rootInstance.value;
      && r != [] && r[|r| - 1] == p.id
      && (forall x :: x in r <==> x in path || x == p.id)
      && NoDuplicates(r)
      && (NoDuplicates(path) && p.id !in path ==> r == path + [p.id])
  {
    var path, r := p.rootInstance.value, n.id.rootInstance.value;
    LastOnesMembers(path, [p.id]);
    var front := LastOnes(path, [p.id]);
    assert r == front + [p.id];
    forall i, j | 0 <= i < j < |r| ensures r[i] != r[j] { if j == |front| { assert front[i] in front; } }
    if p.id !in path { assert forall x :: x in path ==> x !in [p.id]; }
  }
}
