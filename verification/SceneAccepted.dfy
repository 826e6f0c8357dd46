// What every accepted text leads to, seen from its sections, and the tree of its scene.

module SceneAccepted {
  import opened Text
  import opened SceneModel
  import opened SceneTree
  import opened ScenePreorder
  import opened SceneLinks
  import opened SceneSections
  import opened SceneParsed
  import opened SceneText

  // ---------- single sections ----------

  lemma ReadArrayOk(a: seq<(Key, string)>, key: Key)
    ensures ArrayOk(LookupArray(a, key))
  {
    var ids := LookupArray(a, key);
    if ids.Some? {
      forall i | 0 <= i < |ids.value| ensures IsI32(ids.value[i]) {
        var s := Lookup(a, key).value;
        var parts := Split(Trim(s[|ARRAY_PREFIX|..|s| - 1]), ',');
        assert ids.value[i] == ReadElement(parts[i]);
      }
    }
  }

  lemma ReadNodeOk(s: Section)
    requires Captured(s.attributes) && ReadNode(s).Ok?
    ensures RawOk(ReadNode(s).value)
  {
    ReadArrayOk(s.attributes, ParentIdPath);
    ReadArrayOk(s.attributes, OwnerUidPath);
    LookupCaptured(s.attributes, Groups);
    UniqueIdInRange(Lookup(s.attributes, UniqueId));
    IndexInRange(LookupText(s.attributes, Index));
  }

  lemma UniqueIdInRange(v: Option<string>)
    ensures IsI32(ReadUniqueId(v))
  {
  }

  lemma IndexInRange(v: Option<string>)
    ensures WideNumber(ReadIndex(v))
  {
  }

  predicate RawConnectionOk(r: RawConnection)
  {
    var c := r.connection;
    WideNumber(c.flags) && WideNumber(c.unbinds) && ArrayOk(c.fromUidPath) && ArrayOk(c.toUidPath)
  }

  lemma ReadConnectionOk(s: Section)
    requires Captured(s.attributes) && ReadConnection(s).Ok?
    ensures RawConnectionOk(ReadConnection(s).value)
  {
    ReadArrayOk(s.attributes, FromUidPath);
    ReadArrayOk(s.attributes, ToUidPath);
    WideLookup(s.attributes, Flags);
    WideLookup(s.attributes, Unbinds);
  }

  lemma WideLookup(a: seq<(Key, string)>, key: Key)
    ensures WideNumber(LookupI64(a, key))
  {
  }

  // ---------- all sections ----------

  predicate NumberedExt(m: map<string, ExtResource>, n: int)
  {
    && (forall k :: k in m ==> m[k].id == k && 0 <= m[k].idx < n)
    && (forall k, l :: k in m && l in m && k != l ==> m[k].idx != m[l].idx)
  }

  predicate NumberedSub(m: map<string, SubResource>, n: int)
  {
    && (forall k :: k in m ==> m[k].id == k && 0 <= m[k].idx < n)
    && (forall k, l :: k in m && l in m && k != l ==> m[k].idx != m[l].idx)
  }

  predicate ParsedOk(p: Parsed)
  {
    && (p.meta.Some? ==> IsI64(p.meta.value.loadSteps) && IsI64(p.meta.value.format))
    && RawsOk(p.raws)
    && p.extIdx >= 0 && NumberedExt(p.ext, p.extIdx)
    && p.subIdx >= 0 && NumberedSub(p.sub, p.subIdx)
    && (p.main.Some? ==> p.main.value.id == "" && p.main.value.idx == 0)
    && (forall i :: 0 <= i < |p.connections| ==> RawConnectionOk(p.connections[i]))
  }

  lemma SectionKeepsOk(p: Parsed, s: Section)
    requires ParsedOk(p) && ReadSection(p, s).Ok?
    ensures ParsedOk(ReadSection(p, s).value)
  {
    match s.kind
    case NodeSection =>
      ReadNodeOk(s);
      AddNodeKeepsOk(p, ReadNode(s).value);
    case ConnectionSection =>
      ReadConnectionOk(s);
      AddConnectionKeepsOk(p, ReadConnection(s).value);
    case ExtResourceSection => AddExtKeepsOk(p, ReadExt(s, p.extIdx).value);
    case SubResourceSection => AddSubKeepsOk(p, ReadSub(s, p.subIdx).value);
    case GdScene => HeaderInRange(s);
    case GdResource => HeaderInRange(s);
    case _ =>
  }

  lemma HeaderInRange(s: Section)
    requires Captured(s.attributes) && ReadHeader(s).Ok?
    ensures IsI64(ReadHeader(s).value.loadSteps) && IsI64(ReadHeader(s).value.format)
  {
    WideLookup(s.attributes, LoadSteps);
    WideLookup(s.attributes, Format);
  }

  lemma AddExtKeepsOk(p: Parsed, r: ExtResource)
    requires ParsedOk(p) && r.idx == p.extIdx
    ensures ParsedOk(p.(ext := p.ext[r.id := r], extIdx := p.extIdx + 1))
  {
  }

  lemma AddSubKeepsOk(p: Parsed, r: SubResource)
    requires ParsedOk(p) && r.idx == p.subIdx
    ensures ParsedOk(p.(sub := p.sub[r.id := r], subIdx := p.subIdx + 1))
  {
  }

  lemma AddConnectionKeepsOk(p: Parsed, c: RawConnection)
    requires ParsedOk(p) && RawConnectionOk(c)
    ensures ParsedOk(p.(connections := p.connections + [c]))
  {
  }

  lemma AddNodeKeepsOk(p: Parsed, n: Node)
    requires ParsedOk(p) && RawOk(n)
    ensures ParsedOk(AddNode(p, n))
  {
  }

  lemma {:induction false} ReadAllOk(sections: seq<Section>)
    requires ReadAll(sections).Ok?
    ensures ParsedOk(ReadAll(sections).value)
  {
    if sections != [] {
      ReadAllOk(sections[..|sections| - 1]);
      SectionKeepsOk(ReadAll(sections[..|sections| - 1]).value, sections[|sections| - 1]);
    }
  }

  // ---------- connections ----------

  ghost predicate ResolvedFrom(paths: map<string, NodeId>, raws: seq<RawConnection>, key: string, c: Connection)
  {
    && key == ConnectionId(c)
    && exists i :: 0 <= i < |raws| && Resolves(paths, raws[i], c)
  }

  predicate Resolves(paths: map<string, NodeId>, raw: RawConnection, c: Connection)
  {
    && raw.from in paths && raw.to in paths
    && c == raw.connection.(from := paths[raw.from], to := paths[raw.to])
  }

  lemma {:induction false} ResolveAllGives(paths: map<string, NodeId>, raws: seq<RawConnection>)
    requires ResolveAll(paths, raws).Ok?
    ensures forall k :: k in ResolveAll(paths, raws).value ==> ResolvedFrom(paths, raws, k, ResolveAll(paths, raws).value[k])
  {
    if raws != [] {
      var front, last := raws[..|raws| - 1], raws[|raws| - 1];
      ResolveAllGives(paths, front);
      var before, after := ResolveAll(paths, front).value, ResolveAll(paths, raws).value;
      forall k | k in after ensures ResolvedFrom(paths, raws, k, after[k]) {
        if k in before && after[k] == before[k] {
          var i :| 0 <= i < |front| && Resolves(paths, front[i], before[k]);
          assert raws[i] == front[i];
        } else {
          assert Resolves(paths, raws[|raws| - 1], after[k]);
        }
      }
    }
  }

  // ---------- the scene of an accepted text ----------

  ghost predicate ParsedConnections(s: Scene)
  {
    forall k :: k in s.connections ==>
      var c := s.connections[k];
      && k == ConnectionId(c) && c.from in s.nodes && c.to in s.nodes
      && WideNumber(c.flags) && WideNumber(c.unbinds) && ArrayOk(c.fromUidPath) && ArrayOk(c.toUidPath)
  }

  ghost predicate ParsedForm(s: Scene, recorded: map<NodeId, string>)
  {
    && ParsedLinks(s.nodes, s.root, recorded)
    && IsI64(s.loadSteps) && IsI64(s.format)
    && (forall k :: k in s.extResources ==> s.extResources[k].id == k)
    && (forall k :: k in s.subResources ==> s.subResources[k].id == k)
    && (s.mainResource.Some? ==> s.mainResource.value.id == "" && s.mainResource.value.idx == 0)
    && ParsedConnections(s)
  }

  lemma FinishGives(p: Parsed) returns (l: Links)
    requires Finish(p).Ok?
    ensures Link(p.raws) == Ok(l) && p.meta.Some? && ResolveAll(l.paths, p.connections).Ok?
    ensures Finish(p).value == Assemble(p.meta.value, p, l, ResolveAll(l.paths, p.connections).value)
  {
    l := Link(p.raws).value;
  }

  lemma ParsedConnectionsOk(p: Parsed, l: Links, s: Scene)
    requires ParsedOk(p) && ResolveAll(l.paths, p.connections) == Ok(s.connections) && l.nodes == s.nodes
    requires forall path :: path in l.paths ==> l.paths[path] in l.nodes
    ensures ParsedConnections(s)
  {
    ResolveAllGives(l.paths, p.connections);
    forall k | k in s.connections
      ensures var c := s.connections[k];
        && k == ConnectionId(c) && c.from in s.nodes && c.to in s.nodes
        && WideNumber(c.flags) && WideNumber(c.unbinds) && ArrayOk(c.fromUidPath) && ArrayOk(c.toUidPath)
    {
      assert ResolvedFrom(l.paths, p.connections, k, s.connections[k]);
      var i :| 0 <= i < |p.connections| && Resolves(l.paths, p.connections[i], s.connections[k]);
      assert RawConnectionOk(p.connections[i]);
    }
  }

  // Every scene the parser returns has this form, whatever the text.
  lemma ParseGives(sections: seq<Section>) returns (recorded: map<NodeId, string>)
    requires Parse(sections).Ok?
    ensures ParsedForm(Parse(sections).value, recorded)
  {
    var p := ReadAll(sections).value;
    ReadAllOk(sections);
    var l := FinishGives(p);
    recorded := LinkParsed(p.raws);
    ParsedConnectionsOk(p, l, Parse(sections).value);
  }

  // ---------- the nodes below the root ----------

  // `k` is `n` steps below the root.
  predicate StepsBelow(nodes: map<NodeId, Node>, root: NodeId, k: NodeId, n: nat)
    decreases n
  {
    if n == 0 then k == root
    else k in nodes && nodes[k].parent.Some? && StepsBelow(nodes, root, nodes[k].parent.value, n - 1)
  }

  lemma {:induction false} StepsOnce(nodes: map<NodeId, Node>, root: NodeId, k: NodeId, m: nat, n: nat)
    requires root in nodes && nodes[root].parent == None
    requires StepsBelow(nodes, root, k, m) && StepsBelow(nodes, root, k, n)
    ensures m == n
    decreases m
  {
    if m > 0 && n > 0 { StepsOnce(nodes, root, nodes[k].parent.value, m - 1, n - 1); }
  }

  ghost predicate Reached(nodes: map<NodeId, Node>, root: NodeId, k: NodeId)
  {
    exists n: nat :: StepsBelow(nodes, root, k, n)
  }

  ghost function StepsTo(nodes: map<NodeId, Node>, root: NodeId, k: NodeId): (n: nat)
    requires Reached(nodes, root, k)
    ensures StepsBelow(nodes, root, k, n)
  {
    var n: nat :| StepsBelow(nodes, root, k, n);
    n
  }

  lemma {:induction false} Bounded<K(!new)>(numbers: map<K, nat>) returns (bound: nat)
    ensures forall k :: k in numbers ==> numbers[k] <= bound
    decreases |numbers|
  {
    if numbers.Keys == {} {
      bound := 0;
    } else {
      var k :| k in numbers;
      var rest := Bounded(numbers - {k});
      bound := if numbers[k] > rest then numbers[k] else rest;
      forall x | x in numbers ensures numbers[x] <= bound {
        if x != k { assert x in numbers - {k} && (numbers - {k})[x] == numbers[x]; }
      }
    }
  }

  // `t` consists of the nodes below `root`, each with its number of steps.
  ghost predicate Reaches(nodes: map<NodeId, Node>, t: Tree)
  {
    && (forall k :: k in t.nodes <==> k in nodes && Reached(nodes, t.root, k))
    && (forall k :: k in t.nodes ==> t.nodes[k] == nodes[k])
    && t.depth.Keys == t.nodes.Keys
    && (forall k :: k in t.nodes ==> StepsBelow(nodes, t.root, k, t.depth[k]) && t.depth[k] <= t.bound)
  }

  lemma ReachedNodes(nodes: map<NodeId, Node>, root: NodeId) returns (t: Tree)
    ensures t.root == root && Reaches(nodes, t)
  {
    var below := map k | k in nodes && Reached(nodes, root, k) :: nodes[k];
    var depth := map k | k in nodes && Reached(nodes, root, k) :: StepsTo(nodes, root, k);
    var bound := Bounded(depth);
    assert depth.Keys == below.Keys;
    t := Tree(below, root, depth, bound);
  }

  // The nodes that are reached from the root form a tree.
  lemma ReachedTree(s: Scene, recorded: map<NodeId, string>) returns (t: Tree)
    requires ParsedLinks(s.nodes, s.root, recorded) && s.root.Some?
    ensures TreeOf(s, t)
  {
    t := ReachedNodes(s.nodes, s.root.value);
    ReachedRoot(s.nodes, t);
    ReachedParents(s, recorded, t);
    ReachedChildren(s, recorded, t);
    ReachedLinked(s, t);
  }

  lemma ReachedLinked(s: Scene, t: Tree)
    requires Reaches(s.nodes, t) && s.root == Some(t.root) && t.root in t.nodes && s.nodes[t.root].parent == None && t.depth[t.root] == 0
    requires forall k :: k in t.nodes && k != t.root ==> HasParent(t, k)
    requires forall k :: k in t.nodes ==> t.nodes[k].id == k && NoDuplicates(t.nodes[k].children)
    requires forall k, i :: k in t.nodes && 0 <= i < |t.nodes[k].children| ==> HasChild(t, k, t.nodes[k].children[i])
    ensures TreeOf(s, t)
  {
  }

  lemma ReachedParents(s: Scene, recorded: map<NodeId, string>, t: Tree)
    requires ParsedLinks(s.nodes, s.root, recorded) && s.root == Some(t.root) && Reaches(s.nodes, t)
    ensures forall k :: k in t.nodes && k != t.root ==> HasParent(t, k)
    ensures forall k :: k in t.nodes ==> t.nodes[k].id == k && NoDuplicates(t.nodes[k].children)
  {
    forall k | k in t.nodes && k != t.root ensures HasParent(t, k) { ReachedParent(s, recorded, t, k); }
    forall k | k in t.nodes ensures t.nodes[k].id == k && NoDuplicates(t.nodes[k].children) { ReachedNode(s, recorded, t, k); }
  }

  lemma ReachedChildren(s: Scene, recorded: map<NodeId, string>, t: Tree)
    requires ParsedLinks(s.nodes, s.root, recorded) && s.root == Some(t.root) && Reaches(s.nodes, t)
    ensures forall k, i :: k in t.nodes && 0 <= i < |t.nodes[k].children| ==> HasChild(t, k, t.nodes[k].children[i])
  {
    forall k, i | k in t.nodes && 0 <= i < |t.nodes[k].children| ensures HasChild(t, k, t.nodes[k].children[i]) {
      ReachedChild(s, recorded, t, k, t.nodes[k].children[i]);
    }
  }

  lemma ReachedRoot(nodes: map<NodeId, Node>, t: Tree)
    requires Reaches(nodes, t) && t.root in nodes && nodes[t.root].parent == None
    ensures t.root in t.nodes && t.depth[t.root] == 0
  {
    assert StepsBelow(nodes, t.root, t.root, 0);
    StepsOnce(nodes, t.root, t.root, 0, t.depth[t.root]);
  }

  lemma ReachedNode(s: Scene, recorded: map<NodeId, string>, t: Tree, k: NodeId)
    requires ParsedLinks(s.nodes, s.root, recorded) && Reaches(s.nodes, t) && k in t.nodes
    ensures t.nodes[k].id == k && NoDuplicates(t.nodes[k].children)
  {
    assert ParsedNode(s.nodes, recorded, k) && ChildrenAgree(s.nodes, k);
  }

  lemma ReachedParent(s: Scene, recorded: map<NodeId, string>, t: Tree, k: NodeId)
    requires ParsedLinks(s.nodes, s.root, recorded) && s.root == Some(t.root) && Reaches(s.nodes, t) && k in t.nodes && k != t.root
    ensures HasParent(t, k)
  {
    StepUp(s.nodes, t, k);
    ParentListed(s.nodes, recorded, k);
  }

  lemma ParentListed(nodes: map<NodeId, Node>, recorded: map<NodeId, string>, k: NodeId)
    requires k in nodes && k in recorded && ParsedNode(nodes, recorded, k) && nodes[k].parent.Some?
    ensures nodes[k].parent.value in nodes && k in nodes[nodes[k].parent.value].children
  {
  }

  lemma StepUp(nodes: map<NodeId, Node>, t: Tree, k: NodeId)
    requires Reaches(nodes, t) && t.root in nodes && nodes[t.root].parent == None && k in t.nodes && k != t.root
    requires nodes[k].parent.Some? ==> nodes[k].parent.value in nodes
    ensures nodes[k].parent.Some? && nodes[k].parent.value in t.nodes && t.depth[k] == t.depth[nodes[k].parent.value] + 1
  {
    var p := nodes[k].parent.value;
    assert t.depth[k] > 0;
    assert StepsBelow(nodes, t.root, p, t.depth[k] - 1);
    StepsOnce(nodes, t.root, p, t.depth[p], t.depth[k] - 1);
  }

  lemma ReachedChild(s: Scene, recorded: map<NodeId, string>, t: Tree, k: NodeId, c: NodeId)
    requires ParsedLinks(s.nodes, s.root, recorded) && s.root == Some(t.root) && Reaches(s.nodes, t) && k in t.nodes
    requires c in t.nodes[k].children
    ensures HasChild(t, k, c)
  {
    assert ChildrenAgree(s.nodes, k);
    assert StepsBelow(s.nodes, t.root, c, t.depth[k] + 1);
  }
}
