// Exactly which scenes come back when their text is parsed again.

module SceneExact {
  import opened Text
  import opened SceneModel
  import opened SceneCodec
  import opened SceneTree
  import opened ScenePreorder
  import opened ScenePaths
  import opened SceneLinks
  import opened SceneLinkProof
  import opened SceneSections
  import opened SceneParsed
  import opened SceneText
  import opened SceneAccepted
  import opened SceneRelink
  import opened SceneRoundTrip
  import opened SceneReread

  // ---------- the groups of a printed text ----------

  predicate Grouped(p: Pieces)
  {
    && (p.header.kind == GdScene || p.header.kind == GdResource)
    && AllOf(p.ext, ExtResourceSection) && AllOf(p.sub, SubResourceSection)
    && |p.main| <= 1 && AllOf(p.main, ResourceSection)
    && AllOf(p.nodes, NodeSection) && AllOf(p.connections, ConnectionSection) && AllOf(p.editable, EditableSection)
  }

  lemma FrontGrouped(s: Scene, t: Tree, layout: Layout, p: Pieces)
    requires TreeOf(s, t) && Prints(s, t, layout, p)
    ensures p.header.kind == GdScene || p.header.kind == GdResource
    ensures AllOf(p.ext, ExtResourceSection) && AllOf(p.sub, SubResourceSection)
  {
  }

  lemma BackGrouped(s: Scene, t: Tree, layout: Layout, p: Pieces)
    requires TreeOf(s, t) && Prints(s, t, layout, p)
    ensures |p.main| <= 1 && AllOf(p.main, ResourceSection)
    ensures AllOf(p.nodes, NodeSection) && AllOf(p.connections, ConnectionSection) && AllOf(p.editable, EditableSection)
  {
    if s.mainResource.None? { ConnectionsGrouped(s, t, layout.connections, p.connections); }
  }

  lemma PrintedGrouped(s: Scene, t: Tree, layout: Layout, p: Pieces)
    requires TreeOf(s, t) && Prints(s, t, layout, p)
    ensures Grouped(p)
  {
    FrontGrouped(s, t, layout, p);
    BackGrouped(s, t, layout, p);
  }

  lemma ConnectionsGrouped(s: Scene, t: Tree, keys: seq<string>, sections: seq<Section>)
    requires Linked(t) && PrintsConnections(s, t, keys, sections)
    ensures AllOf(sections, ConnectionSection)
  {
    forall i | 0 <= i < |sections| ensures sections[i].kind == ConnectionSection {
      assert PrintsConnection(t, s.connections[keys[i]], sections[i]);
    }
  }

  // What the section loop has collected from a grouped text.
  ghost predicate Reread(p: Pieces, q: Parsed)
  {
    && Captured(p.header.attributes) && ReadHeader(p.header).Ok? && q.meta == Some(ReadHeader(p.header).value)
    && q.extIdx == |p.ext| && q.subIdx == |p.sub| && SubsRead(p.sub, q.sub)
    && q.main == (if p.main == [] then None
                  else Some(SubResource("", q.meta.value.resourceType, ReadProperties(p.main[0].properties), 0)))
    && NodesRead(NodeIn, p.nodes, q.raws) && ConnectionsRead(ConnectionIn, p.connections, q.connections)
    && |q.editable| == |p.editable|
  }

  lemma RereadFront(step: Step, p: Pieces, q: Parsed)
    requires UnderstandsHeaders(step) && UnderstandsExts(step) && UnderstandsSubs(step) && Grouped(p)
    requires Fold(step, NOTHING_PARSED, [p.header] + p.ext + p.sub) == Ok(q)
    ensures Captured(p.header.attributes) && ReadHeader(p.header).Ok?
    ensures q == NOTHING_PARSED.(meta := Some(ReadHeader(p.header).value), ext := q.ext, extIdx := |p.ext|, sub := q.sub, subIdx := |p.sub|)
    ensures SubsRead(p.sub, q.sub)
  {
    var p2 := FoldSplit(step, NOTHING_PARSED, [p.header] + p.ext, p.sub);
    var p1 := FoldSplit(step, NOTHING_PARSED, [p.header], p.ext);
    assert [p.header][..0] == [];
    assert step(NOTHING_PARSED, p.header) == Ok(p1);
    RereadExts(step, p1, p.ext, p2);
    RereadSubs(step, p2, p.sub, q);
  }

  lemma RereadMain(step: Step, p: Pieces, before: Parsed, q: Parsed)
    requires UnderstandsMain(step) && Grouped(p) && before.meta.Some? && before.main.None?
    requires Fold(step, before, p.main) == Ok(q)
    ensures q == before.(main := if p.main == [] then None
                                 else Some(SubResource("", before.meta.value.resourceType, ReadProperties(p.main[0].properties), 0)))
  {
    if p.main != [] {
      assert p.main[..0] == [] && |p.main| == 1;
      assert step(before, p.main[0]) == Ok(q);
    }
  }

  lemma RereadBack(step: Step, p: Pieces, before: Parsed, q: Parsed)
    requires UnderstandsNodes(step, NodeIn) && UnderstandsConnections(step, ConnectionIn) && UnderstandsEditables(step) && Grouped(p)
    requires before.raws == [] && before.seen == {} && before.connections == [] && before.editable == []
    requires Fold(step, before, p.nodes + p.connections + p.editable) == Ok(q)
    ensures q == before.(raws := q.raws, seen := q.seen, connections := q.connections, editable := q.editable)
    ensures NodesRead(NodeIn, p.nodes, q.raws) && ConnectionsRead(ConnectionIn, p.connections, q.connections) && |q.editable| == |p.editable|
  {
    var q2 := FoldSplit(step, before, p.nodes + p.connections, p.editable);
    var q1 := FoldSplit(step, before, p.nodes, p.connections);
    RereadNodes(step, NodeIn, before, p.nodes, q1);
    RereadConnections(step, ConnectionIn, q1, p.connections, q2);
    RereadEditables(step, q2, p.editable, q);
  }

  lemma RereadText(step: Step, p: Pieces, q: Parsed)
    requires Understands(step) && Grouped(p) && Fold(step, NOTHING_PARSED, AllSections(p)) == Ok(q)
    ensures Reread(p, q)
  {
    var front, back := [p.header] + p.ext + p.sub, p.nodes + p.connections + p.editable;
    assert AllSections(p) == front + p.main + back;
    var q2 := FoldSplit(step, NOTHING_PARSED, front + p.main, back);
    var q1 := FoldSplit(step, NOTHING_PARSED, front, p.main);
    RereadFront(step, p, q1);
    RereadMain(step, p, q1, q2);
    RereadBack(step, p, q2, q);
  }

  // ---------- header and resources ----------

  lemma HeaderExact(m: Metadata)
    requires IsI64(m.loadSteps) && IsI64(m.format) && Captured(PrintHeader(m).attributes) && ReadHeader(PrintHeader(m)) == Ok(m)
    ensures HeaderOk(m)
  {
  }

  lemma OrdersExact(m: Properties, pairs: seq<(string, string)>)
    requires PrintsProperties(m, pairs)
    ensures ReadProperties(pairs) == m <==> DenseOrders(m)
  {
    if DenseOrders(m) { ReadPrintedProperties(m, pairs); }
    if ReadProperties(pairs) == m {
      forall i | 0 <= i < |pairs| ensures m[pairs[i].0].order == i { ReadOrder(pairs, i); }
      forall k | k in m ensures exists i :: 0 <= i < |pairs| && pairs[i].0 == k { PrintedKey(m, pairs, k); }
    }
  }

  lemma {:induction false} ReadOrder(pairs: seq<(string, string)>, i: nat)
    requires i < |pairs| && forall j, k :: 0 <= j < k < |pairs| ==> pairs[j].0 != pairs[k].0
    ensures pairs[i].0 in ReadProperties(pairs) && ReadProperties(pairs)[pairs[i].0].order == i
  {
    if i < |pairs| - 1 { ReadOrder(pairs[..|pairs| - 1], i); }
  }

  lemma ExtExact(s: Scene, layout: Layout)
    requires Lists(layout.ext, s.extResources) && NumberedExt(s.extResources, |layout.ext|)
    ensures DenseExt(s.extResources)
  {
  }

  lemma PrintedSubId(r: SubResource, s: Section)
    requires PrintsSub(r, s) && Captured(s.attributes)
    ensures SubIdOf(s) == r.id
  {
    var f := SubFields(r);
    LookupPresent(f, 1);
    UnquoteQuote(r.id);
    assert f[1].0 == Id;
  }

  lemma SubExact(m: map<string, SubResource>, keys: seq<string>, ss: seq<Section>, i: nat)
    requires Lists(keys, m) && |ss| == |keys| && i < |ss| && (forall k :: k in m ==> m[k].id == k)
    requires forall j :: 0 <= j < |ss| ==> PrintsSub(m[keys[j]], ss[j])
    requires SubsRead(ss, m)
    ensures DenseOrders(m[keys[i]].properties)
  {
    forall j | 0 <= j < |ss| ensures SubIdOf(ss[j]) == keys[j] { PrintedSubId(m[keys[j]], ss[j]); }
    assert LastSub(ss, i);
    OrdersExact(m[keys[i]].properties, ss[i].properties);
  }

  lemma SubsExact(s: Scene, layout: Layout, ss: seq<Section>)
    requires Lists(layout.sub, s.subResources) && NumberedSub(s.subResources, |layout.sub|) && |ss| == |layout.sub|
    requires forall j :: 0 <= j < |ss| ==> PrintsSub(s.subResources[layout.sub[j]], ss[j])
    requires SubsRead(ss, s.subResources)
    ensures DenseSub(s.subResources)
  {
    forall k | k in s.subResources ensures DenseOrders(s.subResources[k].properties) {
      ListsAll(layout.sub, s.subResources, k);
      var i :| 0 <= i < |layout.sub| && layout.sub[i] == k;
      SubExact(s.subResources, layout.sub, ss, i);
    }
  }

  // ---------- nodes ----------

  function Unquoted(v: Option<string>): Option<string>
  {
    match v case None => None case Some(x) => if x == "\"" then None else Some(Unquote(x))
  }

  function KindUnquoted(kind: Option<TypeOrInstance>): Option<TypeOrInstance>
  {
    match kind
    case Some(Instance(resource)) => if resource == "\"" then None else Some(Instance(Unquote(resource)))
    case _ => kind
  }

  // What a printed node section is read as.
  predicate RereadAs(n: Node, parentName: Option<string>, properties: Properties, r: Node)
  {
    && r.id == NodeId(n.id.id, None) && r.name == n.name && r.kind == KindUnquoted(n.kind) && r.placeholder == Unquoted(n.placeholder)
    && r.fallback == parentName && r.parentIdPath == (if parentName.Some? then n.parentIdPath else None)
    && r.ownerUidPath == (if n.owner.Some? then n.ownerUidPath else None)
    && r.nodePaths == Unquoted(n.nodePaths) && r.properties == properties
  }

  lemma FindUnquoted(a: seq<(Key, string)>, key: Key, v: Option<string>)
    requires Captured(a) && Lookup(a, key) == v
    ensures LookupText(a, key) == Unquoted(v) && v != Some("\"")
  {
    LookupCaptured(a, key);
  }

  lemma RereadNode(n: Node, parentName: Option<string>, s: Section)
    requires PrintsNode(n, parentName, s) && Captured(s.attributes) && ReadNode(s).Ok? && IsI32(n.id.id)
    requires ArrayOk(n.parentIdPath) && ArrayOk(n.ownerUidPath)
    ensures RereadAs(n, parentName, ReadProperties(s.properties), ReadNode(s).value)
    ensures n.placeholder != Some("\"") && n.nodePaths != Some("\"")
    ensures n.kind.Some? && n.kind.value.Instance? ==> n.kind.value.resource != "\""
  {
    var a := s.attributes;
    NodeAttributes(n, parentName);
    RereadLookups(n, parentName, s);
  }

  lemma RereadLookups(n: Node, parentName: Option<string>, s: Section)
    requires Captured(s.attributes) && NodeLookups(s.attributes, n, parentName) && ReadNode(s).Ok? && IsI32(n.id.id)
    requires ArrayOk(n.parentIdPath) && ArrayOk(n.ownerUidPath)
    ensures RereadAs(n, parentName, ReadProperties(s.properties), ReadNode(s).value)
    ensures n.placeholder != Some("\"") && n.nodePaths != Some("\"")
    ensures n.kind.Some? && n.kind.value.Instance? ==> n.kind.value.resource != "\""
  {
    var a := s.attributes;
    FindQuoted(a, Name, Some(n.name));
    FindQuoted(a, ParentKey, parentName);
    FindUnquoted(a, NodePaths, n.nodePaths);
    FindUnquoted(a, Placeholder, n.placeholder);
    FindArray(a, ParentIdPath, if parentName.Some? then n.parentIdPath else None);
    FindArray(a, OwnerUidPath, if n.owner.Some? then n.ownerUidPath else None);
    RereadKind(a, n.kind);
    PrintReadInt(n.id.id);
  }

  lemma RereadKind(a: seq<(Key, string)>, kind: Option<TypeOrInstance>)
    requires Captured(a)
    requires Lookup(a, TypeKey) == if kind.Some? && kind.value.Type? then Some(Quote(kind.value.name)) else None
    requires Lookup(a, InstanceKey) == if kind.Some? && kind.value.Instance? then Some(kind.value.resource) else None
    ensures ReadKind(a) == KindUnquoted(kind)
    ensures kind.Some? && kind.value.Instance? ==> kind.value.resource != "\""
  {
    LookupCaptured(a, InstanceKey);
  }

  // The tree of a parsed scene whose nodes are all printed, and what was read for them.
  ghost predicate NodesReread(t: Tree, sections: seq<Section>, raws: seq<Node>, l: Links)
  {
    && Linked(t) && Pathed(t) && FormOk(t) && (forall k :: k in t.nodes ==> IsI32(k.id) && ArrayOk(t.nodes[k].ownerUidPath))
    && PrintsNodes(t, Preorder(t, t.root), sections) && NodesRead(NodeIn, sections, raws) && RawsOk(raws)
    && IdPass(raws) == Ok(l) && LinkedFrom(raws, l, t.nodes)
  }

  // A typed node kept its number, so no earlier section had it.
  lemma RawKept(t: Tree, sections: seq<Section>, raws: seq<Node>, l: Links, i: nat)
    requires NodesReread(t, sections, raws, l) && i < |sections|
    ensures NodeIn(sections[i]) == Some(raws[i])
    ensures raws[i].kind.Some? ==> !Repeats(NodeIn, sections, i)
  {
    assert NodeFrom(NodeIn, sections, i, raws[i]);
    IdentifiedNode(raws, l, i);
  }

  lemma NodeReread(t: Tree, sections: seq<Section>, raws: seq<Node>, l: Links, i: nat)
    requires NodesReread(t, sections, raws, l) && i < |sections|
    ensures var o := Preorder(t, t.root);
      && |o| == |sections| && o[i] in t.nodes && PrintsProperties(t.nodes[o[i]].properties, sections[i].properties)
      && RereadAs(t.nodes[o[i]], PrintedParent(t, o[i]), ReadProperties(sections[i].properties), raws[i])
      && t.nodes[o[i]].placeholder != Some("\"") && t.nodes[o[i]].nodePaths != Some("\"")
      && (t.nodes[o[i]].kind.Some? && t.nodes[o[i]].kind.value.Instance? ==> t.nodes[o[i]].kind.value.resource != "\"")
      && NumberOf(NodeIn, sections[i]) == o[i].id
  {
    var k := Preorder(t, t.root)[i];
    RawKept(t, sections, raws, l, i);
    assert NodeFormOk(t, k);
    RereadNode(t.nodes[k], PrintedParent(t, k), sections[i]);
  }

  lemma RawForPrinted(t: Tree, sections: seq<Section>, raws: seq<Node>, l: Links, i: nat)
    requires NodesReread(t, sections, raws, l) && i < |sections|
    ensures |Preorder(t, t.root)| == |sections| && Preorder(t, t.root)[i] in t.nodes && i < |raws| && RawFor(t, Preorder(t, t.root)[i], raws[i])
  {
    NodeReread(t, sections, raws, l, i);
  }

  lemma PreorderVisited(t: Tree)
    requires Linked(t)
    ensures var o := Preorder(t, t.root); Visited(t, o) && o != [] && forall x :: x in o <==> x in t.nodes
    ensures forall p :: p in t.nodes ==> ChildrenAmong(t, Preorder(t, t.root), p) == t.nodes[p].children
  {
    var o := Preorder(t, t.root);
    WholePreorder(t);
    forall i | 0 < i < |o| ensures o[i] != t.root && Before(o, i, Parent(t, o[i])) {
      assert Parent(t, o[i]) in o[..i];
    }
  }

  lemma ChildrenDistinct(t: Tree, p: NodeId)
    requires Linked(t) && p in t.nodes
    ensures NoDuplicates(t.nodes[p].children)
  {
  }

  lemma TreeRelinks(t: Tree, sections: seq<Section>, raws: seq<Node>, l: Links)
    requires NodesReread(t, sections, raws, l)
    ensures Relinks(t, Preorder(t, t.root), raws, l)
  {
    var o := Preorder(t, t.root);
    PreorderVisited(t);
    WholeFinds(t);
    forall p | p in t.nodes ensures NoDuplicates(t.nodes[p].children) { ChildrenDistinct(t, p); }
    forall i | 0 <= i < |o| ensures o[i] in t.nodes && RawFor(t, o[i], raws[i]) { RawForPrinted(t, sections, raws, l, i); }
    assert RawsFor(t, o, raws);
  }

  lemma NumberFresh(t: Tree, sections: seq<Section>, raws: seq<Node>, l: Links, i: nat, j: nat)
    requires NodesReread(t, sections, raws, l) && i < j < |Preorder(t, t.root)|
    requires Preorder(t, t.root)[j] in t.nodes && !IsEdited(t.nodes[Preorder(t, t.root)[j]])
    ensures Preorder(t, t.root)[i].id != Preorder(t, t.root)[j].id
  {
    NodeReread(t, sections, raws, l, i);
    NodeReread(t, sections, raws, l, j);
    RawKept(t, sections, raws, l, j);
  }

  lemma FreshExact(t: Tree, sections: seq<Section>, raws: seq<Node>, l: Links)
    requires NodesReread(t, sections, raws, l)
    ensures FreshNumbers(t, Preorder(t, t.root))
  {
    var o := Preorder(t, t.root);
    forall i, j | 0 <= i < j < |o| && o[j] in t.nodes && !IsEdited(t.nodes[o[j]]) ensures o[i].id != o[j].id {
      NumberFresh(t, sections, raws, l, i, j);
    }
  }

  lemma PlainExact(v: Option<string>)
    requires v != Some("\"") && Unquoted(v) == v
    ensures Plain(v)
  {
    if v.Some? { QuotedShrinks(v.value); }
  }

  lemma QuotedShrinks(s: string)
    requires s != "\""
    ensures IsQuoted(s) ==> |Unquote(s)| + 2 == |s|
    ensures !IsQuoted(s) ==> Unquote(s) == s
  {
  }

  lemma NodeTextExact(n: Node, parentName: Option<string>, pairs: seq<(string, string)>, raw: Node)
    requires RereadAs(n, parentName, ReadProperties(pairs), raw) && SameContent(raw, n) && PrintsProperties(n.properties, pairs)
    requires n.placeholder != Some("\"") && n.nodePaths != Some("\"")
    requires n.kind.Some? && n.kind.value.Instance? ==> n.kind.value.resource != "\""
    requires IsI32(n.id.id) && ArrayOk(n.parentIdPath) && ArrayOk(n.ownerUidPath) && WideNumber(n.index) && n.groups != Some("\"")
    ensures NodeTextOk(n, parentName.None?)
  {
    PlainExact(n.placeholder);
    PlainExact(n.nodePaths);
    if n.kind.Some? && n.kind.value.Instance? { PlainExact(Some(n.kind.value.resource)); }
    OrdersExact(n.properties, pairs);
  }

  lemma NodesExact(t: Tree, sections: seq<Section>, raws: seq<Node>, l: Links)
    requires NodesReread(t, sections, raws, l) && l.keys == Preorder(t, t.root)
    requires forall k :: k in t.nodes ==> WideNumber(t.nodes[k].index) && t.nodes[k].groups != Some("\"")
    ensures forall k :: k in t.nodes ==> k.id != 0 && NodeTextOk(t.nodes[k], k == t.root)
  {
    var o := Preorder(t, t.root);
    PreorderVisited(t);
    forall k | k in t.nodes ensures k.id != 0 && NodeTextOk(t.nodes[k], k == t.root) {
      var i :| 0 <= i < |o| && o[i] == k;
      NodeReread(t, sections, raws, l, i);
      ContentStays(raws, l, t.nodes, i);
      assert NodeFormOk(t, k);
      NodeTextExact(t.nodes[k], PrintedParent(t, k), sections[i].properties, raws[i]);
    }
  }

  // ---------- connections ----------

  lemma RereadConnection(c: Connection, from: string, to: string, s: Section)
    requires s == PrintConnection(c, from, to) && Captured(s.attributes) && ReadConnection(s).Ok?
    requires WideNumber(c.flags) && WideNumber(c.unbinds) && ArrayOk(c.fromUidPath) && ArrayOk(c.toUidPath)
    ensures c.binds != Some("\"")
    ensures ReadConnection(s).value == RawConnection(from, to, c.(from := UNASSIGNED, to := UNASSIGNED, binds := Unquoted(c.binds)))
  {
    var a := s.attributes;
    ConnectionAttributes(c, from, to);
    FindQuoted(a, Signal, Some(c.signal));
    FindQuoted(a, From, Some(from));
    FindQuoted(a, To, Some(to));
    FindQuoted(a, Method, Some(c.callee));
    FindWide(a, Flags, c.flags);
    FindWide(a, Unbinds, c.unbinds);
    FindArray(a, FromUidPath, c.fromUidPath);
    FindArray(a, ToUidPath, c.toUidPath);
    FindUnquoted(a, Binds, c.binds);
  }

  // The printed connections of `s`, what was read for them, and what they resolve to.
  ghost predicate ConnectionsReread(s: Scene, t: Tree, keys: seq<string>, sections: seq<Section>,
                                    raws: seq<RawConnection>, paths: map<string, NodeId>)
  {
    && Linked(t) && PathsFor(t, Preorder(t, t.root), paths) && ParsedConnections(s) && t.nodes == s.nodes
    && PrintsConnections(s, t, keys, sections) && ConnectionsRead(ConnectionIn, sections, raws)
    && ResolveAll(paths, raws) == Ok(s.connections)
  }

  lemma SourceOf(s: Scene, t: Tree, keys: seq<string>, sections: seq<Section>, raws: seq<RawConnection>, paths: map<string, NodeId>, k: string)
    returns (i: nat)
    requires ConnectionsReread(s, t, keys, sections, raws, paths) && k in s.connections
    ensures i < |keys| && i < |raws| && keys[i] in s.connections && Resolves(paths, raws[i], s.connections[k])
    ensures s.connections[keys[i]].binds != Some("\"") && s.connections[k].binds == Unquoted(s.connections[keys[i]].binds)
  {
    ResolveAllGives(paths, raws);
    assert ResolvedFrom(paths, raws, k, s.connections[k]);
    i :| 0 <= i < |raws| && Resolves(paths, raws[i], s.connections[k]);
    var c := s.connections[keys[i]];
    assert PrintsConnection(t, c, sections[i]);
    PrintedEnds(t, c, sections[i]);
    assert ConnectionIn(sections[i]) == Some(raws[i]);
    RereadConnection(c, NodePath(t, c.from), NodePath(t, c.to), sections[i]);
  }

  lemma EndsExact(s: Scene, t: Tree, keys: seq<string>, sections: seq<Section>, raws: seq<RawConnection>, paths: map<string, NodeId>, k: string)
    requires ConnectionsReread(s, t, keys, sections, raws, paths) && k in s.connections
    ensures EndsLast(t, s.connections[k])
  {
    var i := SourceOf(s, t, keys, sections, raws, paths, k);
    var c := s.connections[k];
    assert paths[raws[i].from] == c.from && paths[raws[i].to] == c.to;
    RecordedLast(t, Preorder(t, t.root), paths, c.from);
    RecordedLast(t, Preorder(t, t.root), paths, c.to);
  }

  predicate QuotedText(v: Option<string>) { v.Some? && (v.value == "\"" || IsQuoted(v.value)) }

  // A quoted text came from a longer quoted text, so none is left.
  lemma {:induction false} NoQuotedBinds(s: Scene, t: Tree, keys: seq<string>, sections: seq<Section>, raws: seq<RawConnection>,
                                         paths: map<string, NodeId>, longest: nat, n: nat)
    requires ConnectionsReread(s, t, keys, sections, raws, paths)
    requires forall k :: k in s.connections && s.connections[k].binds.Some? ==> |s.connections[k].binds.value| <= longest
    ensures forall k :: k in s.connections && QuotedText(s.connections[k].binds) ==> |s.connections[k].binds.value| + n <= longest
  {
    if n > 0 {
      NoQuotedBinds(s, t, keys, sections, raws, paths, longest, n - 1);
      forall k | k in s.connections && QuotedText(s.connections[k].binds) ensures |s.connections[k].binds.value| + n <= longest {
        var i := SourceOf(s, t, keys, sections, raws, paths, k);
        QuotedSource(s.connections[keys[i]].binds, s.connections[k].binds);
      }
    }
  }

  lemma QuotedSource(source: Option<string>, v: Option<string>)
    requires source != Some("\"") && v == Unquoted(source) && QuotedText(v)
    ensures QuotedText(source) && |source.value| == |v.value| + 2
  {
    QuotedShrinks(source.value);
  }

  lemma BindsExact(s: Scene, t: Tree, keys: seq<string>, sections: seq<Section>, raws: seq<RawConnection>, paths: map<string, NodeId>)
    requires ConnectionsReread(s, t, keys, sections, raws, paths)
    ensures forall k :: k in s.connections ==> Plain(s.connections[k].binds)
  {
    var lengths := map k | k in s.connections :: match s.connections[k].binds case None => 0 case Some(v) => |v|;
    var longest := Bounded(lengths);
    forall k | k in s.connections && s.connections[k].binds.Some? ensures |s.connections[k].binds.value| <= longest {
      assert lengths[k] <= longest;
    }
    NoQuotedBinds(s, t, keys, sections, raws, paths, longest, longest + 1);
  }

  // ---------- the whole text ----------

  // What the parser had collected when it accepted the printed text as `s`.
  ghost predicate AcceptedAs(s: Scene, q: Parsed, l: Links)
  {
    && ParsedOk(q) && q.meta == Some(MetadataOf(s)) && Link(q.raws) == Ok(l)
    && l.nodes == s.nodes && l.root == s.root && ResolveAll(l.paths, q.connections) == Ok(s.connections)
    && q.ext == s.extResources && q.sub == s.subResources && q.main == s.mainResource && q.editable == s.editable
  }

  lemma Accepted(s: Scene, p: Pieces) returns (q: Parsed, l: Links)
    requires Grouped(p) && Parse(AllSections(p)) == Ok(s)
    ensures AcceptedAs(s, q, l) && Reread(p, q)
  {
    q := ReadAll(AllSections(p)).value;
    ReadAllOk(AllSections(p));
    ReadSectionUnderstands();
    RereadText(ReadSection, p, q);
    l := FinishGives(q);
  }

  lemma FrontExact(s: Scene, t: Tree, layout: Layout, p: Pieces, q: Parsed, l: Links)
    requires TreeOf(s, t) && Prints(s, t, layout, p) && AcceptedAs(s, q, l) && Reread(p, q)
    requires IsI64(s.loadSteps) && IsI64(s.format)
    requires forall k :: k in s.subResources ==> s.subResources[k].id == k
    ensures HeaderOk(MetadataOf(s)) && DenseExt(s.extResources) && DenseSub(s.subResources)
  {
    HeaderExact(MetadataOf(s));
    ExtExact(s, layout);
    SubsExact(s, layout, p.sub);
  }

  lemma NothingLinked()
    ensures Link([]).Ok? && Link([]).value.nodes == map[] && Link([]).value.root == None
  {
  }

  lemma MainPrinted(s: Scene, t: Tree, layout: Layout, p: Pieces)
    requires TreeOf(s, t) && Prints(s, t, layout, p) && s.mainResource.Some?
    ensures |p.main| == 1 && PrintsProperties(s.mainResource.value.properties, p.main[0].properties) && p.nodes == [] && p.editable == []
  {
  }

  lemma MainExact(s: Scene, t: Tree, layout: Layout, p: Pieces, q: Parsed, l: Links)
    requires TreeOf(s, t) && Prints(s, t, layout, p) && s.mainResource.Some?
    requires AcceptedAs(s, q, l) && Reread(p, q)
    ensures s.root.None? && s.nodes == map[] && s.editable == []
    ensures var m := s.mainResource.value; m.id == "" && m.idx == 0 && m.kind == s.resourceType && DenseOrders(m.properties)
  {
    MainPrinted(s, t, layout, p);
    MainReread(s, p, q, l);
  }

  lemma MainReread(s: Scene, p: Pieces, q: Parsed, l: Links)
    requires s.mainResource.Some? && |p.main| == 1 && PrintsProperties(s.mainResource.value.properties, p.main[0].properties)
    requires p.nodes == [] && p.editable == [] && AcceptedAs(s, q, l) && Reread(p, q)
    ensures s.root.None? && s.nodes == map[] && s.editable == []
    ensures var m := s.mainResource.value; m.id == "" && m.idx == 0 && m.kind == s.resourceType && DenseOrders(m.properties)
  {
    assert q.raws == [];
    NothingLinked();
    OrdersExact(s.mainResource.value.properties, p.main[0].properties);
  }

  lemma PreorderSize(t: Tree)
    requires Linked(t)
    ensures |t.nodes.Keys| == |Preorder(t, t.root)|
  {
    WholePreorder(t);
    KeysListed(Preorder(t, t.root), t.nodes.Keys);
  }

  lemma WholeTree(s: Scene, t: Tree)
    requires TreeOf(s, t) && s.root.Some? && |s.nodes.Keys| == |Preorder(t, t.root)|
    ensures t.nodes == s.nodes
  {
    PreorderSize(t);
    SubsetSize(t.nodes.Keys, s.nodes.Keys);
  }

  // Every printed node was accepted as a node of the scene, so all nodes were printed.
  lemma TreeReread(s: Scene, recorded: map<NodeId, string>, t: Tree, p: Pieces, q: Parsed, l: Links) returns (first: Links)
    requires TreeOf(s, t) && s.root.Some? && ProperNames(t) && ParsedForm(s, recorded) && AcceptedAs(s, q, l) && Reread(p, q)
    requires PrintsNodes(t, Preorder(t, t.root), p.nodes)
    ensures t.nodes == s.nodes && NodesReread(t, p.nodes, q.raws, first) && first.paths == l.paths
  {
    var again := LinkParsed(q.raws);
    assert |s.nodes.Keys| == |s.nodes|;
    WholeTree(s, t);
    ParsedFormOk(t, recorded);
    ParsedPathed(t, recorded);
    first := LinkGives(q.raws);
    forall k | k in t.nodes ensures IsI32(k.id) && ArrayOk(t.nodes[k].ownerUidPath) { assert ParsedNode(s.nodes, recorded, k); }
  }

  lemma TreeExact(s: Scene, recorded: map<NodeId, string>, t: Tree, p: Pieces, q: Parsed, l: Links)
    requires TreeOf(s, t) && s.root.Some? && ProperNames(t) && ParsedForm(s, recorded) && AcceptedAs(s, q, l) && Reread(p, q)
    requires PrintsNodes(t, Preorder(t, t.root), p.nodes)
    ensures t.nodes == s.nodes && TreeOk(t) && FreshNumbers(t, Preorder(t, t.root)) && PathsFor(t, Preorder(t, t.root), l.paths)
    ensures forall k :: k in t.nodes ==> k.id != 0 && NodeTextOk(t.nodes[k], k == t.root)
  {
    var first := TreeReread(s, recorded, t, p, q, l);
    TreeRelinks(t, p.nodes, q.raws, first);
    RelinksExactly(t, q.raws, first);
    FreshExact(t, p.nodes, q.raws, first);
    forall k | k in t.nodes ensures WideNumber(t.nodes[k].index) && t.nodes[k].groups != Some("\"") { assert ParsedNode(s.nodes, recorded, k); }
    NodesExact(t, p.nodes, q.raws, first);
  }

  lemma ConnectionsExact(s: Scene, t: Tree, layout: Layout, p: Pieces, q: Parsed, l: Links)
    requires TreeOf(s, t) && s.root.Some? && t.nodes == s.nodes && ParsedConnections(s) && AcceptedAs(s, q, l) && Reread(p, q)
    requires PathsFor(t, Preorder(t, t.root), l.paths) && PrintsConnections(s, t, layout.connections, p.connections)
    ensures forall k :: k in s.connections ==> ConnectionTextOk(s.connections[k]) && EndsLast(t, s.connections[k])
  {
    BindsExact(s, t, layout.connections, p.connections, q.connections, l.paths);
    forall k | k in s.connections ensures ConnectionTextOk(s.connections[k]) && EndsLast(t, s.connections[k]) {
      EndsExact(s, t, layout.connections, p.connections, q.connections, l.paths, k);
    }
  }

  lemma ConnectedTree(s: Scene, t: Tree)
    requires TreeOf(s, t) && s.root.Some? && t.nodes == s.nodes && ParsedConnections(s) && s.mainResource.None?
    requires HeaderOk(MetadataOf(s)) && DenseExt(s.extResources) && DenseSub(s.subResources)
    requires TreeOk(t) && FreshNumbers(t, Preorder(t, t.root)) && forall k :: k in t.nodes ==> k.id != 0 && NodeTextOk(t.nodes[k], k == t.root)
    requires forall k :: k in s.connections ==> ConnectionTextOk(s.connections[k]) && EndsLast(t, s.connections[k])
    ensures SceneOk(s, t)
  {
  }

  lemma TreeComesBack(s: Scene, recorded: map<NodeId, string>, t: Tree, layout: Layout, p: Pieces, q: Parsed, l: Links)
    requires ParsedForm(s, recorded) && TreeOf(s, t) && Prints(s, t, layout, p) && s.root.Some? && ProperNames(t) && s.mainResource.None?
    requires AcceptedAs(s, q, l) && Reread(p, q)
    requires HeaderOk(MetadataOf(s)) && DenseExt(s.extResources) && DenseSub(s.subResources)
    ensures SceneOk(s, t)
  {
    TreeExact(s, recorded, t, p, q, l);
    ConnectionsExact(s, t, layout, p, q, l);
    ConnectedTree(s, t);
  }

  lemma RootlessComesBack(s: Scene, t: Tree, layout: Layout, p: Pieces, q: Parsed, l: Links)
    requires ParsedConnections(s) && TreeOf(s, t) && Prints(s, t, layout, p) && s.root.None?
    requires AcceptedAs(s, q, l) && Reread(p, q)
    requires HeaderOk(MetadataOf(s)) && DenseExt(s.extResources) && DenseSub(s.subResources)
    ensures SceneOk(s, t)
  {
    if s.mainResource.Some? { MainExact(s, t, layout, p, q, l); } else { assert q.raws == []; }
  }

  // The conditions under which printing and parsing gives back a scene are necessary.
  lemma OnlyOkComesBack(s: Scene, recorded: map<NodeId, string>, t: Tree, layout: Layout, p: Pieces)
    requires ParsedForm(s, recorded) && TreeOf(s, t) && Prints(s, t, layout, p) && (s.root.Some? ==> ProperNames(t))
    requires Parse(AllSections(p)) == Ok(s)
    ensures SceneOk(s, t)
  {
    PrintedGrouped(s, t, layout, p);
    var q, l := Accepted(s, p);
    FrontExact(s, t, layout, p, q, l);
    if s.mainResource.Some? { MainExact(s, t, layout, p, q, l); }
    if s.root.Some? {
      TreeComesBack(s, recorded, t, layout, p, q, l);
    } else {
      RootlessComesBack(s, t, layout, p, q, l);
    }
  }

  // For every text the parser accepts: its scene is printed and parsed to itself if and only if
  // its resources and properties are numbered without gaps, all its nodes are reached from the
  // root, typed nodes have numbers not printed before, parents and connected nodes are the last
  // with their paths, and no attribute is lost.
  lemma ReparsedExactly(sections: seq<Section>, s: Scene, t: Tree, layout: Layout, p: Pieces)
    requires Parse(sections) == Ok(s) && TreeOf(s, t) && Prints(s, t, layout, p) && (s.root.Some? ==> ProperNames(t))
    ensures Parse(AllSections(p)) == Ok(s) <==> SceneOk(s, t)
  {
    var recorded := ParseGives(sections);
    if SceneOk(s, t) { ParsePrinted(s, t, layout, p); }
    if Parse(AllSections(p)) == Ok(s) { OnlyOkComesBack(s, recorded, t, layout, p); }
  }
}
