// parse_scene and serialize as wholes, over sequences of sections.

module SceneText {
  import opened Text
  import opened SceneModel
  import opened SceneTree
  import opened SceneLinks
  import opened SceneSections

  // ---------- parsing ----------

  datatype Parsed = Parsed(
    meta: Option<Metadata>,
    raws: seq<Node>,
    seen: set<int>,
    ext: map<string, ExtResource>,
    extIdx: int,
    sub: map<string, SubResource>,
    subIdx: int,
    main: Option<SubResource>,
    connections: seq<RawConnection>,
    editable: seq<string>)

  const NOTHING_PARSED := Parsed(None, [], {}, map[], 0, map[], 0, None, [], [])

  // A typed or instanced node that repeats a number loses it and will need a random one.
  function AddNode(p: Parsed, n: Node): Parsed
  {
    var repeated := n.id.id in p.seen && n.kind.Some?;
    p.(seen := p.seen + {n.id.id}, raws := p.raws + [if repeated then n.(id := UNASSIGNED) else n])
  }

  function ReadSection(p: Parsed, s: Section): Result<Parsed>
  {
    if !Captured(s.attributes) then Err(LoneQuote)
    else
    match s.kind
    case GdScene => (match ReadHeader(s) case Err(e) => Err(e) case Ok(m) => Ok(p.(meta := Some(m))))
    case GdResource => (match ReadHeader(s) case Err(e) => Err(e) case Ok(m) => Ok(p.(meta := Some(m))))
    case ResourceSection =>
      Ok(p.(main := Some(SubResource("", if p.meta.Some? then p.meta.value.resourceType else "", ReadProperties(s.properties), 0))))
    case NodeSection => (match ReadNode(s) case Err(e) => Err(e) case Ok(n) => Ok(AddNode(p, n)))
    case ExtResourceSection =>
      (match ReadExt(s, p.extIdx) case Err(e) => Err(e) case Ok(r) => Ok(p.(ext := p.ext[r.id := r], extIdx := p.extIdx + 1)))
    case SubResourceSection =>
      (match ReadSub(s, p.subIdx) case Err(e) => Err(e) case Ok(r) => Ok(p.(sub := p.sub[r.id := r], subIdx := p.subIdx + 1)))
    case ConnectionSection =>
      (match ReadConnection(s) case Err(e) => Err(e) case Ok(c) => Ok(p.(connections := p.connections + [c])))
    case EditableSection =>
      (match LookupText(s.attributes, Path) case None => Err(MissingAttribute) case Some(path) => Ok(p.(editable := p.editable + [path])))
    case OtherSection(_) => Ok(p)
  }

  // Runs `step` over a sequence, from the left, until it fails.
  function Fold<S, A>(step: (S, A) -> Result<S>, start: S, xs: seq<A>): Result<S>
  {
    if xs == [] then Ok(start)
    else
      var n := |xs| - 1;
      match Fold(step, start, xs[..n])
      case Err(e) => Err(e)
      case Ok(s) => step(s, xs[n])
  }

  lemma {:induction false} FoldFails<S, A>(step: (S, A) -> Result<S>, start: S, xs: seq<A>, n: nat)
    requires n <= |xs| && Fold(step, start, xs[..n]).Err?
    ensures Fold(step, start, xs) == Fold(step, start, xs[..n])
    decreases |xs|
  {
    if n < |xs| {
      assert xs[..|xs| - 1][..n] == xs[..n];
      FoldFails(step, start, xs[..|xs| - 1], n);
    } else {
      assert xs[..n] == xs;
    }
  }

  function ReadAll(sections: seq<Section>): Result<Parsed>
  {
    Fold(ReadSection, NOTHING_PARSED, sections)
  }

  function Assemble(m: Metadata, p: Parsed, l: Links, connections: map<string, Connection>): Scene
  {
    Scene(m.loadSteps, m.format, m.uid, m.scriptClass, m.resourceType, l.root, p.ext, p.sub, l.nodes, connections, p.editable, p.main)
  }

  // What follows the section loop: links, connections, header.
  function Finish(p: Parsed): Result<Scene>
  {
    match Link(p.raws)
    case Err(e) => Err(e)
    case Ok(l) =>
      match ResolveAll(l.paths, p.connections)
      case Err(e) => Err(e)
      case Ok(connections) =>
        if p.meta.None? then Err(MissingHeader) else Ok(Assemble(p.meta.value, p, l, connections))
  }

  function Parse(sections: seq<Section>): Result<Scene>
  {
    match ReadAll(sections) case Err(e) => Err(e) case Ok(p) => Finish(p)
  }

  lemma {:induction false} ResolveAllFails(paths: map<string, NodeId>, raws: seq<RawConnection>, n: nat)
    requires n <= |raws| && ResolveAll(paths, raws[..n]).Err?
    ensures ResolveAll(paths, raws) == ResolveAll(paths, raws[..n])
    decreases |raws|
  {
    if n < |raws| {
      assert raws[..|raws| - 1][..n] == raws[..n];
      ResolveAllFails(paths, raws[..|raws| - 1], n);
    } else {
      assert raws[..n] == raws;
    }
  }

  method ResolveConnections(paths: map<string, NodeId>, raws: seq<RawConnection>) returns (r: Result<map<string, Connection>>)
    ensures r == ResolveAll(paths, raws)
  {
    var done: map<string, Connection> := map[];
    for i := 0 to |raws|
      invariant ResolveAll(paths, raws[..i]) == Ok(done)
    {
      assert raws[..i + 1][..i] == raws[..i];
      var raw := raws[i];
      if raw.from !in paths {
        if IsTemporary(raw.from) { continue; }
        ResolveAllFails(paths, raws, i + 1);
        return Err(UnknownNode);
      }
      if raw.to !in paths {
        if IsTemporary(raw.to) { continue; }
        ResolveAllFails(paths, raws, i + 1);
        return Err(UnknownNode);
      }
      var c := raw.connection.(from := paths[raw.from], to := paths[raw.to]);
      done := done[ConnectionId(c) := c];
    }
    assert raws[..|raws|] == raws;
    r := Ok(done);
  }

  method ReadSections(sections: seq<Section>) returns (r: Result<Parsed>)
    ensures r == ReadAll(sections)
  {
    var p := NOTHING_PARSED;
    for i := 0 to |sections|
      invariant Fold(ReadSection, NOTHING_PARSED, sections[..i]) == Ok(p)
    {
      assert sections[..i + 1][..i] == sections[..i];
      var next := ReadSection(p, sections[i]);
      if next.Err? { FoldFails(ReadSection, NOTHING_PARSED, sections, i + 1); return next; }
      p := next.value;
    }
    assert sections[..|sections|] == sections;
    r := Ok(p);
  }

  method ParseScene(sections: seq<Section>) returns (r: Result<Scene>)
    ensures r == Parse(sections)
  {
    var parsed := ReadSections(sections);
    if parsed.Err? { return Err(parsed.error); }
    var p := parsed.value;
    var linked := LinkNodes(p.raws);
    if linked.Err? { return Err(linked.error); }
    var l := linked.value;
    var connections := ResolveConnections(l.paths, p.connections);
    if connections.Err? { return Err(connections.error); }
    if p.meta.None? { return Err(MissingHeader); }
    r := Ok(Assemble(p.meta.value, p, l, connections.value));
  }

  // ---------- printing ----------

  function MetadataOf(s: Scene): Metadata
  {
    Metadata(s.loadSteps, s.format, s.uid, s.scriptClass, s.resourceType)
  }

  function PrintEditable(path: string): Section
  {
    Section(EditableSection, [(Path, Quote(path))], [])
  }

  // The order in which a run of the printer visits resources and connections.
  datatype Layout = Layout(ext: seq<string>, sub: seq<string>, connections: seq<string>)

  // What connections are sorted by: visit number and signal of the source, visit number and
  // method of the target.
  datatype Rank = Rank(from: int, signal: string, to: int, callee: string)

  function StringLe(a: string, b: string): bool
  {
    a == [] || (b != [] && (a[0] < b[0] || (a[0] == b[0] && StringLe(a[1..], b[1..]))))
  }

  function RankLe(a: Rank, b: Rank): bool
  {
    a.from < b.from || (a.from == b.from &&
      if a.signal != b.signal then StringLe(a.signal, b.signal)
      else a.to < b.to || (a.to == b.to && StringLe(a.callee, b.callee)))
  }

  function IndexIn(ids: seq<NodeId>, k: NodeId): int
  {
    if ids == [] then -1
    else if ids[|ids| - 1] == k then |ids| - 1
    else IndexIn(ids[..|ids| - 1], k)
  }

  function RankOf(visited: seq<NodeId>, c: Connection): Rank
  {
    Rank(IndexIn(visited, c.from), c.signal, IndexIn(visited, c.to), c.callee)
  }

  // The tree `t` consists of the nodes that are reached from the root of `s`, when `s` has one.
  ghost predicate TreeOf(s: Scene, t: Tree)
  {
    && Linked(t)
    && (s.root.Some? ==> t.root == s.root.value && forall k :: k in t.nodes ==> k in s.nodes && s.nodes[k] == t.nodes[k])
  }

  function VisitedNodes(s: Scene, t: Tree): seq<NodeId>
    requires TreeOf(s, t)
  {
    if s.root.None? then [] else Preorder(t, t.root)
  }

  ghost predicate LayoutOk(s: Scene, t: Tree, layout: Layout)
    requires TreeOf(s, t)
  {
    && Lists(layout.ext, s.extResources)
    && (forall i, j :: 0 <= i < j < |layout.ext| ==> s.extResources[layout.ext[i]].idx <= s.extResources[layout.ext[j]].idx)
    && Lists(layout.sub, s.subResources)
    && (forall i, j :: 0 <= i < j < |layout.sub| ==> s.subResources[layout.sub[i]].idx <= s.subResources[layout.sub[j]].idx)
    && Lists(layout.connections, s.connections)
    && (forall i, j :: 0 <= i < j < |layout.connections| ==>
          RankLe(RankOf(VisitedNodes(s, t), s.connections[layout.connections[i]]),
                 RankOf(VisitedNodes(s, t), s.connections[layout.connections[j]])))
  }

  datatype Pieces = Pieces(
    header: Section,
    ext: seq<Section>,
    sub: seq<Section>,
    main: seq<Section>,
    nodes: seq<Section>,
    connections: seq<Section>,
    editable: seq<Section>)

  function AllSections(p: Pieces): seq<Section>
  {
    [p.header] + p.ext + p.sub + p.main + p.nodes + p.connections + p.editable
  }

  ghost predicate PrintsNodes(t: Tree, visited: seq<NodeId>, nodes: seq<Section>)
    requires Linked(t)
  {
    && |nodes| == |visited|
    && forall i :: 0 <= i < |nodes| ==>
         visited[i] in t.nodes && PrintsNode(t.nodes[visited[i]], PrintedParent(t, visited[i]), nodes[i])
  }

  function PathText(t: Tree, k: NodeId): string
    requires Linked(t)
  {
    if k in t.nodes then NodePath(t, k) else ""
  }

  // What is printed for a node outside the tree is left open.
  predicate NamesNode(t: Tree, k: NodeId, path: string)
    requires Linked(t)
  {
    k in t.nodes ==> path == NodePath(t, k)
  }

  ghost predicate PrintsConnection(t: Tree, c: Connection, s: Section)
    requires Linked(t)
  {
    exists from, to :: s == PrintConnection(c, from, to) && NamesNode(t, c.from, from) && NamesNode(t, c.to, to)
  }

  lemma PrintedEnds(t: Tree, c: Connection, s: Section)
    requires Linked(t) && c.from in t.nodes && c.to in t.nodes
    ensures PrintsConnection(t, c, s) <==> s == PrintConnection(c, NodePath(t, c.from), NodePath(t, c.to))
  {
    if s == PrintConnection(c, NodePath(t, c.from), NodePath(t, c.to)) { assert NamesNode(t, c.from, NodePath(t, c.from)); }
  }

  ghost predicate PrintsConnections(s: Scene, t: Tree, keys: seq<string>, sections: seq<Section>)
    requires Linked(t)
  {
    && |sections| == |keys|
    && forall i :: 0 <= i < |keys| ==> keys[i] in s.connections && PrintsConnection(t, s.connections[keys[i]], sections[i])
  }

  ghost predicate PrintsMain(properties: Properties, s: Section)
  {
    s.kind == ResourceSection && s.attributes == [] && PrintsProperties(properties, s.properties)
  }

  // `p` is a text the printer may produce for `s`. A scene with a main resource ends there.
  ghost predicate Prints(s: Scene, t: Tree, layout: Layout, p: Pieces)
    requires TreeOf(s, t)
  {
    && LayoutOk(s, t, layout)
    && p.header == PrintHeader(MetadataOf(s))
    && |p.ext| == |layout.ext| && (forall i :: 0 <= i < |p.ext| ==> p.ext[i] == PrintExt(s.extResources[layout.ext[i]]))
    && |p.sub| == |layout.sub| && (forall i :: 0 <= i < |p.sub| ==> PrintsSub(s.subResources[layout.sub[i]], p.sub[i]))
    && if s.mainResource.Some? then
         && |p.main| == 1 && PrintsMain(s.mainResource.value.properties, p.main[0])
         && p.nodes == p.connections == p.editable == []
       else
         && p.main == []
         && PrintsNodes(t, VisitedNodes(s, t), p.nodes)
         && PrintsConnections(s, t, layout.connections, p.connections)
         && |p.editable| == |s.editable| && (forall i :: 0 <= i < |p.editable| ==> p.editable[i] == PrintEditable(s.editable[i]))
  }

  // ---------- scenes that can be read back ----------

  predicate DenseExt(m: map<string, ExtResource>)
  {
    && (forall k :: k in m ==> m[k].id == k && 0 <= m[k].idx < |m|)
    && (forall k, l :: k in m && l in m && k != l ==> m[k].idx != m[l].idx)
  }

  predicate DenseSub(m: map<string, SubResource>)
  {
    && (forall k :: k in m ==> m[k].id == k && 0 <= m[k].idx < |m| && DenseOrders(m[k].properties))
    && (forall k, l :: k in m && l in m && k != l ==> m[k].idx != m[l].idx)
  }

  // No typed or instanced node repeats the number of a node printed before it.
  predicate FreshNumbers(t: Tree, visited: seq<NodeId>)
  {
    forall i, j :: 0 <= i < j < |visited| && visited[j] in t.nodes && !IsEdited(t.nodes[visited[j]]) ==> visited[i].id != visited[j].id
  }

  // The paths of both ends lead to them.
  ghost predicate EndsLast(t: Tree, c: Connection)
    requires Linked(t)
  {
    c.from in t.nodes && c.to in t.nodes ==> IsLast(t, c.from) && IsLast(t, c.to)
  }

  // The scenes that printing and parsing gives back.
  ghost predicate SceneOk(s: Scene, t: Tree)
  {
    && TreeOf(s, t)
    && HeaderOk(MetadataOf(s))
    && DenseExt(s.extResources)
    && DenseSub(s.subResources)
    && (s.mainResource.Some? ==>
          && s.root.None? && s.editable == []
          && s.mainResource.value.id == "" && s.mainResource.value.idx == 0
          && s.mainResource.value.kind == s.resourceType && DenseOrders(s.mainResource.value.properties))
    && (if s.root.None? then s.nodes == map[]
        else
          && t.nodes == s.nodes && TreeOk(t)
          && (forall k :: k in t.nodes ==> k.id != 0 && NodeTextOk(t.nodes[k], k == t.root))
          && FreshNumbers(t, Preorder(t, t.root)))
    && (forall k :: k in s.connections ==>
          && k == ConnectionId(s.connections[k]) && ConnectionTextOk(s.connections[k])
          && s.connections[k].from in s.nodes && s.connections[k].to in s.nodes
          && EndsLast(t, s.connections[k]))
  }
}
