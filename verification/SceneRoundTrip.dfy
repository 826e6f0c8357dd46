// Parsing any text the printer may produce for a well-formed scene gives the scene back.

module SceneRoundTrip {
  import opened Text
  import opened SceneModel
  import opened SceneCodec
  import opened SceneTree
  import opened ScenePreorder
  import opened SceneLinks
  import opened SceneLinkProof
  import opened SceneSections
  import opened SceneText

  // The proofs below run over any `step` that reads single printed sections correctly, and
  // are applied to ReadSection at the end.
  type Step = (Parsed, Section) -> Result<Parsed>

  ghost predicate ReadsHeaders(step: Step)
  {
    forall p: Parsed, m :: HeaderOk(m) ==> step(p, PrintHeader(m)) == Ok(p.(meta := Some(m)))
  }

  ghost predicate ReadsExts(step: Step)
  {
    forall p: Parsed, r: ExtResource :: r.idx == p.extIdx ==> step(p, PrintExt(r)) == Ok(p.(ext := p.ext[r.id := r], extIdx := p.extIdx + 1))
  }

  ghost predicate ReadsSubs(step: Step)
  {
    forall p: Parsed, r: SubResource, s :: DenseOrders(r.properties) && PrintsSub(r, s) && r.idx == p.subIdx ==>
      step(p, s) == Ok(p.(sub := p.sub[r.id := r], subIdx := p.subIdx + 1))
  }

  ghost predicate ReadsMain(step: Step)
  {
    forall p: Parsed, properties, s: Section :: DenseOrders(properties) && PrintsMain(properties, s) && p.meta.Some? ==>
      step(p, s) == Ok(p.(main := Some(SubResource("", p.meta.value.resourceType, properties, 0))))
  }

  function RawNode(n: Node, parentName: Option<string>): Node
  {
    n.(id := NodeId(n.id.id, None), parent := None, fallback := parentName, children := [])
  }

  ghost predicate ReadsNodes(step: Step)
  {
    forall p: Parsed, n: Node, parentName: Option<string>, s: Section :: NodeTextOk(n, parentName.None?) && PrintsNode(n, parentName, s) ==>
      step(p, s) == Ok(AddNode(p, RawNode(n, parentName)))
  }

  ghost predicate ReadsConnections(step: Step)
  {
    forall p: Parsed, c: Connection, from: string, to: string :: ConnectionTextOk(c) ==>
      step(p, PrintConnection(c, from, to))
      == Ok(p.(connections := p.connections + [RawConnection(from, to, c.(from := UNASSIGNED, to := UNASSIGNED))]))
  }

  ghost predicate ReadsEditables(step: Step)
  {
    forall p: Parsed, path :: step(p, PrintEditable(path)) == Ok(p.(editable := p.editable + [path]))
  }

  ghost predicate ReadsPrinted(step: Step)
  {
    ReadsHeaders(step) && ReadsExts(step) && ReadsSubs(step) && ReadsMain(step) && ReadsNodes(step)
    && ReadsConnections(step) && ReadsEditables(step)
  }

  lemma SectionsReadOne()
    ensures ReadsHeaders(ReadSection) && ReadsExts(ReadSection)
  {
    forall p: Parsed, m | HeaderOk(m) ensures ReadSection(p, PrintHeader(m)) == Ok(p.(meta := Some(m))) { ReadPrintedHeader(m); }
    forall p: Parsed, r: ExtResource | r.idx == p.extIdx
      ensures ReadSection(p, PrintExt(r)) == Ok(p.(ext := p.ext[r.id := r], extIdx := p.extIdx + 1))
    {
      ReadPrintedExt(r);
    }
  }

  lemma SectionsReadTwo()
    ensures ReadsSubs(ReadSection) && ReadsMain(ReadSection)
  {
    forall p: Parsed, r: SubResource, s: Section | DenseOrders(r.properties) && PrintsSub(r, s) && r.idx == p.subIdx
      ensures ReadSection(p, s) == Ok(p.(sub := p.sub[r.id := r], subIdx := p.subIdx + 1))
    {
      ReadPrintedSub(r, s);
    }
    forall p: Parsed, properties, s: Section | DenseOrders(properties) && PrintsMain(properties, s) && p.meta.Some?
      ensures ReadSection(p, s) == Ok(p.(main := Some(SubResource("", p.meta.value.resourceType, properties, 0))))
    {
      ReadPrintedProperties(properties, s.properties);
    }
  }

  lemma SectionsReadThree()
    ensures ReadsNodes(ReadSection)
  {
    forall p: Parsed, n: Node, parentName: Option<string>, s: Section | NodeTextOk(n, parentName.None?) && PrintsNode(n, parentName, s)
      ensures ReadSection(p, s) == Ok(AddNode(p, RawNode(n, parentName)))
    {
      ReadPrintedNode(n, parentName, s);
    }
  }

  lemma SectionsReadFour()
    ensures ReadsConnections(ReadSection) && ReadsEditables(ReadSection)
  {
    forall p: Parsed, c: Connection, from: string, to: string | ConnectionTextOk(c)
      ensures ReadSection(p, PrintConnection(c, from, to))
           == Ok(p.(connections := p.connections + [RawConnection(from, to, c.(from := UNASSIGNED, to := UNASSIGNED))]))
    {
      ConnectionRead(p, c, from, to);
    }
    forall p: Parsed, path ensures ReadSection(p, PrintEditable(path)) == Ok(p.(editable := p.editable + [path])) {
      EditableRead(p, path);
    }
  }

  lemma ConnectionRead(p: Parsed, c: Connection, from: string, to: string)
    requires ConnectionTextOk(c)
    ensures ReadSection(p, PrintConnection(c, from, to))
         == Ok(p.(connections := p.connections + [RawConnection(from, to, c.(from := UNASSIGNED, to := UNASSIGNED))]))
  {
    ReadPrintedConnection(c, from, to);
    ConnectionOnly(p, PrintConnection(c, from, to));
  }

  lemma ConnectionOnly(p: Parsed, s: Section)
    requires s.kind == ConnectionSection && Captured(s.attributes) && ReadConnection(s).Ok?
    ensures ReadSection(p, s) == Ok(p.(connections := p.connections + [ReadConnection(s).value]))
  {
  }

  lemma EditableRead(p: Parsed, path: string)
    ensures ReadSection(p, PrintEditable(path)) == Ok(p.(editable := p.editable + [path]))
  {
  }

  // ---------- reading a group of sections after others ----------

  lemma {:induction false} FoldConcat<S, A>(step: (S, A) -> Result<S>, s: S, a: seq<A>, b: seq<A>, q: S)
    requires Fold(step, s, a) == Ok(q)
    ensures Fold(step, s, a + b) == Fold(step, q, b)
  {
    if b == [] {
      assert a + b == a;
    } else {
      var n := |b| - 1;
      FoldConcat(step, s, a, b[..n], q);
      assert (a + b)[..|a + b| - 1] == a + b[..n];
    }
  }

  // A fold whose states are known after every element.
  lemma {:induction false} FoldStates<S, A>(step: (S, A) -> Result<S>, states: seq<S>, xs: seq<A>, n: nat)
    requires |states| == |xs| + 1 && n <= |xs|
    requires forall i :: 0 <= i < |xs| ==> step(states[i], xs[i]) == Ok(states[i + 1])
    ensures Fold(step, states[0], xs[..n]) == Ok(states[n])
  {
    if n > 0 {
      FoldStates(step, states, xs, n - 1);
      assert xs[..n][..n - 1] == xs[..n - 1];
    }
  }

  lemma FoldAll<S, A>(step: (S, A) -> Result<S>, states: seq<S>, xs: seq<A>)
    requires |states| == |xs| + 1
    requires forall i :: 0 <= i < |xs| ==> step(states[i], xs[i]) == Ok(states[i + 1])
    ensures Fold(step, states[0], xs) == Ok(states[|xs|])
  {
    FoldStates(step, states, xs, |xs|);
    assert xs[..|xs|] == xs;
  }

  // ---------- resources ----------

  function Restrict<V>(m: map<string, V>, keys: seq<string>): map<string, V>
  {
    map k | k in keys && k in m :: m[k]
  }

  lemma RestrictSnoc<V>(m: map<string, V>, keys: seq<string>, n: nat)
    requires n < |keys| && keys[n] in m
    ensures Restrict(m, keys[..n + 1]) == Restrict(m, keys[..n])[keys[n] := m[keys[n]]]
  {
  }

  lemma RestrictAll<V>(m: map<string, V>, keys: seq<string>)
    requires Lists(keys, m)
    ensures Restrict(m, keys) == m
  {
    forall k ensures k in m <==> k in keys { ListsAll(keys, m, k); }
  }

  lemma ExtAt(m: map<string, ExtResource>, keys: seq<string>, i: nat)
    requires DenseExt(m) && Lists(keys, m) && i < |keys|
    requires forall j, k :: 0 <= j < k < |keys| ==> m[keys[j]].idx <= m[keys[k]].idx
    ensures m[keys[i]].idx == i
  {
    var ranks := seq(|keys|, j requires 0 <= j < |keys| => m[keys[j]].idx);
    forall j, k | 0 <= j < k < |keys| ensures ranks[j] < ranks[k] { assert keys[j] != keys[k]; }
    SortedDense(ranks, i);
  }

  lemma SubAt(m: map<string, SubResource>, keys: seq<string>, i: nat)
    requires DenseSub(m) && Lists(keys, m) && i < |keys|
    requires forall j, k :: 0 <= j < k < |keys| ==> m[keys[j]].idx <= m[keys[k]].idx
    ensures m[keys[i]].idx == i
  {
    var ranks := seq(|keys|, j requires 0 <= j < |keys| => m[keys[j]].idx);
    forall j, k | 0 <= j < k < |keys| ensures ranks[j] < ranks[k] { assert keys[j] != keys[k]; }
    SortedDense(ranks, i);
  }

  lemma ExtNext(step: Step, m: map<string, ExtResource>, keys: seq<string>, s: Section, p: Parsed, i: nat)
    requires ReadsExts(step) && i < |keys| && keys[i] in m && m[keys[i]].id == keys[i] && m[keys[i]].idx == i
    requires s == PrintExt(m[keys[i]])
    ensures step(p.(ext := Restrict(m, keys[..i]), extIdx := i), s) == Ok(p.(ext := Restrict(m, keys[..i + 1]), extIdx := i + 1))
  {
    RestrictSnoc(m, keys, i);
  }

  lemma SubNext(step: Step, m: map<string, SubResource>, keys: seq<string>, s: Section, p: Parsed, i: nat)
    requires ReadsSubs(step) && i < |keys| && keys[i] in m && m[keys[i]].id == keys[i] && m[keys[i]].idx == i
    requires DenseOrders(m[keys[i]].properties) && PrintsSub(m[keys[i]], s)
    ensures step(p.(sub := Restrict(m, keys[..i]), subIdx := i), s) == Ok(p.(sub := Restrict(m, keys[..i + 1]), subIdx := i + 1))
  {
    RestrictSnoc(m, keys, i);
  }

  lemma ReadExts(step: Step, m: map<string, ExtResource>, keys: seq<string>, ss: seq<Section>, p: Parsed)
    requires ReadsExts(step) && DenseExt(m) && Lists(keys, m) && |ss| == |keys|
    requires forall j, k :: 0 <= j < k < |keys| ==> m[keys[j]].idx <= m[keys[k]].idx
    requires forall i :: 0 <= i < |ss| ==> ss[i] == PrintExt(m[keys[i]])
    requires p.ext == map[] && p.extIdx == 0
    ensures Fold(step, p, ss) == Ok(p.(ext := m, extIdx := |m|))
  {
    var n := |keys|;
    var states := seq(n + 1, i requires 0 <= i <= n => p.(ext := Restrict(m, keys[..i]), extIdx := i));
    forall i | 0 <= i < n ensures step(states[i], ss[i]) == Ok(states[i + 1]) {
      ExtAt(m, keys, i);
      ExtNext(step, m, keys, ss[i], p, i);
    }
    FoldAll(step, states, ss);
    assert keys[..n] == keys && keys[..0] == [];
    RestrictAll(m, keys);
  }

  lemma ReadSubs(step: Step, m: map<string, SubResource>, keys: seq<string>, ss: seq<Section>, p: Parsed)
    requires ReadsSubs(step) && DenseSub(m) && Lists(keys, m) && |ss| == |keys|
    requires forall j, k :: 0 <= j < k < |keys| ==> m[keys[j]].idx <= m[keys[k]].idx
    requires forall i :: 0 <= i < |ss| ==> PrintsSub(m[keys[i]], ss[i])
    requires p.sub == map[] && p.subIdx == 0
    ensures Fold(step, p, ss) == Ok(p.(sub := m, subIdx := |m|))
  {
    var n := |keys|;
    var states := seq(n + 1, i requires 0 <= i <= n => p.(sub := Restrict(m, keys[..i]), subIdx := i));
    forall i | 0 <= i < n ensures step(states[i], ss[i]) == Ok(states[i + 1]) {
      SubAt(m, keys, i);
      SubNext(step, m, keys, ss[i], p, i);
    }
    FoldAll(step, states, ss);
    assert keys[..n] == keys && keys[..0] == [];
    RestrictAll(m, keys);
  }

  // ---------- nodes ----------

  function Numbers(o: seq<NodeId>): set<int>
  {
    set k | k in o :: k.id
  }

  lemma ReadNodes(step: Step, t: Tree, o: seq<NodeId>, ss: seq<Section>, p: Parsed)
    requires ReadsNodes(step) && Linked(t) && PrintsNodes(t, o, ss) && FreshNumbers(t, o)
    requires forall i :: 0 <= i < |o| ==> o[i] in t.nodes
    requires forall k :: k in t.nodes ==> NodeTextOk(t.nodes[k], k == t.root)
    requires p.raws == [] && p.seen == {}
    ensures Fold(step, p, ss) == Ok(p.(raws := Bares(t, o), seen := Numbers(o)))
  {
    var n, raws := |o|, Bares(t, o);
    var states := seq(n + 1, i requires 0 <= i <= n => p.(raws := raws[..i], seen := Numbers(o[..i])));
    forall i | 0 <= i < n ensures step(states[i], ss[i]) == Ok(states[i + 1]) {
      NodeRead(step, t, o, ss, p, i);
    }
    FoldAll(step, states, ss);
    assert o[..n] == o && raws[..n] == raws && o[..0] == [] && raws[..0] == [];
    assert states[0] == p;
  }

  lemma NodeRead(step: Step, t: Tree, o: seq<NodeId>, ss: seq<Section>, p: Parsed, i: nat)
    requires ReadsNodes(step) && Linked(t) && PrintsNodes(t, o, ss) && FreshNumbers(t, o) && i < |o|
    requires forall j :: 0 <= j < |o| ==> o[j] in t.nodes
    requires forall k :: k in t.nodes ==> NodeTextOk(t.nodes[k], k == t.root)
    ensures step(p.(raws := Bares(t, o)[..i], seen := Numbers(o[..i])), ss[i])
         == Ok(p.(raws := Bares(t, o)[..i + 1], seen := Numbers(o[..i + 1])))
  {
    var before := p.(raws := Bares(t, o)[..i], seen := Numbers(o[..i]));
    NodeStep(step, t, before, o[i], ss[i]);
    NotRepeated(t, o, i);
    Grow(o, Bares(t, o), i);
  }

  lemma Grow(o: seq<NodeId>, raws: seq<Node>, i: nat)
    requires i < |o| == |raws|
    ensures raws[..i + 1] == raws[..i] + [raws[i]]
    ensures Numbers(o[..i + 1]) == Numbers(o[..i]) + {o[i].id}
  {
  }

  lemma NodeStep(step: Step, t: Tree, p: Parsed, k: NodeId, s: Section)
    requires ReadsNodes(step) && Linked(t) && k in t.nodes && NodeTextOk(t.nodes[k], k == t.root)
    requires PrintsNode(t.nodes[k], PrintedParent(t, k), s)
    ensures step(p, s) == Ok(AddNode(p, Bare(t, k))) && Bare(t, k).id.id == k.id && Bare(t, k).kind == t.nodes[k].kind
  {
  }

  lemma NotRepeated(t: Tree, o: seq<NodeId>, i: nat)
    requires FreshNumbers(t, o) && i < |o| && o[i] in t.nodes
    ensures !IsEdited(t.nodes[o[i]]) ==> o[i].id !in Numbers(o[..i])
  {
  }

  // ---------- connections ----------

  function RawOf(t: Tree, c: Connection): RawConnection
    requires Linked(t)
  {
    RawConnection(PathText(t, c.from), PathText(t, c.to), c.(from := UNASSIGNED, to := UNASSIGNED))
  }

  function RawsOf(s: Scene, t: Tree, keys: seq<string>): (r: seq<RawConnection>)
    requires Linked(t) && forall i :: 0 <= i < |keys| ==> keys[i] in s.connections
    ensures |r| == |keys| && forall i :: 0 <= i < |keys| ==> r[i] == RawOf(t, s.connections[keys[i]])
  {
    seq(|keys|, i requires 0 <= i < |keys| => RawOf(t, s.connections[keys[i]]))
  }

  lemma ReadConnections(step: Step, s: Scene, t: Tree, keys: seq<string>, ss: seq<Section>, p: Parsed)
    requires ReadsConnections(step) && Linked(t) && PrintsConnections(s, t, keys, ss) && p.connections == []
    requires forall k :: k in s.connections ==>
      ConnectionTextOk(s.connections[k]) && s.connections[k].from in t.nodes && s.connections[k].to in t.nodes
    requires forall i :: 0 <= i < |keys| ==> keys[i] in s.connections
    ensures Fold(step, p, ss) == Ok(p.(connections := RawsOf(s, t, keys)))
  {
    var n, raws := |keys|, RawsOf(s, t, keys);
    var states := seq(n + 1, i requires 0 <= i <= n => p.(connections := raws[..i]));
    forall i | 0 <= i < n ensures step(states[i], ss[i]) == Ok(states[i + 1]) {
      var c := s.connections[keys[i]];
      assert PrintsConnection(t, c, ss[i]);
      ConnectionNext(step, c, NodePath(t, c.from), NodePath(t, c.to), ss[i], p, raws, i);
    }
    assert raws[..0] == [] && raws[..n] == raws;
    FoldAll(step, states, ss);
  }

  lemma ConnectionNext(step: Step, c: Connection, from: string, to: string, section: Section, p: Parsed, raws: seq<RawConnection>, i: nat)
    requires ReadsConnections(step) && ConnectionTextOk(c) && section == PrintConnection(c, from, to)
    requires i < |raws| && raws[i] == RawConnection(from, to, c.(from := UNASSIGNED, to := UNASSIGNED))
    ensures step(p.(connections := raws[..i]), section) == Ok(p.(connections := raws[..i + 1]))
  {
    var q := p.(connections := raws[..i]);
    assert raws[..i + 1] == raws[..i] + [raws[i]];
    assert step(q, section) == Ok(q.(connections := q.connections + [raws[i]]));
  }

  lemma {:induction false} ResolvePrinted(s: Scene, t: Tree, o: seq<NodeId>, paths: map<string, NodeId>, keys: seq<string>, n: nat)
    requires Linked(t) && PathsFor(t, o, paths) && n <= |keys|
    requires forall i :: 0 <= i < |keys| ==> keys[i] in s.connections
    requires forall k :: k in s.connections ==> k == ConnectionId(s.connections[k]) && FoundEnds(t, o, s.connections[k])
    ensures ResolveAll(paths, RawsOf(s, t, keys)[..n]) == Ok(Restrict(s.connections, keys[..n]))
  {
    if n > 0 {
      ResolvePrinted(s, t, o, paths, keys, n - 1);
      ResolveSnoc(paths, RawsOf(s, t, keys), n - 1);
      ResolveOne(t, o, paths, Restrict(s.connections, keys[..n - 1]), s.connections[keys[n - 1]]);
      RestrictSnoc(s.connections, keys, n - 1);
    }
  }

  lemma ResolveSnoc(paths: map<string, NodeId>, raws: seq<RawConnection>, n: nat)
    requires n < |raws| && ResolveAll(paths, raws[..n]).Ok?
    ensures ResolveAll(paths, raws[..n + 1]) == Resolve(paths, ResolveAll(paths, raws[..n]).value, raws[n])
  {
    assert raws[..n + 1][..n] == raws[..n];
  }

  ghost predicate FoundEnds(t: Tree, o: seq<NodeId>, c: Connection)
    requires Linked(t)
  {
    && c.from in t.nodes && LastWith(t, o, NodePath(t, c.from)) == Some(c.from)
    && c.to in t.nodes && LastWith(t, o, NodePath(t, c.to)) == Some(c.to)
  }

  lemma ResolveOne(t: Tree, o: seq<NodeId>, paths: map<string, NodeId>, done: map<string, Connection>, c: Connection)
    requires Linked(t) && PathsFor(t, o, paths) && FoundEnds(t, o, c)
    ensures Resolve(paths, done, RawOf(t, c)) == Ok(done[ConnectionId(c) := c])
  {
    assert c.(from := UNASSIGNED, to := UNASSIGNED).(from := c.from, to := c.to) == c;
  }

  // ---------- editable instances ----------

  lemma ReadEditables(step: Step, paths: seq<string>, ss: seq<Section>, p: Parsed)
    requires ReadsEditables(step) && |ss| == |paths| && p.editable == []
    requires forall i :: 0 <= i < |ss| ==> ss[i] == PrintEditable(paths[i])
    ensures Fold(step, p, ss) == Ok(p.(editable := paths))
  {
    var n := |paths|;
    var states := seq(n + 1, i requires 0 <= i <= n => p.(editable := paths[..i]));
    forall i | 0 <= i < n ensures step(states[i], ss[i]) == Ok(states[i + 1]) {
      assert paths[..i + 1] == paths[..i] + [paths[i]];
    }
    FoldAll(step, states, ss);
    assert paths[..n] == paths && paths[..0] == [];
    assert states[0] == p;
  }

  // ---------- the whole text ----------

  function FrontParsed(s: Scene): Parsed
  {
    NOTHING_PARSED.(meta := Some(MetadataOf(s)), ext := s.extResources, extIdx := |s.extResources|,
                    sub := s.subResources, subIdx := |s.subResources|)
  }

  // Header and resources, common to scenes and plain resources.
  lemma ReadFront(step: Step, s: Scene, t: Tree, layout: Layout, p: Pieces)
    requires ReadsPrinted(step) && SceneOk(s, t) && Prints(s, t, layout, p)
    ensures Fold(step, NOTHING_PARSED, [p.header] + p.ext + p.sub) == Ok(FrontParsed(s))
  {
    var p1 := NOTHING_PARSED.(meta := Some(MetadataOf(s)));
    assert step(NOTHING_PARSED, p.header) == Ok(p1);
    FoldAll(step, [NOTHING_PARSED, p1], [p.header]);
    ReadExts(step, s.extResources, layout.ext, p.ext, p1);
    var p2 := p1.(ext := s.extResources, extIdx := |s.extResources|);
    FoldConcat(step, NOTHING_PARSED, [p.header], p.ext, p1);
    ReadSubs(step, s.subResources, layout.sub, p.sub, p2);
    FoldConcat(step, NOTHING_PARSED, [p.header] + p.ext, p.sub, p2);
  }

  // What the section loop has collected at the end of a scene text.
  function BackParsed(s: Scene, t: Tree, layout: Layout): Parsed
    requires TreeOf(s, t)
    requires forall i :: 0 <= i < |layout.connections| ==> layout.connections[i] in s.connections
    requires forall i :: 0 <= i < |VisitedNodes(s, t)| ==> VisitedNodes(s, t)[i] in t.nodes
  {
    var o := VisitedNodes(s, t);
    FrontParsed(s).(raws := Bares(t, o), seen := Numbers(o), connections := RawsOf(s, t, layout.connections), editable := s.editable)
  }

  function NodesParsed(s: Scene, t: Tree): Parsed
    requires TreeOf(s, t)
    requires forall i :: 0 <= i < |VisitedNodes(s, t)| ==> VisitedNodes(s, t)[i] in t.nodes
  {
    FrontParsed(s).(raws := Bares(t, VisitedNodes(s, t)), seen := Numbers(VisitedNodes(s, t)))
  }

  lemma ReadTree(step: Step, s: Scene, t: Tree, layout: Layout, p: Pieces)
    requires ReadsNodes(step) && SceneOk(s, t) && Prints(s, t, layout, p) && s.mainResource.None?
    requires forall i :: 0 <= i < |VisitedNodes(s, t)| ==> VisitedNodes(s, t)[i] in t.nodes
    ensures Fold(step, FrontParsed(s), p.nodes) == Ok(NodesParsed(s, t))
  {
    if s.root.Some? {
      ReadNodes(step, t, VisitedNodes(s, t), p.nodes, FrontParsed(s));
    } else {
      assert NodesParsed(s, t) == FrontParsed(s) && p.nodes == [];
    }
  }

  lemma ReadLinks(step: Step, s: Scene, t: Tree, layout: Layout, p: Pieces)
    requires ReadsConnections(step) && SceneOk(s, t) && Prints(s, t, layout, p) && s.mainResource.None?
    requires forall i :: 0 <= i < |layout.connections| ==> layout.connections[i] in s.connections
    requires forall i :: 0 <= i < |VisitedNodes(s, t)| ==> VisitedNodes(s, t)[i] in t.nodes
    ensures Fold(step, NodesParsed(s, t), p.connections)
         == Ok(NodesParsed(s, t).(connections := RawsOf(s, t, layout.connections)))
  {
    ReadConnections(step, s, t, layout.connections, p.connections, NodesParsed(s, t));
  }

  lemma JoinThree(step: Step, q0: Parsed, a: seq<Section>, q1: Parsed, b: seq<Section>, q2: Parsed, c: seq<Section>, q3: Parsed)
    requires Fold(step, q0, a) == Ok(q1) && Fold(step, q1, b) == Ok(q2) && Fold(step, q2, c) == Ok(q3)
    ensures Fold(step, q0, a + b + c) == Ok(q3)
  {
    FoldConcat(step, q0, a, b, q1);
    FoldConcat(step, q0, a + b, c, q2);
  }

  lemma ReadBack(step: Step, s: Scene, t: Tree, layout: Layout, p: Pieces)
    requires ReadsPrinted(step) && SceneOk(s, t) && Prints(s, t, layout, p) && s.mainResource.None?
    requires forall i :: 0 <= i < |layout.connections| ==> layout.connections[i] in s.connections
    requires forall i :: 0 <= i < |VisitedNodes(s, t)| ==> VisitedNodes(s, t)[i] in t.nodes
    ensures Fold(step, FrontParsed(s), p.nodes + p.connections + p.editable) == Ok(BackParsed(s, t, layout))
  {
    var q1 := NodesParsed(s, t);
    var q2 := q1.(connections := RawsOf(s, t, layout.connections));
    ReadTree(step, s, t, layout, p);
    ReadLinks(step, s, t, layout, p);
    ReadEditables(step, s.editable, p.editable, q2);
    JoinThree(step, FrontParsed(s), p.nodes, q1, p.connections, q2, p.editable, BackParsed(s, t, layout));
  }

  lemma ReadSceneText(step: Step, s: Scene, t: Tree, layout: Layout, p: Pieces)
    requires ReadsPrinted(step) && SceneOk(s, t) && Prints(s, t, layout, p) && s.mainResource.None?
    requires forall i :: 0 <= i < |layout.connections| ==> layout.connections[i] in s.connections
    requires forall i :: 0 <= i < |VisitedNodes(s, t)| ==> VisitedNodes(s, t)[i] in t.nodes
    ensures Fold(step, NOTHING_PARSED, AllSections(p)) == Ok(BackParsed(s, t, layout))
  {
    ReadFront(step, s, t, layout, p);
    ReadBack(step, s, t, layout, p);
    JoinFolds(step, p, FrontParsed(s), BackParsed(s, t, layout));
  }

  lemma JoinFolds(step: Step, p: Pieces, q: Parsed, r: Parsed)
    requires Fold(step, NOTHING_PARSED, [p.header] + p.ext + p.sub) == Ok(q) && p.main == []
    requires Fold(step, q, p.nodes + p.connections + p.editable) == Ok(r)
    ensures Fold(step, NOTHING_PARSED, AllSections(p)) == Ok(r)
  {
    var front, rest := [p.header] + p.ext + p.sub, p.nodes + p.connections + p.editable;
    FoldConcat(step, NOTHING_PARSED, front, rest, q);
    assert AllSections(p) == front + rest;
  }

  lemma ReadResourceText(step: Step, s: Scene, t: Tree, layout: Layout, p: Pieces)
    requires ReadsPrinted(step) && SceneOk(s, t) && Prints(s, t, layout, p) && s.mainResource.Some?
    ensures Fold(step, NOTHING_PARSED, AllSections(p)) == Ok(FrontParsed(s).(main := s.mainResource))
  {
    ReadFront(step, s, t, layout, p);
    var front, q := [p.header] + p.ext + p.sub, FrontParsed(s);
    var main := s.mainResource.value;
    assert PrintsMain(main.properties, p.main[0]);
    assert step(q, p.main[0]) == Ok(q.(main := Some(main)));
    FoldAll(step, [q, q.(main := Some(main))], p.main);
    FoldConcat(step, NOTHING_PARSED, front, p.main, q);
    assert AllSections(p) == front + p.main;
  }

  lemma ResolveWhole(s: Scene, t: Tree, keys: seq<string>, o: seq<NodeId>, paths: map<string, NodeId>)
    requires Linked(t) && PathsFor(t, o, paths) && Lists(keys, s.connections)
    requires forall i :: 0 <= i < |keys| ==> keys[i] in s.connections
    requires forall k :: k in s.connections ==> k == ConnectionId(s.connections[k]) && FoundEnds(t, o, s.connections[k])
    ensures ResolveAll(paths, RawsOf(s, t, keys)) == Ok(s.connections)
  {
    var raws := RawsOf(s, t, keys);
    assert raws == raws[..|keys|] by { assert |raws| == |keys|; }
    RestrictAll(s.connections, keys);
    assert keys[..|keys|] == keys;
    ResolvePrinted(s, t, o, paths, keys, |keys|);
  }

  lemma FinishWith(p: Parsed, s: Scene, l: Links)
    requires Link(p.raws) == Ok(l) && l.nodes == s.nodes && l.root == s.root
    requires ResolveAll(l.paths, p.connections) == Ok(s.connections)
    requires p.meta == Some(MetadataOf(s)) && p.ext == s.extResources && p.sub == s.subResources
    requires p.editable == s.editable && p.main == s.mainResource
    ensures Finish(p) == Ok(s)
  {
  }

  lemma FinishScene(s: Scene, t: Tree, layout: Layout)
    requires SceneOk(s, t) && LayoutOk(s, t, layout) && s.mainResource.None?
    requires forall i :: 0 <= i < |layout.connections| ==> layout.connections[i] in s.connections
    requires forall i :: 0 <= i < |VisitedNodes(s, t)| ==> VisitedNodes(s, t)[i] in t.nodes
    ensures Finish(BackParsed(s, t, layout)) == Ok(s)
  {
    var p := BackParsed(s, t, layout);
    if s.root.None? {
      assert s.connections == map[] && layout.connections == [];
      assert p.raws == [] && p.connections == [];
    } else {
      FinishTree(s, t, layout, p);
    }
  }

  lemma FinishTree(s: Scene, t: Tree, layout: Layout, p: Parsed)
    requires SceneOk(s, t) && Lists(layout.connections, s.connections) && s.mainResource.None? && s.root.Some?
    requires forall i :: 0 <= i < |layout.connections| ==> layout.connections[i] in s.connections
    requires forall i :: 0 <= i < |VisitedNodes(s, t)| ==> VisitedNodes(s, t)[i] in t.nodes
    requires p == BackParsed(s, t, layout)
    ensures Finish(p) == Ok(s)
  {
    var o := Preorder(t, t.root);
    LinkRoundTrip(t);
    EndsFound(s, t);
    FinishLinked(s, t, layout, p, Link(Bares(t, o)).value);
  }

  lemma EndsFound(s: Scene, t: Tree)
    requires SceneOk(s, t) && s.root.Some?
    ensures TreeOk(t) && Assigned(t)
    ensures forall k :: k in s.connections ==> k == ConnectionId(s.connections[k]) && FoundEnds(t, Preorder(t, t.root), s.connections[k])
  {
    forall k | k in s.connections ensures FoundEnds(t, Preorder(t, t.root), s.connections[k]) { ConnectionFound(s, t, k); }
  }

  lemma ConnectionFound(s: Scene, t: Tree, k: string)
    requires SceneOk(s, t) && s.root.Some? && k in s.connections
    ensures FoundEnds(t, Preorder(t, t.root), s.connections[k])
  {
    assert IsLast(t, s.connections[k].from) && IsLast(t, s.connections[k].to);
  }

  lemma FinishLinked(s: Scene, t: Tree, layout: Layout, p: Parsed, l: Links)
    requires TreeOf(s, t) && Lists(layout.connections, s.connections) && s.mainResource.None? && s.root.Some?
    requires forall i :: 0 <= i < |layout.connections| ==> layout.connections[i] in s.connections
    requires forall i :: 0 <= i < |VisitedNodes(s, t)| ==> VisitedNodes(s, t)[i] in t.nodes
    requires p == BackParsed(s, t, layout) && t.nodes == s.nodes
    requires Link(p.raws) == Ok(l) && l.nodes == t.nodes && l.root == Some(t.root) && PathsFor(t, Preorder(t, t.root), l.paths)
    requires forall k :: k in s.connections ==> k == ConnectionId(s.connections[k]) && FoundEnds(t, Preorder(t, t.root), s.connections[k])
    ensures Finish(p) == Ok(s)
  {
    ResolveWhole(s, t, layout.connections, Preorder(t, t.root), l.paths);
    FinishWith(p, s, l);
  }

  lemma ListedIn(s: Scene, t: Tree, layout: Layout)
    requires SceneOk(s, t) && LayoutOk(s, t, layout)
    ensures forall i :: 0 <= i < |layout.connections| ==> layout.connections[i] in s.connections
    ensures forall i :: 0 <= i < |VisitedNodes(s, t)| ==> VisitedNodes(s, t)[i] in t.nodes
  {
    WholePreorder(t);
  }

  lemma ReadSectionReadsPrinted()
    ensures ReadsPrinted(ReadSection)
  {
    SectionsReadOne();
    SectionsReadTwo();
    SectionsReadThree();
    SectionsReadFour();
  }

  // Whatever order the printer visits equal-ranked connections in, parsing its text gives
  // back the scene: header, resources, every node with its links and child order, connections,
  // and editable instances.
  lemma ParsePrinted(s: Scene, t: Tree, layout: Layout, p: Pieces)
    requires SceneOk(s, t) && Prints(s, t, layout, p)
    ensures Parse(AllSections(p)) == Ok(s)
  {
    ReadSectionReadsPrinted();
    if s.mainResource.Some? {
      ReadResourceText(ReadSection, s, t, layout, p);
      assert s.connections == map[];
    } else {
      ListedIn(s, t, layout);
      ReadSceneText(ReadSection, s, t, layout, p);
      FinishScene(s, t, layout);
    }
  }
}
