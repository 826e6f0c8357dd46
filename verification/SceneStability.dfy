// When printing a scene always gives the same text: exactly when no two connections agree on
// everything they are sorted by.

module SceneStability {
  import opened SceneModel
  import opened SceneCodec
  import opened SceneTree
  import opened ScenePreorder
  import opened SceneLinks
  import opened SceneSections
  import opened SceneText
  import opened SceneWriter
  import opened SceneRoundTrip

  ghost predicate DistinctRanks(s: Scene, t: Tree)
    requires TreeOf(s, t)
  {
    forall a, b :: a in s.connections && b in s.connections && a != b ==>
      RankOf(VisitedNodes(s, t), s.connections[a]) != RankOf(VisitedNodes(s, t), s.connections[b])
  }

  // Connections that differ, between printed nodes.
  ghost predicate Attached(s: Scene, t: Tree)
    requires Linked(t)
  {
    forall k :: k in s.connections ==>
      && k == ConnectionId(s.connections[k]) && ConnectionTextOk(s.connections[k])
      && s.connections[k].from in t.nodes && s.connections[k].to in t.nodes
  }

  // ---------- distinct ranks: one text ----------

  lemma SortedOnce(m: map<string, int>, ks: seq<string>, ls: seq<string>)
    requires Lists(ks, m) && Lists(ls, m)
    requires forall k :: k in m ==> 0 <= m[k] < |m|
    requires forall k, l :: k in m && l in m && k != l ==> m[k] != m[l]
    requires forall i, j :: 0 <= i < j < |ks| ==> m[ks[i]] <= m[ks[j]]
    requires forall i, j :: 0 <= i < j < |ls| ==> m[ls[i]] <= m[ls[j]]
    ensures ks == ls
  {
    var a := seq(|ks|, i requires 0 <= i < |ks| => m[ks[i]]);
    var b := seq(|ls|, i requires 0 <= i < |ls| => m[ls[i]]);
    forall i, j | 0 <= i < j < |a| ensures a[i] < a[j] { assert ks[i] != ks[j]; }
    forall i, j | 0 <= i < j < |b| ensures b[i] < b[j] { assert ls[i] != ls[j]; }
    forall i | 0 <= i < |ks| ensures ks[i] == ls[i] {
      SortedDense(a, i);
      SortedDense(b, i);
    }
  }

  lemma PropertiesOnce(m: Properties, x: seq<(string, string)>, y: seq<(string, string)>)
    requires DenseOrders(m) && PrintsProperties(m, x) && PrintsProperties(m, y)
    ensures x == y
  {
    var orders := map k | k in m :: m[k].order;
    assert orders.Keys == m.Keys;
    var ks := seq(|x|, i requires 0 <= i < |x| => x[i].0);
    var ls := seq(|y|, i requires 0 <= i < |y| => y[i].0);
    SortedOnce(orders, ks, ls);
    forall i | 0 <= i < |x| ensures x[i] == y[i] { assert ks[i] == ls[i]; }
  }

  lemma NodesOnce(t: Tree, visited: seq<NodeId>, x: seq<Section>, y: seq<Section>)
    requires Linked(t) && PrintsNodes(t, visited, x) && PrintsNodes(t, visited, y)
    requires forall k :: k in t.nodes ==> DenseOrders(t.nodes[k].properties)
    ensures x == y
  {
    forall i | 0 <= i < |x| ensures x[i] == y[i] {
      PropertiesOnce(t.nodes[visited[i]].properties, x[i].properties, y[i].properties);
    }
  }

  // Two listings in strictly increasing order of the same map are the same.
  lemma {:induction false} StrictOnce(ranks: map<string, Rank>, ks: seq<string>, ls: seq<string>, i: nat)
    requires Lists(ks, ranks) && Lists(ls, ranks) && i < |ks|
    requires forall a, b :: a in ranks && b in ranks && a != b ==> ranks[a] != ranks[b]
    requires forall j, k :: 0 <= j < k < |ks| ==> RankLe(ranks[ks[j]], ranks[ks[k]])
    requires forall j, k :: 0 <= j < k < |ls| ==> RankLe(ranks[ls[j]], ranks[ls[k]])
    ensures ks[i] == ls[i]
    decreases i
  {
    forall j | 0 <= j < i ensures ks[j] == ls[j] { StrictOnce(ranks, ks, ls, j); }
    ListsAll(ls, ranks, ks[i]);
    ListsAll(ks, ranks, ls[i]);
    var a :| 0 <= a < |ls| && ls[a] == ks[i];
    var b :| 0 <= b < |ks| && ks[b] == ls[i];
    assert a >= i && b >= i;
    RankLeTotal(ranks[ks[i]], ranks[ls[i]]);
  }

  lemma ConnectionsOnce(s: Scene, t: Tree, ks: seq<string>, ls: seq<string>)
    requires TreeOf(s, t) && DistinctRanks(s, t)
    requires ConnectionsSorted(s, VisitedNodes(s, t), ks) && ConnectionsSorted(s, VisitedNodes(s, t), ls)
    ensures ks == ls
  {
    var ranks := map k | k in s.connections :: RankOf(VisitedNodes(s, t), s.connections[k]);
    assert ranks.Keys == s.connections.Keys;
    forall i | 0 <= i < |ks| ensures ks[i] == ls[i] { StrictOnce(ranks, ks, ls, i); }
  }

  lemma PrintsFront(s: Scene, t: Tree, layout: Layout, p: Pieces)
    requires TreeOf(s, t) && Prints(s, t, layout, p)
    ensures FrontOk(s, layout.ext, layout.sub, p)
  {
  }

  lemma ResourcesOnce(s: Scene, l1: Layout, p1: Pieces, l2: Layout, p2: Pieces)
    requires DenseExt(s.extResources) && DenseSub(s.subResources)
    requires FrontOk(s, l1.ext, l1.sub, p1) && FrontOk(s, l2.ext, l2.sub, p2)
    ensures p1.header == p2.header && p1.ext == p2.ext && p1.sub == p2.sub
  {
    ExtKeysOnce(s, l1.ext, l2.ext);
    SubKeysOnce(s, l1.sub, l2.sub);
    SubsOnce(s, l1.sub, p1.sub, p2.sub);
  }

  lemma ExtKeysOnce(s: Scene, ks: seq<string>, ls: seq<string>)
    requires DenseExt(s.extResources) && Lists(ks, s.extResources) && Lists(ls, s.extResources)
    requires forall i, j :: 0 <= i < j < |ks| ==> s.extResources[ks[i]].idx <= s.extResources[ks[j]].idx
    requires forall i, j :: 0 <= i < j < |ls| ==> s.extResources[ls[i]].idx <= s.extResources[ls[j]].idx
    ensures ks == ls
  {
    var idx := map k | k in s.extResources :: s.extResources[k].idx;
    assert idx.Keys == s.extResources.Keys;
    SortedOnce(idx, ks, ls);
  }

  lemma SubKeysOnce(s: Scene, ks: seq<string>, ls: seq<string>)
    requires DenseSub(s.subResources) && Lists(ks, s.subResources) && Lists(ls, s.subResources)
    requires forall i, j :: 0 <= i < j < |ks| ==> s.subResources[ks[i]].idx <= s.subResources[ks[j]].idx
    requires forall i, j :: 0 <= i < j < |ls| ==> s.subResources[ls[i]].idx <= s.subResources[ls[j]].idx
    ensures ks == ls
  {
    var idx := map k | k in s.subResources :: s.subResources[k].idx;
    assert idx.Keys == s.subResources.Keys;
    SortedOnce(idx, ks, ls);
  }

  lemma SubsOnce(s: Scene, keys: seq<string>, x: seq<Section>, y: seq<Section>)
    requires |x| == |y| == |keys| && Lists(keys, s.subResources) && DenseSub(s.subResources)
    requires forall i :: 0 <= i < |keys| ==> PrintsSub(s.subResources[keys[i]], x[i]) && PrintsSub(s.subResources[keys[i]], y[i])
    ensures x == y
  {
    forall i | 0 <= i < |x| ensures x[i] == y[i] {
      PropertiesOnce(s.subResources[keys[i]].properties, x[i].properties, y[i].properties);
    }
  }

  lemma PrintedOnce(s: Scene, t: Tree, l1: Layout, p1: Pieces, l2: Layout, p2: Pieces)
    requires SceneOk(s, t) && Prints(s, t, l1, p1) && Prints(s, t, l2, p2) && DistinctRanks(s, t)
    ensures p1 == p2
  {
    PrintsFront(s, t, l1, p1);
    PrintsFront(s, t, l2, p2);
    ResourcesOnce(s, l1, p1, l2, p2);
    if s.mainResource.Some? {
      MainOnce(s, t, l1, p1, l2, p2);
    } else {
      EndsInTree(s, t);
      if s.root.Some? { TreeOrders(s, t); }
      RestOnce(s, t, l1, p1, l2, p2);
    }
  }

  lemma MainOnce(s: Scene, t: Tree, l1: Layout, p1: Pieces, l2: Layout, p2: Pieces)
    requires TreeOf(s, t) && Prints(s, t, l1, p1) && Prints(s, t, l2, p2)
    requires s.mainResource.Some? && DenseOrders(s.mainResource.value.properties)
    ensures p1.main == p2.main && p1.nodes == p2.nodes && p1.connections == p2.connections && p1.editable == p2.editable
  {
    MainTextOnce(s.mainResource.value.properties, p1.main, p2.main);
  }

  lemma MainTextOnce(m: Properties, x: seq<Section>, y: seq<Section>)
    requires DenseOrders(m) && |x| == |y| == 1 && PrintsMain(m, x[0]) && PrintsMain(m, y[0])
    ensures x == y
  {
    PropertiesOnce(m, x[0].properties, y[0].properties);
  }

  lemma RestOnce(s: Scene, t: Tree, l1: Layout, p1: Pieces, l2: Layout, p2: Pieces)
    requires TreeOf(s, t) && Attached(s, t) && DistinctRanks(s, t) && s.mainResource.None?
    requires s.root.Some? ==> forall k :: k in t.nodes ==> DenseOrders(t.nodes[k].properties)
    requires Prints(s, t, l1, p1) && Prints(s, t, l2, p2)
    ensures p1.main == p2.main && p1.nodes == p2.nodes && p1.connections == p2.connections && p1.editable == p2.editable
  {
    if s.root.Some? { NodesOnce(t, VisitedNodes(s, t), p1.nodes, p2.nodes); }
    ConnectionsOnce(s, t, l1.connections, l2.connections);
    ConnectionTextsOnce(s, t, l1.connections, p1.connections, p2.connections);
  }

  lemma TreeOrders(s: Scene, t: Tree)
    requires SceneOk(s, t) && s.root.Some?
    ensures forall k :: k in t.nodes ==> DenseOrders(t.nodes[k].properties)
  {
    forall k | k in t.nodes ensures DenseOrders(t.nodes[k].properties) { assert NodeTextOk(t.nodes[k], k == t.root); }
  }

  lemma EndsInTree(s: Scene, t: Tree)
    requires SceneOk(s, t)
    ensures Attached(s, t)
  {
  }

  lemma ConnectionTextsOnce(s: Scene, t: Tree, keys: seq<string>, x: seq<Section>, y: seq<Section>)
    requires Linked(t) && PrintsConnections(s, t, keys, x) && PrintsConnections(s, t, keys, y)
    requires forall k :: k in s.connections ==> s.connections[k].from in t.nodes && s.connections[k].to in t.nodes
    ensures x == y
  {
    forall i | 0 <= i < |x| ensures x[i] == y[i] {
      assert PrintsConnection(t, s.connections[keys[i]], x[i]) && PrintsConnection(t, s.connections[keys[i]], y[i]);
      PrintedEnds(t, s.connections[keys[i]], x[i]);
      PrintedEnds(t, s.connections[keys[i]], y[i]);
    }
  }

  // ---------- equal ranks: another text ----------

  // Different connections print differently.
  lemma ConnectionTextInjective(c: Connection, d: Connection, from: string, to: string)
    requires ConnectionTextOk(c) && ConnectionTextOk(d) && c.from == d.from && c.to == d.to
    requires PrintConnection(c, from, to) == PrintConnection(d, from, to)
    ensures c == d
  {
    ReadPrintedConnection(c, from, to);
    ReadPrintedConnection(d, from, to);
  }

  lemma SameRankEnds(visited: seq<NodeId>, c: Connection, d: Connection)
    requires c.from in visited && c.to in visited && d.from in visited && d.to in visited
    requires RankOf(visited, c) == RankOf(visited, d)
    ensures c.from == d.from && c.to == d.to
  {
    IndexInListed(visited, c.from);
    IndexInListed(visited, c.to);
    IndexInListed(visited, d.from);
    IndexInListed(visited, d.to);
  }

  function Swapped<T>(xs: seq<T>, i: nat, j: nat): seq<T>
    requires i < j < |xs|
  {
    xs[i := xs[j]][j := xs[i]]
  }

  lemma SwapSorted(s: Scene, visited: seq<NodeId>, keys: seq<string>, i: nat, j: nat)
    requires ConnectionsSorted(s, visited, keys) && i < j < |keys|
    requires RankOf(visited, s.connections[keys[i]]) == RankOf(visited, s.connections[keys[j]])
    ensures ConnectionsSorted(s, visited, Swapped(keys, i, j))
  {
  }

  ghost predicate OneText(s: Scene, t: Tree)
    requires TreeOf(s, t)
  {
    forall l1, p1, l2, p2 :: Prints(s, t, l1, p1) && Prints(s, t, l2, p2) ==> AllSections(p1) == AllSections(p2)
  }

  lemma SwapConnections(s: Scene, t: Tree, keys: seq<string>, sections: seq<Section>, i: nat, j: nat)
    requires Linked(t) && PrintsConnections(s, t, keys, sections) && i < j < |keys|
    ensures PrintsConnections(s, t, Swapped(keys, i, j), Swapped(sections, i, j))
  {
  }

  lemma SwapPrints(s: Scene, t: Tree, layout: Layout, p: Pieces, i: nat, j: nat)
    requires TreeOf(s, t) && Prints(s, t, layout, p) && s.mainResource.None? && i < j < |layout.connections|
    requires RankOf(VisitedNodes(s, t), s.connections[layout.connections[i]]) == RankOf(VisitedNodes(s, t), s.connections[layout.connections[j]])
    ensures Prints(s, t, layout.(connections := Swapped(layout.connections, i, j)), p.(connections := Swapped(p.connections, i, j)))
  {
    SwapSorted(s, VisitedNodes(s, t), layout.connections, i, j);
    SwapConnections(s, t, layout.connections, p.connections, i, j);
  }

  lemma SwapDiffers(s: Scene, t: Tree, keys: seq<string>, sections: seq<Section>, i: nat, j: nat)
    requires TreeOf(s, t) && s.root.Some? && PrintsConnections(s, t, keys, sections) && Lists(keys, s.connections) && i < j < |keys|
    requires Attached(s, t)
    requires RankOf(VisitedNodes(s, t), s.connections[keys[i]]) == RankOf(VisitedNodes(s, t), s.connections[keys[j]])
    ensures sections[i] != sections[j]
  {
    var c, d := s.connections[keys[i]], s.connections[keys[j]];
    assert c != d && ConnectionTextOk(c) && ConnectionTextOk(d);
    assert PrintsConnection(t, c, sections[i]) && PrintsConnection(t, d, sections[j]);
    VisitedCovers(t, c);
    VisitedCovers(t, d);
    SameRankDiffers(t, c, d, sections[i], sections[j]);
  }

  lemma VisitedCovers(t: Tree, c: Connection)
    requires Linked(t) && c.from in t.nodes && c.to in t.nodes
    ensures c.from in Preorder(t, t.root) && c.to in Preorder(t, t.root)
  {
    PreorderCovers(t, c.from);
    PreorderCovers(t, c.to);
  }

  lemma SameRankDiffers(t: Tree, c: Connection, d: Connection, x: Section, y: Section)
    requires Linked(t) && ConnectionTextOk(c) && ConnectionTextOk(d) && c != d
    requires c.from in t.nodes && c.to in t.nodes && d.from in t.nodes && d.to in t.nodes
    requires c.from in Preorder(t, t.root) && c.to in Preorder(t, t.root)
    requires d.from in Preorder(t, t.root) && d.to in Preorder(t, t.root)
    requires RankOf(Preorder(t, t.root), c) == RankOf(Preorder(t, t.root), d)
    requires PrintsConnection(t, c, x) && PrintsConnection(t, d, y)
    ensures x != y
  {
    SameRankEnds(Preorder(t, t.root), c, d);
    PrintedEnds(t, c, x);
    PrintedEnds(t, d, y);
    if x == y { ConnectionTextInjective(c, d, NodePath(t, c.from), NodePath(t, c.to)); }
  }

  lemma TwoTexts(s: Scene, t: Tree, l1: Layout, p1: Pieces, l2: Layout, p2: Pieces)
    requires TreeOf(s, t) && Prints(s, t, l1, p1) && Prints(s, t, l2, p2) && AllSections(p1) != AllSections(p2)
    ensures !OneText(s, t)
  {
  }

  lemma OtherText(s: Scene, t: Tree, layout: Layout, p: Pieces, i: nat, j: nat)
    requires TreeOf(s, t) && Prints(s, t, layout, p) && s.mainResource.None? && s.root.Some? && Attached(s, t)
    requires i < j < |layout.connections|
    requires RankOf(VisitedNodes(s, t), s.connections[layout.connections[i]]) == RankOf(VisitedNodes(s, t), s.connections[layout.connections[j]])
    ensures !OneText(s, t)
  {
    var l2 := layout.(connections := Swapped(layout.connections, i, j));
    SwapPrints(s, t, layout, p, i, j);
    SwapDiffers(s, t, layout.connections, p.connections, i, j);
    SwapTexts(p, i, j);
    TwoTexts(s, t, layout, p, l2, p.(connections := Swapped(p.connections, i, j)));
  }

  lemma SwapTexts(p: Pieces, i: nat, j: nat)
    requires i < j < |p.connections| && p.connections[i] != p.connections[j]
    ensures AllSections(p) != AllSections(p.(connections := Swapped(p.connections, i, j)))
  {
    PiecesDiffer(p, p.(connections := Swapped(p.connections, i, j)), i);
  }

  lemma PiecesDiffer(p: Pieces, q: Pieces, i: nat)
    requires p.header == q.header && p.ext == q.ext && p.sub == q.sub && p.main == q.main && p.nodes == q.nodes
    requires i < |p.connections| == |q.connections| && p.connections[i] != q.connections[i]
    ensures AllSections(p) != AllSections(q)
  {
    var front := [p.header] + p.ext + p.sub + p.main + p.nodes;
    assert AllSections(p)[|front| + i] == p.connections[i];
    assert AllSections(q)[|front| + i] == q.connections[i];
  }

  lemma OneTextDistinct(s: Scene, t: Tree)
    requires SceneOk(s, t) && DistinctRanks(s, t)
    ensures OneText(s, t)
  {
    forall l1, p1, l2, p2 | Prints(s, t, l1, p1) && Prints(s, t, l2, p2) ensures AllSections(p1) == AllSections(p2) {
      PrintedOnce(s, t, l1, p1, l2, p2);
    }
  }

  lemma EqualRanksListed(s: Scene, visited: seq<NodeId>, keys: seq<string>, a: string, b: string) returns (i: nat, j: nat)
    requires Lists(keys, s.connections) && a in s.connections && b in s.connections && a != b
    requires RankOf(visited, s.connections[a]) == RankOf(visited, s.connections[b])
    ensures i < j < |keys| && RankOf(visited, s.connections[keys[i]]) == RankOf(visited, s.connections[keys[j]])
  {
    ListsAll(keys, s.connections, a);
    ListsAll(keys, s.connections, b);
    i :| 0 <= i < |keys| && keys[i] == a;
    j :| 0 <= j < |keys| && keys[j] == b;
    if j < i { i, j := j, i; }
  }

  lemma EqualRanksOther(s: Scene, t: Tree, layout: Layout, p: Pieces)
    requires TreeOf(s, t) && Attached(s, t) && Prints(s, t, layout, p) && !DistinctRanks(s, t)
    requires s.mainResource.None? && s.root.Some?
    ensures !OneText(s, t)
  {
    var a, b :| a in s.connections && b in s.connections && a != b &&
      RankOf(VisitedNodes(s, t), s.connections[a]) == RankOf(VisitedNodes(s, t), s.connections[b]);
    var i, j := EqualRanksListed(s, VisitedNodes(s, t), layout.connections, a, b);
    OtherText(s, t, layout, p, i, j);
  }

  // The text of a scene does not depend on map order exactly when no two of its connections
  // have the same source, signal, target and method.
  lemma StableText(s: Scene, t: Tree, layout: Layout, p: Pieces)
    requires SceneOk(s, t) && Prints(s, t, layout, p)
    ensures OneText(s, t) <==> DistinctRanks(s, t)
  {
    if DistinctRanks(s, t) {
      OneTextDistinct(s, t);
    } else {
      EndsInTree(s, t);
      EqualRanksOther(s, t, layout, p);
    }
  }

  // serialize after parse after serialize is serialize.
  lemma Reprinted(s: Scene, t: Tree, l1: Layout, p1: Pieces, l2: Layout, p2: Pieces)
    requires SceneOk(s, t) && Prints(s, t, l1, p1) && DistinctRanks(s, t)
    ensures var again := Parse(AllSections(p1));
      && again.Ok? && TreeOf(again.value, t)
      && (Prints(again.value, t, l2, p2) ==> AllSections(p2) == AllSections(p1))
  {
    ParsePrinted(s, t, l1, p1);
    if Prints(s, t, l2, p2) { PrintedOnce(s, t, l1, p1, l2, p2); }
  }

  lemma OkPrintable(s: Scene, t: Tree)
    requires SceneOk(s, t)
    ensures Printable(s, t)
  {
  }

  // The printer and the parser as programs, one after the other.
  method SaveAndLoad(s: Scene, ghost t: Tree) returns (r: Result<Scene>)
    requires SceneOk(s, t)
    ensures r == Ok(s)
  {
    OkPrintable(s, t);
    var writer := new Writer(s);
    ghost var layout, p := writer.Serialize(t);
    ParsePrinted(s, t, layout, p);
    r := ParseScene(writer.output);
  }
}
