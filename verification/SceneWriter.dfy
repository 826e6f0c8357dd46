// serialize: the printer as a program that appends sections to its output.

module SceneWriter {
  import opened Text
  import opened SceneModel
  import opened SceneTree
  import opened ScenePreorder
  import opened SceneSections
  import opened SceneText
  import Sorting

  // ---------- the orders the printer sorts by ----------

  lemma {:induction false} StringLeReflexive(a: string)
    ensures StringLe(a, a)
  {
    if a != [] { StringLeReflexive(a[1..]); }
  }

  lemma {:induction false} StringLeTotal(a: string, b: string)
    ensures StringLe(a, b) || StringLe(b, a)
    ensures StringLe(a, b) && StringLe(b, a) ==> a == b
  {
    if a != [] && b != [] {
      StringLeTotal(a[1..], b[1..]);
      if a[0] == b[0] && a[1..] == b[1..] { assert a == [a[0]] + a[1..] == b; }
    }
  }

  lemma {:induction false} StringLeTransitive(a: string, b: string, c: string)
    requires StringLe(a, b) && StringLe(b, c)
    ensures StringLe(a, c)
  {
    if a != [] && a[0] == b[0] == c[0] { StringLeTransitive(a[1..], b[1..], c[1..]); }
  }

  lemma RankLeTotal(a: Rank, b: Rank)
    ensures RankLe(a, b) || RankLe(b, a)
    ensures RankLe(a, b) && RankLe(b, a) ==> a == b
  {
    StringLeTotal(a.signal, b.signal);
    StringLeTotal(a.callee, b.callee);
  }

  lemma RankLeTransitive(a: Rank, b: Rank, c: Rank)
    requires RankLe(a, b) && RankLe(b, c)
    ensures RankLe(a, c)
  {
    StringLeReflexive(a.callee);
    if StringLe(a.signal, b.signal) && StringLe(b.signal, c.signal) {
      StringLeTransitive(a.signal, b.signal, c.signal);
      StringLeTotal(a.signal, b.signal);
    }
    if StringLe(a.callee, b.callee) && StringLe(b.callee, c.callee) { StringLeTransitive(a.callee, b.callee, c.callee); }
  }

  method SortByNumber<K(==, !new)>(keys: set<K>, number: map<K, int>) returns (ks: seq<K>)
    requires keys <= number.Keys
    ensures Sorting.ListsSet(ks, keys)
    ensures forall i, j :: 0 <= i < j < |ks| ==> number[ks[i]] <= number[ks[j]]
  {
    ks := Sorting.SortKeys(keys, (a, b) => (if a in number then number[a] else 0) <= (if b in number then number[b] else 0));
  }

  method SortProperties(m: Properties) returns (pairs: seq<(string, string)>)
    ensures PrintsProperties(m, pairs)
  {
    var ks := SortByNumber(m.Keys, map k | k in m :: m[k].order);
    pairs := seq(|ks|, i requires 0 <= i < |ks| => (assert ks[i] in m; (ks[i], m[ks[i]].value)));
  }

  function VisitRank(visited: map<NodeId, int>, c: Connection): Rank
  {
    Rank(if c.from in visited then visited[c.from] else -1, c.signal, if c.to in visited then visited[c.to] else -1, c.callee)
  }

  method SortByRank(rank: map<string, Rank>) returns (keys: seq<string>)
    ensures Lists(keys, rank)
    ensures forall i, j :: 0 <= i < j < |keys| ==> RankLe(rank[keys[i]], rank[keys[j]])
  {
    var unranked := Rank(-1, "", -1, "");
    var le := (a, b) => RankLe(if a in rank then rank[a] else unranked, if b in rank then rank[b] else unranked);
    forall a, b ensures le(a, b) || le(b, a) {
      RankLeTotal(if a in rank then rank[a] else unranked, if b in rank then rank[b] else unranked);
    }
    forall a, b, c | le(a, b) && le(b, c) ensures le(a, c) {
      RankLeTransitive(if a in rank then rank[a] else unranked, if b in rank then rank[b] else unranked, if c in rank then rank[c] else unranked);
    }
    keys := Sorting.SortKeys(rank.Keys, le);
  }

  ghost predicate Numbered(visited: map<NodeId, int>, order: seq<NodeId>)
  {
    && |visited| == |order| && NoDuplicates(order)
    && (forall k :: k in visited <==> k in order)
    && (forall i :: 0 <= i < |order| ==> visited[order[i]] == i)
  }

  lemma {:induction false} IndexInListed(ids: seq<NodeId>, k: NodeId)
    ensures k !in ids ==> IndexIn(ids, k) == -1
    ensures k in ids ==> 0 <= IndexIn(ids, k) < |ids| && ids[IndexIn(ids, k)] == k
  {
    if ids != [] && ids[|ids| - 1] != k {
      IndexInListed(ids[..|ids| - 1], k);
    }
  }

  lemma RankVisited(visited: map<NodeId, int>, order: seq<NodeId>, c: Connection)
    requires Numbered(visited, order)
    ensures VisitRank(visited, c) == RankOf(order, c)
  {
    IndexInListed(order, c.from);
    IndexInListed(order, c.to);
  }

  method SortVisited(visited: map<NodeId, int>, connections: map<string, Connection>, ghost order: seq<NodeId>)
    returns (keys: seq<string>)
    requires Numbered(visited, order)
    ensures Lists(keys, connections)
    ensures forall i, j :: 0 <= i < j < |keys| ==> RankLe(RankOf(order, connections[keys[i]]), RankOf(order, connections[keys[j]]))
  {
    var rank := map key | key in connections :: VisitRank(visited, connections[key]);
    assert rank.Keys == connections.Keys;
    keys := SortByRank(rank);
    forall i, j | 0 <= i < j < |keys|
      ensures RankLe(RankOf(order, connections[keys[i]]), RankOf(order, connections[keys[j]])) {
      RankVisited(visited, order, connections[keys[i]]);
      RankVisited(visited, order, connections[keys[j]]);
      assert RankLe(rank[keys[i]], rank[keys[j]]);
    }
  }

  // ---------- the printer ----------

  predicate Named(t: Tree)
  {
    forall k :: k in t.nodes && k != t.root ==> t.nodes[k].name != ""
  }

  // A scene the printer can walk: linked, with named nodes and connections between its nodes.
  ghost predicate Printable(s: Scene, t: Tree)
  {
    && TreeOf(s, t)
    && (s.root.None? || s.mainResource.Some? ==> s.connections == map[])
    && (s.root.Some? ==> Named(t))
    && (forall k :: k in s.connections ==> s.connections[k].from in t.nodes && s.connections[k].to in t.nodes)
  }

  lemma {:induction false} NoDuplicatesPrefix<T>(a: seq<T>, b: seq<T>)
    requires NoDuplicates(a + b)
    ensures NoDuplicates(a)
  {
    forall i, j | 0 <= i < j < |a| ensures a[i] != a[j] {
      assert (a + b)[i] == a[i] && (a + b)[j] == a[j];
    }
  }

  lemma NextIsNew<T>(a: seq<T>, b: seq<T>)
    requires NoDuplicates(a + b) && b != []
    ensures b[0] !in a
  {
    assert (a + b)[|a|] == b[0];
    forall i | 0 <= i < |a| ensures a[i] != b[0] { assert (a + b)[i] == a[i]; }
  }

  lemma StartNode(t: Tree, k: NodeId, visited: map<NodeId, int>, before: seq<NodeId>)
    requires Linked(t) && k in t.nodes && Numbered(visited, before) && NoDuplicates(before + Preorder(t, k))
    ensures Numbered(visited[k := |visited|], before + [k])
    ensures [k] + Forest(t, k, 0) == Preorder(t, k)
    ensures NoDuplicates((before + [k]) + Forest(t, k, 0))
  {
    NextIsNew(before, Preorder(t, k));
    assert before + Preorder(t, k) == (before + [k]) + Forest(t, k, 0);
  }

  lemma NextChild(t: Tree, k: NodeId, i: nat, before: seq<NodeId>, order: seq<NodeId>)
    requires Linked(t) && k in t.nodes && i < |t.nodes[k].children|
    requires order + Forest(t, k, i) == Preorder(t, k) && NoDuplicates((before + order) + Forest(t, k, i))
    ensures var c := t.nodes[k].children[i];
      && c in t.nodes && t.depth[c] == t.depth[k] + 1
      && NoDuplicates((before + order) + Preorder(t, c))
      && (order + Preorder(t, c)) + Forest(t, k, i + 1) == Preorder(t, k)
      && (before + order) + Preorder(t, c) == before + (order + Preorder(t, c))
      && NoDuplicates((before + (order + Preorder(t, c))) + Forest(t, k, i + 1))
  {
    ChildDepth(t, k, i);
    var subtree, rest := Preorder(t, t.nodes[k].children[i]), Forest(t, k, i + 1);
    assert Forest(t, k, i) == subtree + rest;
    assert (before + order) + Forest(t, k, i) == ((before + order) + subtree) + rest;
    NoDuplicatesPrefix((before + order) + subtree, rest);
    assert order + Forest(t, k, i) == (order + subtree) + rest;
    assert (before + order) + subtree == before + (order + subtree);
  }

  lemma JoinNodes(t: Tree, a: seq<NodeId>, b: seq<NodeId>, front: seq<Section>, x: seq<Section>, y: seq<Section>)
    requires Linked(t) && PrintsNodes(t, a, x) && PrintsNodes(t, b, y)
    ensures PrintsNodes(t, a + b, x + y)
    ensures (front + x) + y == front + (x + y)
  {
    forall i | 0 <= i < |x + y| ensures (a + b)[i] in t.nodes && PrintsNode(t.nodes[(a + b)[i]], PrintedParent(t, (a + b)[i]), (x + y)[i]) {
      if i >= |x| { assert (a + b)[i] == b[i - |a|] && (x + y)[i] == y[i - |x|]; }
    }
  }

  lemma JoinConnection(s: Scene, t: Tree, keys: seq<string>, i: nat, printed: seq<Section>, section: Section)
    requires Linked(t) && i < |keys| && PrintsConnections(s, t, keys[..i], printed) && keys[i] in s.connections
    requires s.connections[keys[i]].from in t.nodes && s.connections[keys[i]].to in t.nodes
    requires section == PrintConnection(s.connections[keys[i]], NodePath(t, s.connections[keys[i]].from), NodePath(t, s.connections[keys[i]].to))
    ensures PrintsConnections(s, t, keys[..i + 1], printed + [section])
  {
    PrintedEnds(t, s.connections[keys[i]], section);
    assert keys[..i + 1] == keys[..i] + [keys[i]];
  }

  function Extended(front: string, below: string): string
  {
    if below == "" then front else front + "/" + below
  }

  // One step of the walk to the root, with `below` collected so far.
  lemma PathStep(t: Tree, current: NodeId, below: string, whole: string)
    requires Linked(t) && Named(t) && current in t.nodes && current != t.root && whole == Extended(NodePath(t, current), below)
    ensures var n, p := t.nodes[current], Parent(t, current);
      var path := Extended(n.name, below);
      && path != "" && n.parent == Some(p) && t.depth[p] < t.depth[current]
      && match n.fallback
         case Some(f) => whole == if f == "." then path else f + "/" + path
         case None => whole == if p == t.root then path else Extended(NodePath(t, p), path)
  {
    var n, p := t.nodes[current], Parent(t, current);
    Associates(NodePath(t, p), n.name, below);
    if n.fallback.Some? { Associates(n.fallback.value, n.name, below); }
  }

  lemma Associates(a: string, b: string, c: string)
    ensures (a + "/" + b) + "/" + c == a + "/" + (b + "/" + c)
  {
  }

  class Writer {
    const scene: Scene
    var output: seq<Section>
    var visited: map<NodeId, int>

    constructor (scene: Scene)
      ensures this.scene == scene && output == [] && visited == map[]
    {
      this.scene, output, visited := scene, [], map[];
    }

    // The visit numbers of the nodes printed so far, in this order.
    ghost predicate Numbers(order: seq<NodeId>)
      reads this
    {
      Numbered(visited, order)
    }

    method GetNodePath(ghost t: Tree, k: NodeId) returns (path: string)
      requires TreeOf(scene, t) && Named(t) && scene.root == Some(t.root) && k in t.nodes
      ensures path == NodePath(t, k)
    {
      path := "";
      if k == scene.root.value { return "."; }
      var current := k;
      while true
        invariant current in t.nodes && current != t.root
        invariant NodePath(t, k) == Extended(NodePath(t, current), path)
        decreases t.depth[current]
      {
        PathStep(t, current, path, NodePath(t, k));
        var node := scene.nodes[current];
        path := if path == "" then node.name else node.name + "/" + path;
        if node.fallback.Some? {
          if node.fallback.value == "." { return; }
          path := node.fallback.value + "/" + path;
          return;
        }
        if node.parent.None? { return; }
        if node.parent.value == scene.root.value { return; }
        current := node.parent.value;
      }
    }

    method PrintNode(ghost t: Tree, k: NodeId) returns (s: Section)
      requires Printable(scene, t) && scene.root == Some(t.root) && k in t.nodes
      ensures PrintsNode(t.nodes[k], PrintedParent(t, k), s)
    {
      var node := scene.nodes[k];
      var parentName := None;
      if node.parent.Some? {
        if node.parent.value == scene.root.value {
          parentName := Some(".");
        } else if node.fallback.Some? {
          parentName := node.fallback;
        } else {
          assert HasParent(t, k);
          var path := GetNodePath(t, node.parent.value);
          parentName := Some(path);
        }
      }
      var properties := SortProperties(node.properties);
      s := Section(NodeSection, Present(NodeFields(node, parentName)), properties);
    }

    method SerializeNode(ghost t: Tree, k: NodeId, ghost before: seq<NodeId>)
      requires Printable(scene, t) && scene.root == Some(t.root) && k in t.nodes
      requires Numbers(before) && NoDuplicates(before + Preorder(t, k))
      modifies this
      ensures Numbers(before + Preorder(t, k))
      ensures exists nodes :: output == old(output) + nodes && PrintsNodes(t, Preorder(t, k), nodes)
      decreases t.bound - t.depth[k], |t.nodes[k].children| + 1
    {
      var section := PrintNode(t, k);
      StartNode(t, k, visited, before);
      visited := visited[k := |visited|];
      output := output + [section];
      ghost var printed, order := [section], [k];
      var children := scene.nodes[k].children;
      for i := 0 to |children|
        invariant order + Forest(t, k, i) == Preorder(t, k)
        invariant NoDuplicates((before + order) + Forest(t, k, i))
        invariant Numbers(before + order)
        invariant output == old(output) + printed && PrintsNodes(t, order, printed)
      {
        var c := children[i];
        NextChild(t, k, i, before, order);
        if c in scene.nodes {
          label Before:
          SerializeNode(t, c, before + order);
          ghost var nodes :| output == old@Before(output) + nodes && PrintsNodes(t, Preorder(t, c), nodes);
          JoinNodes(t, order, Preorder(t, c), old(output), printed, nodes);
          printed, order := printed + nodes, order + Preorder(t, c);
        }
      }
      assert order == Preorder(t, k);
    }

    method PrintExtAll(keys: seq<string>) returns (ghost printed: seq<Section>)
      requires forall i :: 0 <= i < |keys| ==> keys[i] in scene.extResources
      modifies this`output
      ensures output == old(output) + printed && |printed| == |keys|
      ensures forall i :: 0 <= i < |printed| ==> printed[i] == PrintExt(scene.extResources[keys[i]])
    {
      printed := [];
      for i := 0 to |keys|
        invariant output == old(output) + printed && |printed| == i
        invariant forall j :: 0 <= j < i ==> printed[j] == PrintExt(scene.extResources[keys[j]])
      {
        var section := PrintExt(scene.extResources[keys[i]]);
        output, printed := output + [section], printed + [section];
      }
    }

    method PrintSubAll(keys: seq<string>) returns (ghost printed: seq<Section>)
      requires forall i :: 0 <= i < |keys| ==> keys[i] in scene.subResources
      modifies this`output
      ensures output == old(output) + printed && |printed| == |keys|
      ensures forall i :: 0 <= i < |printed| ==> PrintsSub(scene.subResources[keys[i]], printed[i])
    {
      printed := [];
      for i := 0 to |keys|
        invariant output == old(output) + printed && |printed| == i
        invariant forall j :: 0 <= j < i ==> PrintsSub(scene.subResources[keys[j]], printed[j])
      {
        var resource := scene.subResources[keys[i]];
        var properties := SortProperties(resource.properties);
        var section := Section(SubResourceSection, Present(SubFields(resource)), properties);
        output, printed := output + [section], printed + [section];
      }
    }

    method SortConnections(ghost t: Tree) returns (keys: seq<string>)
      requires TreeOf(scene, t) && Numbers(VisitedNodes(scene, t))
      ensures ConnectionsSorted(scene, VisitedNodes(scene, t), keys)
    {
      keys := SortVisited(visited, scene.connections, VisitedNodes(scene, t));
    }

    method PrintConnectionsAll(ghost t: Tree, keys: seq<string>) returns (ghost printed: seq<Section>)
      requires Printable(scene, t) && Lists(keys, scene.connections)
      modifies this`output
      ensures output == old(output) + printed && PrintsConnections(scene, t, keys, printed)
    {
      printed := [];
      for i := 0 to |keys|
        invariant output == old(output) + printed && |printed| == i
        invariant PrintsConnections(scene, t, keys[..i], printed)
      {
        var c := scene.connections[keys[i]];
        var from := GetNodePath(t, c.from);
        var to := GetNodePath(t, c.to);
        var section := PrintConnection(c, from, to);
        JoinConnection(scene, t, keys, i, printed, section);
        output, printed := output + [section], printed + [section];
      }
      assert keys[..|keys|] == keys;
    }

    method PrintEditableAll() returns (ghost printed: seq<Section>)
      modifies this`output
      ensures output == old(output) + printed && PrintsEditable(scene.editable, printed)
    {
      printed := [];
      for i := 0 to |scene.editable|
        invariant output == old(output) + printed && |printed| == i
        invariant forall j :: 0 <= j < i ==> printed[j] == PrintEditable(scene.editable[j])
      {
        var section := PrintEditable(scene.editable[i]);
        output, printed := output + [section], printed + [section];
      }
    }

    method SerializeResources() returns (ghost ext: seq<string>, ghost sub: seq<string>, ghost p: Pieces)
      requires output == []
      modifies this`output
      ensures FrontOk(scene, ext, sub, p) && output == [p.header] + p.ext + p.sub
      ensures p.main == p.nodes == p.connections == p.editable == []
    {
      var s := scene;
      var header := PrintHeader(MetadataOf(s));
      output := [header];
      var extKeys := SortByNumber(s.extResources.Keys, map k | k in s.extResources :: s.extResources[k].idx);
      ghost var extPrinted := PrintExtAll(extKeys);
      assert Lists(extKeys, s.extResources);
      var subKeys := SortByNumber(s.subResources.Keys, map k | k in s.subResources :: s.subResources[k].idx);
      ghost var subPrinted := PrintSubAll(subKeys);
      assert Lists(subKeys, s.subResources);
      ext, sub := extKeys, subKeys;
      p := Pieces(header, extPrinted, subPrinted, [], [], [], []);
    }

    method SerializeTree(ghost t: Tree) returns (ghost nodes: seq<Section>)
      requires Printable(scene, t) && visited == map[]
      modifies this
      ensures Numbers(VisitedNodes(scene, t))
      ensures output == old(output) + nodes && PrintsNodes(t, VisitedNodes(scene, t), nodes)
    {
      nodes := [];
      if scene.root.Some? {
        WholePreorder(t);
        assert [] + Preorder(t, t.root) == Preorder(t, t.root);
        SerializeNode(t, scene.root.value, []);
        nodes :| output == old(output) + nodes && PrintsNodes(t, Preorder(t, t.root), nodes);
      }
    }

    // Nodes, connections and editable instances, for a scene without a main resource.
    method SerializeRest(ghost t: Tree) returns (ghost nodes: seq<Section>, keys: seq<string>,
                                                 ghost connections: seq<Section>, ghost editable: seq<Section>)
      requires Printable(scene, t) && visited == map[]
      modifies this
      ensures output == old(output) + nodes + connections + editable
      ensures PrintsNodes(t, VisitedNodes(scene, t), nodes)
      ensures ConnectionsSorted(scene, VisitedNodes(scene, t), keys) && PrintsConnections(scene, t, keys, connections)
      ensures PrintsEditable(scene.editable, editable)
    {
      nodes := SerializeTree(t);
      keys := SortConnections(t);
      connections := PrintConnectionsAll(t, keys);
      editable := PrintEditableAll();
    }

    method SerializeMain()
      requires scene.mainResource.Some?
      modifies this`output
      ensures exists main :: output == old(output) + [main] && PrintsMain(scene.mainResource.value.properties, main)
    {
      var properties := SortProperties(scene.mainResource.value.properties);
      var main := Section(ResourceSection, [], properties);
      assert PrintsMain(scene.mainResource.value.properties, main);
      output := output + [main];
    }

    // Writes the whole text; a scene with a main resource ends there.
    method Serialize(ghost t: Tree) returns (ghost layout: Layout, ghost p: Pieces)
      requires Printable(scene, t) && output == [] && visited == map[]
      modifies this
      ensures Prints(scene, t, layout, p) && output == AllSections(p)
    {
      ghost var ext, sub, front := SerializeResources();
      label Front:
      if scene.mainResource.Some? {
        SerializeMain();
        ghost var main :| output == old@Front(output) + [main] && PrintsMain(scene.mainResource.value.properties, main);
        layout, p := Layout(ext, sub, []), front.(main := [main]);
        PrintsResource(scene, t, layout, p);
        JoinPieces(front, p);
      } else {
        ghost var nodes, keys, connections, editable := SerializeRest(t);
        layout, p := Layout(ext, sub, keys), front.(nodes := nodes, connections := connections, editable := editable);
        PrintsWhole(scene, t, layout, p);
        JoinPieces(front, p);
      }
    }
  }

  ghost predicate FrontOk(s: Scene, ext: seq<string>, sub: seq<string>, p: Pieces)
  {
    && Lists(ext, s.extResources)
    && (forall i, j :: 0 <= i < j < |ext| ==> s.extResources[ext[i]].idx <= s.extResources[ext[j]].idx)
    && Lists(sub, s.subResources)
    && (forall i, j :: 0 <= i < j < |sub| ==> s.subResources[sub[i]].idx <= s.subResources[sub[j]].idx)
    && p.header == PrintHeader(MetadataOf(s))
    && |p.ext| == |ext| && (forall i :: 0 <= i < |p.ext| ==> p.ext[i] == PrintExt(s.extResources[ext[i]]))
    && |p.sub| == |sub| && (forall i :: 0 <= i < |p.sub| ==> PrintsSub(s.subResources[sub[i]], p.sub[i]))
  }

  ghost predicate ConnectionsSorted(s: Scene, visited: seq<NodeId>, keys: seq<string>)
  {
    && Lists(keys, s.connections)
    && forall i, j :: 0 <= i < j < |keys| ==>
         RankLe(RankOf(visited, s.connections[keys[i]]), RankOf(visited, s.connections[keys[j]]))
  }

  predicate PrintsEditable(paths: seq<string>, sections: seq<Section>)
  {
    |sections| == |paths| && forall i :: 0 <= i < |paths| ==> sections[i] == PrintEditable(paths[i])
  }

  lemma PrintsWhole(s: Scene, t: Tree, layout: Layout, p: Pieces)
    requires TreeOf(s, t) && s.mainResource.None? && p.main == []
    requires FrontOk(s, layout.ext, layout.sub, p)
    requires PrintsNodes(t, VisitedNodes(s, t), p.nodes)
    requires ConnectionsSorted(s, VisitedNodes(s, t), layout.connections)
    requires PrintsConnections(s, t, layout.connections, p.connections)
    requires PrintsEditable(s.editable, p.editable)
    ensures Prints(s, t, layout, p)
  {
  }

  lemma JoinPieces(front: Pieces, p: Pieces)
    requires p.header == front.header && p.ext == front.ext && p.sub == front.sub
    ensures p.main == [] ==> AllSections(p) == [front.header] + front.ext + front.sub + p.nodes + p.connections + p.editable
    ensures p.nodes == p.connections == p.editable == [] ==> AllSections(p) == [front.header] + front.ext + front.sub + p.main
  {
  }

  lemma PrintsResource(s: Scene, t: Tree, layout: Layout, p: Pieces)
    requires Printable(s, t) && s.mainResource.Some? && layout.connections == []
    requires FrontOk(s, layout.ext, layout.sub, p)
    requires |p.main| == 1 && PrintsMain(s.mainResource.value.properties, p.main[0])
    requires p.nodes == p.connections == p.editable == []
    ensures Prints(s, t, layout, p)
  {
  }
}
