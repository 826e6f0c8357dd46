// Linking the nodes of a printed tree rebuilds the tree: identifiers, parents, fallbacks and
// the order of every child list.

module SceneLinkProof {
  import opened Text
  import opened SceneModel
  import opened SceneTree
  import opened ScenePreorder
  import opened ScenePaths
  import opened SceneLinks

  // A node as its own section gives it: no instance path, no parent, no children.
  function Bare(t: Tree, k: NodeId): Node
    requires Linked(t) && k in t.nodes
  {
    t.nodes[k].(id := NodeId(k.id, None), parent := None, children := [],
                fallback := if k == t.root then None else Some(ParentName(t, k)))
  }

  function Bares(t: Tree, ids: seq<NodeId>): (r: seq<Node>)
    requires Linked(t) && forall i :: 0 <= i < |ids| ==> ids[i] in t.nodes
    ensures |r| == |ids|
    ensures forall i :: 0 <= i < |ids| ==> r[i] == Bare(t, ids[i])
  {
    seq(|ids|, i requires 0 <= i < |ids| => Bare(t, ids[i]))
  }

  // A node after the first pass.
  function Identified(t: Tree, k: NodeId): Node
    requires Linked(t) && k in t.nodes
  {
    var n := t.nodes[k].(children := []);
    if k == t.root || (IsEdited(n) && Parent(t, k) == t.root) then n
    else if IsEdited(n) && n.parentIdPath.None? then n.(fallback := None)
    else n.(parent := None, fallback := Some(ParentName(t, k)))
  }

  // The recorded paths lead to the last of `ids` that has them.
  ghost predicate PathsFor(t: Tree, ids: seq<NodeId>, paths: map<string, NodeId>)
    requires Linked(t)
  {
    forall path :: LastWith(t, ids, path) == if path in paths then Some(paths[path]) else None
  }

  predicate Before(ids: seq<NodeId>, i: nat, k: NodeId) { exists j :: 0 <= j < i && j < |ids| && ids[j] == k }

  // The nodes seen so far, each after its parent.
  ghost predicate Visited(t: Tree, ids: seq<NodeId>)
    requires Linked(t)
  {
    && NoDuplicates(ids)
    && (forall i :: 0 <= i < |ids| ==> ids[i] in t.nodes)
    && (ids != [] ==> ids[0] == t.root)
    && (forall i :: 0 < i < |ids| ==> ids[i] != t.root && Before(ids, i, Parent(t, ids[i])))
  }

  predicate Assigned(t: Tree) { forall k :: k in t.nodes ==> k.id != 0 }

  ghost predicate AfterIds(t: Tree, ids: seq<NodeId>, l: Links)
    requires Linked(t) && forall i :: 0 <= i < |ids| ==> ids[i] in t.nodes
  {
    && l.keys == ids
    && (forall k :: k in l.nodes <==> k in ids)
    && (forall k :: k in ids ==> l.nodes[k] == Identified(t, k))
    && PathsFor(t, ids, l.paths)
    && l.root == if ids == [] then None else Some(t.root)
  }

  // ---------- first pass ----------

  // The nodes seen so far as the ancestor walk sees them.
  ghost predicate Walkable(t: Tree, ids: seq<NodeId>, l: Links)
    requires Linked(t)
  {
    && PathsFor(t, ids, l.paths)
    && (forall k :: k in ids ==> k in t.nodes && k in l.nodes && l.nodes[k].id == k && l.nodes[k].kind == t.nodes[k].kind)
    && (forall k :: k in ids && k != t.root ==> PlacedOk(t, k))
  }

  // The walk from the ancestor of `x` at depth `d` collects its instance path.
  lemma {:induction false} WalkUp(t: Tree, ids: seq<NodeId>, l: Links, x: NodeId, d: nat, found: Ancestry)
    requires Pathed(t) && Walkable(t, ids, l)
    requires x in t.nodes && 0 < d < t.depth[x] && FoundAbove(t, ids, x, 0)
    ensures var a := Above(t, x, d);
      Walk(l.paths, l.nodes, NodePath(t, a), found)
      == match InstancePath(t, a, found.ids)
         case None => None
         case Some(path) => Some(Ancestry(if found.parent.None? then Some(a) else found.parent, path))
    decreases d
  {
    var a := Above(t, x, d);
    AncestorFound(t, ids, l, x, d);
    ParentNameOf(t, a);
    if a.rootInstance.None? {
      var n, p := t.nodes[a], Parent(t, a);
      var below := if n.kind.Some? && n.kind.value.Instance? then [a.id] + found.ids else found.ids;
      AboveStep(t, x, d - 1);
      if p == t.root {
        assert ParentName(t, a) == ".";
      } else if n.fallback.Some? {
        UnrecordedPath(t, ids, l.paths, n.fallback.value);
      } else {
        WalkUp(t, ids, l, x, d - 1, Ancestry(if found.parent.None? then Some(a) else found.parent, below));
      }
    }
  }

  lemma AncestorFound(t: Tree, ids: seq<NodeId>, l: Links, x: NodeId, d: nat)
    requires Pathed(t) && Walkable(t, ids, l) && x in t.nodes && 0 < d < t.depth[x] && FoundAbove(t, ids, x, 0)
    ensures var a := Above(t, x, d);
      && a != t.root && PlacedOk(t, a) && a in l.nodes && l.nodes[a].id == a && l.nodes[a].kind == t.nodes[a].kind
      && NodePath(t, a) != "" && NodePath(t, a) in l.paths && l.paths[NodePath(t, a)] == a
  {
    var a := Above(t, x, d);
    LastWithMember(t, ids, NodePath(t, a));
    PathNotRoot(t, a);
  }

  lemma UnrecordedPath(t: Tree, ids: seq<NodeId>, paths: map<string, NodeId>, path: string)
    requires Linked(t) && PathsFor(t, ids, paths) && !Recorded(t, path)
    ensures path !in paths
  {
    LastWithMember(t, ids, path);
  }

  lemma AfterIdsWalkable(t: Tree, ids: seq<NodeId>, l: Links)
    requires WellPlaced(t) && Visited(t, ids) && AfterIds(t, ids, l)
    ensures Walkable(t, ids, l)
  {
    forall k | k in ids ensures k in t.nodes && k in l.nodes && l.nodes[k].id == k && l.nodes[k].kind == t.nodes[k].kind {
      assert l.nodes[k] == Identified(t, k);
    }
  }

  lemma IdentifyNext(t: Tree, ids: seq<NodeId>, l: Links, k: NodeId)
    requires WellPlaced(t) && Visited(t, ids) && AfterIds(t, ids, l) && k in t.nodes && FoundAbove(t, ids, k, 0)
    requires if ids == [] then k == t.root else k != t.root
    ensures Identify(l, Bare(t, k)) == Ok(Identified(t, k))
  {
    var n := t.nodes[k];
    if k != t.root && IsEdited(n) {
      assert PlacedOk(t, k) && IdentifierOk(t, k);
      PlacedPathed(t);
      ParentNameOf(t, k);
      if Parent(t, k) != t.root && n.parentIdPath.None? {
        var p := Parent(t, k);
        AfterIdsWalkable(t, ids, l);
        AboveStep(t, k, t.depth[p]);
        assert Above(t, k, t.depth[p]) == p;
        AncestorFound(t, ids, l, k, t.depth[p]);
        WalkUp(t, ids, l, k, t.depth[p], Ancestry(None, []));
      }
    } else if k != t.root {
      assert IdentifierOk(t, k);
    }
  }

  lemma IdStepNext(t: Tree, ids: seq<NodeId>, l: Links, k: NodeId)
    requires WellPlaced(t) && Assigned(t) && Visited(t, ids) && AfterIds(t, ids, l)
    requires k in t.nodes && k !in ids && FoundAbove(t, ids, k, 0) && if ids == [] then k == t.root else k != t.root
    ensures IdStep(l, Bare(t, k)).Ok? && AfterIds(t, ids + [k], IdStep(l, Bare(t, k)).value)
  {
    IdentifyNext(t, ids, l, k);
    if k != t.root {
      PlacedPathed(t);
      assert PlacedOk(t, k);
      PathOfChild(t, k);
    }
    IdStepIs(t, ids, l, k);
    PathsForNext(t, ids, l.paths, k);
  }

  lemma IdStepIs(t: Tree, ids: seq<NodeId>, l: Links, k: NodeId)
    requires Linked(t) && Assigned(t) && k in t.nodes && k !in l.nodes && Identify(l, Bare(t, k)) == Ok(Identified(t, k))
    requires if ids == [] then k == t.root && l.root.None? else k != t.root && l.root == Some(t.root)
    requires k != t.root ==> NodePath(t, k) == Under(ParentName(t, k), t.nodes[k].name)
    ensures IdStep(l, Bare(t, k)) == Ok(Links(l.nodes[k := Identified(t, k)], l.keys + [k], l.paths[NodePath(t, k) := k], Some(t.root)))
  {
    assert Identified(t, k).id == k;
  }

  lemma PathsForNext(t: Tree, ids: seq<NodeId>, paths: map<string, NodeId>, k: NodeId)
    requires Linked(t) && PathsFor(t, ids, paths) && k in t.nodes
    ensures PathsFor(t, ids + [k], paths[NodePath(t, k) := k])
  {
    assert (ids + [k])[..|ids|] == ids;
  }

  lemma IdPassSnoc(raws: seq<Node>, n: nat)
    requires 0 < n <= |raws| && IdPass(raws[..n - 1]).Ok?
    ensures IdPass(raws[..n]) == IdStep(IdPass(raws[..n - 1]).value, raws[n - 1])
  {
    assert raws[..n][..n - 1] == raws[..n - 1];
  }

  lemma NextVisited(t: Tree, o: seq<NodeId>, n: nat)
    requires Linked(t) && Visited(t, o) && n < |o|
    ensures Visited(t, o[..n]) && o[n] in t.nodes && o[n] !in o[..n] && o[..n] + [o[n]] == o[..n + 1]
    ensures if n == 0 then o[n] == t.root else o[n] != t.root
  {
    PrefixVisited(t, o, n);
    NextIsNew(o, n);
  }

  lemma PrefixVisited(t: Tree, o: seq<NodeId>, n: nat)
    requires Linked(t) && Visited(t, o) && n <= |o|
    ensures Visited(t, o[..n])
  {
  }

  lemma NextIsNew(o: seq<NodeId>, n: nat)
    requires NoDuplicates(o) && n < |o|
    ensures o[n] !in o[..n] && o[..n] + [o[n]] == o[..n + 1]
  {
  }

  lemma {:induction false} IdPassPrefix(t: Tree, o: seq<NodeId>, n: nat)
    requires WellPlaced(t) && Assigned(t) && Visited(t, o) && FindsAncestors(t, o) && n <= |o|
    ensures IdPass(Bares(t, o)[..n]).Ok? && AfterIds(t, o[..n], IdPass(Bares(t, o)[..n]).value)
  {
    if n == 0 {
      assert AfterIds(t, o[..0], NO_LINKS);
    } else {
      IdPassPrefix(t, o, n - 1);
      IdPassSnoc(Bares(t, o), n);
      NextVisited(t, o, n - 1);
      IdStepNext(t, o[..n - 1], IdPass(Bares(t, o)[..n - 1]).value, o[n - 1]);
    }
  }

  // ---------- second pass ----------

  lemma {:induction false} NearestFound(t: Tree, o: seq<NodeId>, paths: map<string, NodeId>, path: string, p: NodeId)
    requires Linked(t) && (forall k :: k in o <==> k in t.nodes) && PathsFor(t, o, paths)
    requires NearestIs(t, path, p) && p in t.nodes && LastWith(t, o, NodePath(t, p)) == Some(p)
    ensures NearestRecorded(paths, path) == Some(p)
    decreases |path|
  {
    RecordedInPaths(t, o, paths, path);
    if path !in paths { NearestFound(t, o, paths, Pop(path), p); }
  }

  lemma RecordedInPaths(t: Tree, o: seq<NodeId>, paths: map<string, NodeId>, path: string)
    requires Linked(t) && (forall k :: k in o <==> k in t.nodes) && PathsFor(t, o, paths)
    ensures path in paths <==> Recorded(t, path)
  {
    LastWithMember(t, o, path);
  }

  lemma AdoptNext(t: Tree, o: seq<NodeId>, paths: map<string, NodeId>, k: NodeId, children: seq<NodeId>)
    requires TreeOk(t) && o == Preorder(t, t.root) && (forall x :: x in o <==> x in t.nodes) && PathsFor(t, o, paths) && k in t.nodes
    ensures Adopt(paths, Identified(t, k).(children := children)) == Ok(t.nodes[k].(children := children))
  {
    if k != t.root {
      assert PlacedOk(t, k) && IdentifierOk(t, k);
      if ByPath(t, k) { ParentPathFound(t, o, paths, k); }
      AdoptPlaced(t, paths, k, children);
    }
  }

  lemma AdoptPlaced(t: Tree, paths: map<string, NodeId>, k: NodeId, children: seq<NodeId>)
    requires Linked(t) && k in t.nodes && k != t.root && PlacedOk(t, k) && IdentifierOk(t, k)
    requires ByPath(t, k) ==> LeadsToParent(t, paths, k)
    ensures Adopt(paths, Identified(t, k).(children := children)) == Ok(t.nodes[k].(children := children))
  {
  }

  // The printed parent path leads to the parent: directly, or to it as nearest recorded prefix.
  predicate LeadsToParent(t: Tree, paths: map<string, NodeId>, k: NodeId)
    requires Linked(t) && k in t.nodes && k != t.root
  {
    var p, name := Parent(t, k), ParentName(t, k);
    if p != t.root && t.nodes[k].fallback.Some? then name !in paths && NearestRecorded(paths, name) == Some(p)
    else name in paths && paths[name] == p
  }

  lemma ParentPathFound(t: Tree, o: seq<NodeId>, paths: map<string, NodeId>, k: NodeId)
    requires Linked(t) && o == Preorder(t, t.root) && (forall x :: x in o <==> x in t.nodes) && PathsFor(t, o, paths)
    requires k in t.nodes && k != t.root && PlacedOk(t, k) && IsLast(t, Parent(t, k))
    ensures LeadsToParent(t, paths, k)
  {
    var p, n := Parent(t, k), t.nodes[k];
    if p != t.root && n.fallback.Some? {
      RecordedInPaths(t, o, paths, n.fallback.value);
      NearestFound(t, o, paths, n.fallback.value, p);
    } else {
      assert NodePath(t, p) == ParentName(t, k);
    }
  }

  // A node after the second pass has handled the nodes `done`.
  function Adopted(t: Tree, done: seq<NodeId>, k: NodeId): Node
    requires Linked(t) && k in t.nodes
  {
    (if k in done then t.nodes[k] else Identified(t, k)).(children := ChildrenAmong(t, done, k))
  }

  ghost predicate AfterParents(t: Tree, done: seq<NodeId>, nodes: map<NodeId, Node>)
    requires Linked(t)
  {
    && nodes.Keys == t.nodes.Keys
    && forall k :: k in t.nodes ==> nodes[k] == Adopted(t, done, k)
  }

  lemma ParentStepNext(t: Tree, o: seq<NodeId>, paths: map<string, NodeId>, done: seq<NodeId>, nodes: map<NodeId, Node>, k: NodeId)
    requires TreeOk(t) && o == Preorder(t, t.root) && (forall x :: x in o <==> x in t.nodes) && PathsFor(t, o, paths)
    requires k in t.nodes && k !in done && AfterParents(t, done, nodes)
    ensures var r := ParentStep(paths, nodes, k); r.Ok? && AfterParents(t, done + [k], r.value)
  {
    AdoptNext(t, o, paths, k, ChildrenAmong(t, done, k));
    var n := t.nodes[k].(children := ChildrenAmong(t, done, k));
    assert nodes[k] == Adopted(t, done, k);
    assert Adopt(paths, nodes[k]) == Ok(n);
    if k != t.root {
      assert t.nodes[k].parent == Some(Parent(t, k));
    }
    ParentStepStores(paths, nodes, k, n);
    StoreAdopted(t, done, nodes, k, n);
  }

  lemma ParentStepStores(paths: map<string, NodeId>, nodes: map<NodeId, Node>, k: NodeId, n: Node)
    requires k in nodes && Adopt(paths, nodes[k]) == Ok(n) && (n.parent.Some? ==> n.parent.value in nodes)
    ensures ParentStep(paths, nodes, k) == Ok(Store(nodes, k, n))
  {
  }

  function Store(nodes: map<NodeId, Node>, k: NodeId, n: Node): map<NodeId, Node>
  {
    var adopted := nodes[k := n];
    if n.parent.Some? && n.parent.value in adopted then
      adopted[n.parent.value := adopted[n.parent.value].(children := adopted[n.parent.value].children + [k])]
    else adopted
  }

  lemma StoreAdopted(t: Tree, done: seq<NodeId>, nodes: map<NodeId, Node>, k: NodeId, n: Node)
    requires Linked(t) && AfterParents(t, done, nodes) && k in t.nodes
    requires n == t.nodes[k].(children := ChildrenAmong(t, done, k))
    requires k != t.root ==> n.parent == Some(Parent(t, k))
    ensures AfterParents(t, done + [k], Store(nodes, k, n))
  {
    var after, next := Store(nodes, k, n), done + [k];
    assert after.Keys == t.nodes.Keys;
    forall x | x in t.nodes ensures after[x] == Adopted(t, next, x) {
      StoreAt(t, done, nodes, k, n, x);
    }
  }

  lemma StoreAt(t: Tree, done: seq<NodeId>, nodes: map<NodeId, Node>, k: NodeId, n: Node, x: NodeId)
    requires Linked(t) && nodes.Keys == t.nodes.Keys && k in t.nodes && x in t.nodes
    requires nodes[x] == Adopted(t, done, x)
    requires n == t.nodes[k].(children := ChildrenAmong(t, done, k))
    requires k != t.root ==> n.parent == Some(Parent(t, k))
    ensures Store(nodes, k, n)[x] == Adopted(t, done + [k], x)
  {
    NextAmong(t, done, k, x);
    var p := t.nodes[k].parent;
    assert p != Some(k) by { if k != t.root { assert Parent(t, k) != k; } }
    assert IsChildOf(t, k, x) <==> p == Some(x);
  }

  lemma NextAmong(t: Tree, done: seq<NodeId>, k: NodeId, x: NodeId)
    ensures ChildrenAmong(t, done + [k], x) == ChildrenAmong(t, done, x) + if IsChildOf(t, k, x) then [k] else []
    ensures x in done + [k] <==> x == k || x in done
  {
  }

  lemma ParentPassSnoc(paths: map<string, NodeId>, nodes: map<NodeId, Node>, keys: seq<NodeId>, n: nat)
    requires forall i :: 0 <= i < |keys| ==> keys[i] in nodes
    requires 0 < n <= |keys| && ParentPass(paths, nodes, keys[..n - 1]).Ok?
    ensures ParentPass(paths, nodes, keys[..n]) == ParentStep(paths, ParentPass(paths, nodes, keys[..n - 1]).value, keys[n - 1])
  {
    assert keys[..n][..n - 1] == keys[..n - 1];
  }

  // The node map before the second pass, and the names its paths stand for.
  ghost predicate Ready(t: Tree, o: seq<NodeId>, paths: map<string, NodeId>, nodes: map<NodeId, Node>)
    requires Linked(t)
  {
    && o == Preorder(t, t.root) && NoDuplicates(o)
    && (forall k :: k in o <==> k in t.nodes)
    && nodes.Keys == t.nodes.Keys
    && (forall k :: k in t.nodes ==> nodes[k] == Identified(t, k))
    && PathsFor(t, o, paths)
  }

  // The second pass has handled the first `n` nodes.
  ghost predicate HandledTo(t: Tree, o: seq<NodeId>, paths: map<string, NodeId>, nodes: map<NodeId, Node>, n: nat)
    requires Linked(t)
  {
    && n <= |o| && (forall i :: 0 <= i < |o| ==> o[i] in nodes)
    && ParentPass(paths, nodes, o[..n]).Ok?
    && AfterParents(t, o[..n], ParentPass(paths, nodes, o[..n]).value)
  }

  lemma {:induction false} ParentPassPrefix(t: Tree, o: seq<NodeId>, paths: map<string, NodeId>, nodes: map<NodeId, Node>, n: nat)
    requires TreeOk(t) && Ready(t, o, paths, nodes) && n <= |o|
    ensures HandledTo(t, o, paths, nodes, n)
  {
    if n == 0 {
      NoneAdopted(t, nodes);
      assert o[..0] == [];
    } else {
      ParentPassPrefix(t, o, paths, nodes, n - 1);
      FreshIn(o, n - 1);
      HandledNext(t, o, paths, nodes, n);
    }
  }

  lemma HandledNext(t: Tree, o: seq<NodeId>, paths: map<string, NodeId>, nodes: map<NodeId, Node>, n: nat)
    requires TreeOk(t) && o == Preorder(t, t.root) && (forall x :: x in o <==> x in t.nodes) && PathsFor(t, o, paths)
    requires 0 < n && HandledTo(t, o, paths, nodes, n - 1) && n <= |o| && o[n - 1] !in o[..n - 1] && o[..n] == o[..n - 1] + [o[n - 1]]
    ensures HandledTo(t, o, paths, nodes, n)
  {
    ParentPassSnoc(paths, nodes, o, n);
    ParentStepNext(t, o, paths, o[..n - 1], ParentPass(paths, nodes, o[..n - 1]).value, o[n - 1]);
  }

  lemma NoneAdopted(t: Tree, nodes: map<NodeId, Node>)
    requires Linked(t) && nodes.Keys == t.nodes.Keys && (forall k :: k in t.nodes ==> nodes[k] == Identified(t, k))
    ensures AfterParents(t, [], nodes)
  {
  }

  lemma FreshIn<T>(o: seq<T>, n: nat)
    requires NoDuplicates(o) && n < |o|
    ensures o[n] in o && o[n] !in o[..n] && o[..n + 1] == o[..n] + [o[n]]
  {
  }

  // Reading the nodes of a well-formed tree in pre-order gives back every node, with its
  // identifier, parent, fallback path and children in order, and each path names its node.
  lemma LinkRoundTrip(t: Tree)
    requires TreeOk(t) && Assigned(t)
    ensures forall x :: x in Preorder(t, t.root) <==> x in t.nodes
    ensures var r := Link(Bares(t, Preorder(t, t.root)));
      r.Ok? && r.value.nodes == t.nodes && r.value.root == Some(t.root) && PathsFor(t, Preorder(t, t.root), r.value.paths)
  {
    var o := Preorder(t, t.root);
    WholePreorder(t);
    forall i | 0 < i < |o| ensures o[i] != t.root && Before(o, i, Parent(t, o[i])) {
      assert Parent(t, o[i]) in o[..i];
    }
    PlacedPathed(t);
    WholeFinds(t);
    LinkInOrder(t, o);
  }

  lemma LinkInOrder(t: Tree, o: seq<NodeId>)
    requires TreeOk(t) && Assigned(t) && o == Preorder(t, t.root) && Visited(t, o) && FindsAncestors(t, o)
    requires forall x :: x in o <==> x in t.nodes
    requires forall p :: p in t.nodes ==> ChildrenAmong(t, o, p) == t.nodes[p].children
    ensures var r := Link(Bares(t, o));
      r.Ok? && r.value.nodes == t.nodes && r.value.root == Some(t.root) && PathsFor(t, o, r.value.paths)
  {
    IdPassWhole(t, o);
    var l := IdPass(Bares(t, o)).value;
    LinksReady(t, o, l);
    ParentPassPrefix(t, o, l.paths, l.nodes, |o|);
    assert o[..|o|] == o;
    AdoptedAll(t, o, ParentPass(l.paths, l.nodes, o).value);
  }

  lemma IdPassWhole(t: Tree, o: seq<NodeId>)
    requires WellPlaced(t) && Assigned(t) && Visited(t, o) && FindsAncestors(t, o)
    ensures IdPass(Bares(t, o)).Ok? && AfterIds(t, o, IdPass(Bares(t, o)).value)
  {
    IdPassPrefix(t, o, |o|);
    assert Bares(t, o)[..|o|] == Bares(t, o) && o[..|o|] == o;
  }

  lemma LinksReady(t: Tree, o: seq<NodeId>, l: Links)
    requires Linked(t) && o == Preorder(t, t.root) && NoDuplicates(o) && (forall x :: x in o <==> x in t.nodes) && AfterIds(t, o, l)
    ensures Ready(t, o, l.paths, l.nodes)
  {
  }

  lemma AdoptedAll(t: Tree, o: seq<NodeId>, nodes: map<NodeId, Node>)
    requires Linked(t) && AfterParents(t, o, nodes) && (forall x :: x in o <==> x in t.nodes)
    requires forall p :: p in t.nodes ==> ChildrenAmong(t, o, p) == t.nodes[p].children
    ensures nodes == t.nodes
  {
  }
}
