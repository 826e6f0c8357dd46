// When linking the printed nodes of a tree gives the tree back, the tree is well placed and all
// its parents are found by path: the conditions of LinkRoundTrip cannot be weakened.

module SceneRelink {
  import opened Text
  import opened SceneModel
  import opened SceneTree
  import opened ScenePreorder
  import opened ScenePaths
  import opened SceneLinks
  import opened SceneSections
  import opened SceneLinkProof
  import opened SceneParsed

  // ---------- accepted trees ----------

  // What is true of the nodes of every tree that was parsed.
  ghost predicate FormOk(t: Tree)
    requires Linked(t)
  {
    && t.nodes[t.root].fallback == None
    && forall k :: k in t.nodes ==> NodeFormOk(t, k)
  }

  predicate NodeFormOk(t: Tree, k: NodeId)
    requires Linked(t) && k in t.nodes
  {
    var n := t.nodes[k];
    && k.id != 0 && (IsEdited(n) <==> k.rootInstance.Some?) && ArrayOk(n.parentIdPath)
    && (k != t.root && IsEdited(n) && n.fallback != Some(".") ==>
          if n.parentIdPath.Some? then k.rootInstance == n.parentIdPath else n.fallback == None)
    && (n.fallback == Some(".") ==> k != t.root && Parent(t, k) == t.root)
  }

  predicate ProperNames(t: Tree)
    requires Linked(t)
  {
    forall k :: k in t.nodes && k != t.root ==> NameOk(t, k)
  }

  lemma ParsedFormOk(t: Tree, recorded: map<NodeId, string>)
    requires Linked(t) && ParsedLinks(t.nodes, Some(t.root), recorded)
    ensures FormOk(t)
  {
    assert ParsedNode(t.nodes, recorded, t.root);
    forall k | k in t.nodes ensures NodeFormOk(t, k) {
      assert ParsedNode(t.nodes, recorded, k);
      if k != t.root {
        var p := Parent(t, k);
        assert HangsBelow(t.nodes, recorded, k, p);
        if p != t.root { assert t.nodes[p].parent.Some?; }
      }
    }
  }

  // A node's path is the one it was recorded under.
  lemma {:induction false} RecordedIsPath(t: Tree, recorded: map<NodeId, string>, k: NodeId)
    requires Linked(t) && ParsedLinks(t.nodes, Some(t.root), recorded) && ProperNames(t) && k in t.nodes
    ensures k in recorded && recorded[k] == NodePath(t, k)
    ensures k != t.root ==> NodePath(t, k) != "."
    decreases t.depth[k]
  {
    assert ParsedNode(t.nodes, recorded, k);
    if k != t.root {
      var p := Parent(t, k);
      assert HangsBelow(t.nodes, recorded, k, p) && NameOk(t, k);
      if p != t.root { assert t.nodes[p].parent.Some?; }
      RecordedIsPath(t, recorded, p);
    }
  }

  lemma {:induction false} NearestIsPath(t: Tree, recorded: map<NodeId, string>, path: string, p: NodeId)
    requires Linked(t) && recorded.Keys == t.nodes.Keys && (forall k :: k in t.nodes ==> recorded[k] == NodePath(t, k))
    requires p in t.nodes && NearestPath(recorded, path, recorded[p])
    ensures NearestIs(t, path, p)
    decreases |path|
  {
    assert InUse(recorded, path) <==> Recorded(t, path);
    if !InUse(recorded, path) { NearestIsPath(t, recorded, Pop(path), p); }
  }

  lemma ParsedPathed(t: Tree, recorded: map<NodeId, string>)
    requires Linked(t) && ParsedLinks(t.nodes, Some(t.root), recorded) && ProperNames(t)
    ensures Pathed(t)
  {
    forall k | k in t.nodes ensures recorded[k] == NodePath(t, k) { RecordedIsPath(t, recorded, k); }
    ParsedFormOk(t, recorded);
    forall k | k in t.nodes && k != t.root ensures BelowOk(t, k) {
      assert ParsedNode(t.nodes, recorded, k) && HangsBelow(t.nodes, recorded, k, Parent(t, k)) && NodeFormOk(t, k);
      if Parent(t, k) != t.root && t.nodes[k].fallback.Some? {
        var f := t.nodes[k].fallback.value;
        assert InUse(recorded, f) <==> Recorded(t, f);
        NearestIsPath(t, recorded, f, Parent(t, k));
      }
    }
  }

  // ---------- the order of children ----------

  predicate Precedes<T(==)>(s: seq<T>, a: T, b: T)
  {
    exists i, j :: 0 <= i < j < |s| && s[i] == a && s[j] == b
  }

  lemma PrecedesOnce<T>(s: seq<T>, a: T, b: T)
    requires NoDuplicates(s) && Precedes(s, a, b)
    ensures !Precedes(s, b, a)
  {
  }

  lemma PrecedesSnoc<T>(s: seq<T>, a: T, b: T)
    requires a in s
    ensures Precedes(s + [b], a, b)
  {
    var i :| 0 <= i < |s| && s[i] == a;
    assert (s + [b])[i] == a && (s + [b])[|s|] == b;
  }

  lemma PrecedesAppend<T>(s: seq<T>, rest: seq<T>, a: T, b: T)
    requires Precedes(s, a, b)
    ensures Precedes(s + rest, a, b)
  {
    var i, j :| 0 <= i < j < |s| && s[i] == a && s[j] == b;
    assert (s + rest)[i] == a && (s + rest)[j] == b;
  }

  lemma {:induction false} AmongPrecedes(t: Tree, o: seq<NodeId>, p: NodeId, i: nat, j: nat)
    requires i < j < |o| && IsChildOf(t, o[i], p) && IsChildOf(t, o[j], p)
    ensures Precedes(ChildrenAmong(t, o, p), o[i], o[j])
  {
    var n := |o| - 1;
    if j == n {
      AmongMember(t, o[..n], p, i);
      PrecedesSnoc(ChildrenAmong(t, o[..n], p), o[i], o[j]);
    } else {
      AmongPrecedes(t, o[..n], p, i, j);
      PrecedesAppend(ChildrenAmong(t, o[..n], p), if IsChildOf(t, o[n], p) then [o[n]] else [], o[i], o[j]);
    }
  }

  lemma {:induction false} AmongMember(t: Tree, o: seq<NodeId>, p: NodeId, i: nat)
    requires i < |o| && IsChildOf(t, o[i], p)
    ensures o[i] in ChildrenAmong(t, o, p)
  {
    if i < |o| - 1 { AmongMember(t, o[..|o| - 1], p, i); }
  }

  lemma {:induction false} KidsPrecede(paths: map<string, NodeId>, nodes: map<NodeId, Node>, keys: seq<NodeId>, p: NodeId, i: nat, j: nat)
    requires i < j < |keys| && HasKid(paths, nodes, keys[i], p) && HasKid(paths, nodes, keys[j], p) && NoDuplicates(keys)
    ensures Precedes(KidsOf(paths, nodes, keys, p), keys[i], keys[j])
  {
    var n := |keys| - 1;
    var front := keys[..n];
    if j == n {
      KidsMember(paths, nodes, front, p);
      assert front[i] == keys[i];
      PrecedesSnoc(KidsOf(paths, nodes, front, p), keys[i], keys[j]);
    } else {
      KidsPrecede(paths, nodes, front, p, i, j);
      PrecedesAppend(KidsOf(paths, nodes, front, p), if HasKid(paths, nodes, keys[n], p) then [keys[n]] else [], keys[i], keys[j]);
    }
  }

  // ---------- what was read for a printed node ----------

  predicate RawFor(t: Tree, k: NodeId, raw: Node)
    requires Linked(t) && k in t.nodes
  {
    && RawOk(raw) && raw.id == NodeId(k.id, None) && raw.name == t.nodes[k].name
    && IsEdited(raw) == IsEdited(t.nodes[k]) && raw.fallback == PrintedParent(t, k)
    && raw.parentIdPath == if k == t.root then None else t.nodes[k].parentIdPath
  }

  ghost predicate RawsFor(t: Tree, o: seq<NodeId>, raws: seq<Node>)
    requires Linked(t)
  {
    |raws| == |o| && forall i :: 0 <= i < |o| ==> o[i] in t.nodes && RawFor(t, o[i], raws[i])
  }

  // Linking the printed nodes in pre-order gives back the tree; `l` is the state between the passes.
  ghost predicate Relinks(t: Tree, o: seq<NodeId>, raws: seq<Node>, l: Links)
  {
    && Pathed(t) && FormOk(t) && Visited(t, o) && FindsAncestors(t, o)
    && (forall p :: p in t.nodes ==> ChildrenAmong(t, o, p) == t.nodes[p].children && NoDuplicates(t.nodes[p].children))
    && (forall x :: x in o <==> x in t.nodes) && o != []
    && RawsFor(t, o, raws) && IdPass(raws) == Ok(l) && LinkedFrom(raws, l, t.nodes)
  }

  // ---------- prefixes of the first pass ----------

  ghost predicate StartOf(l: Links, whole: Links)
  {
    && |l.keys| <= |whole.keys| && l.keys == whole.keys[..|l.keys|]
    && forall k :: k in l.nodes ==> k in whole.nodes && whole.nodes[k] == l.nodes[k]
  }

  lemma StepStart(l: Links, raw: Node)
    requires IdStep(l, raw).Ok?
    ensures StartOf(l, IdStep(l, raw).value) && |IdStep(l, raw).value.keys| == |l.keys| + 1
  {
  }

  lemma StartJoined(a: Links, b: Links, c: Links)
    requires StartOf(a, b) && StartOf(b, c)
    ensures StartOf(a, c)
  {
    assert c.keys[..|b.keys|][..|a.keys|] == c.keys[..|a.keys|];
  }

  lemma {:induction false} PassStart(raws: seq<Node>, i: nat) returns (l: Links)
    requires i <= |raws| && IdPass(raws).Ok?
    ensures IdPass(raws[..i]) == Ok(l) && StartOf(l, IdPass(raws).value)
    decreases |raws| - i
  {
    assert raws[..|raws|] == raws;
    if i == |raws| {
      l := IdPass(raws).value;
    } else {
      var next := PassStart(raws, i + 1);
      assert raws[..i + 1][..i] == raws[..i];
      l := IdPass(raws[..i]).value;
      StepStart(l, raws[i]);
      StartJoined(l, next, IdPass(raws).value);
    }
  }

  // ---------- node by node ----------

  // The first `i` nodes got their identifiers back, and hang where they did.
  ghost predicate Agree(t: Tree, o: seq<NodeId>, l: Links, i: nat)
    requires Linked(t)
  {
    && i <= |o| == |l.keys| && l.keys[..i] == o[..i]
    && AllPlaced(t, o[..i])
  }

  ghost predicate AllPlaced(t: Tree, ids: seq<NodeId>)
    requires Linked(t)
  {
    forall k :: k in ids ==> k in t.nodes && (k != t.root ==> PlacedOk(t, k))
  }

  lemma RawPath(t: Tree, k: NodeId, raw: Node)
    requires Pathed(t) && k in t.nodes && RawFor(t, k, raw) && (k != t.root ==> PlacedOk(t, k))
    ensures PathOf(raw) == NodePath(t, k)
  {
    if k != t.root { PathOfChild(t, k); }
  }

  lemma {:induction false} SameLast(t: Tree, o: seq<NodeId>, raws: seq<Node>, path: string)
    requires Pathed(t) && RawsFor(t, o, raws) && AllPlaced(t, o)
    ensures LastRecorded(raws, o, path) == LastWith(t, o, path)
  {
    if o != [] {
      var n := |o| - 1;
      FrontFor(t, o, raws, n);
      SameLast(t, o[..n], raws[..n], path);
      assert o[n] in o;
      RawPath(t, o[n], raws[n]);
    }
  }

  lemma FrontFor(t: Tree, o: seq<NodeId>, raws: seq<Node>, n: nat)
    requires Linked(t) && RawsFor(t, o, raws) && AllPlaced(t, o) && n <= |o|
    ensures RawsFor(t, o[..n], raws[..n]) && AllPlaced(t, o[..n])
  {
  }

  lemma PrefixPaths(t: Tree, o: seq<NodeId>, raws: seq<Node>, l: Links, i: nat, path: string)
    requires Pathed(t) && RawsFor(t, o, raws) && Agree(t, o, l, i)
    ensures LastRecorded(raws[..i], l.keys[..i], path) == LastWith(t, o[..i], path)
  {
    RawsForPrefix(t, o, raws, i);
    SameLast(t, o[..i], raws[..i], path);
  }

  lemma RawsForPrefix(t: Tree, o: seq<NodeId>, raws: seq<Node>, i: nat)
    requires Linked(t) && RawsFor(t, o, raws) && i <= |o|
    ensures RawsFor(t, o[..i], raws[..i])
  {
  }

  lemma TopIsRoot(t: Tree, o: seq<NodeId>, raws: seq<Node>, l: Links, i: nat, k: NodeId)
    requires Linked(t) && RawsFor(t, o, raws) && i <= |o| == |l.keys| && l.keys[..i] == o[..i] && TopAmong(raws[..i], l.keys[..i], k)
    ensures k == t.root
  {
    var j :| 0 <= j < i && l.keys[..i][j] == k && raws[..i][j].fallback == None;
    RawTop(t, o, raws, j);
    assert o[..i][j] == o[j];
  }

  lemma RawTop(t: Tree, o: seq<NodeId>, raws: seq<Node>, j: nat)
    requires Linked(t) && RawsFor(t, o, raws) && j < |o| && raws[j].fallback == None
    ensures o[j] == t.root
  {
    assert RawFor(t, o[j], raws[j]);
  }

  // Children stand in the same order in the pre-order and among the keys.
  ghost predicate SameOrder(t: Tree, o: seq<NodeId>, l: Links)
    requires Linked(t)
  {
    && NoDuplicates(o) && (forall x :: x in o <==> x in t.nodes)
    && NoDuplicates(l.keys) && (forall x :: x in l.keys <==> x in t.nodes)
    && (forall p :: p in t.nodes ==>
          NoDuplicates(t.nodes[p].children) && ChildrenAmong(t, o, p) == t.nodes[p].children == KidsOf(l.paths, l.nodes, l.keys, p))
    && (forall k, p :: k in t.nodes ==> (HasKid(l.paths, l.nodes, k, p) <==> t.nodes[k].parent == Some(p)))
  }

  lemma RelinksInOrder(t: Tree, o: seq<NodeId>, raws: seq<Node>, l: Links)
    requires Relinks(t, o, raws, l)
    ensures SameOrder(t, o, l)
  {
    forall k, p | k in t.nodes ensures HasKid(l.paths, l.nodes, k, p) <==> t.nodes[k].parent == Some(p) {
      FinalParent(raws, l, t.nodes, k, p);
    }
  }

  lemma FinalParent(raws: seq<Node>, l: Links, nodes: map<NodeId, Node>, k: NodeId, p: NodeId)
    requires LinkedFrom(raws, l, nodes) && k in nodes
    ensures HasKid(l.paths, l.nodes, k, p) <==> nodes[k].parent == Some(p)
  {
    assert k in l.keys && Adoptable(l.paths, l.nodes, k);
  }

  lemma NotBefore<T>(a: seq<T>, o: seq<T>, i: nat, m: nat)
    requires NoDuplicates(o) && i < |o| && i <= |a| && a[..i] == o[..i] && m < |a| && a[m] == o[i]
    ensures m >= i
  {
  }

  // Where the parents agree the nodes do too: among siblings the order decides.
  lemma SameParentSameKey(t: Tree, o: seq<NodeId>, l: Links, i: nat, b: NodeId)
    requires Linked(t) && SameOrder(t, o, l) && i < |o| == |l.keys| && l.keys[..i] == o[..i]
    requires b in t.nodes && o[i] in t.nodes && t.nodes[o[i]].parent == Some(b) && l.keys[i] in t.nodes && t.nodes[l.keys[i]].parent == Some(b)
    ensures l.keys[i] == o[i]
  {
    if l.keys[i] != o[i] {
      LaterKey(l, o, i, b);
      EarlierNode(t, o, l.keys, i, b);
      PrecedesOnce(t.nodes[b].children, l.keys[i], o[i]);
    }
  }

  lemma LaterKey(l: Links, o: seq<NodeId>, i: nat, b: NodeId)
    requires NoDuplicates(l.keys) && NoDuplicates(o) && i < |o| == |l.keys| && l.keys[..i] == o[..i] && l.keys[i] != o[i]
    requires o[i] in l.keys && HasKid(l.paths, l.nodes, l.keys[i], b) && HasKid(l.paths, l.nodes, o[i], b)
    ensures Precedes(KidsOf(l.paths, l.nodes, l.keys, b), l.keys[i], o[i])
  {
    var m :| 0 <= m < |l.keys| && l.keys[m] == o[i];
    NotBefore(l.keys, o, i, m);
    KidsPrecede(l.paths, l.nodes, l.keys, b, i, m);
  }

  lemma EarlierNode(t: Tree, o: seq<NodeId>, keys: seq<NodeId>, i: nat, b: NodeId)
    requires NoDuplicates(keys) && NoDuplicates(o) && i < |o| == |keys| && keys[..i] == o[..i] && keys[i] != o[i]
    requires keys[i] in o && IsChildOf(t, o[i], b) && IsChildOf(t, keys[i], b)
    ensures Precedes(ChildrenAmong(t, o, b), o[i], keys[i])
  {
    var u :| 0 <= u < |o| && o[u] == keys[i];
    NotBefore(o, keys, i, u);
    AmongPrecedes(t, o, b, i, u);
  }

  // ---------- identifiers and places ----------

  lemma ParentNameRoot(t: Tree, k: NodeId)
    requires Pathed(t) && k in t.nodes && k != t.root
    ensures ParentName(t, k) == "." <==> Parent(t, k) == t.root
    ensures ParentName(t, k) != ""
  {
    assert BelowOk(t, k);
    if Parent(t, k) != t.root { PathNotRoot(t, Parent(t, k)); }
  }

  // The node the first pass made of raw number `i`, and what became of its links.
  lemma FromRaw(t: Tree, o: seq<NodeId>, raws: seq<Node>, l: Links, i: nat)
    requires Relinks(t, o, raws, l) && i < |o|
    ensures |l.keys| == |o| && l.keys[i] in t.nodes && l.keys[i] in l.nodes && l.keys[i] != UNASSIGNED
    ensures IdentifiedFrom(raws[..i], l.keys[..i], raws[i], l.nodes[l.keys[i]]) && l.nodes[l.keys[i]].id == l.keys[i]
    ensures o[i] in t.nodes && RawFor(t, o[i], raws[i]) && NodeFormOk(t, o[i])
  {
    assert l.keys[i] in l.keys;
  }

  lemma EarlyFinal(raws: seq<Node>, l: Links, nodes: map<NodeId, Node>, k: NodeId)
    requires LinkedFrom(raws, l, nodes) && k in l.nodes && l.nodes[k].parent.Some?
    ensures k in nodes && nodes[k].parent == l.nodes[k].parent && nodes[k].fallback == l.nodes[k].fallback && nodes[k].parent.value in nodes
  {
    assert k in l.keys && Adoptable(l.paths, l.nodes, k);
  }

  lemma RootTyped(t: Tree, o: seq<NodeId>, raws: seq<Node>, l: Links)
    requires Relinks(t, o, raws, l)
    ensures !IsEdited(t.nodes[t.root])
  {
    FromRaw(t, o, raws, l, 0);
    assert o[0] == t.root;
  }

  // An edited child of the root, and an edited node that the ancestor walk identified, find
  // their parent in the first pass.
  lemma EarlyParentRight(t: Tree, o: seq<NodeId>, raws: seq<Node>, l: Links, i: nat)
    requires Relinks(t, o, raws, l) && Agree(t, o, l, i) && i < |o| && o[i] in t.nodes && o[i] != t.root && IsEdited(t.nodes[o[i]])
    requires Parent(t, o[i]) == t.root || t.nodes[o[i]].parentIdPath.None?
    ensures l.keys[i] in t.nodes && t.nodes[l.keys[i]].parent == Some(Parent(t, o[i]))
    ensures Parent(t, o[i]) == t.root ==> t.nodes[l.keys[i]].fallback == Some(".") && l.keys[i].rootInstance == Some([t.root.id])
  {
    var k, x, p := o[i], l.keys[i], Parent(t, o[i]);
    FromRaw(t, o, raws, l, i);
    ParentNameRoot(t, k);
    EarlyFinal(raws, l, t.nodes, x);
    if p == t.root {
      var r := l.nodes[x].parent.value;
      assert r != UNASSIGNED;
      TopIsRoot(t, o, raws, l, i, r);
    } else {
      WalkedParent(t, o, raws, l, i);
    }
  }

  lemma WalkedParent(t: Tree, o: seq<NodeId>, raws: seq<Node>, l: Links, i: nat)
    requires Relinks(t, o, raws, l) && Agree(t, o, l, i) && i < |o| && o[i] in t.nodes && o[i] != t.root && IsEdited(t.nodes[o[i]])
    requires Parent(t, o[i]) != t.root && t.nodes[o[i]].parentIdPath.None?
    ensures LastRecorded(raws[..i], l.keys[..i], ParentName(t, o[i])) == Some(Parent(t, o[i]))
    ensures t.nodes[o[i]].fallback == None
  {
    var k, p := o[i], Parent(t, o[i]);
    assert NodeFormOk(t, k);
    PrefixPaths(t, o, raws, l, i, ParentName(t, k));
    assert FoundAbove(t, o[..i], k, 0);
    assert Above(t, k, t.depth[p]) == p;
  }

  // Typed nodes and nodes with an instance path of their own carry their identifier in the text.
  lemma KeyInText(t: Tree, before: seq<Node>, keys: seq<NodeId>, k: NodeId, raw: Node, n: Node)
    requires Linked(t) && k in t.nodes && RawFor(t, k, raw) && NodeFormOk(t, k)
    requires |before| == |keys| && IdentifiedFrom(before, keys, raw, n)
    requires !IsEdited(t.nodes[k]) || (k != t.root && ParentName(t, k) != "." && t.nodes[k].fallback != Some(".") && t.nodes[k].parentIdPath.Some?)
    ensures n.id == k
  {
  }

  predicate SameParent(t: Tree, a: NodeId, b: NodeId)
  {
    && a in t.nodes && b in t.nodes && t.nodes[a].parent == t.nodes[b].parent
    && t.nodes[a].parent.Some? && t.nodes[a].parent.value in t.nodes
  }

  // The identifier, or else the parent, comes out of the first pass.
  predicate Early(t: Tree, k: NodeId)
    requires Linked(t) && k in t.nodes
  {
    IsEdited(t.nodes[k]) && k != t.root && (Parent(t, k) == t.root || t.nodes[k].parentIdPath.None?)
  }

  lemma KeyGiven(t: Tree, o: seq<NodeId>, raws: seq<Node>, l: Links, i: nat)
    requires Relinks(t, o, raws, l) && i < |o| && o[i] in t.nodes && !Early(t, o[i])
    ensures i < |l.keys| && l.keys[i] == o[i]
  {
    FromRaw(t, o, raws, l, i);
    RootTyped(t, o, raws, l);
    if IsEdited(t.nodes[o[i]]) { ParentNameRoot(t, o[i]); }
    KeyInText(t, raws[..i], l.keys[..i], o[i], raws[i], l.nodes[l.keys[i]]);
  }

  lemma KeyEarly(t: Tree, o: seq<NodeId>, raws: seq<Node>, l: Links, i: nat)
    requires Relinks(t, o, raws, l) && Agree(t, o, l, i) && i < |o| && o[i] in t.nodes && Early(t, o[i])
    ensures i < |l.keys| && SameParent(t, l.keys[i], o[i])
  {
    EarlyParentRight(t, o, raws, l, i);
    ParentGiven(t, o[i]);
  }

  lemma ParentGiven(t: Tree, k: NodeId)
    requires Linked(t) && k in t.nodes && k != t.root
    ensures t.nodes[k].parent == Some(Parent(t, k))
  {
  }

  lemma OrderDecides(t: Tree, o: seq<NodeId>, raws: seq<Node>, l: Links, i: nat)
    requires Relinks(t, o, raws, l) && i < |o| == |l.keys| && l.keys[..i] == o[..i] && SameParent(t, l.keys[i], o[i])
    ensures l.keys[i] == o[i]
  {
    RelinksInOrder(t, o, raws, l);
    SameParentSameKey(t, o, l, i, t.nodes[o[i]].parent.value);
  }

  lemma KeyAt(t: Tree, o: seq<NodeId>, raws: seq<Node>, l: Links, i: nat)
    requires Relinks(t, o, raws, l) && Agree(t, o, l, i) && i < |o|
    ensures i < |l.keys| && l.keys[i] == o[i]
  {
    assert o[i] in t.nodes;
    if Early(t, o[i]) {
      KeyEarly(t, o, raws, l, i);
      OrderDecides(t, o, raws, l, i);
    } else {
      KeyGiven(t, o, raws, l, i);
    }
  }

  lemma PlacedAt(t: Tree, o: seq<NodeId>, raws: seq<Node>, l: Links, i: nat)
    requires Relinks(t, o, raws, l) && Agree(t, o, l, i) && i < |o| && l.keys[i] == o[i] && o[i] in t.nodes && o[i] != t.root
    ensures PlacedOk(t, o[i])
  {
    var k := o[i];
    assert BelowOk(t, k);
    if Parent(t, k) == t.root {
      if IsEdited(t.nodes[k]) {
        EarlyParentRight(t, o, raws, l, i);
      } else {
        FromRaw(t, o, raws, l, i);
        RootRecorded(t, o, raws, l);
        AdoptedParent(raws, l, t.nodes, i);
      }
    }
  }

  lemma RootRecorded(t: Tree, o: seq<NodeId>, raws: seq<Node>, l: Links)
    requires Relinks(t, o, raws, l)
    ensures "." in l.paths
  {
    FromRaw(t, o, raws, l, 0);
    FirstRecorded(raws, l);
  }

  lemma FirstRecorded(raws: seq<Node>, l: Links)
    requires AfterIdPass(raws, l) && raws != [] && raws[0].fallback == None
    ensures "." in l.paths
  {
    assert PathOf(raws[0]) == ".";
    LastRecordedIs(raws, l.keys, ".");
  }

  lemma {:induction false} AllAgree(t: Tree, o: seq<NodeId>, raws: seq<Node>, l: Links, i: nat)
    requires Relinks(t, o, raws, l) && i <= |o|
    ensures Agree(t, o, l, i)
  {
    if i > 0 {
      AllAgree(t, o, raws, l, i - 1);
      NextAgrees(t, o, raws, l, i - 1);
    } else {
      FromRaw(t, o, raws, l, 0);
    }
  }

  lemma NextAgrees(t: Tree, o: seq<NodeId>, raws: seq<Node>, l: Links, i: nat)
    requires Relinks(t, o, raws, l) && Agree(t, o, l, i) && i < |o|
    ensures Agree(t, o, l, i + 1)
  {
    KeyAt(t, o, raws, l, i);
    FromRaw(t, o, raws, l, i);
    if o[i] != t.root { PlacedAt(t, o, raws, l, i); }
    AgreeNext(t, o, l, i);
  }

  lemma AgreeNext(t: Tree, o: seq<NodeId>, l: Links, i: nat)
    requires Linked(t) && Agree(t, o, l, i) && i < |o| && l.keys[i] == o[i] && o[i] in t.nodes && (o[i] != t.root ==> PlacedOk(t, o[i]))
    ensures Agree(t, o, l, i + 1)
  {
    assert l.keys[..i + 1] == l.keys[..i] + [l.keys[i]] && o[..i + 1] == o[..i] + [o[i]];
  }

  // ---------- the whole tree ----------

  lemma PathsAgree(t: Tree, o: seq<NodeId>, raws: seq<Node>, keys: seq<NodeId>, paths: map<string, NodeId>)
    requires Pathed(t) && RawsFor(t, o, raws) && keys == o && PathsOf(raws, keys, paths) && AllPlaced(t, o)
    ensures PathsFor(t, o, paths)
  {
    forall path ensures LastWith(t, o, path) == if path in paths then Some(paths[path]) else None {
      SameLast(t, o, raws, path);
    }
  }

  lemma KindStays(raws: seq<Node>, l: Links, nodes: map<NodeId, Node>, k: NodeId)
    requires LinkedFrom(raws, l, nodes) && k in l.nodes
    ensures k in nodes && l.nodes[k].kind == nodes[k].kind && l.nodes[k].id == k
  {
    PlacedContent(l.paths, l.nodes, l.keys, nodes, k);
    assert k in l.keys;
    var i :| 0 <= i < |l.keys| && l.keys[i] == k;
    IdentifiedNode(raws, l, i);
  }

  lemma PrefixWalkable(t: Tree, o: seq<NodeId>, raws: seq<Node>, l: Links, i: nat, before: Links)
    requires Relinks(t, o, raws, l) && Agree(t, o, l, i) && StateAt(raws, l, i, before)
    ensures Walkable(t, o[..i], before)
  {
    assert before.keys == o[..i];
    RawsForPrefix(t, o, raws, i);
    PathsAgree(t, o[..i], raws[..i], before.keys, before.paths);
    forall k | k in o[..i] ensures k in before.nodes && before.nodes[k].id == k && before.nodes[k].kind == t.nodes[k].kind {
      KindStays(raws, l, t.nodes, k);
    }
    WalkableFrom(t, o[..i], before);
  }

  lemma WalkableFrom(t: Tree, ids: seq<NodeId>, l: Links)
    requires Linked(t) && AllPlaced(t, ids) && PathsFor(t, ids, l.paths)
    requires forall k :: k in ids ==> k in t.nodes && k in l.nodes && l.nodes[k].id == k && l.nodes[k].kind == t.nodes[k].kind
    ensures Walkable(t, ids, l)
  {
  }

  // The state of the first pass after the first `i` nodes.
  ghost predicate StateAt(raws: seq<Node>, l: Links, i: nat, before: Links)
  {
    && i <= |raws| && StartOf(before, l) && |before.keys| == i && PathsOf(raws[..i], before.keys, before.paths)
    && forall k :: k in before.keys ==> k in before.nodes
  }

  lemma RawsPrefix(raws: seq<Node>, i: nat)
    requires RawsOk(raws) && i <= |raws|
    ensures RawsOk(raws[..i])
  {
  }

  lemma StateFrom(raws: seq<Node>, l: Links, i: nat) returns (before: Links)
    requires RawsOk(raws) && IdPass(raws) == Ok(l) && i <= |raws|
    ensures IdPass(raws[..i]) == Ok(before) && StateAt(raws, l, i, before)
  {
    before := PassStart(raws, i);
    RawsPrefix(raws, i);
    IdPassGives(raws[..i]);
  }

  // Before a walked node the pass has handled what stands before it.
  lemma StateBefore(raws: seq<Node>, l: Links, i: nat) returns (before: Links)
    requires RawsOk(raws) && IdPass(raws) == Ok(l) && i < |raws|
    ensures StateAt(raws, l, i, before) && i < |l.keys|
    ensures Identify(before, raws[i]).Ok? && Identify(before, raws[i]).value.id == l.keys[i]
  {
    before := StateFrom(raws, l, i);
    var next := PassStart(raws, i + 1);
    assert raws[..i + 1][..i] == raws[..i];
    StepKey(before, raws[i], next, l);
  }

  lemma StepKey(before: Links, raw: Node, next: Links, l: Links)
    requires IdStep(before, raw) == Ok(next) && StartOf(next, l)
    ensures Identify(before, raw).Ok? && |before.keys| < |l.keys| && Identify(before, raw).value.id == l.keys[|before.keys|]
  {
    assert next.keys == before.keys + [Identify(before, raw).value.id];
    assert next.keys[|before.keys|] == l.keys[|before.keys|];
  }

  lemma WalkedId(t: Tree, o: seq<NodeId>, raws: seq<Node>, l: Links, i: nat)
    requires Relinks(t, o, raws, l) && Agree(t, o, l, i) && i < |o| && l.keys[i] == o[i] && o[i] in t.nodes && o[i] != t.root
    requires IsEdited(t.nodes[o[i]]) && Parent(t, o[i]) != t.root && t.nodes[o[i]].parentIdPath.None?
    ensures InstancePath(t, Parent(t, o[i]), []) == o[i].rootInstance
  {
    var k, p := o[i], Parent(t, o[i]);
    var before := StateBefore(raws, l, i);
    FromRaw(t, o, raws, l, i);
    ParentNameRoot(t, k);
    WalkedParent(t, o, raws, l, i);
    PrefixWalkable(t, o, raws, l, i, before);
    WalkGives(t, o[..i], before, k, raws[i]);
  }

  lemma WalkGives(t: Tree, ids: seq<NodeId>, l: Links, k: NodeId, raw: Node)
    requires Pathed(t) && Walkable(t, ids, l) && k in t.nodes && k != t.root && Parent(t, k) != t.root && FoundAbove(t, ids, k, 0)
    requires RawFor(t, k, raw) && IsEdited(raw) && raw.parentIdPath == None && t.nodes[k].fallback == None && ParentName(t, k) != "."
    requires Identify(l, raw).Ok?
    ensures Identify(l, raw).value.id.rootInstance == InstancePath(t, Parent(t, k), [])
  {
    var p := Parent(t, k);
    ParentNameRoot(t, k);
    assert Above(t, k, t.depth[p]) == p;
    WalkUp(t, ids, l, k, t.depth[p], Ancestry(None, []));
  }

  lemma IdentifierAt(t: Tree, o: seq<NodeId>, raws: seq<Node>, l: Links, i: nat)
    requires Relinks(t, o, raws, l) && Agree(t, o, l, i) && i < |o| && i < |l.keys| && l.keys[i] == o[i] && o[i] in t.nodes && o[i] != t.root
    ensures IdentifierOk(t, o[i])
  {
    FromRaw(t, o, raws, l, i);
    if IsEdited(t.nodes[o[i]]) {
      if Parent(t, o[i]) == t.root {
        EarlyParentRight(t, o, raws, l, i);
      } else if t.nodes[o[i]].parentIdPath.None? {
        WalkedParent(t, o, raws, l, i);
        WalkedId(t, o, raws, l, i);
      }
    }
  }

  lemma {:induction false} NearestIsRecorded(paths: map<string, NodeId>, path: string)
    ensures NearestRecorded(paths, path).Some? ==> exists q :: q in paths && paths[q] == NearestRecorded(paths, path).value
    decreases |path|
  {
    if path != "" && path !in paths { NearestIsRecorded(paths, Pop(path)); }
  }

  lemma RecordedLast(t: Tree, o: seq<NodeId>, paths: map<string, NodeId>, p: NodeId)
    requires Linked(t) && o == Preorder(t, t.root) && PathsFor(t, o, paths) && p in t.nodes && exists q :: q in paths && paths[q] == p
    ensures IsLast(t, p)
  {
    var q :| q in paths && paths[q] == p;
    assert LastWith(t, o, q) == Some(p);
    LastWithMember(t, o, q);
  }

  // A parent that is looked up by path was recorded last under its path.
  lemma ParentLastAt(t: Tree, o: seq<NodeId>, raws: seq<Node>, l: Links, i: nat)
    requires Relinks(t, o, raws, l) && i < |o| && i < |l.keys| && l.keys[i] == o[i] && o[i] in t.nodes && o[i] != t.root && ByPath(t, o[i])
    requires o == Preorder(t, t.root) && PathsFor(t, o, l.paths)
    ensures IsLast(t, Parent(t, o[i]))
  {
    FromRaw(t, o, raws, l, i);
    ParentNameRoot(t, o[i]);
    AdoptedParent(raws, l, t.nodes, i);
    NearestIsRecorded(l.paths, ParentName(t, o[i]));
    RecordedLast(t, o, l.paths, Parent(t, o[i]));
  }

  lemma RootFromText(t: Tree, o: seq<NodeId>, raws: seq<Node>, l: Links)
    requires Relinks(t, o, raws, l) && |l.keys| == |o| && l.keys[0] == o[0]
    ensures RootOk(t)
  {
    RootTyped(t, o, raws, l);
    FromRaw(t, o, raws, l, 0);
    ContentStays(raws, l, t.nodes, 0);
    assert o[0] == t.root && NodeFormOk(t, t.root);
  }

  lemma KeysRight(t: Tree, raws: seq<Node>, l: Links)
    requires Linked(t) && Relinks(t, Preorder(t, t.root), raws, l)
    ensures l.keys == Preorder(t, t.root) && PathsFor(t, Preorder(t, t.root), l.paths)
  {
    var o := Preorder(t, t.root);
    AllAgree(t, o, raws, l, |o|);
    AgreeWhole(t, o, l);
    PathsAgree(t, o, raws, l.keys, l.paths);
  }

  lemma AgreeWhole(t: Tree, o: seq<NodeId>, l: Links)
    requires Linked(t) && Agree(t, o, l, |o|)
    ensures l.keys == o && AllPlaced(t, o)
  {
    assert o[..|o|] == o && l.keys[..|o|] == l.keys;
  }

  lemma AllPlacedRight(t: Tree, raws: seq<Node>, l: Links)
    requires Linked(t) && Relinks(t, Preorder(t, t.root), raws, l) && l.keys == Preorder(t, t.root)
    ensures forall k :: k in t.nodes && k != t.root ==> PlacedOk(t, k) && IdentifierOk(t, k)
  {
    forall k | k in t.nodes && k != t.root ensures PlacedOk(t, k) && IdentifierOk(t, k) { PlacedRight(t, raws, l, k); }
  }

  lemma AllParentsLast(t: Tree, raws: seq<Node>, l: Links)
    requires Linked(t) && Relinks(t, Preorder(t, t.root), raws, l) && l.keys == Preorder(t, t.root)
    requires PathsFor(t, Preorder(t, t.root), l.paths)
    ensures ParentsLast(t)
  {
    var o := Preorder(t, t.root);
    forall k | k in t.nodes && k != t.root && ByPath(t, k) ensures IsLast(t, Parent(t, k)) {
      var i :| 0 <= i < |o| && o[i] == k;
      ParentLastAt(t, o, raws, l, i);
    }
  }

  lemma PathedNames(t: Tree)
    requires Pathed(t) && RootOk(t) && ParentsLast(t)
    requires forall k :: k in t.nodes && k != t.root ==> PlacedOk(t, k) && IdentifierOk(t, k)
    ensures TreeOk(t)
  {
  }

  // Only trees that are well placed come back.
  lemma RelinksExactly(t: Tree, raws: seq<Node>, l: Links)
    requires Linked(t) && Relinks(t, Preorder(t, t.root), raws, l)
    ensures TreeOk(t)
    ensures l.keys == Preorder(t, t.root) && PathsFor(t, Preorder(t, t.root), l.paths)
  {
    KeysRight(t, raws, l);
    RootFromText(t, Preorder(t, t.root), raws, l);
    AllPlacedRight(t, raws, l);
    AllParentsLast(t, raws, l);
    PathedNames(t);
  }

  lemma PlacedRight(t: Tree, raws: seq<Node>, l: Links, k: NodeId)
    requires Linked(t) && Relinks(t, Preorder(t, t.root), raws, l) && l.keys == Preorder(t, t.root) && k in t.nodes && k != t.root
    ensures PlacedOk(t, k) && IdentifierOk(t, k)
  {
    var o := Preorder(t, t.root);
    var i :| 0 <= i < |o| && o[i] == k;
    AllAgree(t, o, raws, l, i);
    PlacedAt(t, o, raws, l, i);
    IdentifierAt(t, o, raws, l, i);
  }
}
