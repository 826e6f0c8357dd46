// The pre-order visits every node once, each after its parent, and the children of a node in
// the order of its child list.

module ScenePreorder {
  import opened Text
  import opened SceneModel
  import opened SceneTree

  predicate NoDuplicates<T(==)>(s: seq<T>)
  {
    forall i, j :: 0 <= i < j < |s| ==> s[i] != s[j]
  }

  lemma {:induction false} PreorderBelow(t: Tree, k: NodeId, x: NodeId)
    requires Linked(t) && k in t.nodes && x in Preorder(t, k)
    ensures x in t.nodes && t.depth[k] <= t.depth[x] && Above(t, x, t.depth[k]) == k
    decreases t.bound - t.depth[k], |t.nodes[k].children| + 1
  {
    if x != k {
      ForestBelow(t, k, 0, x);
    }
  }

  lemma {:induction false} ForestBelow(t: Tree, k: NodeId, i: nat, x: NodeId)
    requires Linked(t) && k in t.nodes && i <= |t.nodes[k].children| && x in Forest(t, k, i)
    ensures x in t.nodes && t.depth[k] < t.depth[x] && Above(t, x, t.depth[k]) == k
    ensures Above(t, x, t.depth[k] + 1) in t.nodes[k].children[i..]
    decreases t.bound - t.depth[k], |t.nodes[k].children| - i
  {
    var c := t.nodes[k].children[i];
    ChildDepth(t, k, i);
    if x in Preorder(t, c) {
      PreorderBelow(t, c, x);
      AboveStep(t, x, t.depth[k]);
      assert c in t.nodes[k].children[i..];
    } else {
      ForestBelow(t, k, i + 1, x);
      assert t.nodes[k].children[i + 1..] == t.nodes[k].children[i..][1..];
    }
  }

  lemma {:induction false} AboveStep(t: Tree, x: NodeId, depth: nat)
    requires Linked(t) && x in t.nodes && depth < t.depth[x]
    ensures Above(t, x, depth + 1) != t.root
    ensures Above(t, x, depth) == Parent(t, Above(t, x, depth + 1))
    decreases t.depth[x]
  {
    if t.depth[x] > depth + 1 { AboveStep(t, Parent(t, x), depth); }
  }

  lemma {:induction false} PreorderDistinct(t: Tree, k: NodeId)
    requires Linked(t) && k in t.nodes
    ensures NoDuplicates(Preorder(t, k))
    decreases t.bound - t.depth[k], |t.nodes[k].children| + 1
  {
    ForestDistinct(t, k, 0);
    forall i | 0 <= i < |Forest(t, k, 0)| ensures Forest(t, k, 0)[i] != k { ForestBelow(t, k, 0, Forest(t, k, 0)[i]); }
  }

  lemma {:induction false} ForestDistinct(t: Tree, k: NodeId, i: nat)
    requires Linked(t) && k in t.nodes && i <= |t.nodes[k].children|
    ensures NoDuplicates(Forest(t, k, i))
    decreases t.bound - t.depth[k], |t.nodes[k].children| - i
  {
    if i < |t.nodes[k].children| {
      var c := t.nodes[k].children[i];
      ChildDepth(t, k, i);
      PreorderDistinct(t, c);
      ForestDistinct(t, k, i + 1);
      forall x | x in Preorder(t, c) ensures x !in Forest(t, k, i + 1) { NotBoth(t, k, i, x); }
      ConcatDistinct(Preorder(t, c), Forest(t, k, i + 1));
    }
  }

  lemma ConcatDistinct<T>(a: seq<T>, b: seq<T>)
    requires NoDuplicates(a) && NoDuplicates(b)
    requires forall x :: x in a ==> x !in b
    ensures NoDuplicates(a + b)
  {
    forall i, j | 0 <= i < j < |a + b| ensures (a + b)[i] != (a + b)[j] {
      if i < |a| <= j { assert a[i] in a && b[j - |a|] in b; }
    }
  }

  // The parent of every node but the first stands before it.
  lemma {:induction false} PreorderParents(t: Tree, k: NodeId, j: nat)
    requires Linked(t) && k in t.nodes && 0 < j < |Preorder(t, k)|
    ensures var x := Preorder(t, k)[j]; x in t.nodes && x != t.root && Parent(t, x) in Preorder(t, k)[..j]
    decreases t.bound - t.depth[k], |t.nodes[k].children| + 1
  {
    ForestParents(t, k, 0, j - 1);
    assert Preorder(t, k)[..j] == [k] + Forest(t, k, 0)[..j - 1];
  }

  lemma {:induction false} ForestParents(t: Tree, k: NodeId, i: nat, j: nat)
    requires Linked(t) && k in t.nodes && i <= |t.nodes[k].children| && j < |Forest(t, k, i)|
    ensures var x := Forest(t, k, i)[j];
      x in t.nodes && x != t.root && (Parent(t, x) == k || Parent(t, x) in Forest(t, k, i)[..j])
    decreases t.bound - t.depth[k], |t.nodes[k].children| - i
  {
    var c := t.nodes[k].children[i];
    ChildDepth(t, k, i);
    var first, rest := Preorder(t, c), Forest(t, k, i + 1);
    if j == 0 {
    } else if j < |first| {
      PreorderParents(t, c, j);
      assert Forest(t, k, i)[..j] == first[..j];
    } else {
      ForestParents(t, k, i + 1, j - |first|);
      assert Forest(t, k, i)[..j] == first + rest[..j - |first|];
    }
  }

  // ---------- every node is visited ----------

  lemma {:induction false} PreorderClosed(t: Tree, k: NodeId, y: NodeId, c: NodeId)
    requires Linked(t) && k in t.nodes && y in Preorder(t, k) && y in t.nodes && c in t.nodes[y].children
    ensures c in Preorder(t, k)
    decreases t.bound - t.depth[k], |t.nodes[k].children| + 1
  {
    if y == k {
      var i :| 0 <= i < |t.nodes[k].children| && t.nodes[k].children[i] == c;
      ChildInForest(t, k, 0, i);
    } else {
      ForestClosed(t, k, 0, y, c);
    }
  }

  lemma {:induction false} ForestClosed(t: Tree, k: NodeId, i: nat, y: NodeId, c: NodeId)
    requires Linked(t) && k in t.nodes && i <= |t.nodes[k].children|
    requires y in Forest(t, k, i) && y in t.nodes && c in t.nodes[y].children
    ensures c in Forest(t, k, i)
    decreases t.bound - t.depth[k], |t.nodes[k].children| - i
  {
    var d := t.nodes[k].children[i];
    ChildDepth(t, k, i);
    if y in Preorder(t, d) {
      PreorderClosed(t, d, y, c);
    } else {
      ForestClosed(t, k, i + 1, y, c);
    }
  }

  lemma {:induction false} ChildInForest(t: Tree, k: NodeId, i: nat, j: nat)
    requires Linked(t) && k in t.nodes && i <= j < |t.nodes[k].children|
    ensures t.nodes[k].children[j] in Forest(t, k, i)
    decreases j - i
  {
    ChildDepth(t, k, i);
    if i == j {
      assert Preorder(t, t.nodes[k].children[i])[0] == t.nodes[k].children[i];
    } else {
      ChildInForest(t, k, i + 1, j);
    }
  }

  lemma {:induction false} PreorderCovers(t: Tree, x: NodeId)
    requires Linked(t) && x in t.nodes
    ensures x in Preorder(t, t.root)
    decreases t.depth[x]
  {
    if x != t.root {
      PreorderCovers(t, Parent(t, x));
      PreorderClosed(t, t.root, Parent(t, x), x);
    } else {
      assert Preorder(t, t.root)[0] == x;
    }
  }

  // ---------- child order ----------

  predicate IsChildOf(t: Tree, x: NodeId, p: NodeId)
  {
    x in t.nodes && t.nodes[x].parent == Some(p)
  }

  // The members of `ids` whose parent is `p`, in order.
  function ChildrenAmong(t: Tree, ids: seq<NodeId>, p: NodeId): seq<NodeId>
  {
    if ids == [] then []
    else
      var front, last := ids[..|ids| - 1], ids[|ids| - 1];
      ChildrenAmong(t, front, p) + if IsChildOf(t, last, p) then [last] else []
  }

  lemma {:induction false} ChildrenAmongConcat(t: Tree, a: seq<NodeId>, b: seq<NodeId>, p: NodeId)
    ensures ChildrenAmong(t, a + b, p) == ChildrenAmong(t, a, p) + ChildrenAmong(t, b, p)
  {
    if b == [] {
      assert a + b == a;
    } else {
      ChildrenAmongConcat(t, a, b[..|b| - 1], p);
      assert (a + b)[..|a + b| - 1] == a + b[..|b| - 1];
    }
  }

  lemma {:induction false} PreorderChildren(t: Tree, k: NodeId, p: NodeId)
    requires Linked(t) && k in t.nodes && p in t.nodes
    ensures ChildrenAmong(t, Preorder(t, k), p)
         == (if IsChildOf(t, k, p) then [k] else []) + (if p in Preorder(t, k) then t.nodes[p].children else [])
    decreases t.bound - t.depth[k], |t.nodes[k].children| + 1
  {
    ForestChildren(t, k, 0, p);
    assert t.nodes[k].children[0..] == t.nodes[k].children;
    NotInForest(t, k);
    JoinRoot(t, k, p, Forest(t, k, 0), t.nodes[p].children);
  }

  lemma JoinRoot(t: Tree, k: NodeId, p: NodeId, forest: seq<NodeId>, cs: seq<NodeId>)
    requires ChildrenAmong(t, forest, p) == (if p == k then cs else []) + (if p in forest then cs else []) && k !in forest
    ensures ChildrenAmong(t, [k] + forest, p) == (if IsChildOf(t, k, p) then [k] else []) + (if p in [k] + forest then cs else [])
  {
    ChildrenAmongConcat(t, [k], forest, p);
    SingleAmong(t, k, p);
    EitherOnce(p == k, p in forest, cs);
    assert p in [k] + forest <==> p == k || p in forest;
  }

  lemma EitherOnce(first: bool, second: bool, cs: seq<NodeId>)
    requires !(first && second)
    ensures (if first then cs else []) + (if second then cs else []) == if first || second then cs else []
  {
  }

  lemma SingleAmong(t: Tree, k: NodeId, p: NodeId)
    ensures ChildrenAmong(t, [k], p) == if IsChildOf(t, k, p) then [k] else []
  {
    assert [k][..0] == [];
  }

  lemma NotInForest(t: Tree, k: NodeId)
    requires Linked(t) && k in t.nodes
    ensures k !in Forest(t, k, 0)
  {
    if k in Forest(t, k, 0) { ForestBelow(t, k, 0, k); }
  }

  lemma {:induction false} ForestChildren(t: Tree, k: NodeId, i: nat, p: NodeId)
    requires Linked(t) && k in t.nodes && p in t.nodes && i <= |t.nodes[k].children|
    ensures ChildrenAmong(t, Forest(t, k, i), p)
         == (if p == k then t.nodes[k].children[i..] else []) + (if p in Forest(t, k, i) then t.nodes[p].children else [])
    decreases t.bound - t.depth[k], |t.nodes[k].children| - i
  {
    var cs := t.nodes[k].children;
    if i < |cs| {
      var c := cs[i];
      ChildDepth(t, k, i);
      PreorderChildren(t, c, p);
      ForestChildren(t, k, i + 1, p);
      NotBoth(t, k, i, p);
      assert IsChildOf(t, c, p) <==> p == k;
      JoinChildren(t, p, p == k, cs, i, Preorder(t, c), Forest(t, k, i + 1), t.nodes[p].children);
      assert Forest(t, k, i) == Preorder(t, c) + Forest(t, k, i + 1);
    } else {
      assert Forest(t, k, i) == [] && cs[i..] == [];
    }
  }

  lemma JoinChildren(t: Tree, p: NodeId, own: bool, siblings: seq<NodeId>, i: nat, a: seq<NodeId>, b: seq<NodeId>, cs: seq<NodeId>)
    requires i < |siblings|
    requires ChildrenAmong(t, a, p) == (if own then [siblings[i]] else []) + (if p in a then cs else [])
    requires ChildrenAmong(t, b, p) == (if own then siblings[i + 1..] else []) + (if p in b then cs else [])
    requires !(p in a && p in b) && (own ==> p !in a && p !in b)
    ensures ChildrenAmong(t, a + b, p) == (if own then siblings[i..] else []) + (if p in a + b then cs else [])
  {
    assert siblings[i..] == [siblings[i]] + siblings[i + 1..];
    ChildrenAmongConcat(t, a, b, p);
  }

  // A node lies in at most one of: the parent itself, one child's subtree, the later subtrees.
  lemma NotBoth(t: Tree, k: NodeId, i: nat, p: NodeId)
    requires Linked(t) && k in t.nodes && i < |t.nodes[k].children|
    ensures t.nodes[k].children[i] in t.nodes
    ensures !(p in Preorder(t, t.nodes[k].children[i]) && p in Forest(t, k, i + 1))
    ensures p == k ==> p !in Preorder(t, t.nodes[k].children[i]) && p !in Forest(t, k, i + 1)
  {
    ChildDepth(t, k, i);
    var c := t.nodes[k].children[i];
    var a, b := Preorder(t, c), Forest(t, k, i + 1);
    if p in a {
      PreorderBelow(t, c, p);
    }
    if p in b {
      ForestBelow(t, k, i + 1, p);
      var rest := t.nodes[k].children[i + 1..];
      assert forall j :: 0 <= j < |rest| ==> rest[j] == t.nodes[k].children[i + 1 + j];
    }
  }

  // The pre-order of the whole tree: what reading it back relies on.
  lemma WholePreorder(t: Tree)
    requires Linked(t)
    ensures var o := Preorder(t, t.root);
      && o[0] == t.root
      && NoDuplicates(o)
      && (forall x :: x in o <==> x in t.nodes)
      && (forall j :: 0 < j < |o| ==> o[j] in t.nodes && o[j] != t.root && Parent(t, o[j]) in o[..j])
      && (forall p :: p in t.nodes ==> ChildrenAmong(t, o, p) == t.nodes[p].children)
  {
    var o := Preorder(t, t.root);
    PreorderDistinct(t, t.root);
    forall x ensures x in o <==> x in t.nodes {
      if x in t.nodes { PreorderCovers(t, x); }
      if x in o { PreorderBelow(t, t.root, x); }
    }
    forall j | 0 < j < |o| ensures o[j] in t.nodes && o[j] != t.root && Parent(t, o[j]) in o[..j] {
      PreorderParents(t, t.root, j);
    }
    forall p | p in t.nodes ensures ChildrenAmong(t, o, p) == t.nodes[p].children {
      PreorderChildren(t, t.root, p);
    }
  }
}
