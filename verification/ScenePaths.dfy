// What a reader finds who records the paths of nodes in pre-order: above a node, its ancestors;
// at the end, the last node of every path.

module ScenePaths {
  import opened Text
  import opened SceneModel
  import opened SceneTree
  import opened ScenePreorder

  // ---------- the last node with a path ----------

  lemma {:induction false} LastWithConcat(t: Tree, a: seq<NodeId>, b: seq<NodeId>, path: string)
    requires Linked(t)
    ensures LastWith(t, a + b, path) == if LastWith(t, b, path).Some? then LastWith(t, b, path) else LastWith(t, a, path)
  {
    if b == [] {
      assert a + b == a;
    } else {
      var n := |b| - 1;
      LastWithConcat(t, a, b[..n], path);
      assert (a + b)[..|a + b| - 1] == a + b[..n];
    }
  }

  lemma {:induction false} LastWithMember(t: Tree, ids: seq<NodeId>, path: string)
    requires Linked(t)
    ensures var r := LastWith(t, ids, path);
      && (r.Some? ==> r.value in ids && r.value in t.nodes && NodePath(t, r.value) == path)
      && (r.None? <==> forall k :: k in ids && k in t.nodes ==> NodePath(t, k) != path)
  {
    if ids != [] { LastWithMember(t, ids[..|ids| - 1], path); }
  }

  // ---------- paths grow downwards ----------

  lemma {:induction false} NearestShorter(t: Tree, path: string, p: NodeId)
    requires Linked(t) && NearestIs(t, path, p)
    ensures p in t.nodes && |NodePath(t, p)| <= |path|
    decreases |path|
  {
    if !Recorded(t, path) { NearestShorter(t, Pop(path), p); }
  }

  lemma PathGrows(t: Tree, k: NodeId)
    requires Pathed(t) && k in t.nodes && k != t.root && Parent(t, k) != t.root
    ensures |NodePath(t, Parent(t, k))| < |NodePath(t, k)|
  {
    assert BelowOk(t, k);
    if t.nodes[k].fallback.Some? { NearestShorter(t, t.nodes[k].fallback.value, Parent(t, k)); }
  }

  lemma {:induction false} LongerBelow(t: Tree, x: NodeId, d: nat)
    requires Pathed(t) && x in t.nodes && d < t.depth[x] && Above(t, x, d) != t.root
    ensures |NodePath(t, Above(t, x, d))| < |NodePath(t, x)|
    decreases t.depth[x]
  {
    var p := Parent(t, x);
    AboveRoot(t, x, d);
    PathGrows(t, x);
    if d < t.depth[p] { LongerBelow(t, p, d); }
  }

  lemma AboveRoot(t: Tree, x: NodeId, d: nat)
    requires Linked(t) && x in t.nodes && d < t.depth[x] && Above(t, x, d) != t.root
    ensures x != t.root && Parent(t, x) != t.root
  {
  }

  lemma BelowOtherPath(t: Tree, k: NodeId, x: NodeId)
    requires Pathed(t) && k in t.nodes && x in Preorder(t, k) && x != k
    ensures x in t.nodes && NodePath(t, x) != NodePath(t, k)
  {
    ForestBelow(t, k, 0, x);
    if k == t.root { PathNotRoot(t, x); } else { LongerBelow(t, x, t.depth[k]); }
  }

  // ---------- ancestors are found ----------

  // Among `ids`, the path of every ancestor of `x` from `from` downwards leads to that ancestor.
  ghost predicate FoundAbove(t: Tree, ids: seq<NodeId>, x: NodeId, from: nat)
    requires Linked(t) && x in t.nodes
  {
    forall d: nat :: from <= d < t.depth[x] ==> LastWith(t, ids, NodePath(t, Above(t, x, d))) == Some(Above(t, x, d))
  }

  lemma FoundBehind(t: Tree, front: seq<NodeId>, ids: seq<NodeId>, x: NodeId, from: nat)
    requires Linked(t) && x in t.nodes && FoundAbove(t, ids, x, from)
    ensures FoundAbove(t, front + ids, x, from)
  {
    forall d: nat | from <= d < t.depth[x] ensures LastWith(t, front + ids, NodePath(t, Above(t, x, d))) == Some(Above(t, x, d)) {
      LastWithConcat(t, front, ids, NodePath(t, Above(t, x, d)));
    }
  }

  lemma {:induction false} PreorderFinds(t: Tree, k: NodeId, j: nat)
    requires Pathed(t) && k in t.nodes && j < |Preorder(t, k)|
    ensures Preorder(t, k)[j] in t.nodes
    ensures FoundAbove(t, Preorder(t, k)[..j], Preorder(t, k)[j], t.depth[k])
    decreases t.bound - t.depth[k], |t.nodes[k].children| + 1
  {
    if j > 0 {
      var x, rest := Preorder(t, k)[j], Forest(t, k, 0)[..j - 1];
      ForestFinds(t, k, 0, j - 1);
      assert Preorder(t, k)[..j] == [k] + rest;
      FoundBehind(t, [k], rest, x, t.depth[k] + 1);
      ForestBelow(t, k, 0, x);
      OwnPathFound(t, k, rest);
      FoundFrom(t, [k] + rest, x, t.depth[k]);
    }
  }

  lemma FoundFrom(t: Tree, ids: seq<NodeId>, x: NodeId, from: nat)
    requires Linked(t) && x in t.nodes && from < t.depth[x] && FoundAbove(t, ids, x, from + 1)
    requires LastWith(t, ids, NodePath(t, Above(t, x, from))) == Some(Above(t, x, from))
    ensures FoundAbove(t, ids, x, from)
  {
  }

  lemma OwnPathFound(t: Tree, k: NodeId, below: seq<NodeId>)
    requires Pathed(t) && k in t.nodes && forall x :: x in below ==> x in Forest(t, k, 0)
    ensures LastWith(t, [k] + below, NodePath(t, k)) == Some(k)
  {
    LastWithConcat(t, [k], below, NodePath(t, k));
    LastWithMember(t, below, NodePath(t, k));
    forall x | x in below && x in t.nodes ensures NodePath(t, x) != NodePath(t, k) {
      ForestBelow(t, k, 0, x);
      BelowOtherPath(t, k, x);
    }
  }

  lemma {:induction false} ForestFinds(t: Tree, k: NodeId, i: nat, j: nat)
    requires Pathed(t) && k in t.nodes && i <= |t.nodes[k].children| && j < |Forest(t, k, i)|
    ensures Forest(t, k, i)[j] in t.nodes
    ensures FoundAbove(t, Forest(t, k, i)[..j], Forest(t, k, i)[j], t.depth[k] + 1)
    decreases t.bound - t.depth[k], |t.nodes[k].children| - i
  {
    var c := t.nodes[k].children[i];
    ChildDepth(t, k, i);
    var first, rest := Preorder(t, c), Forest(t, k, i + 1);
    if j < |first| {
      PreorderFinds(t, c, j);
      assert Forest(t, k, i)[..j] == first[..j];
    } else {
      ForestFinds(t, k, i + 1, j - |first|);
      assert Forest(t, k, i)[..j] == first + rest[..j - |first|];
      FoundBehind(t, first, rest[..j - |first|], rest[j - |first|], t.depth[k] + 1);
    }
  }

  // In the pre-order of the whole tree, at every node the paths of its ancestors lead to them.
  ghost predicate FindsAncestors(t: Tree, o: seq<NodeId>)
    requires Linked(t)
  {
    forall i :: 0 <= i < |o| ==> o[i] in t.nodes && FoundAbove(t, o[..i], o[i], 0)
  }

  lemma WholeFinds(t: Tree)
    requires Pathed(t)
    ensures FindsAncestors(t, Preorder(t, t.root))
  {
    var o := Preorder(t, t.root);
    forall i | 0 <= i < |o| ensures o[i] in t.nodes && FoundAbove(t, o[..i], o[i], 0) { PreorderFinds(t, t.root, i); }
  }

  // ---------- distinct siblings ----------

  // Where siblings have different names every node is the last with its path.
  lemma DistinctLast(t: Tree)
    requires WellPlaced(t) && SiblingsOk(t)
    ensures TreeOk(t) && forall k :: k in t.nodes ==> IsLast(t, k)
  {
    forall k | k in t.nodes ensures IsLast(t, k) {
      var path := NodePath(t, k);
      PreorderCovers(t, k);
      LastWithMember(t, Preorder(t, t.root), path);
      PathInjective(t, LastWith(t, Preorder(t, t.root), path).value, k);
    }
  }
}
