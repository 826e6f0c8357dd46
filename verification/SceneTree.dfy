// The node tree of a scene: well-formedness, node paths, and the pre-order the printer uses.

module SceneTree {
  import opened Text
  import opened SceneModel

  // The nodes of a scene together with a depth for each of them. `depth` and `bound` only
  // witness that the tree is finite and rooted; they appear in no result.
  datatype Tree = Tree(nodes: map<NodeId, Node>, root: NodeId, depth: map<NodeId, nat>, bound: nat)

  // Parent links and child lists describe the same finite rooted tree.
  ghost predicate Linked(t: Tree)
  {
    && t.root in t.nodes
    && t.nodes[t.root].parent == None
    && t.depth.Keys == t.nodes.Keys && t.depth[t.root] == 0
    && (forall k :: k in t.nodes ==> t.nodes[k].id == k && t.depth[k] <= t.bound)
    && (forall k :: k in t.nodes && k != t.root ==> HasParent(t, k))
    && (forall k, i :: k in t.nodes && 0 <= i < |t.nodes[k].children| ==> HasChild(t, k, t.nodes[k].children[i]))
    && (forall k, i, j :: k in t.nodes && 0 <= i < j < |t.nodes[k].children| ==> t.nodes[k].children[i] != t.nodes[k].children[j])
  }

  predicate HasParent(t: Tree, k: NodeId)
    requires k in t.nodes && t.depth.Keys == t.nodes.Keys
  {
    var p := t.nodes[k].parent;
    && p.Some? && p.value in t.nodes
    && t.depth[k] == t.depth[p.value] + 1
    && k in t.nodes[p.value].children
  }

  predicate HasChild(t: Tree, k: NodeId, c: NodeId)
  {
    c in t.nodes && t.nodes[c].parent == Some(k)
  }

  function Parent(t: Tree, k: NodeId): (p: NodeId)
    requires Linked(t) && k in t.nodes && k != t.root
    ensures p in t.nodes && t.depth[k] == t.depth[p] + 1 && k in t.nodes[p].children
  {
    assert HasParent(t, k);
    t.nodes[k].parent.value
  }

  // ---------- paths ----------

  // What get_node_path computes, following the parent links.
  function NodePath(t: Tree, k: NodeId): string
    requires Linked(t) && k in t.nodes
    decreases t.depth[k]
  {
    if k == t.root then "."
    else
      var n := t.nodes[k];
      if n.fallback.Some? then
        if n.fallback.value == "." then n.name else n.fallback.value + "/" + n.name
      else if Parent(t, k) == t.root then n.name
      else NodePath(t, Parent(t, k)) + "/" + n.name
  }

  // The parent attribute the printer writes for a node.
  function ParentName(t: Tree, k: NodeId): string
    requires Linked(t) && k in t.nodes && k != t.root
  {
    if Parent(t, k) == t.root then "."
    else
      match t.nodes[k].fallback
      case Some(f) => f
      case None => NodePath(t, Parent(t, k))
  }

  function PrintedParent(t: Tree, k: NodeId): Option<string>
    requires Linked(t) && k in t.nodes
  {
    if k == t.root then None else Some(ParentName(t, k))
  }

  function Under(parent: string, name: string): string
  {
    if parent == "." then name else parent + "/" + name
  }

  ghost predicate Recorded(t: Tree, path: string)
    requires Linked(t)
  {
    exists k :: k in t.nodes && NodePath(t, k) == path
  }

  // The longest recorded prefix of `path` belongs to `p`.
  ghost predicate NearestIs(t: Tree, path: string, p: NodeId)
    requires Linked(t)
    decreases |path|
  {
    && path != ""
    && if Recorded(t, path) then p in t.nodes && NodePath(t, p) == path else NearestIs(t, Pop(path), p)
  }

  // The instance path of an edited node below a recorded parent: walking up from `k`, the
  // numbers of the instanced nodes, continued by the path of the first ancestor that has one.
  // None: an ancestor's prefix is not recorded, and the parser's loop never ends.
  function InstancePath(t: Tree, k: NodeId, below: seq<int>): Option<seq<int>>
    requires Linked(t) && k in t.nodes && k != t.root
    decreases t.depth[k]
  {
    var n := t.nodes[k];
    match k.rootInstance
    case Some(path) => Some(PrependMissing(path, [k.id] + below))
    case None =>
      var ids := if n.kind.Some? && n.kind.value.Instance? then [k.id] + below else below;
      if Parent(t, k) == t.root then Some(ids)
      else if n.fallback.Some? then None
      else InstancePath(t, Parent(t, k), ids)
  }

  // Puts the members of `path` in front, last one first, skipping those already there.
  function PrependMissing(path: seq<int>, ids: seq<int>): seq<int>
  {
    if path == [] then ids
    else
      var last := path[|path| - 1];
      PrependMissing(path[..|path| - 1], if last in ids then ids else [last] + ids)
  }

  // ---------- well-formed trees ----------

  predicate RootOk(t: Tree)
    requires t.root in t.nodes
  {
    var n := t.nodes[t.root];
    n.kind.Some? && t.root.rootInstance == None && n.fallback == None && n.parentIdPath == None
  }

  predicate NameOk(t: Tree, k: NodeId)
    requires k in t.nodes
  {
    var n := t.nodes[k];
    n.name != "" && Lacks(n.name, '/') && (n.parent == Some(t.root) ==> n.name != ".")
  }

  // A node names its parent by path; the path is either that of the parent, or the path of an
  // unrecorded node inside an instanced scene, whose nearest recorded ancestor is the parent.
  ghost predicate PlacedOk(t: Tree, k: NodeId)
    requires Linked(t) && k in t.nodes && k != t.root
  {
    var n := t.nodes[k];
    if Parent(t, k) == t.root then n.fallback == if IsEdited(n) then Some(".") else None
    else match n.fallback
      case None => true
      case Some(f) => f != "." && !Recorded(t, f) && NearestIs(t, f, Parent(t, k))
  }

  ghost predicate IdentifierOk(t: Tree, k: NodeId)
    requires Linked(t) && k in t.nodes && k != t.root
  {
    var n := t.nodes[k];
    if !IsEdited(n) then k.rootInstance == None
    else if Parent(t, k) == t.root then k.rootInstance == Some([t.root.id])
    else if n.parentIdPath.Some? then n.parentIdPath != Some([]) && k.rootInstance == n.parentIdPath
    else n.fallback == None && k.rootInstance.Some? && InstancePath(t, Parent(t, k), []) == k.rootInstance
  }

  // Siblings printed under the same parent path have different names.
  ghost predicate SiblingsOk(t: Tree)
    requires Linked(t)
  {
    forall a, b :: (a in t.nodes && b in t.nodes && a != t.root && b != t.root && a != b
                    && Parent(t, a) == Parent(t, b) && ParentName(t, a) == ParentName(t, b))
                   ==> t.nodes[a].name != t.nodes[b].name
  }

  ghost predicate WellPlaced(t: Tree)
  {
    && Linked(t)
    && RootOk(t)
    && (forall k :: k in t.nodes && k != t.root ==> NameOk(t, k) && PlacedOk(t, k) && IdentifierOk(t, k))
  }

  ghost predicate BelowOk(t: Tree, k: NodeId)
    requires Linked(t) && k in t.nodes && k != t.root
  {
    var n := t.nodes[k];
    Parent(t, k) != t.root && n.fallback.Some? ==>
      n.fallback.value != "." && !Recorded(t, n.fallback.value) && NearestIs(t, n.fallback.value, Parent(t, k))
  }

  // Names as the editor allows them, and fallbacks as the parser leaves them below the root's children.
  ghost predicate Pathed(t: Tree)
  {
    Linked(t) && forall k :: k in t.nodes && k != t.root ==> NameOk(t, k) && BelowOk(t, k)
  }

  // The last of `ids` with this path: what a reader finds who records the paths in this order.
  function LastWith(t: Tree, ids: seq<NodeId>, path: string): Option<NodeId>
    requires Linked(t)
  {
    if ids == [] then None
    else
      var n := |ids| - 1;
      if ids[n] in t.nodes && NodePath(t, ids[n]) == path then Some(ids[n]) else LastWith(t, ids[..n], path)
  }

  ghost predicate IsLast(t: Tree, k: NodeId)
    requires Linked(t) && k in t.nodes
  {
    LastWith(t, Preorder(t, t.root), NodePath(t, k)) == Some(k)
  }

  // The parser looks the parent up by path once all paths are recorded.
  predicate ByPath(t: Tree, k: NodeId)
    requires Linked(t) && k in t.nodes && k != t.root
  {
    !IsEdited(t.nodes[k]) || (Parent(t, k) != t.root && t.nodes[k].parentIdPath.Some?)
  }

  ghost predicate ParentsLast(t: Tree)
    requires Linked(t)
  {
    forall k :: k in t.nodes && k != t.root && ByPath(t, k) ==> IsLast(t, Parent(t, k))
  }

  // A tree that printing and parsing gives back.
  ghost predicate TreeOk(t: Tree)
  {
    WellPlaced(t) && ParentsLast(t)
  }

  // ---------- paths identify nodes ----------

  lemma PlacedPathed(t: Tree)
    requires WellPlaced(t)
    ensures Pathed(t)
  {
    forall k | k in t.nodes && k != t.root ensures NameOk(t, k) && BelowOk(t, k) { assert PlacedOk(t, k); }
  }

  lemma PathNotRoot(t: Tree, k: NodeId)
    requires Pathed(t) && k in t.nodes && k != t.root
    ensures NodePath(t, k) != "." && NodePath(t, k) != ""
  {
    assert NameOk(t, k) && BelowOk(t, k);
  }

  lemma PathOfChild(t: Tree, k: NodeId)
    requires Pathed(t) && k in t.nodes && k != t.root && PlacedOk(t, k)
    ensures NodePath(t, k) == Under(ParentName(t, k), t.nodes[k].name)
  {
    var p := Parent(t, k);
    if p != t.root { PathNotRoot(t, p); }
  }

  lemma ParentNameOf(t: Tree, k: NodeId)
    requires Pathed(t) && k in t.nodes && k != t.root && PlacedOk(t, k)
    ensures ParentName(t, k) == "." <==> Parent(t, k) == t.root
    ensures ParentName(t, k) != ""
    ensures Pop(NodePath(t, k)) == if ParentName(t, k) == "." then "" else ParentName(t, k)
  {
    var p, name := Parent(t, k), t.nodes[k].name;
    PathOfChild(t, k);
    assert NameOk(t, k);
    if p == t.root {
      PopName(name);
    } else {
      PathNotRoot(t, p);
      PopChild(ParentName(t, k), name);
    }
  }

  // Two printed names under two parent paths agree only when both parts agree.
  lemma UnderInjective(a: string, m: string, b: string, n: string)
    requires Under(a, m) == Under(b, n)
    requires Lacks(m, '/') && Lacks(n, '/')
    ensures a == b && m == n
  {
    HasSlash(a, m);
    HasSlash(b, n);
    PopChild(a, m);
    PopChild(b, n);
    assert (a + "/" + m)[|a| + 1..] == m && (b + "/" + n)[|b| + 1..] == n;
  }

  lemma HasSlash(parent: string, name: string)
    ensures !Lacks(parent + "/" + name, '/')
  {
    assert (parent + "/" + name)[|parent|] == '/';
  }

  lemma {:induction false} NearestSamePath(t: Tree, path: string, p: NodeId, q: NodeId)
    requires Linked(t) && NearestIs(t, path, p) && NearestIs(t, path, q)
    ensures p in t.nodes && q in t.nodes && NodePath(t, p) == NodePath(t, q)
    decreases |path|
  {
    if !Recorded(t, path) { NearestSamePath(t, Pop(path), p, q); }
  }

  // Where siblings have different names, node paths are injective: a path names at most one node.
  lemma {:induction false} PathInjective(t: Tree, a: NodeId, b: NodeId)
    requires WellPlaced(t) && SiblingsOk(t) && a in t.nodes && b in t.nodes && NodePath(t, a) == NodePath(t, b)
    ensures a == b
    decreases t.depth[a]
  {
    PlacedPathed(t);
    if a != t.root { PathNotRoot(t, a); }
    if b != t.root { PathNotRoot(t, b); }
    if a != t.root && b != t.root {
      SamePathNames(t, a, b);
      if Parent(t, a) != t.root {
        SameParentPath(t, a, b);
        PathInjective(t, Parent(t, a), Parent(t, b));
      }
    }
  }

  lemma SamePathNames(t: Tree, a: NodeId, b: NodeId)
    requires WellPlaced(t) && Pathed(t) && a in t.nodes && b in t.nodes && a != t.root && b != t.root
    requires NodePath(t, a) == NodePath(t, b)
    ensures ParentName(t, a) == ParentName(t, b) && t.nodes[a].name == t.nodes[b].name
    ensures Parent(t, a) == t.root <==> Parent(t, b) == t.root
  {
    assert NameOk(t, a) && NameOk(t, b) && PlacedOk(t, a) && PlacedOk(t, b);
    PathOfChild(t, a);
    PathOfChild(t, b);
    UnderInjective(ParentName(t, a), t.nodes[a].name, ParentName(t, b), t.nodes[b].name);
    ParentNameOf(t, a);
    ParentNameOf(t, b);
  }

  lemma SameParentPath(t: Tree, a: NodeId, b: NodeId)
    requires WellPlaced(t) && a in t.nodes && b in t.nodes && a != t.root && b != t.root
    requires Parent(t, a) != t.root && Parent(t, b) != t.root && ParentName(t, a) == ParentName(t, b)
    ensures NodePath(t, Parent(t, a)) == NodePath(t, Parent(t, b))
  {
    assert PlacedOk(t, a) && PlacedOk(t, b);
    RecordedPath(t, Parent(t, a));
    RecordedPath(t, Parent(t, b));
    if t.nodes[a].fallback.Some? {
      NearestSamePath(t, t.nodes[a].fallback.value, Parent(t, a), Parent(t, b));
    }
  }

  lemma RecordedPath(t: Tree, k: NodeId)
    requires Linked(t) && k in t.nodes
    ensures Recorded(t, NodePath(t, k))
  {
  }

  // ---------- pre-order ----------

  function Preorder(t: Tree, k: NodeId): seq<NodeId>
    requires Linked(t) && k in t.nodes
    decreases t.bound - t.depth[k], |t.nodes[k].children| + 1
  {
    [k] + Forest(t, k, 0)
  }

  // The subtrees of the children of `k` from number `i` on.
  function Forest(t: Tree, k: NodeId, i: nat): seq<NodeId>
    requires Linked(t) && k in t.nodes && i <= |t.nodes[k].children|
    decreases t.bound - t.depth[k], |t.nodes[k].children| - i
  {
    if i == |t.nodes[k].children| then []
    else
      var c := t.nodes[k].children[i];
      assert HasChild(t, k, c) && Parent(t, c) == k;
      Preorder(t, c) + Forest(t, k, i + 1)
  }

  lemma ChildDepth(t: Tree, k: NodeId, i: nat)
    requires Linked(t) && k in t.nodes && i < |t.nodes[k].children|
    ensures var c := t.nodes[k].children[i];
      c in t.nodes && c != t.root && Parent(t, c) == k && t.depth[c] == t.depth[k] + 1
  {
  }

  // The ancestor of `x` at a given depth.
  function Above(t: Tree, x: NodeId, depth: nat): (a: NodeId)
    requires Linked(t) && x in t.nodes && depth <= t.depth[x]
    ensures a in t.nodes && t.depth[a] == depth
    decreases t.depth[x]
  {
    if t.depth[x] == depth then x else Above(t, Parent(t, x), depth)
  }
}
