// What every accepted text leads to: facts about the nodes, links and resources that the parser
// returns, whatever sections it was given.

module SceneParsed {
  import opened Text
  import opened SceneModel
  import opened SceneCodec
  import opened SceneTree
  import opened ScenePreorder
  import opened SceneLinks
  import opened SceneSections

  // ---------- the second pass ----------

  // The keys whose node gets the parent `x`, in order.
  function KidsOf(paths: map<string, NodeId>, nodes: map<NodeId, Node>, keys: seq<NodeId>, x: NodeId): seq<NodeId>
  {
    if keys == [] then []
    else
      var front, last := keys[..|keys| - 1], keys[|keys| - 1];
      KidsOf(paths, nodes, front, x) + if HasKid(paths, nodes, last, x) then [last] else []
  }

  predicate HasKid(paths: map<string, NodeId>, nodes: map<NodeId, Node>, k: NodeId, x: NodeId)
  {
    k in nodes && Adopt(paths, nodes[k]).Ok? && Adopt(paths, nodes[k]).value.parent == Some(x)
  }

  lemma {:induction false} KidsMember(paths: map<string, NodeId>, nodes: map<NodeId, Node>, keys: seq<NodeId>, x: NodeId)
    requires NoDuplicates(keys)
    ensures var kids := KidsOf(paths, nodes, keys, x);
      NoDuplicates(kids) && forall k :: k in kids <==> k in keys && HasKid(paths, nodes, k, x)
  {
    if keys != [] {
      var front, last := keys[..|keys| - 1], keys[|keys| - 1];
      KidsMember(paths, nodes, front, x);
      forall k ensures k in keys <==> k in front || k == last { assert keys == front + [last]; }
    }
  }

  // The node finds a parent, or needs none.
  predicate Adoptable(paths: map<string, NodeId>, nodes: map<NodeId, Node>, k: NodeId)
  {
    && k in nodes && Adopt(paths, nodes[k]).Ok?
    && (Adopt(paths, nodes[k]).value.parent.Some? ==> Adopt(paths, nodes[k]).value.parent.value in nodes)
  }

  // Where the second pass has handled `keys`.
  ghost predicate Placed(paths: map<string, NodeId>, nodes: map<NodeId, Node>, keys: seq<NodeId>, after: map<NodeId, Node>)
  {
    && after.Keys == nodes.Keys
    && (forall k :: k in keys ==> Adoptable(paths, nodes, k))
    && (forall k :: k in nodes ==> after[k] == PlacedNode(paths, nodes, keys, k))
  }

  function PlacedNode(paths: map<string, NodeId>, nodes: map<NodeId, Node>, keys: seq<NodeId>, k: NodeId): Node
    requires k in nodes
  {
    (if k in keys && Adopt(paths, nodes[k]).Ok? then Adopt(paths, nodes[k]).value else nodes[k])
      .(children := KidsOf(paths, nodes, keys, k))
  }

  lemma AdoptKeepsChildren(paths: map<string, NodeId>, n: Node, children: seq<NodeId>)
    ensures Adopt(paths, n.(children := children)).Ok? <==> Adopt(paths, n).Ok?
    ensures Adopt(paths, n).Ok? ==> Adopt(paths, n.(children := children)).value == Adopt(paths, n).value.(children := children)
  {
  }

  lemma PlaceOne(paths: map<string, NodeId>, nodes: map<NodeId, Node>, keys: seq<NodeId>, before: map<NodeId, Node>, k: NodeId, x: NodeId)
    requires k in nodes && k !in keys && x in nodes && before.Keys == nodes.Keys && ParentStep(paths, before, k).Ok?
    requires before[x] == PlacedNode(paths, nodes, keys, x) && before[k] == PlacedNode(paths, nodes, keys, k)
    requires forall y :: y in nodes && HasKid(paths, nodes, k, y) ==> before[y] == PlacedNode(paths, nodes, keys, y)
    ensures var after := ParentStep(paths, before, k).value;
      after.Keys == nodes.Keys && after[x] == PlacedNode(paths, nodes, keys + [k], x)
    ensures Adoptable(paths, nodes, k)
  {
    AdoptKeepsChildren(paths, nodes[k], KidsOf(paths, nodes, keys, k));
    assert (keys + [k])[..|keys|] == keys;
    assert x in keys + [k] <==> x in keys || x == k;
  }

  lemma PlaceNext(paths: map<string, NodeId>, nodes: map<NodeId, Node>, keys: seq<NodeId>, before: map<NodeId, Node>, k: NodeId)
    requires Placed(paths, nodes, keys, before) && k in nodes && k !in keys && ParentStep(paths, before, k).Ok?
    ensures Placed(paths, nodes, keys + [k], ParentStep(paths, before, k).value)
  {
    var after := ParentStep(paths, before, k).value;
    PlaceOne(paths, nodes, keys, before, k, k);
    forall x | x in nodes ensures after[x] == PlacedNode(paths, nodes, keys + [k], x) {
      PlaceOne(paths, nodes, keys, before, k, x);
    }
  }

  lemma {:induction false} ParentPassPlaces(paths: map<string, NodeId>, nodes: map<NodeId, Node>, keys: seq<NodeId>)
    requires NoDuplicates(keys) && (forall i :: 0 <= i < |keys| ==> keys[i] in nodes)
    requires forall k :: k in nodes ==> nodes[k].children == []
    requires ParentPass(paths, nodes, keys).Ok?
    ensures Placed(paths, nodes, keys, ParentPass(paths, nodes, keys).value)
  {
    if keys != [] {
      var front, last := keys[..|keys| - 1], keys[|keys| - 1];
      ParentPassPlaces(paths, nodes, front);
      PlaceNext(paths, nodes, front, ParentPass(paths, nodes, front).value, last);
      assert front + [last] == keys;
    }
  }

  // ---------- the first pass ----------

  // A node as its section gives it.
  predicate RawOk(n: Node)
  {
    && n.id.rootInstance == None && n.parent == None && n.children == [] && IsI32(n.id.id)
    && ArrayOk(n.parentIdPath) && ArrayOk(n.ownerUidPath) && WideNumber(n.index) && n.groups != Some("\"")
  }

  predicate RawsOk(raws: seq<Node>) { forall i :: 0 <= i < |raws| ==> RawOk(raws[i]) }

  // The path under which the parser records a node.
  function PathOf(raw: Node): string
  {
    match raw.fallback case None => "." case Some(p) => Under(p, raw.name)
  }

  // The last of the nodes recorded under `path`.
  function LastRecorded(raws: seq<Node>, keys: seq<NodeId>, path: string): Option<NodeId>
    requires |raws| == |keys|
  {
    if raws == [] then None
    else
      var n := |raws| - 1;
      if PathOf(raws[n]) == path then Some(keys[n]) else LastRecorded(raws[..n], keys[..n], path)
  }

  lemma {:induction false} LastRecordedIs(raws: seq<Node>, keys: seq<NodeId>, path: string)
    requires |raws| == |keys|
    ensures var r := LastRecorded(raws, keys, path);
      && (r.Some? ==> exists i :: 0 <= i < |raws| && keys[i] == r.value && PathOf(raws[i]) == path)
      && (r.None? <==> forall i :: 0 <= i < |raws| ==> PathOf(raws[i]) != path)
  {
    if raws != [] {
      var n := |raws| - 1;
      LastRecordedIs(raws[..n], keys[..n], path);
    }
  }

  ghost predicate PathsOf(raws: seq<Node>, keys: seq<NodeId>, paths: map<string, NodeId>)
    requires |raws| == |keys|
  {
    forall path :: LastRecorded(raws, keys, path) == if path in paths then Some(paths[path]) else None
  }

  // Some node without a parent path is `k`.
  predicate TopAmong(raws: seq<Node>, keys: seq<NodeId>, k: NodeId)
    requires |raws| == |keys|
  {
    exists i :: 0 <= i < |raws| && keys[i] == k && raws[i].fallback == None
  }

  // Node `n` came out of the first pass for `raw`, when `raws` and `keys` stood before it.
  ghost predicate IdentifiedFrom(raws: seq<Node>, keys: seq<NodeId>, raw: Node, n: Node)
    requires |raws| == |keys|
  {
    && n == raw.(id := n.id, parent := n.parent, fallback := n.fallback) && n.id.id == raw.id.id && n.id.id != 0
    && (IsEdited(raw) <==> n.id.rootInstance.Some?)
    && if !IsEdited(raw) then n == raw
       else if raw.fallback == Some(".") then
         && n.fallback == raw.fallback && n.parent.Some? && n.id.rootInstance == Some([n.parent.value.id])
         && (n.parent == Some(UNASSIGNED) || TopAmong(raws, keys, n.parent.value))
       else if raw.parentIdPath.Some? then n.parent == None && n.fallback == raw.fallback && n.id.rootInstance == raw.parentIdPath
       else n.fallback == None && n.parent.Some? && raw.fallback.Some? && LastRecorded(raws, keys, raw.fallback.value) == n.parent
  }

  ghost predicate AfterIdPass(raws: seq<Node>, l: Links)
  {
    && |l.keys| == |raws| && NoDuplicates(l.keys) && (forall k :: k in l.nodes <==> k in l.keys)
    && (forall i :: 0 <= i < |raws| ==> l.nodes[l.keys[i]].id == l.keys[i] && IdentifiedFrom(raws[..i], l.keys[..i], raws[i], l.nodes[l.keys[i]]))
    && PathsOf(raws, l.keys, l.paths)
    && (match l.root case None => forall i :: 0 <= i < |raws| ==> raws[i].fallback.Some? case Some(k) => TopAmong(raws, l.keys, k))
  }

  lemma {:induction false} WalkParent(paths: map<string, NodeId>, nodes: map<NodeId, Node>, path: string, found: Ancestry)
    requires path != "" && path in paths && paths[path] in nodes && Walk(paths, nodes, path, found).Some?
    ensures found.parent.Some? ==> Walk(paths, nodes, path, found).value.parent == found.parent
    ensures found.parent.None? ==> Walk(paths, nodes, path, found).value.parent == Some(paths[path])
  {
    var k := paths[path];
    if nodes[k].id.rootInstance.None? {
      var n, parent := nodes[k], if found.parent.None? then Some(k) else found.parent;
      var ids := if n.kind.Some? && n.kind.value.Instance? then [k.id] + found.ids else found.ids;
      WalkKeepsParent(paths, nodes, Pop(path), Ancestry(parent, ids));
    }
  }

  lemma {:induction false} WalkKeepsParent(paths: map<string, NodeId>, nodes: map<NodeId, Node>, path: string, found: Ancestry)
    requires found.parent.Some?
    ensures Walk(paths, nodes, path, found).Some? ==> Walk(paths, nodes, path, found).value.parent == found.parent
    decreases |path|
  {
    if path != "" && path in paths {
      var k := paths[path];
      if k !in nodes {
        WalkKeepsParent(paths, nodes, Pop(path), found);
      } else if nodes[k].id.rootInstance.None? {
        var n := nodes[k];
        var ids := if n.kind.Some? && n.kind.value.Instance? then [k.id] + found.ids else found.ids;
        WalkKeepsParent(paths, nodes, Pop(path), Ancestry(found.parent, ids));
      }
    }
  }

  lemma IdentifyGives(raws: seq<Node>, l: Links, raw: Node)
    requires AfterIdPass(raws, l) && RawOk(raw) && raw.id != UNASSIGNED && Identify(l, raw).Ok?
    ensures IdentifiedFrom(raws, l.keys, raw, Identify(l, raw).value)
  {
    if IsEdited(raw) && raw.fallback != Some(".") && raw.parentIdPath.None? {
      var path := raw.fallback.value;
      LastRecordedIs(raws, l.keys, path);
      assert path in l.paths && l.paths[path] in l.nodes;
      WalkParent(l.paths, l.nodes, path, Ancestry(None, []));
    }
  }

  lemma RecordNext(raws: seq<Node>, keys: seq<NodeId>, paths: map<string, NodeId>, raw: Node, k: NodeId)
    requires |raws| == |keys| && PathsOf(raws, keys, paths)
    ensures PathsOf(raws + [raw], keys + [k], paths[PathOf(raw) := k])
  {
    assert (raws + [raw])[..|raws|] == raws && (keys + [k])[..|keys|] == keys;
  }

  lemma TopNext(raws: seq<Node>, keys: seq<NodeId>, raw: Node, k: NodeId, x: NodeId)
    requires |raws| == |keys|
    ensures TopAmong(raws, keys, x) ==> TopAmong(raws + [raw], keys + [k], x)
    ensures raw.fallback == None ==> TopAmong(raws + [raw], keys + [k], k)
  {
    if TopAmong(raws, keys, x) {
      var i :| 0 <= i < |raws| && keys[i] == x && raws[i].fallback == None;
      assert (keys + [k])[i] == x && (raws + [raw])[i] == raws[i];
    }
    assert (keys + [k])[|raws|] == k && (raws + [raw])[|raws|] == raw;
  }

  lemma IdStepGives(raws: seq<Node>, l: Links, raw: Node)
    requires AfterIdPass(raws, l) && RawOk(raw) && IdStep(l, raw).Ok?
    ensures AfterIdPass(raws + [raw], IdStep(l, raw).value)
  {
    var n := Identify(l, raw).value;
    IdentifyGives(raws, l, raw);
    var next := IdStep(l, raw).value;
    RecordNext(raws, l.keys, l.paths, raw, n.id);
    if l.root.Some? { TopNext(raws, l.keys, raw, n.id, l.root.value); } else { TopNext(raws, l.keys, raw, n.id, n.id); }
    StepNodes(raws, l, raw, n);
  }

  lemma StepNodes(raws: seq<Node>, l: Links, raw: Node, n: Node)
    requires AfterIdPass(raws, l) && IdentifiedFrom(raws, l.keys, raw, n) && n.id !in l.nodes
    ensures var all, keys, nodes := raws + [raw], l.keys + [n.id], l.nodes[n.id := n];
      && NoDuplicates(keys) && (forall k :: k in nodes <==> k in keys)
      && (forall i :: 0 <= i < |all| ==> nodes[keys[i]].id == keys[i] && IdentifiedFrom(all[..i], keys[..i], all[i], nodes[keys[i]]))
  {
    var all, keys, nodes := raws + [raw], l.keys + [n.id], l.nodes[n.id := n];
    forall i | 0 <= i < |l.keys| ensures keys[i] in l.nodes && keys[i] != n.id { assert l.keys[i] in l.keys; }
    forall i | 0 <= i < |all| ensures nodes[keys[i]].id == keys[i] && IdentifiedFrom(all[..i], keys[..i], all[i], nodes[keys[i]]) {
      if i < |raws| {
        assert all[..i] == raws[..i] && keys[..i] == l.keys[..i];
      } else {
        assert all[..i] == raws && keys[..i] == l.keys;
      }
    }
  }

  lemma {:induction false} IdPassGives(raws: seq<Node>)
    requires RawsOk(raws) && IdPass(raws).Ok?
    ensures AfterIdPass(raws, IdPass(raws).value)
  {
    if raws != [] {
      var front, last := raws[..|raws| - 1], raws[|raws| - 1];
      IdPassGives(front);
      IdStepGives(front, IdPass(front).value, last);
      assert front + [last] == raws;
    }
  }

  // ---------- the nodes of an accepted text ----------

  // The path under which each key was recorded.
  function RecordAll(raws: seq<Node>, keys: seq<NodeId>): map<NodeId, string>
    requires |raws| == |keys|
  {
    if raws == [] then map[]
    else
      var n := |raws| - 1;
      RecordAll(raws[..n], keys[..n])[keys[n] := PathOf(raws[n])]
  }

  lemma {:induction false} RecordAllKeys(raws: seq<Node>, keys: seq<NodeId>)
    requires |raws| == |keys|
    ensures forall k :: k in RecordAll(raws, keys) <==> k in keys
  {
    if raws != [] {
      var n := |raws| - 1;
      RecordAllKeys(raws[..n], keys[..n]);
      assert keys == keys[..n] + [keys[n]];
    }
  }

  lemma {:induction false} RecordOneAt(raws: seq<Node>, keys: seq<NodeId>, i: nat)
    requires |raws| == |keys| && NoDuplicates(keys) && i < |keys|
    ensures keys[i] in RecordAll(raws, keys) && RecordAll(raws, keys)[keys[i]] == PathOf(raws[i])
  {
    var n := |raws| - 1;
    if i < n { RecordOneAt(raws[..n], keys[..n], i); }
  }

  lemma RecordAllAt(raws: seq<Node>, keys: seq<NodeId>)
    requires |raws| == |keys| && NoDuplicates(keys)
    ensures forall i :: 0 <= i < |keys| ==> keys[i] in RecordAll(raws, keys) && RecordAll(raws, keys)[keys[i]] == PathOf(raws[i])
    ensures forall k :: k in RecordAll(raws, keys) <==> k in keys
  {
    RecordAllKeys(raws, keys);
    forall i | 0 <= i < |keys| ensures keys[i] in RecordAll(raws, keys) && RecordAll(raws, keys)[keys[i]] == PathOf(raws[i]) {
      RecordOneAt(raws, keys, i);
    }
  }

  predicate InUse(recorded: map<NodeId, string>, path: string)
  {
    exists k :: k in recorded && recorded[k] == path
  }

  // The longest prefix of `path` in use is `found`.
  predicate NearestPath(recorded: map<NodeId, string>, path: string, found: string)
    decreases |path|
  {
    path != "" && if InUse(recorded, path) then found == path else NearestPath(recorded, Pop(path), found)
  }

  // How a node hangs below its parent, by the paths the nodes were recorded under.
  ghost predicate HangsBelow(nodes: map<NodeId, Node>, recorded: map<NodeId, string>, k: NodeId, p: NodeId)
    requires k in nodes && k in recorded
  {
    var n := nodes[k];
    && p in nodes && p in recorded && k in nodes[p].children
    && if n.fallback == Some(".") then
         IsEdited(n) && nodes[p].parent == None && k.rootInstance == Some([p.id]) && recorded[k] == n.name
       else
         && (IsEdited(n) ==> if n.parentIdPath.Some? then k.rootInstance == n.parentIdPath else n.fallback == None)
         && match n.fallback
            case None => recorded[k] == Under(recorded[p], n.name)
            case Some(f) => recorded[k] == f + "/" + n.name && !InUse(recorded, f) && NearestPath(recorded, f, recorded[p])
  }

  ghost predicate ParsedNode(nodes: map<NodeId, Node>, recorded: map<NodeId, string>, k: NodeId)
    requires k in nodes && k in recorded
  {
    var n := nodes[k];
    && n.id == k && k.id != 0 && IsI32(k.id) && (IsEdited(n) <==> k.rootInstance.Some?)
    && ArrayOk(n.parentIdPath) && ArrayOk(n.ownerUidPath) && WideNumber(n.index) && n.groups != Some("\"")
    && match n.parent
       case None => n.fallback == None && recorded[k] == "."
       case Some(p) => HangsBelow(nodes, recorded, k, p)
  }

  // The children of a node are the nodes that name it as their parent, once each.
  ghost predicate ChildrenAgree(nodes: map<NodeId, Node>, k: NodeId)
    requires k in nodes
  {
    && NoDuplicates(nodes[k].children)
    && forall c :: c in nodes[k].children <==> c in nodes && nodes[c].parent == Some(k)
  }

  ghost predicate ParsedLinks(nodes: map<NodeId, Node>, root: Option<NodeId>, recorded: map<NodeId, string>)
  {
    && recorded.Keys == nodes.Keys
    && (forall k :: k in nodes ==> ParsedNode(nodes, recorded, k) && ChildrenAgree(nodes, k))
    && (root.Some? ==> root.value in nodes && nodes[root.value].parent == None)
  }

  // Both passes, seen from one node.
  ghost predicate LinkedFrom(raws: seq<Node>, l: Links, nodes: map<NodeId, Node>)
  {
    && RawsOk(raws) && AfterIdPass(raws, l) && Placed(l.paths, l.nodes, l.keys, nodes)
    && (forall k :: k in l.nodes ==> k != UNASSIGNED && l.nodes[k].children == [])
  }

  lemma LinkGives(raws: seq<Node>) returns (l: Links)
    requires RawsOk(raws) && Link(raws).Ok?
    ensures IdPass(raws) == Ok(l) && LinkedFrom(raws, l, Link(raws).value.nodes)
    ensures Link(raws).value == l.(nodes := Link(raws).value.nodes)
  {
    l := IdPass(raws).value;
    IdPassGives(raws);
    IdPassKeys(raws);
    forall k | k in l.nodes ensures k != UNASSIGNED && l.nodes[k].children == [] {
      var i :| 0 <= i < |l.keys| && l.keys[i] == k;
      assert IdentifiedFrom(raws[..i], l.keys[..i], raws[i], l.nodes[k]);
      assert RawOk(raws[i]);
    }
    ParentPassPlaces(l.paths, l.nodes, l.keys);
  }

  lemma UseRecorded(raws: seq<Node>, keys: seq<NodeId>, path: string)
    requires |raws| == |keys| && NoDuplicates(keys)
    ensures var recorded, last := RecordAll(raws, keys), LastRecorded(raws, keys, path);
      && (InUse(recorded, path) <==> last.Some?)
      && (last.Some? ==> last.value in keys && last.value in recorded && recorded[last.value] == path)
  {
    var recorded, last := RecordAll(raws, keys), LastRecorded(raws, keys, path);
    RecordAllAt(raws, keys);
    LastRecordedIs(raws, keys, path);
    if last.Some? {
      var i :| 0 <= i < |raws| && keys[i] == last.value && PathOf(raws[i]) == path;
    } else {
      forall k | k in recorded ensures recorded[k] != path {
        var i :| 0 <= i < |keys| && keys[i] == k;
        assert recorded[k] == PathOf(raws[i]);
      }
    }
  }

  lemma RecordedFound(raws: seq<Node>, l: Links, path: string)
    requires AfterIdPass(raws, l)
    ensures var recorded := RecordAll(raws, l.keys);
      && (path in l.paths <==> InUse(recorded, path))
      && (path in l.paths ==> l.paths[path] in l.nodes && l.paths[path] in recorded && recorded[l.paths[path]] == path)
  {
    UseRecorded(raws, l.keys, path);
  }

  lemma {:induction false} NearestGives(raws: seq<Node>, l: Links, path: string)
    requires AfterIdPass(raws, l) && NearestRecorded(l.paths, path).Some?
    ensures var recorded, p := RecordAll(raws, l.keys), NearestRecorded(l.paths, path).value;
      p in recorded && NearestPath(recorded, path, recorded[p])
    decreases |path|
  {
    RecordedFound(raws, l, path);
    RecordAllAt(raws, l.keys);
    if path !in l.paths { NearestGives(raws, l, Pop(path)); }
  }

  // A node without a parent path stays without a parent.
  lemma TopStays(raws: seq<Node>, l: Links, nodes: map<NodeId, Node>, i: nat)
    requires LinkedFrom(raws, l, nodes) && i < |raws| && raws[i].fallback == None
    ensures nodes[l.keys[i]].parent == None && nodes[l.keys[i]].fallback == None
  {
    assert l.keys[i] in l.keys;
    assert IdentifiedFrom(raws[..i], l.keys[..i], raws[i], l.nodes[l.keys[i]]);
    assert RawOk(raws[i]);
  }

  lemma TopAmongStays(raws: seq<Node>, l: Links, nodes: map<NodeId, Node>, n: nat, k: NodeId)
    requires LinkedFrom(raws, l, nodes) && n <= |raws| && TopAmong(raws[..n], l.keys[..n], k)
    ensures k in nodes && nodes[k].parent == None
  {
    var i :| 0 <= i < n && l.keys[..n][i] == k && raws[..n][i].fallback == None;
    assert l.keys[i] in l.keys;
    TopStays(raws, l, nodes, i);
  }

  lemma ChildListed(raws: seq<Node>, l: Links, nodes: map<NodeId, Node>, k: NodeId)
    requires LinkedFrom(raws, l, nodes) && k in nodes
    ensures ChildrenAgree(nodes, k)
  {
    KidsMember(l.paths, l.nodes, l.keys, k);
    forall c ensures c in nodes[k].children <==> c in nodes && nodes[c].parent == Some(k) {
      if c in nodes { assert c in l.keys && Adoptable(l.paths, l.nodes, c); }
    }
  }

  // The parent of a node that looks it up by path once all paths are recorded.
  lemma AdoptedHangs(raws: seq<Node>, l: Links, nodes: map<NodeId, Node>, i: nat)
    requires LinkedFrom(raws, l, nodes) && i < |raws| && raws[i].fallback.Some?
    requires l.nodes[l.keys[i]].parent == None && l.nodes[l.keys[i]].fallback == raws[i].fallback
    requires IsEdited(raws[i]) ==> raws[i].parentIdPath.Some? && l.keys[i].rootInstance == raws[i].parentIdPath && raws[i].fallback != Some(".")
    requires RecordAll(raws, l.keys).Keys == nodes.Keys
    ensures var k := l.keys[i]; k in nodes && nodes[k].parent.Some? && HangsBelow(nodes, RecordAll(raws, l.keys), k, nodes[k].parent.value)
  {
    var k, f := l.keys[i], raws[i].fallback.value;
    AdoptedParent(raws, l, nodes, i);
    ContentStays(raws, l, nodes, i);
    HasRecord(raws, l, nodes, i);
    ChildListed(raws, l, nodes, nodes[k].parent.value);
    if f in l.paths { RecordedFound(raws, l, f); } else { UnrecordedParent(raws, l, f); }
  }

  lemma AdoptedParent(raws: seq<Node>, l: Links, nodes: map<NodeId, Node>, i: nat)
    requires LinkedFrom(raws, l, nodes) && i < |raws| && raws[i].fallback.Some?
    requires l.nodes[l.keys[i]].parent == None && l.nodes[l.keys[i]].fallback == raws[i].fallback
    ensures var k, f := l.keys[i], raws[i].fallback.value;
      && k in nodes && nodes[k].parent.Some? && nodes[k].parent.value in nodes
      && nodes[k].parent == (if f in l.paths then Some(l.paths[f]) else NearestRecorded(l.paths, f))
      && nodes[k].fallback == if f in l.paths then None else Some(f)
  {
    assert l.keys[i] in l.keys && Adoptable(l.paths, l.nodes, l.keys[i]);
  }

  lemma UnrecordedParent(raws: seq<Node>, l: Links, path: string)
    requires AfterIdPass(raws, l) && path !in l.paths && NearestRecorded(l.paths, path).Some?
    ensures var recorded, p := RecordAll(raws, l.keys), NearestRecorded(l.paths, path).value;
      path != "." && !InUse(recorded, path) && p in recorded && NearestPath(recorded, path, recorded[p])
  {
    assert Pop(".") == "";
    RecordedFound(raws, l, path);
    NearestGives(raws, l, path);
  }

  lemma EarlyHangs(raws: seq<Node>, l: Links, nodes: map<NodeId, Node>, i: nat)
    requires LinkedFrom(raws, l, nodes) && i < |raws| && l.nodes[l.keys[i]].parent.Some?
    requires RecordAll(raws, l.keys).Keys == nodes.Keys
    ensures var k := l.keys[i]; k in nodes && nodes[k].parent.Some? && HangsBelow(nodes, RecordAll(raws, l.keys), k, nodes[k].parent.value)
  {
    var k, recorded := l.keys[i], RecordAll(raws, l.keys);
    assert k in l.keys && Adoptable(l.paths, l.nodes, k);
    assert IdentifiedFrom(raws[..i], l.keys[..i], raws[i], l.nodes[k]);
    assert RawOk(raws[i]);
    RecordAllAt(raws, l.keys);
    ChildListed(raws, l, nodes, nodes[k].parent.value);
    if raws[i].fallback == Some(".") {
      TopAmongStays(raws, l, nodes, i, nodes[k].parent.value);
    } else {
      LastRecordedIs(raws[..i], l.keys[..i], raws[i].fallback.value);
      var j :| 0 <= j < i && l.keys[..i][j] == nodes[k].parent.value && PathOf(raws[..i][j]) == raws[i].fallback.value;
      assert recorded[l.keys[j]] == PathOf(raws[j]);
    }
  }

  // Linking changes the identifier, the links and the children of a node, nothing else.
  predicate SameContent(raw: Node, n: Node)
  {
    n == raw.(id := n.id, parent := n.parent, fallback := n.fallback, children := n.children) && n.id.id == raw.id.id
  }

  lemma AdoptContent(paths: map<string, NodeId>, n: Node, children: seq<NodeId>)
    requires Adopt(paths, n).Ok?
    ensures var m := Adopt(paths, n).value.(children := children); SameContent(n, m) && m.id == n.id
  {
  }

  lemma PlacedContent(paths: map<string, NodeId>, nodes: map<NodeId, Node>, keys: seq<NodeId>, after: map<NodeId, Node>, k: NodeId)
    requires Placed(paths, nodes, keys, after) && k in nodes
    ensures k in after && SameContent(nodes[k], after[k]) && after[k].id == nodes[k].id
  {
    if k in keys && Adopt(paths, nodes[k]).Ok? { AdoptContent(paths, nodes[k], KidsOf(paths, nodes, keys, k)); }
  }

  lemma IdentifiedNode(raws: seq<Node>, l: Links, i: nat)
    requires AfterIdPass(raws, l) && i < |raws|
    ensures var k := l.keys[i];
      && k in l.keys && k in l.nodes && l.nodes[k].id == k && k.id != 0 && (IsEdited(raws[i]) <==> k.rootInstance.Some?)
      && SameContent(raws[i], l.nodes[k])
  {
    assert l.keys[i] in l.keys;
    assert IdentifiedFrom(raws[..i], l.keys[..i], raws[i], l.nodes[l.keys[i]]);
  }

  lemma ContentStays(raws: seq<Node>, l: Links, nodes: map<NodeId, Node>, i: nat)
    requires LinkedFrom(raws, l, nodes) && i < |raws|
    ensures var k := l.keys[i];
      && k in nodes && nodes[k].id == k && k.id != 0 && (IsEdited(raws[i]) <==> k.rootInstance.Some?)
      && SameContent(raws[i], nodes[k])
  {
    IdentifiedNode(raws, l, i);
    PlacedContent(l.paths, l.nodes, l.keys, nodes, l.keys[i]);
  }

  lemma EarlyParent(raws: seq<Node>, l: Links, nodes: map<NodeId, Node>, i: nat)
    requires LinkedFrom(raws, l, nodes) && i < |raws| && l.nodes[l.keys[i]].parent.None? && raws[i].fallback.Some?
    ensures l.nodes[l.keys[i]].fallback == raws[i].fallback
    ensures IsEdited(raws[i]) ==> raws[i].parentIdPath.Some? && l.keys[i].rootInstance == raws[i].parentIdPath && raws[i].fallback != Some(".")
  {
    assert l.keys[i] in l.keys;
    assert IdentifiedFrom(raws[..i], l.keys[..i], raws[i], l.nodes[l.keys[i]]);
  }

  lemma HasRecord(raws: seq<Node>, l: Links, nodes: map<NodeId, Node>, i: nat)
    requires LinkedFrom(raws, l, nodes) && i < |raws|
    ensures l.keys[i] in l.keys && l.keys[i] in RecordAll(raws, l.keys) && RecordAll(raws, l.keys)[l.keys[i]] == PathOf(raws[i])
  {
    RecordAllAt(raws, l.keys);
  }

  lemma NodeParsed(raws: seq<Node>, l: Links, nodes: map<NodeId, Node>, i: nat)
    requires LinkedFrom(raws, l, nodes) && i < |raws| && RecordAll(raws, l.keys).Keys == nodes.Keys
    ensures l.keys[i] in nodes && ParsedNode(nodes, RecordAll(raws, l.keys), l.keys[i])
  {
    var k := l.keys[i];
    ContentStays(raws, l, nodes, i);
    HasRecord(raws, l, nodes, i);
    assert RawOk(raws[i]);
    if l.nodes[k].parent.Some? {
      EarlyHangs(raws, l, nodes, i);
    } else if raws[i].fallback.Some? {
      EarlyParent(raws, l, nodes, i);
      AdoptedHangs(raws, l, nodes, i);
    } else {
      TopStays(raws, l, nodes, i);
    }
  }

  // Whatever nodes a text has: if they can be linked, the result has this form.
  lemma LinkParsed(raws: seq<Node>) returns (recorded: map<NodeId, string>)
    requires RawsOk(raws) && Link(raws).Ok?
    ensures ParsedLinks(Link(raws).value.nodes, Link(raws).value.root, recorded)
    ensures |Link(raws).value.nodes| == |raws|
    ensures forall path :: path in Link(raws).value.paths ==> Link(raws).value.paths[path] in Link(raws).value.nodes
  {
    var l := LinkGives(raws);
    var nodes := Link(raws).value.nodes;
    recorded := RecordAll(raws, l.keys);
    RecordAllAt(raws, l.keys);
    assert recorded.Keys == nodes.Keys;
    AllParsed(raws, l, nodes);
    RootParsed(raws, l, nodes);
    KeysListed(l.keys, nodes.Keys);
    forall path | path in l.paths ensures l.paths[path] in nodes { RecordedFound(raws, l, path); }
  }

  lemma KeysListed<T>(keys: seq<T>, all: set<T>)
    requires NoDuplicates(keys) && forall k :: k in keys <==> k in all
    ensures |all| == |keys|
  {
    ListedSize(keys);
    assert all == set k | k in keys;
  }

  lemma AllParsed(raws: seq<Node>, l: Links, nodes: map<NodeId, Node>)
    requires LinkedFrom(raws, l, nodes) && RecordAll(raws, l.keys).Keys == nodes.Keys
    ensures forall k :: k in nodes ==> ParsedNode(nodes, RecordAll(raws, l.keys), k) && ChildrenAgree(nodes, k)
  {
    forall k | k in nodes ensures ParsedNode(nodes, RecordAll(raws, l.keys), k) && ChildrenAgree(nodes, k) {
      assert k in l.keys;
      var i :| 0 <= i < |l.keys| && l.keys[i] == k;
      NodeParsed(raws, l, nodes, i);
      ChildListed(raws, l, nodes, k);
    }
  }

  lemma RootParsed(raws: seq<Node>, l: Links, nodes: map<NodeId, Node>)
    requires LinkedFrom(raws, l, nodes)
    ensures l.root.Some? ==> l.root.value in nodes && nodes[l.root.value].parent == None
  {
    if l.root.Some? {
      assert raws[..|raws|] == raws && l.keys[..|raws|] == l.keys;
      TopAmongStays(raws, l, nodes, |raws|, l.root.value);
    }
  }
}
