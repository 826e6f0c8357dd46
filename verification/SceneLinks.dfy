// The second half of parse_scene: giving nodes their identifiers, finding their parents by
// path, and resolving connections. Functions state each pass; the methods run its loops.

module SceneLinks {
  import opened Text
  import opened SceneModel
  import opened SceneTree

  // Outcomes of parsing that are not a scene. `MalformedArray` and `LoneQuote` are panics on
  // texts the grammar never captures. `NeverEnds` is the ancestor walk whose missing
  // prefix is skipped without shortening the path; `RandomIdNeeded` is a node without a usable
  // unique_id, which gets a random one.
  datatype ParseError = MissingAttribute | MissingHeader | InvalidParentPath | DuplicateNode | NoParent
                      | UnknownNode | MalformedArray | LoneQuote | NeverEnds | RandomIdNeeded

  datatype Result<+T> = Ok(value: T) | Err(error: ParseError)

  datatype Links = Links(nodes: map<NodeId, Node>, keys: seq<NodeId>, paths: map<string, NodeId>, root: Option<NodeId>)

  const NO_LINKS := Links(map[], [], map[], None)

  datatype Ancestry = Ancestry(parent: Option<NodeId>, ids: seq<int>)

  // ---------- first pass: identifiers and paths ----------

  // Walks from `path` towards the root. None: the loop never ends.
  function Walk(paths: map<string, NodeId>, nodes: map<NodeId, Node>, path: string, found: Ancestry): Option<Ancestry>
    decreases |path|
  {
    if path == "" then Some(found)
    else if path !in paths then None
    else
      var k := paths[path];
      if k !in nodes then Walk(paths, nodes, Pop(path), found)
      else
        var parent := if found.parent.None? then Some(k) else found.parent;
        match nodes[k].id.rootInstance
        case Some(above) => Some(Ancestry(parent, PrependMissing(above, [k.id] + found.ids)))
        case None =>
          var n := nodes[k];
          var ids := if n.kind.Some? && n.kind.value.Instance? then [k.id] + found.ids else found.ids;
          Walk(paths, nodes, Pop(path), Ancestry(parent, ids))
  }

  method WalkAncestors(paths: map<string, NodeId>, nodes: map<NodeId, Node>, start: string) returns (r: Option<Ancestry>)
    ensures r == Walk(paths, nodes, start, Ancestry(None, []))
  {
    var path, parent, ids := start, None, [];
    while path != ""
      invariant Walk(paths, nodes, start, Ancestry(None, [])) == Walk(paths, nodes, path, Ancestry(parent, ids))
      decreases |path|
    {
      if path !in paths { return None; }
      var k := paths[path];
      if k in nodes {
        if parent == None { parent := Some(k); }
        match nodes[k].id.rootInstance
        case Some(above) =>
          ids := [k.id] + ids;
          var i := |above|;
          ghost var before := ids;
          assert above[..i] == above;
          while i > 0
            invariant 0 <= i <= |above|
            invariant PrependMissing(above, before) == PrependMissing(above[..i], ids)
          {
            i := i - 1;
            assert above[..i + 1][..i] == above[..i];
            if above[i] !in ids { ids := [above[i]] + ids; }
          }
          return Some(Ancestry(parent, ids));
        case None =>
          if nodes[k].kind.Some? && nodes[k].kind.value.Instance? { ids := [k.id] + ids; }
      }
      path := Pop(path);
    }
    r := Some(Ancestry(parent, ids));
  }

  function Popped(path: string, n: nat): string
    decreases n
  {
    if n == 0 then path else Popped(Pop(path), n - 1)
  }

  // The walk goes on above a recorded prefix, unless its node has an instance path.
  predicate Passes(paths: map<string, NodeId>, nodes: map<NodeId, Node>, path: string)
  {
    path != "" && path in paths && !(paths[path] in nodes && nodes[paths[path]].id.rootInstance.Some?)
  }

  // The prefix after `n` elements is not recorded, and the walk gets there.
  predicate StuckAt(paths: map<string, NodeId>, nodes: map<NodeId, Node>, path: string, n: nat)
  {
    && Popped(path, n) != "" && Popped(path, n) !in paths
    && forall j: nat :: j < n ==> Passes(paths, nodes, Popped(path, j))
  }

  ghost predicate Stuck(paths: map<string, NodeId>, nodes: map<NodeId, Node>, path: string)
  {
    exists n: nat :: StuckAt(paths, nodes, path, n)
  }

  // The loop never ends exactly when some prefix of the parent path is not recorded and every
  // longer one is, without an instance path to stop at.
  lemma {:induction false} WalkNeverEnds(paths: map<string, NodeId>, nodes: map<NodeId, Node>, path: string, found: Ancestry)
    ensures Walk(paths, nodes, path, found).None? <==> Stuck(paths, nodes, path)
    decreases |path|
  {
    if path != "" && path !in paths {
      assert StuckAt(paths, nodes, path, 0);
    } else if Passes(paths, nodes, path) {
      var k := paths[path];
      var parent := if k in nodes && found.parent.None? then Some(k) else found.parent;
      var ids := if k in nodes && nodes[k].kind.Some? && nodes[k].kind.value.Instance? then [k.id] + found.ids else found.ids;
      var next := Ancestry(parent, ids);
      assert Walk(paths, nodes, path, found) == Walk(paths, nodes, Pop(path), next);
      WalkNeverEnds(paths, nodes, Pop(path), next);
      StuckAbove(paths, nodes, path);
    } else {
      forall n: nat ensures !StuckAt(paths, nodes, path, n) {
        assert !Passes(paths, nodes, Popped(path, 0));
      }
    }
  }

  lemma StuckAbove(paths: map<string, NodeId>, nodes: map<NodeId, Node>, path: string)
    requires Passes(paths, nodes, path)
    ensures Stuck(paths, nodes, path) <==> Stuck(paths, nodes, Pop(path))
  {
    if Stuck(paths, nodes, path) {
      var n: nat :| StuckAt(paths, nodes, path, n);
      assert n == 0 ==> Popped(path, n) == path;
      forall j: nat | j < n - 1 ensures Passes(paths, nodes, Popped(Pop(path), j)) {
        assert Popped(path, j + 1) == Popped(Pop(path), j);
      }
      assert StuckAt(paths, nodes, Pop(path), n - 1);
    }
    if Stuck(paths, nodes, Pop(path)) {
      var n: nat :| StuckAt(paths, nodes, Pop(path), n);
      forall j: nat | j < n + 1 ensures Passes(paths, nodes, Popped(path, j)) {
        assert j > 0 ==> Popped(path, j) == Popped(Pop(path), j - 1);
      }
      assert StuckAt(paths, nodes, path, n + 1);
    }
  }

  // The identifier, parent and remaining fallback of an edited node; other nodes keep theirs.
  function Identify(l: Links, n: Node): Result<Node>
  {
    if !IsEdited(n) then Ok(n)
    else
      var path := match n.fallback case Some(f) => f case None => "";
      if path == "." then
        var root := match l.root case Some(k) => k case None => UNASSIGNED;
        Ok(n.(id := NodeId(n.id.id, Some([root.id])), parent := Some(root)))
      else if n.parentIdPath.Some? && n.parentIdPath.value != [] then
        Ok(n.(id := NodeId(n.id.id, n.parentIdPath), parent := None))
      else if path != "" then
        match Walk(l.paths, l.nodes, path, Ancestry(None, []))
        case None => Err(NeverEnds)
        case Some(a) =>
          Ok(n.(id := NodeId(n.id.id, Some(a.ids)), parent := a.parent,
                fallback := if path in l.paths then None else n.fallback))
      else Err(InvalidParentPath)
  }

  method IdentifyNode(l: Links, raw: Node) returns (r: Result<Node>)
    ensures r == Identify(l, raw)
  {
    if !IsEdited(raw) { return Ok(raw); }
    var path := if raw.fallback.Some? then raw.fallback.value else "";
    if path == "." {
      var root := if l.root.Some? then l.root.value else UNASSIGNED;
      return Ok(raw.(id := NodeId(raw.id.id, Some([root.id])), parent := Some(root)));
    } else if raw.parentIdPath.Some? && raw.parentIdPath.value != [] {
      return Ok(raw.(id := NodeId(raw.id.id, raw.parentIdPath), parent := None));
    } else if path != "" {
      var walked := WalkAncestors(l.paths, l.nodes, path);
      if walked.None? { return Err(NeverEnds); }
      var fallback := if path in l.paths then None else raw.fallback;
      return Ok(raw.(id := NodeId(raw.id.id, Some(walked.value.ids)), parent := walked.value.parent, fallback := fallback));
    }
    return Err(InvalidParentPath);
  }

  function RecordPath(l: Links, parentPath: Option<string>, name: string, k: NodeId): Links
  {
    match parentPath
    case None => l.(root := Some(k), paths := l.paths["." := k])
    case Some(p) => l.(paths := l.paths[Under(p, name) := k])
  }

  function IdStep(l: Links, raw: Node): Result<Links>
  {
    if raw.id == UNASSIGNED then Err(RandomIdNeeded)
    else
      match Identify(l, raw)
      case Err(e) => Err(e)
      case Ok(n) =>
        if n.id in l.nodes then Err(DuplicateNode)
        else
          var recorded := RecordPath(l, raw.fallback, raw.name, n.id);
          Ok(recorded.(nodes := l.nodes[n.id := n], keys := l.keys + [n.id]))
  }

  function IdPass(raws: seq<Node>): Result<Links>
  {
    if raws == [] then Ok(NO_LINKS)
    else
      match IdPass(raws[..|raws| - 1])
      case Err(e) => Err(e)
      case Ok(l) => IdStep(l, raws[|raws| - 1])
  }

  // ---------- second pass: parents and child lists ----------

  function NearestRecorded(paths: map<string, NodeId>, path: string): Option<NodeId>
    decreases |path|
  {
    if path == "" then None else if path in paths then Some(paths[path]) else NearestRecorded(paths, Pop(path))
  }

  method FindNearest(paths: map<string, NodeId>, start: string) returns (r: Option<NodeId>)
    ensures r == NearestRecorded(paths, start)
  {
    var path := start;
    while path != ""
      invariant NearestRecorded(paths, start) == NearestRecorded(paths, path)
      decreases |path|
    {
      if path in paths { return Some(paths[path]); }
      path := Pop(path);
    }
    r := None;
  }

  function Adopt(paths: map<string, NodeId>, n: Node): Result<Node>
  {
    if n.parent.Some? || n.fallback.None? then Ok(n)
    else if n.fallback.value in paths then Ok(n.(parent := Some(paths[n.fallback.value]), fallback := None))
    else
      match NearestRecorded(paths, n.fallback.value)
      case None => Err(NoParent)
      case Some(p) => Ok(n.(parent := Some(p)))
  }

  method AdoptNode(paths: map<string, NodeId>, n: Node) returns (r: Result<Node>)
    ensures r == Adopt(paths, n)
  {
    if n.parent.Some? || n.fallback.None? { return Ok(n); }
    if n.fallback.value in paths { return Ok(n.(parent := Some(paths[n.fallback.value]), fallback := None)); }
    var p := FindNearest(paths, n.fallback.value);
    r := if p.None? then Err(NoParent) else Ok(n.(parent := p));
  }

  function ParentStep(paths: map<string, NodeId>, nodes: map<NodeId, Node>, k: NodeId): Result<map<NodeId, Node>>
    requires k in nodes
  {
    match Adopt(paths, nodes[k])
    case Err(e) => Err(e)
    case Ok(n) =>
      var adopted := nodes[k := n];
      if n.parent.None? then Ok(adopted)
      else
        var p := n.parent.value;
        if p !in adopted then Err(NoParent)
        else Ok(adopted[p := adopted[p].(children := adopted[p].children + [k])])
  }

  function ParentPass(paths: map<string, NodeId>, nodes: map<NodeId, Node>, keys: seq<NodeId>): (r: Result<map<NodeId, Node>>)
    requires forall i :: 0 <= i < |keys| ==> keys[i] in nodes
    ensures r.Ok? ==> r.value.Keys == nodes.Keys
  {
    if keys == [] then Ok(nodes)
    else
      match ParentPass(paths, nodes, keys[..|keys| - 1])
      case Err(e) => Err(e)
      case Ok(done) => ParentStep(paths, done, keys[|keys| - 1])
  }

  predicate KeysPresent(l: Links) { forall i :: 0 <= i < |l.keys| ==> l.keys[i] in l.nodes }

  lemma IdStepKeys(l: Links, raw: Node)
    requires KeysPresent(l)
    ensures IdStep(l, raw).Ok? ==> KeysPresent(IdStep(l, raw).value)
  {
  }

  lemma {:induction false} IdPassKeys(raws: seq<Node>)
    ensures IdPass(raws).Ok? ==> KeysPresent(IdPass(raws).value)
  {
    if raws != [] {
      var front := IdPass(raws[..|raws| - 1]);
      IdPassKeys(raws[..|raws| - 1]);
      if front.Ok? { IdStepKeys(front.value, raws[|raws| - 1]); }
    }
  }

  // Both passes: nodes, paths and root of the scene.
  function Link(raws: seq<Node>): Result<Links>
  {
    match IdPass(raws)
    case Err(e) => Err(e)
    case Ok(l) =>
      IdPassKeys(raws);
      match ParentPass(l.paths, l.nodes, l.keys)
      case Err(e) => Err(e)
      case Ok(nodes) => Ok(l.(nodes := nodes))
  }

  method AssignIds(raws: seq<Node>) returns (r: Result<Links>)
    ensures r == IdPass(raws)
  {
    var l := NO_LINKS;
    for i := 0 to |raws|
      invariant IdPass(raws[..i]) == Ok(l)
    {
      assert raws[..i + 1][..i] == raws[..i];
      var raw := raws[i];
      if raw.id == UNASSIGNED { IdPassFails(raws, i + 1); return Err(RandomIdNeeded); }
      var identified := IdentifyNode(l, raw);
      if identified.Err? { IdPassFails(raws, i + 1); return Err(identified.error); }
      var n := identified.value;
      if n.id in l.nodes { IdPassFails(raws, i + 1); return Err(DuplicateNode); }
      var paths, root := l.paths, l.root;
      if raw.fallback.None? {
        root, paths := Some(n.id), paths["." := n.id];
      } else {
        paths := paths[Under(raw.fallback.value, raw.name) := n.id];
      }
      l := Links(l.nodes[n.id := n], l.keys + [n.id], paths, root);
    }
    assert raws[..|raws|] == raws;
    r := Ok(l);
  }

  method AssignParents(paths: map<string, NodeId>, start: map<NodeId, Node>, keys: seq<NodeId>) returns (r: Result<map<NodeId, Node>>)
    requires forall i :: 0 <= i < |keys| ==> keys[i] in start
    ensures r == ParentPass(paths, start, keys)
  {
    var nodes := start;
    for i := 0 to |keys|
      invariant ParentPass(paths, start, keys[..i]) == Ok(nodes)
    {
      assert keys[..i + 1][..i] == keys[..i];
      var k := keys[i];
      ghost var next := ParentStep(paths, nodes, k);
      assert ParentPass(paths, start, keys[..i + 1]) == next;
      var adopted := AdoptNode(paths, nodes[k]);
      if adopted.Err? { ParentPassFails(paths, start, keys, i + 1); return Err(adopted.error); }
      var n := adopted.value;
      var after := nodes[k := n];
      if n.parent.Some? {
        var p := n.parent.value;
        if p !in after { ParentPassFails(paths, start, keys, i + 1); return Err(NoParent); }
        after := after[p := after[p].(children := after[p].children + [k])];
      }
      assert next == Ok(after);
      nodes := after;
    }
    assert keys[..|keys|] == keys;
    r := Ok(nodes);
  }

  method LinkNodes(raws: seq<Node>) returns (r: Result<Links>)
    ensures r == Link(raws)
  {
    var ids := AssignIds(raws);
    if ids.Err? { return Err(ids.error); }
    IdPassKeys(raws);
    var l := ids.value;
    var nodes := AssignParents(l.paths, l.nodes, l.keys);
    if nodes.Err? { return Err(nodes.error); }
    r := Ok(l.(nodes := nodes.value));
  }

  lemma {:induction false} IdPassFails(raws: seq<Node>, n: nat)
    requires n <= |raws| && IdPass(raws[..n]).Err?
    ensures IdPass(raws) == IdPass(raws[..n])
    decreases |raws|
  {
    if n < |raws| {
      var front := raws[..|raws| - 1];
      assert front[..n] == raws[..n];
      IdPassFails(front, n);
    } else {
      assert raws[..n] == raws;
    }
  }

  lemma {:induction false} ParentPassFails(paths: map<string, NodeId>, nodes: map<NodeId, Node>, keys: seq<NodeId>, n: nat)
    requires forall i :: 0 <= i < |keys| ==> keys[i] in nodes
    requires n <= |keys| && ParentPass(paths, nodes, keys[..n]).Err?
    ensures ParentPass(paths, nodes, keys) == ParentPass(paths, nodes, keys[..n])
    decreases |keys|
  {
    if n < |keys| {
      var front := keys[..|keys| - 1];
      assert front[..n] == keys[..n];
      ParentPassFails(paths, nodes, front, n);
    } else {
      assert keys[..n] == keys;
    }
  }

  // ---------- connections ----------

  datatype RawConnection = RawConnection(from: string, to: string, connection: Connection)

  predicate ContainsTemporary(path: string)
  {
    exists i :: 0 <= i < |path| - 1 && path[i] == '/' && path[i + 1] == '@'
  }

  // Connections to editor-made nodes are dropped; other unknown paths are an error.
  predicate IsTemporary(path: string)
  {
    (path != "" && path[0] == '@') || ContainsTemporary(path)
  }

  function Resolve(paths: map<string, NodeId>, done: map<string, Connection>, raw: RawConnection): Result<map<string, Connection>>
  {
    if raw.from !in paths then (if IsTemporary(raw.from) then Ok(done) else Err(UnknownNode))
    else if raw.to !in paths then (if IsTemporary(raw.to) then Ok(done) else Err(UnknownNode))
    else
      var c := raw.connection.(from := paths[raw.from], to := paths[raw.to]);
      Ok(done[ConnectionId(c) := c])
  }

  function ResolveAll(paths: map<string, NodeId>, raws: seq<RawConnection>): Result<map<string, Connection>>
  {
    if raws == [] then Ok(map[])
    else
      match ResolveAll(paths, raws[..|raws| - 1])
      case Err(e) => Err(e)
      case Ok(done) => Resolve(paths, done, raws[|raws| - 1])
  }
}
