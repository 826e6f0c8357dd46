// Which texts the parser accepts: for every sequence of sections, exactly the conditions under
// which each stage goes through, and which connections are kept.

module SceneVerdict {
  import opened Text
  import opened SceneModel
  import opened SceneTree
  import opened ScenePreorder
  import opened SceneLinks
  import opened SceneSections
  import opened SceneParsed
  import opened SceneText
  import opened SceneInstances
  import SceneAccepted

  // ---------- attributes ----------

  predicate Has(a: seq<(Key, string)>, key: Key)
  {
    exists i :: 0 <= i < |a| && a[i].0 == key
  }

  // The last attribute with this key has this value.
  predicate LastAt(a: seq<(Key, string)>, key: Key, i: nat, v: string)
  {
    i < |a| && a[i] == (key, v) && forall j :: i < j < |a| ==> a[j].0 != key
  }

  ghost predicate FoundAs(a: seq<(Key, string)>, key: Key, found: Option<string>)
  {
    match found
    case None => !Has(a, key)
    case Some(v) => Has(a, key) && exists i: nat :: LastAt(a, key, i, v)
  }

  // Of an attribute that is given several times the last one counts.
  lemma {:induction false} LastCounts(a: seq<(Key, string)>, key: Key)
    ensures FoundAs(a, key, Lookup(a, key))
  {
    if a != [] {
      var front, last := a[..|a| - 1], a[|a| - 1];
      LastCounts(front, key);
      AttributeNext(front, last, key, Lookup(front, key));
      assert a == front + [last];
    }
  }

  lemma AttributeNext(front: seq<(Key, string)>, last: (Key, string), key: Key, found: Option<string>)
    requires FoundAs(front, key, found)
    ensures FoundAs(front + [last], key, if last.0 == key then Some(last.1) else found)
  {
    var a := front + [last];
    if last.0 == key {
      assert LastAt(a, key, |front|, last.1);
    } else if found.Some? {
      var i: nat :| LastAt(front, key, i, found.value);
      assert LastAt(a, key, i, found.value) && a[i].0 == key;
    }
  }

  // ---------- sections ----------

  predicate HasNumber(a: seq<(Key, string)>, key: Key)
  {
    Has(a, key) && LookupI64(a, key).Some?
  }

  // What each kind of section must have.
  predicate Readable(s: Section)
  {
    var a := s.attributes;
    && Captured(a)
    && match s.kind
       case GdScene => HasNumber(a, Format) && Has(a, Uid)
       case GdResource => HasNumber(a, Format) && Has(a, Uid) && Has(a, TypeKey)
       case NodeSection => Has(a, Name) && ArrayReadable(a, ParentIdPath) && ArrayReadable(a, OwnerUidPath)
       case ExtResourceSection => Has(a, TypeKey) && Has(a, Path) && Has(a, Id)
       case SubResourceSection => Has(a, Id) && Has(a, TypeKey)
       case ConnectionSection =>
         Has(a, Signal) && Has(a, From) && Has(a, To) && Has(a, Method) && ArrayReadable(a, FromUidPath) && ArrayReadable(a, ToUidPath)
       case EditableSection => Has(a, Path)
       case ResourceSection => true
       case OtherSection(_) => true
  }

  predicate IsHeader(s: Section) { s.kind == GdScene || s.kind == GdResource }

  ghost predicate Presence(a: seq<(Key, string)>) { forall key :: Lookup(a, key).Some? <==> Has(a, key) }

  lemma AllPresence(a: seq<(Key, string)>)
    ensures Presence(a)
  {
    forall key ensures Lookup(a, key).Some? <==> Has(a, key) { LastCounts(a, key); }
  }

  lemma ReadsHeaderWhen(s: Section)
    requires Captured(s.attributes) && Presence(s.attributes) && IsHeader(s)
    ensures ReadHeader(s).Ok? <==> Readable(s)
  {
  }

  lemma ReadsNodeWhen(s: Section)
    requires Captured(s.attributes) && Presence(s.attributes) && s.kind == NodeSection
    ensures ReadNode(s).Ok? <==> Readable(s)
  {
  }

  lemma ReadsResourceWhen(s: Section, idx: int)
    requires Captured(s.attributes) && Presence(s.attributes)
    ensures s.kind == ExtResourceSection ==> (ReadExt(s, idx).Ok? <==> Readable(s))
    ensures s.kind == SubResourceSection ==> (ReadSub(s, idx).Ok? <==> Readable(s))
  {
  }

  lemma ReadsConnectionWhen(s: Section)
    requires Captured(s.attributes) && Presence(s.attributes) && s.kind == ConnectionSection
    ensures ReadConnection(s).Ok? <==> Readable(s)
  {
  }

  lemma ReadsOne(p: Parsed, s: Section)
    ensures ReadSection(p, s).Ok? <==> Readable(s)
    ensures ReadSection(p, s).Ok? ==> (ReadSection(p, s).value.meta.Some? <==> p.meta.Some? || IsHeader(s))
  {
    AllPresence(s.attributes);
    if Captured(s.attributes) {
      match s.kind
      case GdScene => ReadsHeaderWhen(s);
      case GdResource => ReadsHeaderWhen(s);
      case NodeSection => ReadsNodeWhen(s);
      case ExtResourceSection => ReadsResourceWhen(s, p.extIdx);
      case SubResourceSection => ReadsResourceWhen(s, p.subIdx);
      case ConnectionSection => ReadsConnectionWhen(s);
      case _ =>
    }
  }

  predicate AllReadable(sections: seq<Section>) { forall i :: 0 <= i < |sections| ==> Readable(sections[i]) }

  predicate HasHeader(sections: seq<Section>) { exists i :: 0 <= i < |sections| && IsHeader(sections[i]) }

  // The section loop goes through exactly when every section can be read.
  lemma {:induction false} ReadsExactly(sections: seq<Section>)
    ensures ReadAll(sections).Ok? <==> AllReadable(sections)
    ensures ReadAll(sections).Ok? ==> (ReadAll(sections).value.meta.Some? <==> HasHeader(sections))
  {
    if sections != [] {
      var front, last := sections[..|sections| - 1], sections[|sections| - 1];
      ReadsExactly(front);
      assert sections == front + [last];
      if ReadAll(front).Ok? {
        ReadsOne(ReadAll(front).value, last);
        HeaderSnoc(front, last);
      }
    }
  }

  lemma HeaderSnoc(front: seq<Section>, last: Section)
    ensures HasHeader(front + [last]) <==> HasHeader(front) || IsHeader(last)
  {
    if HasHeader(front) {
      var i :| 0 <= i < |front| && IsHeader(front[i]);
      assert (front + [last])[i] == front[i];
    }
    assert (front + [last])[|front|] == last;
  }

  // ---------- identifiers ----------

  // The node has a usable number, and an edited one a parent path that leads somewhere: to the
  // root, to nothing because it brings its own instance path, or to nodes with recorded paths all
  // the way up to an instance path or the root.
  ghost predicate Identifiable(l: Links, raw: Node)
  {
    && raw.id != UNASSIGNED
    && (IsEdited(raw) ==>
          || raw.fallback == Some(".")
          || (raw.parentIdPath.Some? && raw.parentIdPath.value != [])
          || (raw.fallback.Some? && raw.fallback.value != "" && exists chain :: NodesAbove(l, raw.fallback.value, chain)))
  }

  lemma IdentifiesExactly(l: Links, raw: Node)
    requires PathsLead(l)
    ensures raw.id != UNASSIGNED && Identify(l, raw).Ok? <==> Identifiable(l, raw)
  {
    if IsEdited(raw) && raw.fallback.Some? && ByParentPath(raw, raw.fallback.value) {
      var path := raw.fallback.value;
      if Identify(l, raw).Ok? { var chain := IdentifiedAbove(l, raw, path); }
      if chain :| NodesAbove(l, path, chain) { InstancePathOf(l, raw, path, chain); }
    }
  }

  lemma StepsExactly(l: Links, raw: Node)
    requires PathsLead(l)
    ensures IdStep(l, raw).Ok? <==> Identifiable(l, raw) && (Identify(l, raw).Ok? ==> Identify(l, raw).value.id !in l.nodes)
  {
    IdentifiesExactly(l, raw);
  }

  // Node `i` can be identified after the nodes before it, and its identifier is new.
  ghost predicate IdentifiedAt(raws: seq<Node>, i: nat)
    requires i < |raws|
  {
    match IdPass(raws[..i])
    case Err(_) => false
    case Ok(l) => Identifiable(l, raws[i]) && (Identify(l, raws[i]).Ok? ==> Identify(l, raws[i]).value.id !in l.nodes)
  }

  ghost predicate AllIdentified(raws: seq<Node>) { forall i :: 0 <= i < |raws| ==> IdentifiedAt(raws, i) }

  lemma {:induction false} IdsExactly(raws: seq<Node>)
    requires forall i :: 0 <= i < |raws| ==> raws[i].parent == None
    ensures IdPass(raws).Ok? <==> AllIdentified(raws)
  {
    if raws != [] {
      var n := |raws| - 1;
      IdsExactly(raws[..n]);
      forall i | 0 <= i < n ensures IdentifiedAt(raws, i) == IdentifiedAt(raws[..n], i) { assert raws[..n][..i] == raws[..i]; }
      if IdPass(raws[..n]).Ok? {
        IdPassNests(raws[..n]);
        StepsExactly(IdPass(raws[..n]).value, raws[n]);
      } else {
        assert !IdentifiedAt(raws, n);
      }
      assert AllIdentified(raws) <==> AllIdentified(raws[..n]) && IdentifiedAt(raws, n);
    }
  }

  // ---------- parents ----------

  // After `i` elements have been dropped from the path it is recorded, and not before.
  predicate NearestAt(paths: map<string, NodeId>, path: string, i: nat)
  {
    && Popped(path, i) != "" && Popped(path, i) in paths
    && forall j: nat :: j < i ==> Popped(path, j) !in paths
  }

  lemma {:induction false} PoppedNone(i: nat)
    ensures Popped("", i) == ""
  {
    if i > 0 { PoppedNone(i - 1); }
  }

  lemma NearestAbove(paths: map<string, NodeId>, path: string)
    requires path != "" && path !in paths
    ensures forall i: nat :: i > 0 ==> (NearestAt(paths, path, i) <==> NearestAt(paths, Pop(path), i - 1))
    ensures !NearestAt(paths, path, 0)
  {
    forall i: nat | i > 0 ensures NearestAt(paths, path, i) <==> NearestAt(paths, Pop(path), i - 1) { AboveAt(paths, path, i); }
    assert Popped(path, 0) == path;
  }

  lemma AboveAt(paths: map<string, NodeId>, path: string, i: nat)
    requires path != "" && path !in paths && i > 0
    ensures NearestAt(paths, path, i) <==> NearestAt(paths, Pop(path), i - 1)
  {
    assert Popped(path, 0) == path;
    forall j: nat ensures Popped(path, j + 1) == Popped(Pop(path), j) { }
    if NearestAt(paths, path, i) {
      forall j: nat | j < i - 1 ensures Popped(Pop(path), j) !in paths { assert Popped(path, j + 1) !in paths; }
    }
    if NearestAt(paths, Pop(path), i - 1) {
      forall j: nat | j < i ensures Popped(path, j) !in paths {
        if j > 0 { assert Popped(path, j) == Popped(Pop(path), j - 1); }
      }
    }
  }

  // The nearest recorded prefix, if some prefix is recorded.
  lemma {:induction false} NearestExactly(paths: map<string, NodeId>, path: string)
    ensures match NearestRecorded(paths, path)
            case None => forall i: nat :: !NearestAt(paths, path, i)
            case Some(k) => exists i: nat :: NearestAt(paths, path, i) && paths[Popped(path, i)] == k
    decreases |path|
  {
    if path == "" {
      forall i: nat ensures !NearestAt(paths, path, i) { PoppedNone(i); }
    } else if path in paths {
      assert Popped(path, 0) == path;
      assert NearestAt(paths, path, 0);
    } else {
      NearestExactly(paths, Pop(path));
      NearestAbove(paths, path);
      NearestShift(paths, path);
    }
  }

  lemma NearestShift(paths: map<string, NodeId>, path: string)
    requires path != "" && path !in paths
    ensures forall i: nat :: NearestAt(paths, Pop(path), i) ==> NearestAt(paths, path, i + 1) && Popped(path, i + 1) == Popped(Pop(path), i)
  {
    forall i: nat | NearestAt(paths, Pop(path), i) ensures NearestAt(paths, path, i + 1) && Popped(path, i + 1) == Popped(Pop(path), i) {
      AboveAt(paths, path, i + 1);
    }
  }

  // A node that names a parent path finds some prefix of it recorded; a known parent is a node.
  ghost predicate ParentKnown(l: Links, k: NodeId)
    requires k in l.nodes
  {
    var n := l.nodes[k];
    match n.parent
    case Some(p) => p in l.nodes
    case None => n.fallback.Some? ==> n.fallback.value in l.paths || exists i: nat :: NearestAt(l.paths, n.fallback.value, i)
  }

  lemma AdoptsExactly(l: Links, k: NodeId)
    requires PathsLead(l) && k in l.nodes
    ensures Adoptable(l.paths, l.nodes, k) <==> ParentKnown(l, k)
  {
    var n := l.nodes[k];
    if n.parent.None? && n.fallback.Some? {
      NearestExactly(l.paths, n.fallback.value);
    }
  }

  ghost predicate ParentsKnown(l: Links) { forall k :: k in l.nodes ==> ParentKnown(l, k) }

  // Where every node finds its parent the second pass goes through, and only there.
  lemma {:induction false} ParentsFound(paths: map<string, NodeId>, nodes: map<NodeId, Node>, keys: seq<NodeId>)
    requires NoDuplicates(keys) && (forall k :: k in nodes ==> nodes[k].children == [])
    requires forall i :: 0 <= i < |keys| ==> keys[i] in nodes && Adoptable(paths, nodes, keys[i])
    ensures ParentPass(paths, nodes, keys).Ok?
  {
    if keys != [] {
      var front, last := keys[..|keys| - 1], keys[|keys| - 1];
      ParentsFound(paths, nodes, front);
      ParentPassPlaces(paths, nodes, front);
      assert Adoptable(paths, nodes, last);
      AdoptKeepsChildren(paths, nodes[last], KidsOf(paths, nodes, front, last));
    }
  }

  ghost predicate Fresh(l: Links)
  {
    && NoDuplicates(l.keys) && (forall k :: k in l.nodes <==> k in l.keys)
    && (forall k :: k in l.nodes ==> l.nodes[k].children == [])
    && PathsLead(l)
  }

  lemma ParentsExactly(l: Links)
    requires Fresh(l) && forall i :: 0 <= i < |l.keys| ==> l.keys[i] in l.nodes
    ensures ParentPass(l.paths, l.nodes, l.keys).Ok? <==> ParentsKnown(l)
  {
    forall k | k in l.nodes ensures Adoptable(l.paths, l.nodes, k) <==> ParentKnown(l, k) { AdoptsExactly(l, k); }
    if ParentsKnown(l) {
      forall i | 0 <= i < |l.keys| ensures Adoptable(l.paths, l.nodes, l.keys[i]) { assert ParentKnown(l, l.keys[i]); }
      ParentsFound(l.paths, l.nodes, l.keys);
    }
    if ParentPass(l.paths, l.nodes, l.keys).Ok? {
      ParentPassPlaces(l.paths, l.nodes, l.keys);
      forall k | k in l.nodes ensures ParentKnown(l, k) { assert k in l.keys && Adoptable(l.paths, l.nodes, k); }
    }
  }

  // ---------- connections ----------

  predicate StartsWithAt(element: string) { element != "" && element[0] == '@' }

  // Some element of the path starts with an at sign: a node the editor made for itself.
  predicate Temporary(path: string)
  {
    exists i :: 0 <= i < |Split(path, '/')| && StartsWithAt(Split(path, '/')[i])
  }

  predicate LaterTemporary(parts: seq<string>) { exists i :: 0 < i < |parts| && StartsWithAt(parts[i]) }

  lemma SplitHead(path: string)
    ensures StartsWithAt(Split(path, '/')[0]) <==> StartsWithAt(path)
  {
  }

  lemma ContainsStep(path: string)
    requires path != ""
    ensures ContainsTemporary(path) <==> (path[0] == '/' && StartsWithAt(path[1..])) || ContainsTemporary(path[1..])
  {
    var rest := path[1..];
    if i :| 0 <= i < |path| - 1 && path[i] == '/' && path[i + 1] == '@' {
      if i > 0 { assert rest[i - 1] == '/' && rest[i] == '@'; }
    }
    if i :| 0 <= i < |rest| - 1 && rest[i] == '/' && rest[i + 1] == '@' { assert path[i + 1] == '/' && path[i + 2] == '@'; }
  }

  lemma PartsStep(parts: seq<string>, rest: seq<string>, first: string)
    requires rest != []
    ensures parts == [first] + rest ==> (LaterTemporary(parts) <==> StartsWithAt(rest[0]) || LaterTemporary(rest))
    ensures parts == [first] + rest[1..] ==> (LaterTemporary(parts) <==> LaterTemporary(rest))
  {
    if parts == [first] + rest { assert forall i :: 0 <= i < |rest| ==> parts[i + 1] == rest[i]; }
    if parts == [first] + rest[1..] { assert forall i :: 0 < i < |rest| ==> parts[i] == rest[i]; }
  }

  lemma {:induction false} ContainsMeans(path: string)
    ensures ContainsTemporary(path) <==> LaterTemporary(Split(path, '/'))
  {
    if path != "" {
      var parts, rest := Split(path, '/'), Split(path[1..], '/');
      ContainsMeans(path[1..]);
      ContainsStep(path);
      SplitHead(path[1..]);
      PartsStep(parts, rest, parts[0]);
      if path[0] == '/' { assert parts == [parts[0]] + rest; } else { assert parts == [parts[0]] + rest[1..]; }
    }
  }

  lemma TemporaryMeans(path: string)
    ensures IsTemporary(path) <==> Temporary(path)
  {
    ContainsMeans(path);
    SplitHead(path);
  }

  predicate Known(paths: map<string, NodeId>, raw: RawConnection) { raw.from in paths && raw.to in paths }

  // The first end that is not known is temporary.
  predicate Ignored(paths: map<string, NodeId>, raw: RawConnection)
  {
    !Known(paths, raw) && Temporary(if raw.from !in paths then raw.from else raw.to)
  }

  function Made(paths: map<string, NodeId>, raw: RawConnection): Connection
    requires Known(paths, raw)
  {
    raw.connection.(from := paths[raw.from], to := paths[raw.to])
  }

  predicate LastMade(paths: map<string, NodeId>, raws: seq<RawConnection>, i: nat, key: string, c: Connection)
  {
    && i < |raws| && Known(paths, raws[i]) && c == Made(paths, raws[i]) && key == ConnectionId(c)
    && forall j :: i < j < |raws| && Known(paths, raws[j]) ==> ConnectionId(Made(paths, raws[j])) != key
  }

  predicate AllResolved(paths: map<string, NodeId>, raws: seq<RawConnection>)
  {
    forall i :: 0 <= i < |raws| ==> Known(paths, raws[i]) || Ignored(paths, raws[i])
  }

  // What is kept under a key: the last connection with both ends known, if there is one.
  ghost predicate KeptUnder(paths: map<string, NodeId>, raws: seq<RawConnection>, m: map<string, Connection>, key: string)
  {
    if key in m then exists i: nat :: LastMade(paths, raws, i, key, m[key])
    else forall i :: 0 <= i < |raws| && Known(paths, raws[i]) ==> ConnectionId(Made(paths, raws[i])) != key
  }

  // Connections are kept exactly when both ends are known, the last one under each key; others
  // are ignored or, unless they are temporary, an error.
  lemma {:induction false} ConnectionsExactly(paths: map<string, NodeId>, raws: seq<RawConnection>)
    ensures ResolveAll(paths, raws).Ok? <==> AllResolved(paths, raws)
    ensures ResolveAll(paths, raws).Ok? ==> forall key :: KeptUnder(paths, raws, ResolveAll(paths, raws).value, key)
  {
    if raws != [] {
      var front, last := raws[..|raws| - 1], raws[|raws| - 1];
      ConnectionsExactly(paths, front);
      assert raws == front + [last];
      ResolvedSnoc(paths, front, last);
      ResolvesOne(paths, map[], last);
      if ResolveAll(paths, front).Ok? {
        var done := ResolveAll(paths, front).value;
        ResolvesOne(paths, done, last);
        if Resolve(paths, done, last).Ok? {
          forall key ensures KeptUnder(paths, raws, Resolve(paths, done, last).value, key) { MadeNext(paths, front, last, done, key); }
        }
      }
    }
  }

  lemma ResolvesOne(paths: map<string, NodeId>, done: map<string, Connection>, raw: RawConnection)
    ensures Resolve(paths, done, raw).Ok? <==> Known(paths, raw) || Ignored(paths, raw)
  {
    TemporaryMeans(raw.from);
    TemporaryMeans(raw.to);
  }

  lemma ResolvedSnoc(paths: map<string, NodeId>, front: seq<RawConnection>, last: RawConnection)
    ensures AllResolved(paths, front + [last]) <==> AllResolved(paths, front) && (Known(paths, last) || Ignored(paths, last))
  {
    var raws := front + [last];
    assert raws[|front|] == last;
    assert forall i :: 0 <= i < |front| ==> raws[i] == front[i];
  }

  lemma MadeNext(paths: map<string, NodeId>, front: seq<RawConnection>, last: RawConnection, done: map<string, Connection>, key: string)
    requires Resolve(paths, done, last).Ok? && KeptUnder(paths, front, done, key)
    ensures KeptUnder(paths, front + [last], Resolve(paths, done, last).value, key)
  {
    var raws := front + [last];
    if Known(paths, last) && ConnectionId(Made(paths, last)) == key {
      assert LastMade(paths, raws, |front|, key, Made(paths, last));
    } else if key in done {
      var i: nat :| LastMade(paths, front, i, key, done[key]);
      assert LastMade(paths, raws, i, key, done[key]);
    }
  }

  // ---------- the whole text ----------

  // The conditions a text has to meet, one stage after the other.
  ghost predicate Acceptable(sections: seq<Section>)
  {
    && AllReadable(sections) && HasHeader(sections)
    && match ReadAll(sections)
       case Err(_) => false
       case Ok(p) =>
         && AllIdentified(p.raws)
         && match IdPass(p.raws)
            case Err(_) => false
            case Ok(l) => ParentsKnown(l) && AllResolved(l.paths, p.connections)
  }

  lemma AcceptsExactly(sections: seq<Section>)
    ensures Parse(sections).Ok? <==> Acceptable(sections)
  {
    ReadsExactly(sections);
    if ReadAll(sections).Ok? {
      var p := ReadAll(sections).value;
      SceneAccepted.ReadAllOk(sections);
      assert forall i :: 0 <= i < |p.raws| ==> RawOk(p.raws[i]);
      IdsExactly(p.raws);
      if IdPass(p.raws).Ok? {
        var l := IdPass(p.raws).value;
        FreshLinks(p.raws);
        ParentsExactly(l);
        ConnectionsExactly(l.paths, p.connections);
      }
    }
  }

  lemma FreshLinks(raws: seq<Node>)
    requires RawsOk(raws) && IdPass(raws).Ok?
    ensures Fresh(IdPass(raws).value) && KeysPresent(IdPass(raws).value)
  {
    var l := IdPass(raws).value;
    IdPassKeys(raws);
    IdPassGives(raws);
    IdPassNests(raws);
    forall k | k in l.nodes ensures l.nodes[k].children == [] {
      assert k in l.keys;
      var i :| 0 <= i < |l.keys| && l.keys[i] == k;
      assert IdentifiedFrom(raws[..i], l.keys[..i], raws[i], l.nodes[k]);
      assert RawOk(raws[i]);
    }
  }
}
