// A scene in a document: its nodes are kept under their printed identifiers, and reading them
// back parses these keys and renames siblings that share a name.

module SceneStore {
  import opened Text
  import opened SceneModel
  import opened SceneCodec
  import opened SiblingNames
  import opened Sets

  // ---------- printed keys ----------

  predicate KeyReadable(k: NodeId)
  {
    AllI32(IdNumbers(k)) && NonNegative(IdNumbers(k)) && k.rootInstance != Some([])
  }

  lemma {:induction false} WideNumbers(ns: seq<int>)
    requires !AllI32(ns)
    ensures ReadNumbers(PrintNumbers(ns)) == None
  {
    assert PrintNumbers(ns)[1..] == PrintNumbers(ns[1..]);
    PrintReadInt(ns[0]);
    if IsI32(ns[0]) {
      var i :| 0 <= i < |ns| && !IsI32(ns[i]);
      assert ns[1..][i - 1] == ns[i];
      WideNumbers(ns[1..]);
    }
  }

  // Splitting a printed identifier without negative numbers gives its numbers.
  lemma PrintedNumbers(k: NodeId)
    requires NonNegative(IdNumbers(k))
    ensures Split(PrintNodeId(k), '-') == PrintNumbers(IdNumbers(k))
  {
    var ns := IdNumbers(k);
    forall i | 0 <= i < |ns| ensures Lacks(PrintNumbers(ns)[i], '-') { PrintedChars(ns[i]); }
    SplitJoin(PrintNumbers(ns), '-');
  }

  // A printed identifier is read back as itself if it is readable, and otherwise not at all, or
  // as the identifier without the empty instance path.
  lemma ReadPrintedKey(k: NodeId)
    ensures ReadNodeId(PrintNodeId(k)) == Some(k) <==> KeyReadable(k)
    ensures match ReadNodeId(PrintNodeId(k)) case None => true case Some(n) => PrintNodeId(n) == PrintNodeId(k)
    ensures ReadNodeId(PrintNodeId(k)) != Some(k) ==> ReadNodeId(PrintNodeId(k)) == None || k.rootInstance == Some([])
  {
    var ns := IdNumbers(k);
    if !NonNegative(ns) {
      NegativeKey(k);
    } else {
      PrintedNumbers(k);
      if AllI32(ns) {
        ReadPrintedNumbers(ns);
        var n := NodeId(ns[0], if |ns| > 1 then Some(ns[1..]) else None);
        assert ns == [ns[0]] + ns[1..];
        assert IdNumbers(n) == ns;
        if k.rootInstance.Some? { assert ns[1..] == k.rootInstance.value; }
      } else {
        WideNumbers(ns);
      }
    }
  }

  lemma NegativeKey(k: NodeId)
    requires !NonNegative(IdNumbers(k))
    ensures ReadNodeId(PrintNodeId(k)) == None
  {
    var i :| 0 <= i < |IdNumbers(k)| && IdNumbers(k)[i] < 0;
    NegativeSplits(IdNumbers(k), i);
    var parts := Split(PrintNodeId(k), '-');
    var j :| 0 <= j < |parts| && parts[j] == "";
    EmptyPart(parts, j);
  }

  // ---------- storing ----------

  // Keys as they are written: one that can be read is the print of what it is read as.
  predicate CanonicalKeys(m: map<string, Node>)
  {
    forall key :: key in m ==> CanonicalKey(key)
  }

  predicate CanonicalKey(key: string)
  {
    match ReadNodeId(key) case None => true case Some(k) => PrintNodeId(k) == key
  }

  type KeyedNodes = m: map<string, Node> | CanonicalKeys(m) witness map[]

  // The nodes of a scene under their printed keys, and everything else as it is.
  datatype Stored = Stored(rest: Scene, nodes: KeyedNodes)

  // Of several nodes with the same key one is kept.
  ghost predicate KeyedBy(nodes: Nodes, m: map<string, Node>)
  {
    && (forall k :: k in nodes ==> PrintNodeId(k) in m)
    && (forall key :: key in m ==> HasKey(nodes, key, m[key]))
  }

  ghost predicate HasKey(nodes: Nodes, key: string, n: Node)
  {
    exists k :: k in nodes && PrintNodeId(k) == key && n == nodes[k]
  }

  ghost predicate Stores(s: Scene, st: Stored)
  {
    st.rest == s.(nodes := map[]) && KeyedBy(s.nodes, st.nodes)
  }

  method ReconcileNodes(nodes: Nodes) returns (m: KeyedNodes)
    ensures KeyedBy(nodes, m)
  {
    m := map[];
    var rest := nodes.Keys;
    while rest != {}
      invariant rest <= nodes.Keys && KeyedSoFar(nodes, rest, m)
      decreases rest
    {
      var k := Any(rest);
      KeyedNext(nodes, rest, m, k);
      rest := rest - {k};
      m := m[PrintNodeId(k) := nodes[k]];
    }
  }

  ghost predicate KeyedSoFar(nodes: Nodes, rest: set<NodeId>, m: map<string, Node>)
  {
    && (forall k :: k in nodes && k !in rest ==> PrintNodeId(k) in m)
    && (forall key :: key in m ==> HasKey(nodes, key, m[key]))
  }

  lemma KeyedNext(nodes: Nodes, rest: set<NodeId>, m: KeyedNodes, k: NodeId)
    requires k in nodes && KeyedSoFar(nodes, rest, m)
    ensures KeyedSoFar(nodes, rest - {k}, m[PrintNodeId(k) := nodes[k]]) && CanonicalKeys(m[PrintNodeId(k) := nodes[k]])
  {
    ReadPrintedKey(k);
    assert CanonicalKey(PrintNodeId(k));
    assert HasKey(nodes, PrintNodeId(k), nodes[k]);
  }

  method StoreScene(s: Scene) returns (st: Stored)
    ensures Stores(s, st)
  {
    var nodes := ReconcileNodes(s.nodes);
    st := Stored(s.(nodes := map[]), nodes);
  }

  // ---------- reading ----------

  function ReadId(key: string): NodeId
  {
    match ReadNodeId(key) case None => UNASSIGNED case Some(k) => k
  }

  // None: some key cannot be read, and the source panics.
  function ReadKeys(m: KeyedNodes): Option<Nodes>
  {
    if forall key :: key in m ==> ReadNodeId(key).Some? then Some(map key | key in m :: ReadId(key) := m[key]) else None
  }

  // The order in which one read visits the nodes.
  type Order = Nodes -> seq<NodeId>

  ghost predicate OrderOk(order: Order)
  {
    forall nodes: Nodes :: Handled(nodes, order(nodes), {})
  }

  // None: a key cannot be read, or the number of a name overflows.
  function ReadStored(order: Order, st: Stored): Option<Scene>
    requires OrderOk(order)
  {
    match ReadKeys(st.nodes)
    case None => None
    case Some(nodes) =>
      match RenameAll(nodes, order(nodes))
      case None => None
      case Some(renamed) => Some(st.rest.(nodes := renamed))
  }

  // ---------- what survives ----------

  ghost predicate KeysReadable(nodes: Nodes)
  {
    forall k :: k in nodes ==> KeyReadable(k)
  }

  // No node finds its own name taken among its siblings.
  predicate Unclashed(nodes: Nodes)
  {
    forall k :: k in nodes ==> nodes[k].name !in Taken(nodes, Kids(nodes, k), k)
  }

  ghost predicate Survives(s: Scene)
  {
    KeysReadable(s.nodes) && Unclashed(s.nodes)
  }

  // What is read under an identifier was stored under its key.
  lemma ReadHas(m: KeyedNodes, k: NodeId)
    requires ReadKeys(m).Some? && k in ReadKeys(m).value
    ensures PrintNodeId(k) in m && ReadNodeId(PrintNodeId(k)) == Some(k) && ReadKeys(m).value[k] == m[PrintNodeId(k)]
  {
    var key :| key in m && ReadId(key) == k;
    assert CanonicalKey(key);
  }

  lemma ReadFrom(m: KeyedNodes, key: string)
    requires ReadKeys(m).Some? && key in m
    ensures ReadId(key) in ReadKeys(m).value
  {
  }

  // The three maps below agree on keys that are written and read by the given functions.
  ghost predicate WrittenAs(write: NodeId -> string, read: string -> Option<NodeId>, nodes: Nodes, m: map<string, Node>)
  {
    && (forall key :: key in m ==> read(key).Some? && read(key).value in nodes && m[key] == nodes[read(key).value])
    && (forall k :: k in nodes ==> write(k) in m && read(write(k)) == Some(k))
  }

  ghost predicate ReadAs(write: NodeId -> string, read: string -> Option<NodeId>, m: map<string, Node>, back: Nodes)
  {
    && (forall k :: k in back ==> write(k) in m && read(write(k)) == Some(k) && back[k] == m[write(k)])
    && (forall key :: key in m && read(key).Some? ==> read(key).value in back)
  }

  lemma WrittenRead(write: NodeId -> string, read: string -> Option<NodeId>, nodes: Nodes, m: map<string, Node>, back: Nodes)
    requires WrittenAs(write, read, nodes, m) && ReadAs(write, read, m, back)
    ensures back == nodes
  {
    assert forall k :: k in back <==> k in nodes;
  }

  lemma KeysReadAs(m: KeyedNodes)
    requires ReadKeys(m).Some?
    ensures ReadAs(PrintNodeId, ReadNodeId, m, ReadKeys(m).value)
  {
    var back := ReadKeys(m).value;
    forall k | k in back ensures PrintNodeId(k) in m && ReadNodeId(PrintNodeId(k)) == Some(k) && back[k] == m[PrintNodeId(k)] { ReadHas(m, k); }
    forall key | key in m && ReadNodeId(key).Some? ensures ReadNodeId(key).value in back { ReadFrom(m, key); }
  }

  lemma KeysWrittenAs(nodes: Nodes, m: KeyedNodes)
    requires KeyedBy(nodes, m) && KeysReadable(nodes)
    ensures WrittenAs(PrintNodeId, ReadNodeId, nodes, m)
  {
    forall key | key in m ensures ReadNodeId(key).Some? && ReadNodeId(key).value in nodes && m[key] == nodes[ReadNodeId(key).value] {
      KeyGives(nodes, m, key);
    }
    forall k | k in nodes ensures PrintNodeId(k) in m && ReadNodeId(PrintNodeId(k)) == Some(k) { ReadPrintedKey(k); }
  }

  lemma KeyGives(nodes: Nodes, m: KeyedNodes, key: string)
    requires KeyedBy(nodes, m) && KeysReadable(nodes) && key in m
    ensures ReadNodeId(key).Some? && ReadNodeId(key).value in nodes && m[key] == nodes[ReadNodeId(key).value]
  {
    assert HasKey(nodes, key, m[key]);
    var k :| k in nodes && PrintNodeId(k) == key && m[key] == nodes[k];
    ReadPrintedKey(k);
  }

  lemma ReadableKeysBack(nodes: Nodes, m: KeyedNodes)
    requires KeyedBy(nodes, m) && KeysReadable(nodes)
    ensures ReadKeys(m) == Some(nodes)
  {
    KeysWrittenAs(nodes, m);
    AllKeysRead(nodes, m);
    KeysReadAs(m);
    WrittenRead(PrintNodeId, ReadNodeId, nodes, m, ReadKeys(m).value);
  }

  lemma AllKeysRead(nodes: Nodes, m: KeyedNodes)
    requires WrittenAs(PrintNodeId, ReadNodeId, nodes, m)
    ensures ReadKeys(m).Some?
  {
  }

  // Reading finds an identifier only if its key is readable.
  lemma ReadOnlyReadable(nodes: Nodes, m: KeyedNodes)
    requires ReadKeys(m).Some? && forall k :: k in nodes ==> k in ReadKeys(m).value
    ensures KeysReadable(nodes)
  {
    forall k | k in nodes ensures KeyReadable(k) {
      ReadHas(m, k);
      ReadPrintedKey(k);
    }
  }

  // The keys of a scene are read back exactly when they are readable.
  lemma ReadKeysBack(nodes: Nodes, m: KeyedNodes)
    requires KeyedBy(nodes, m)
    ensures ReadKeys(m) == Some(nodes) <==> KeysReadable(nodes)
  {
    if KeysReadable(nodes) { ReadableKeysBack(nodes, m); }
    if ReadKeys(m) == Some(nodes) { ReadOnlyReadable(nodes, m); }
  }

  // ---------- renaming ----------

  // A node keeps its name once it has been handled.
  lemma {:induction false} NameSettled(nodes: Nodes, order: seq<NodeId>, n: nat, k: NodeId)
    requires (forall x :: x in order ==> x in nodes) && n <= |order| && k in nodes && RenameAll(nodes, order).Some?
    requires forall i :: n <= i < |order| ==> order[i] != k
    ensures RenameAll(nodes, order[..n]).Some? && RenameAll(nodes, order[..n]).value[k] == RenameAll(nodes, order).value[k]
    decreases |order|
  {
    if n < |order| {
      var front := order[..|order| - 1];
      assert front[..n] == order[..n];
      NameSettled(nodes, front, n, k);
    } else {
      assert order[..n] == order;
    }
  }

  lemma StepSettles(nodes: Nodes, order: seq<NodeId>, i: nat)
    requires Handled(nodes, order, {}) && RenameAll(nodes, order) == Some(nodes) && i < |order|
    requires RenameAll(nodes, order[..i]) == Some(nodes)
    ensures RenameAll(nodes, order[..i + 1]) == Some(nodes)
    ensures nodes[order[i]].name !in Taken(nodes, Kids(nodes, order[i]), order[i])
  {
    var k := order[i];
    NameSettled(nodes, order, i + 1, k);
    assert order[..i + 1][..i] == order[..i] && order[..i + 1][i] == k;
    assert RenameAll(nodes, order[..i + 1]) == RenameOne(nodes, k);
    RenamedSelf(nodes, k);
  }

  lemma RenamedSelf(nodes: Nodes, k: NodeId)
    requires k in nodes && RenameOne(nodes, k).Some? && RenameOne(nodes, k).value[k] == nodes[k]
    ensures RenameOne(nodes, k) == Some(nodes) && nodes[k].name !in Taken(nodes, Kids(nodes, k), k)
  {
    SettleFinds(nodes[k].name, Taken(nodes, Kids(nodes, k), k));
    assert Rename(nodes, k, nodes[k].name) == nodes;
  }

  lemma {:induction false} NothingRenamed(nodes: Nodes, order: seq<NodeId>, i: nat)
    requires Handled(nodes, order, {}) && RenameAll(nodes, order) == Some(nodes) && i <= |order|
    ensures RenameAll(nodes, order[..i]) == Some(nodes)
  {
    if i > 0 {
      NothingRenamed(nodes, order, i - 1);
      StepSettles(nodes, order, i - 1);
    }
  }

  lemma {:induction false} UnclashedStays(nodes: Nodes, order: seq<NodeId>)
    requires Unclashed(nodes) && forall k :: k in order ==> k in nodes
    ensures RenameAll(nodes, order) == Some(nodes)
  {
    if order != [] {
      var k := order[|order| - 1];
      UnclashedStays(nodes, order[..|order| - 1]);
      assert Settle(nodes[k].name, Taken(nodes, Kids(nodes, k), k)) == Some(nodes[k].name);
      assert Rename(nodes, k, nodes[k].name) == nodes;
    }
  }

  // The renaming pass changes nothing, in whatever order it visits the nodes, exactly when no
  // node has a clash.
  lemma RenamesNothing(nodes: Nodes, order: seq<NodeId>)
    requires Handled(nodes, order, {})
    ensures RenameAll(nodes, order) == Some(nodes) <==> Unclashed(nodes)
  {
    if Unclashed(nodes) { UnclashedStays(nodes, order); }
    if RenameAll(nodes, order) == Some(nodes) {
      forall k | k in nodes ensures nodes[k].name !in Taken(nodes, Kids(nodes, k), k) {
        assert k in order;
        var i :| 0 <= i < |order| && order[i] == k;
        NothingRenamed(nodes, order, i);
        StepSettles(nodes, order, i);
      }
    }
  }

  // With parent links and child lists that agree, that means distinct names among siblings.
  lemma UnclashedDistinct(nodes: Nodes)
    requires Consistent(nodes)
    ensures Unclashed(nodes) <==> NamesDistinct(nodes)
  {
    if NamesDistinct(nodes) {
      forall k | k in nodes ensures nodes[k].name !in Taken(nodes, Kids(nodes, k), k) {
        if nodes[k].name in Taken(nodes, Kids(nodes, k), k) {
          var c :| c in Kids(nodes, k) && c != k && c in nodes && Rivals(nodes[c], nodes[k]) && nodes[c].name == nodes[k].name;
          assert Siblings(nodes, k, c);
        }
      }
    }
    if Unclashed(nodes) {
      forall a, b | Siblings(nodes, a, b) ensures nodes[a].name != nodes[b].name {
        assert nodes[b].name in Taken(nodes, Kids(nodes, a), a);
      }
    }
  }

  // A scene that was stored reads back as it was, in whatever order the read visits its nodes,
  // exactly when its keys can be read and no siblings share a name.
  lemma SceneReadBack(order: Order, s: Scene, st: Stored)
    requires OrderOk(order) && Stores(s, st)
    ensures ReadStored(order, st) == Some(s) <==> Survives(s)
  {
    ReadKeysBack(s.nodes, st.nodes);
    if KeysReadable(s.nodes) {
      ReadKnownKeys(order, s, st);
    } else if ReadStored(order, st) == Some(s) {
      ReadOnlyReadable(s.nodes, st.nodes);
    }
  }

  lemma ReadKnownKeys(order: Order, s: Scene, st: Stored)
    requires OrderOk(order) && st.rest == s.(nodes := map[]) && ReadKeys(st.nodes) == Some(s.nodes)
    ensures ReadStored(order, st) == Some(s) <==> Unclashed(s.nodes)
  {
    var r := RenameAll(s.nodes, order(s.nodes));
    RenamesNothing(s.nodes, order(s.nodes));
    assert ReadStored(order, st) == match r case None => None case Some(renamed) => Some(s.(nodes := renamed));
  }

  // What a read returned survives being stored again, if its parent links and child lists agree.
  lemma ReadSurvives(order: Order, s: Scene, st: Stored)
    requires OrderOk(order) && ReadStored(order, st) == Some(s) && Consistent(s.nodes)
    ensures Survives(s)
  {
    var nodes := ReadKeys(st.nodes).value;
    PassSeparates(nodes, order(nodes));
    UnclashedDistinct(s.nodes);
    ReadOnlyReadable(s.nodes, st.nodes);
  }

  // ---------- the read as a program ----------

  lemma ReadAsNext(write: NodeId -> string, read: string -> Option<NodeId>, m: map<string, Node>, rest: set<string>, back: Nodes, key: string)
    requires ReadAs(write, read, m - rest, back) && key in m && read(key).Some? && write(read(key).value) == key
    ensures ReadAs(write, read, m - (rest - {key}), back[read(key).value := m[key]])
  {
  }

  lemma ReadAsOnce(write: NodeId -> string, read: string -> Option<NodeId>, m: map<string, Node>, a: Nodes, b: Nodes)
    requires ReadAs(write, read, m, a) && ReadAs(write, read, m, b)
    ensures a == b
  {
    assert forall k :: k in a <==> k in b;
  }

  // The nodes read so far, when `rest` are the keys that are still to come.
  ghost predicate Collected(m: KeyedNodes, rest: set<string>, nodes: Nodes)
  {
    rest <= m.Keys && AllRead(ReadNodeId, m.Keys - rest) && ReadAs(PrintNodeId, ReadNodeId, m - rest, nodes)
  }

  ghost predicate AllRead(read: string -> Option<NodeId>, keys: set<string>)
  {
    forall key :: key in keys ==> read(key).Some?
  }

  lemma NoneCollected(m: KeyedNodes)
    ensures Collected(m, m.Keys, map[])
  {
  }

  lemma CollectNext(m: KeyedNodes, rest: set<string>, nodes: Nodes, key: string, id: NodeId)
    requires Collected(m, rest, nodes) && key in rest && ReadNodeId(key) == Some(id)
    ensures Collected(m, rest - {key}, nodes[id := m[key]])
  {
    assert CanonicalKey(key);
    AllReadNext(ReadNodeId, m.Keys, rest, key);
    ReadAsNext(PrintNodeId, ReadNodeId, m, rest, nodes, key);
  }

  lemma AllReadNext(read: string -> Option<NodeId>, keys: set<string>, rest: set<string>, key: string)
    requires AllRead(read, keys - rest) && read(key).Some?
    ensures AllRead(read, keys - (rest - {key}))
  {
  }

  lemma CollectedAll(m: KeyedNodes, nodes: Nodes)
    requires Collected(m, {}, nodes)
    ensures ReadKeys(m) == Some(nodes)
  {
    assert m - {} == m;
    assert ReadKeys(m).Some?;
    KeysReadAs(m);
    ReadAsOnce(PrintNodeId, ReadNodeId, m, nodes, ReadKeys(m).value);
  }

  lemma UnreadFails(m: KeyedNodes, key: string)
    requires key in m && ReadNodeId(key).None?
    ensures ReadKeys(m) == None
  {
  }

  method CollectKeys(m: KeyedNodes) returns (r: Option<Nodes>)
    ensures r == ReadKeys(m)
  {
    var nodes: Nodes := map[];
    var rest := m.Keys;
    NoneCollected(m);
    while rest != {}
      invariant rest <= m.Keys && Collected(m, rest, nodes)
      decreases rest
    {
      var key := Any(rest);
      var id := ReadNodeId(key);
      if id.None? {
        UnreadFails(m, key);
        return None;
      }
      CollectNext(m, rest, nodes, key, id.value);
      nodes := nodes[id.value := m[key]];
      rest := rest - {key};
    }
    CollectedAll(m, nodes);
    r := Some(nodes);
  }

  function WithNodes(rest: Scene, nodes: Option<Nodes>): Option<Scene>
  {
    match nodes case None => None case Some(n) => Some(rest.(nodes := n))
  }

  // What one read gives that visits the nodes in this order.
  ghost predicate ReadOnce(st: Stored, order: seq<NodeId>, r: Option<Scene>)
  {
    match ReadKeys(st.nodes)
    case None => r == None
    case Some(nodes) => Handled(nodes, order, {}) && r == WithNodes(st.rest, RenameAll(nodes, order))
  }

  lemma ReadOnceKnown(s: Scene, nodes: Nodes, order: seq<NodeId>)
    requires nodes == s.nodes && Handled(nodes, order, {})
    ensures WithNodes(s.(nodes := map[]), RenameAll(nodes, order)) == Some(s) <==> Unclashed(nodes)
  {
    RenamesNothing(nodes, order);
    var r := RenameAll(nodes, order);
    assert WithNodes(s.(nodes := map[]), r) == match r case None => None case Some(n) => Some(s.(nodes := n));
  }

  lemma ReadOnceBack(s: Scene, st: Stored, order: seq<NodeId>, r: Option<Scene>)
    requires Stores(s, st) && ReadOnce(st, order, r)
    ensures r == Some(s) <==> Survives(s)
  {
    ReadKeysBack(s.nodes, st.nodes);
    if KeysReadable(s.nodes) {
      ReadOnceKnown(s, s.nodes, order);
    } else if r == Some(s) {
      ReadOnceKeys(st, order, s);
      ReadOnlyReadable(s.nodes, st.nodes);
    }
  }

  lemma ReadOnceKeys(st: Stored, order: seq<NodeId>, s: Scene)
    requires ReadOnce(st, order, Some(s))
    ensures ReadKeys(st.nodes).Some? && forall k :: k in s.nodes ==> k in ReadKeys(st.nodes).value
  {
  }

  // hydrate_nodes: the keys are read, then the names are settled in the order the map yields.
  method HydrateScene(st: Stored) returns (r: Option<Scene>)
    ensures exists order :: ReadOnce(st, order, r)
    ensures forall s :: Stores(s, st) ==> (r == Some(s) <==> Survives(s))
  {
    var nodes := CollectKeys(st.nodes);
    ghost var order: seq<NodeId> := [];
    if nodes.None? {
      r := None;
    } else {
      var renamed := HydrateNodes(nodes.value);
      order :| Outcome(nodes.value, order, renamed);
      r := WithNodes(st.rest, renamed);
    }
    assert ReadOnce(st, order, r);
    forall s | Stores(s, st) ensures r == Some(s) <==> Survives(s) { ReadOnceBack(s, st, order, r); }
  }
}
