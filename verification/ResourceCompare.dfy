// Deep comparison of property values across two versions of a scene, following references to
// sub-resources.

module ResourceCompare {
  import opened Text

  datatype Value = SubRef(id: string) | ExtRef(id: string) | ResourcePath(path: string) | Variant(text: string) | Default(text: string)

  datatype Resource = Resource(kind: string, properties: map<string, Value>)

  datatype Ext = Ext(kind: string, path: string, uid: Option<string>)

  datatype Scene = Scene(subs: map<string, Resource>, exts: map<string, Ext>)

  // The order in which the properties of each new resource are visited.
  type Order = map<string, seq<string>>

  // `rank` witnesses that sub-resources do not refer back to themselves.
  ghost predicate Acyclic(s: Scene, rank: map<string, nat>)
  {
    && rank.Keys == s.subs.Keys
    && forall id, p :: id in s.subs && p in s.subs[id].properties ==> RefBelow(s, rank, id, s.subs[id].properties[p])
  }

  predicate RefBelow(s: Scene, rank: map<string, nat>, id: string, v: Value)
    requires id in rank
  {
    !v.Default? && (v.SubRef? && v.id in rank ==> rank[v.id] < rank[id])
  }

  // The visiting order lists exactly the properties of every new resource.
  ghost predicate OrderOk(s: Scene, order: Order)
  {
    forall id :: id in s.subs ==> id in order && Lists(order[id], s.subs[id].properties)
  }

  ghost predicate Lists(keys: seq<string>, properties: map<string, Value>)
  {
    && (forall p :: p in keys <==> p in properties)
    && (forall i, j :: 0 <= i < j < |keys| ==> keys[i] != keys[j])
  }

  ghost predicate NoDefaults(s: Scene)
  {
    forall id, p :: id in s.subs && p in s.subs[id].properties ==> !s.subs[id].properties[p].Default?
  }

  function RankOf(rank: map<string, nat>, v: Value): nat
  {
    if v.SubRef? && v.id in rank then rank[v.id] + 1 else 0
  }

  function Find<T>(m: map<string, T>, id: string): Option<T>
  {
    if id in m then Some(m[id]) else None
  }

  predicate ExtChanged(a: Option<Ext>, b: Option<Ext>)
  {
    match (a, b)
    case (None, None) => false
    case (Some(x), Some(y)) => x.kind != y.kind || x.path != y.path || x.uid != y.uid
    case _ => true
  }

  predicate Removed(a: Resource, b: Resource) { exists p :: p in a.properties && p !in b.properties }

  predicate Added(a: Resource, b: Resource) { exists p :: p in b.properties && p !in a.properties }

  // ---------- the comparison ----------

  ghost predicate ValueChanged(order: Order, was: Scene, rank: map<string, nat>, now: Scene, v: Value, w: Value)
    requires Acyclic(was, rank) && OrderOk(now, order)
    decreases RankOf(rank, v), 1, 0
  {
    match (v, w)
    case (SubRef(a), SubRef(b)) => SubChanged(order, was, rank, now, a, b)
    case (ExtRef(a), ExtRef(b)) => ExtChanged(Find(was.exts, a), Find(now.exts, b))
    case (ResourcePath(a), ResourcePath(b)) => a != b
    case (Variant(a), Variant(b)) => a != b
    case _ => true
  }

  ghost predicate SubChanged(order: Order, was: Scene, rank: map<string, nat>, now: Scene, a: string, b: string)
    requires Acyclic(was, rank) && OrderOk(now, order)
    decreases RankOf(rank, SubRef(a)), 0, 0
  {
    if a !in was.subs || b !in now.subs then a in was.subs || b in now.subs
    else was.subs[a].kind != now.subs[b].kind || Removed(was.subs[a], now.subs[b]) || ScanChanged(order, was, rank, now, a, b, order[b])
  }

  // The first added property ends the scan with the answer "unchanged".
  ghost predicate ScanChanged(order: Order, was: Scene, rank: map<string, nat>, now: Scene, a: string, b: string, keys: seq<string>)
    requires Acyclic(was, rank) && OrderOk(now, order) && a in was.subs && b in now.subs
    requires forall p :: p in keys ==> p in now.subs[b].properties
    decreases rank[a], 2, |keys|
  {
    if keys == [] || keys[0] !in was.subs[a].properties then false
    else
      assert RefBelow(was, rank, a, was.subs[a].properties[keys[0]]);
      ValueChanged(order, was, rank, now, was.subs[a].properties[keys[0]], now.subs[b].properties[keys[0]])
      || ScanChanged(order, was, rank, now, a, b, keys[1..])
  }

  // ---------- the program ----------

  method AnyRemoved(a: map<string, Value>, b: map<string, Value>) returns (r: bool)
    ensures r <==> exists p :: p in a && p !in b
  {
    var rest := a.Keys;
    while rest != {}
      invariant rest <= a.Keys
      invariant forall p :: p in a && p !in rest ==> p in b
      decreases rest
    {
      var p :| p in rest;
      if p !in b { return true; }
      rest := rest - {p};
    }
    r := false;
  }

  method DidPropChange(order: Order, was: Scene, ghost rank: map<string, nat>, now: Scene, v: Value, w: Value) returns (r: bool)
    requires Acyclic(was, rank) && OrderOk(now, order)
    ensures r <==> ValueChanged(order, was, rank, now, v, w)
    decreases RankOf(rank, v), 1, 0
  {
    match (v, w) {
      case (SubRef(a), SubRef(b)) => r := DidSubResourceChange(order, was, rank, now, a, b);
      case (ExtRef(a), ExtRef(b)) => r := ExtChanged(Find(was.exts, a), Find(now.exts, b));
      case (ResourcePath(a), ResourcePath(b)) => r := a != b;
      case (Variant(a), Variant(b)) => r := a != b;
      case _ => r := true;
    }
  }

  method DidSubResourceChange(order: Order, was: Scene, ghost rank: map<string, nat>, now: Scene, a: string, b: string) returns (r: bool)
    requires Acyclic(was, rank) && OrderOk(now, order)
    ensures r <==> SubChanged(order, was, rank, now, a, b)
    decreases RankOf(rank, SubRef(a)), 0, 0
  {
    if a !in was.subs || b !in now.subs { return a in was.subs || b in now.subs; }
    var x, y := was.subs[a], now.subs[b];
    if x.kind != y.kind { return true; }
    var removed := AnyRemoved(x.properties, y.properties);
    if removed { return true; }
    var keys := order[b];
    for i := 0 to |keys|
      invariant ScanChanged(order, was, rank, now, a, b, keys) <==> ScanChanged(order, was, rank, now, a, b, keys[i..])
    {
      var p := keys[i];
      assert keys[i..][1..] == keys[i + 1..];
      if p !in x.properties { return false; }
      assert RefBelow(was, rank, a, x.properties[p]);
      var changed := DidPropChange(order, was, rank, now, x.properties[p], y.properties[p]);
      if changed { return true; }
    }
    r := false;
  }

  // ---------- unfolding ----------

  // A value with references replaced by what they refer to, down to `depth` levels.
  datatype Unfolding = Missing | Cut | Node(kind: string, properties: map<string, Unfolding>)
                     | ExtLeaf(ext: Option<Ext>) | PathLeaf(path: string) | TextLeaf(text: string) | DefaultLeaf(name: string)

  function Unfold(s: Scene, v: Value, depth: nat): Unfolding
    decreases depth, 1
  {
    match v
    case SubRef(id) =>
      if id !in s.subs then Missing
      else if depth == 0 then Cut
      else Node(s.subs[id].kind, UnfoldAll(s, s.subs[id].properties, depth - 1))
    case ExtRef(id) => ExtLeaf(Find(s.exts, id))
    case ResourcePath(p) => PathLeaf(p)
    case Variant(t) => TextLeaf(t)
    case Default(t) => DefaultLeaf(t)
  }

  function UnfoldAll(s: Scene, properties: map<string, Value>, depth: nat): map<string, Unfolding>
    decreases depth, 2
  {
    map p | p in properties :: Unfold(s, properties[p], depth)
  }

  lemma ExtLeaves(a: Option<Ext>, b: Option<Ext>)
    ensures ExtChanged(a, b) <==> a != b
  {
  }

  // "Changed" is never wrong: however deep one unfolds, the two values differ.
  lemma {:induction false} ChangedDiffers(order: Order, was: Scene, rank: map<string, nat>, now: Scene, v: Value, w: Value, depth: nat)
    requires Acyclic(was, rank) && OrderOk(now, order) && NoDefaults(now) && !v.Default?
    requires ValueChanged(order, was, rank, now, v, w) && RankOf(rank, v) <= depth
    ensures Unfold(was, v, depth) != Unfold(now, w, depth)
    decreases RankOf(rank, v), 1, 0
  {
    match (v, w)
    case (SubRef(a), SubRef(b)) =>
      if a in was.subs && b in now.subs {
        var x, y := was.subs[a], now.subs[b];
        if Removed(x, y) {
          var p :| p in x.properties && p !in y.properties;
          assert p in UnfoldAll(was, x.properties, depth - 1) && p !in UnfoldAll(now, y.properties, depth - 1);
        } else if x.kind == y.kind {
          var p := ScanFinds(order, was, rank, now, a, b, order[b], depth - 1);
          assert UnfoldAll(was, x.properties, depth - 1)[p] != UnfoldAll(now, y.properties, depth - 1)[p];
        }
      }
    case (ExtRef(a), ExtRef(b)) => ExtLeaves(Find(was.exts, a), Find(now.exts, b));
    case _ =>
  }

  lemma {:induction false} ScanFinds(order: Order, was: Scene, rank: map<string, nat>, now: Scene, a: string, b: string, keys: seq<string>, depth: nat)
    returns (p: string)
    requires Acyclic(was, rank) && OrderOk(now, order) && NoDefaults(now) && a in was.subs && b in now.subs && rank[a] <= depth
    requires forall q :: q in keys ==> q in now.subs[b].properties
    requires ScanChanged(order, was, rank, now, a, b, keys)
    ensures p in was.subs[a].properties && p in now.subs[b].properties
    ensures Unfold(was, was.subs[a].properties[p], depth) != Unfold(now, now.subs[b].properties[p], depth)
    decreases rank[a], 2, |keys|
  {
    p := keys[0];
    var x, y := was.subs[a].properties[p], now.subs[b].properties[p];
    assert RefBelow(was, rank, a, x);
    if ValueChanged(order, was, rank, now, x, y) {
      ChangedDiffers(order, was, rank, now, x, y, depth);
    } else {
      p := ScanFinds(order, was, rank, now, a, b, keys[1..], depth);
    }
  }

  // ---------- added properties ----------

  // No pair of resources reached from the two values by the same properties has one that is
  // only in the new version.
  ghost predicate NothingAdded(was: Scene, rank: map<string, nat>, now: Scene, v: Value, w: Value)
    requires Acyclic(was, rank)
    decreases RankOf(rank, v)
  {
    v.SubRef? && w.SubRef? && v.id in was.subs && w.id in now.subs ==>
      && !Added(was.subs[v.id], now.subs[w.id])
      && forall p :: p in was.subs[v.id].properties && p in now.subs[w.id].properties ==>
           RefBelow(was, rank, v.id, was.subs[v.id].properties[p])
           && NothingAdded(was, rank, now, was.subs[v.id].properties[p], now.subs[w.id].properties[p])
  }

  lemma SameBelow(was: Scene, now: Scene, a: string, b: string, depth: nat)
    requires a in was.subs && b in now.subs && was.subs[a].kind == now.subs[b].kind && depth > 0
    requires !Removed(was.subs[a], now.subs[b]) && !Added(was.subs[a], now.subs[b])
    requires forall p :: p in was.subs[a].properties && p in now.subs[b].properties ==>
      Unfold(was, was.subs[a].properties[p], depth - 1) == Unfold(now, now.subs[b].properties[p], depth - 1)
    ensures Unfold(was, SubRef(a), depth) == Unfold(now, SubRef(b), depth)
  {
    var x, y := was.subs[a].properties, now.subs[b].properties;
    forall p ensures p in x <==> p in y { }
    assert UnfoldAll(was, x, depth - 1) == UnfoldAll(now, y, depth - 1);
  }

  lemma {:induction false} UnchangedSame(order: Order, was: Scene, rank: map<string, nat>, now: Scene, v: Value, w: Value, depth: nat)
    requires Acyclic(was, rank) && OrderOk(now, order) && NothingAdded(was, rank, now, v, w)
    requires !ValueChanged(order, was, rank, now, v, w)
    ensures Unfold(was, v, depth) == Unfold(now, w, depth)
    decreases RankOf(rank, v)
  {
    match (v, w)
    case (SubRef(a), SubRef(b)) =>
      if a in was.subs && b in now.subs && depth > 0 {
        var x, y := was.subs[a].properties, now.subs[b].properties;
        forall p | p in x && p in y ensures Unfold(was, x[p], depth - 1) == Unfold(now, y[p], depth - 1) {
          assert RefBelow(was, rank, a, x[p]);
          ScanQuiet(order, was, rank, now, a, b, order[b], p);
          UnchangedSame(order, was, rank, now, x[p], y[p], depth - 1);
        }
        SameBelow(was, now, a, b, depth);
      }
    case (ExtRef(a), ExtRef(b)) => ExtLeaves(Find(was.exts, a), Find(now.exts, b));
    case _ =>
  }

  // A scan without added properties that finds nothing has compared every property.
  lemma {:induction false} ScanQuiet(order: Order, was: Scene, rank: map<string, nat>, now: Scene, a: string, b: string, keys: seq<string>, p: string)
    requires Acyclic(was, rank) && OrderOk(now, order) && a in was.subs && b in now.subs && !Added(was.subs[a], now.subs[b])
    requires forall q :: q in keys ==> q in now.subs[b].properties
    requires !ScanChanged(order, was, rank, now, a, b, keys) && p in keys
    ensures p in was.subs[a].properties && !ValueChanged(order, was, rank, now, was.subs[a].properties[p], now.subs[b].properties[p])
    decreases |keys|
  {
    assert keys[0] in was.subs[a].properties;
    if p != keys[0] { ScanQuiet(order, was, rank, now, a, b, keys[1..], p); }
  }

  // Where nothing was added, the answer is "changed" exactly when the unfoldings differ,
  // whatever the resources are called and in whatever order properties are visited.
  lemma ExactWithoutAdditions(order: Order, was: Scene, rank: map<string, nat>, now: Scene, v: Value, w: Value, depth: nat)
    requires Acyclic(was, rank) && OrderOk(now, order) && NoDefaults(now) && !v.Default?
    requires NothingAdded(was, rank, now, v, w) && RankOf(rank, v) <= depth
    ensures ValueChanged(order, was, rank, now, v, w) <==> Unfold(was, v, depth) != Unfold(now, w, depth)
  {
    if ValueChanged(order, was, rank, now, v, w) {
      ChangedDiffers(order, was, rank, now, v, w, depth);
    } else {
      UnchangedSame(order, was, rank, now, v, w, depth);
    }
  }

  lemma MovedFront(keys: seq<string>, properties: map<string, Value>, p: string) returns (moved: seq<string>)
    requires Lists(keys, properties) && p in properties
    ensures Lists(moved, properties) && moved != [] && moved[0] == p
  {
    var i :| 0 <= i < |keys| && keys[i] == p;
    moved := [p] + (keys[..i] + keys[i + 1..]);
    forall q ensures q in moved <==> q in keys { FrontMembers(keys, i, q); }
    FrontDistinct(keys, i);
  }

  lemma FrontMembers(keys: seq<string>, i: nat, q: string)
    requires i < |keys|
    ensures q in [keys[i]] + (keys[..i] + keys[i + 1..]) <==> q in keys
  {
  }

  lemma FrontDistinct(keys: seq<string>, i: nat)
    requires i < |keys| && forall a, b :: 0 <= a < b < |keys| ==> keys[a] != keys[b]
    ensures var moved := [keys[i]] + (keys[..i] + keys[i + 1..]); forall a, b :: 0 <= a < b < |moved| ==> moved[a] != moved[b]
  {
  }

  // An added property of the resources themselves makes their unfoldings differ, and yet some
  // visiting order answers "unchanged" exactly when the kinds agree and nothing was removed.
  lemma AdditionHidden(was: Scene, rank: map<string, nat>, now: Scene, a: string, b: string, order: Order, depth: nat)
    requires Acyclic(was, rank) && OrderOk(now, order) && a in was.subs && b in now.subs && depth > 0
    requires Added(was.subs[a], now.subs[b])
    ensures Unfold(was, SubRef(a), depth) != Unfold(now, SubRef(b), depth)
    ensures (exists other: Order :: OrderOk(now, other) && !SubChanged(other, was, rank, now, a, b))
      <==> was.subs[a].kind == now.subs[b].kind && !Removed(was.subs[a], now.subs[b])
  {
    var x, y := was.subs[a], now.subs[b];
    var p :| p in y.properties && p !in x.properties;
    assert p !in UnfoldAll(was, x.properties, depth - 1) && p in UnfoldAll(now, y.properties, depth - 1);
    if x.kind == y.kind && !Removed(x, y) {
      var moved := MovedFront(order[b], y.properties, p);
      var other := order[b := moved];
      assert OrderOk(now, other);
      assert !SubChanged(other, was, rank, now, a, b);
    }
  }

  // ---------- added properties below ----------

  // No difference can be seen but those that an added property may cut off.
  ghost predicate MayHide(was: Scene, rank: map<string, nat>, now: Scene, v: Value, w: Value)
    requires Acyclic(was, rank)
    decreases RankOf(rank, v)
  {
    match (v, w)
    case (SubRef(a), SubRef(b)) =>
      if a !in was.subs || b !in now.subs then a !in was.subs && b !in now.subs
      else
        && was.subs[a].kind == now.subs[b].kind && !Removed(was.subs[a], now.subs[b])
        && (Added(was.subs[a], now.subs[b]) || forall p :: p in was.subs[a].properties && p in now.subs[b].properties ==>
             RefBelow(was, rank, a, was.subs[a].properties[p])
             && MayHide(was, rank, now, was.subs[a].properties[p], now.subs[b].properties[p]))
    case (ExtRef(a), ExtRef(b)) => !ExtChanged(Find(was.exts, a), Find(now.exts, b))
    case (ResourcePath(a), ResourcePath(b)) => a == b
    case (Variant(a), Variant(b)) => a == b
    case _ => false
  }

  // Each new resource is compared with one old resource only.
  ghost predicate Paired(was: Scene, rank: map<string, nat>, now: Scene, v: Value, w: Value, mate: map<string, string>)
    requires Acyclic(was, rank)
    decreases RankOf(rank, v)
  {
    v.SubRef? && w.SubRef? && v.id in was.subs && w.id in now.subs ==>
      && w.id in mate && mate[w.id] == v.id
      && forall p :: p in was.subs[v.id].properties && p in now.subs[w.id].properties ==>
           RefBelow(was, rank, v.id, was.subs[v.id].properties[p])
           && Paired(was, rank, now, was.subs[v.id].properties[p], now.subs[w.id].properties[p], mate)
  }

  // Whatever the order: an answer "unchanged" means that.
  lemma {:induction false} UnchangedHides(order: Order, was: Scene, rank: map<string, nat>, now: Scene, v: Value, w: Value)
    requires Acyclic(was, rank) && OrderOk(now, order) && !ValueChanged(order, was, rank, now, v, w)
    ensures MayHide(was, rank, now, v, w)
    decreases RankOf(rank, v)
  {
    if v.SubRef? && w.SubRef? && v.id in was.subs && w.id in now.subs && !Added(was.subs[v.id], now.subs[w.id]) {
      var x, y := was.subs[v.id].properties, now.subs[w.id].properties;
      forall p | p in x && p in y ensures RefBelow(was, rank, v.id, x[p]) && MayHide(was, rank, now, x[p], y[p]) {
        assert RefBelow(was, rank, v.id, x[p]);
        ScanQuiet(order, was, rank, now, v.id, w.id, order[w.id], p);
        UnchangedHides(order, was, rank, now, x[p], y[p]);
      }
    }
  }

  // An order that visits an added property first wherever there is one.
  ghost predicate HidesFirst(was: Scene, now: Scene, mate: map<string, string>, order: Order)
    requires OrderOk(now, order)
  {
    forall b :: b in now.subs && b in mate && mate[b] in was.subs && Added(was.subs[mate[b]], now.subs[b]) ==>
      order[b] != [] && order[b][0] !in was.subs[mate[b]].properties
  }

  lemma {:induction false} HidingOrder(was: Scene, now: Scene, mate: map<string, string>, order: Order, todo: set<string>) returns (other: Order)
    requires OrderOk(now, order) && todo <= now.subs.Keys
    requires HidesFirst(was, now, mate - todo, order)
    ensures OrderOk(now, other) && HidesFirst(was, now, mate, other)
    decreases todo
  {
    if todo == {} {
      assert mate - todo == mate;
      other := order;
    } else {
      var b :| b in todo;
      other := order;
      if b in mate && mate[b] in was.subs && Added(was.subs[mate[b]], now.subs[b]) {
        var p :| p in now.subs[b].properties && p !in was.subs[mate[b]].properties;
        var moved := MovedFront(order[b], now.subs[b].properties, p);
        other := order[b := moved];
      }
      other := HidingOrder(was, now, mate, other, todo - {b});
    }
  }

  lemma {:induction false} HiddenBelow(order: Order, was: Scene, rank: map<string, nat>, now: Scene, v: Value, w: Value, mate: map<string, string>)
    requires Acyclic(was, rank) && OrderOk(now, order) && HidesFirst(was, now, mate, order)
    requires Paired(was, rank, now, v, w, mate) && MayHide(was, rank, now, v, w)
    ensures !ValueChanged(order, was, rank, now, v, w)
    decreases RankOf(rank, v), 1, 0
  {
    if v.SubRef? && w.SubRef? && v.id in was.subs && w.id in now.subs {
      if Added(was.subs[v.id], now.subs[w.id]) {
        assert w.id in mate && order[w.id][0] !in was.subs[v.id].properties;
        assert !ScanChanged(order, was, rank, now, v.id, w.id, order[w.id]);
      } else {
        HiddenScan(order, was, rank, now, v.id, w.id, order[w.id], mate);
      }
    }
  }

  lemma {:induction false} HiddenScan(order: Order, was: Scene, rank: map<string, nat>, now: Scene, a: string, b: string, keys: seq<string>, mate: map<string, string>)
    requires Acyclic(was, rank) && OrderOk(now, order) && HidesFirst(was, now, mate, order) && a in was.subs && b in now.subs
    requires Paired(was, rank, now, SubRef(a), SubRef(b), mate) && MayHide(was, rank, now, SubRef(a), SubRef(b)) && !Added(was.subs[a], now.subs[b])
    requires forall p :: p in keys ==> p in now.subs[b].properties
    ensures !ScanChanged(order, was, rank, now, a, b, keys)
    decreases rank[a], 2, |keys|
  {
    if keys != [] {
      var x, y := was.subs[a].properties, now.subs[b].properties;
      assert keys[0] in x && RefBelow(was, rank, a, x[keys[0]]);
      HiddenBelow(order, was, rank, now, x[keys[0]], y[keys[0]], mate);
      HiddenScan(order, was, rank, now, a, b, keys[1..], mate);
    }
  }

  // At any depth: some visiting order answers "unchanged" exactly when every visible difference
  // can be cut off by an added property.
  lemma HiddenExactly(was: Scene, rank: map<string, nat>, now: Scene, v: Value, w: Value, order: Order, mate: map<string, string>)
    requires Acyclic(was, rank) && OrderOk(now, order) && Paired(was, rank, now, v, w, mate)
    ensures (exists other: Order :: OrderOk(now, other) && !ValueChanged(other, was, rank, now, v, w)) <==> MayHide(was, rank, now, v, w)
  {
    forall other: Order | OrderOk(now, other) && !ValueChanged(other, was, rank, now, v, w) ensures MayHide(was, rank, now, v, w) {
      UnchangedHides(other, was, rank, now, v, w);
    }
    if MayHide(was, rank, now, v, w) {
      var other := HidingOrder(was, now, mate, order, now.subs.Keys);
      HiddenBelow(other, was, rank, now, v, w, mate);
    }
  }
}
