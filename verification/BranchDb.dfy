// The operations of the branch database on their objects. Each is proved to have exactly the
// stated effect, and to be a run of the steps of BranchSync.

module BranchDb {
  import opened Text
  import opened Changes
  import opened BranchSync
  import opened Sets

  method ResolvedAll(binaryDocs: map<DocId, Status>) returns (r: bool)
    ensures r == Resolved(binaryDocs)
  {
    var rest := binaryDocs.Keys;
    while rest != {}
      invariant rest <= binaryDocs.Keys
      invariant forall id :: id in binaryDocs && id !in rest ==> binaryDocs[id] != Pending
      decreases rest
    {
      var id := Any(rest);
      if binaryDocs[id] == Pending { return false; }
      rest := rest - {id};
    }
    r := true;
  }

  class BranchSyncState {
    var shadow: Option<Doc>
    var ready: bool
    var canonical: Doc
    var lastTracked: set<Change>
    var lastReconciled: set<Change>
    var binaryDocs: map<DocId, Status>

    constructor (canonical: Doc)
      ensures Contents() == Branch(None, false, canonical, {}, {}, map[])
    {
      shadow, ready, this.canonical := None, false, canonical;
      lastTracked, lastReconciled, binaryDocs := {}, {}, map[];
    }

    function Contents(): Branch
      reads this
    {
      Branch(shadow, ready, canonical, lastTracked, lastReconciled, binaryDocs)
    }

    method TryReconcile()
      modifies this
      ensures Contents() == Reconciled(old(Contents()))
    {
      var resolved := ResolvedAll(binaryDocs);
      if !resolved { return; }
      if lastReconciled == lastTracked {
        if shadow.Some? && lastReconciled == Heads(shadow.value) { return; }
      }
      if shadow.None? { shadow := Some(canonical); }
      shadow := Some(shadow.value + canonical);
      canonical := canonical + shadow.value;
      lastReconciled := Heads(canonical);
      lastTracked := Heads(canonical);
      ready := true;
    }

    method Refresh(binaries: map<DocId, bool>, heads: set<Change>, linked: set<DocId>)
      modifies this
      ensures var updated := old(Contents()).(binaryDocs := Linked(binaries, linked), lastTracked := heads);
        Contents() == if Resolved(updated.binaryDocs) then Reconciled(updated) else updated
    {
      binaryDocs := map id | id in linked :: StatusOf(binaries, id);
      lastTracked := heads;
      var resolved := ResolvedAll(binaryDocs);
      if resolved { TryReconcile(); }
    }
  }

  // ---------- effects of whole operations ----------

  function IngestedBranch(binaries: map<DocId, bool>, id: DocId, b: Branch): Branch
  {
    if id in b.binaryDocs then Reconciled(b.(binaryDocs := b.binaryDocs[id := StatusOf(binaries, id)])) else b
  }

  function Ingested(db: Db, id: DocId, found: bool): Db
  {
    var binaries := db.binaries[id := found];
    db.(binaries := binaries, branches := map name | name in db.branches :: IngestedBranch(binaries, id, db.branches[name]))
  }

  // The branches when all but `rest` have been told about `id`.
  function PartlyIngested(binaries: map<DocId, bool>, id: DocId, before: map<DocId, Branch>, rest: set<DocId>): map<DocId, Branch>
  {
    map name | name in before :: if name in rest then before[name] else IngestedBranch(binaries, id, before[name])
  }

  lemma PartlyNext(binaries: map<DocId, bool>, id: DocId, before: map<DocId, Branch>, rest: set<DocId>, name: DocId)
    requires name in rest && name in before
    ensures PartlyIngested(binaries, id, before, rest)[name := IngestedBranch(binaries, id, before[name])]
      == PartlyIngested(binaries, id, before, rest - {name})
  {
  }

  function Updated(db: Db, name: DocId, canonical: Doc, heads: set<Change>, linked: set<DocId>): Db
  {
    var state := UpdateBranch(db, name, canonical, heads, linked);
    db.(branches := db.branches[name := if Resolved(state.binaryDocs) then Reconciled(state) else state])
  }

  function Committed(db: Db, name: DocId, c: Change): Db
  {
    if name in db.branches && db.branches[name].shadow.Some? then
      var b := db.branches[name];
      db.(branches := db.branches[name := Reconciled(b.(shadow := Some(b.shadow.value + {c})))])
    else db
  }

  predicate Mergeable(db: Db, source: DocId, target: DocId)
  {
    && source in db.branches && target in db.branches && source != target
    && db.branches[source].shadow.Some? && db.branches[target].shadow.Some?
  }

  // `dummy` is the id of the commit that carries the merge metadata, when there is one.
  function Merged(db: Db, source: DocId, target: DocId, dummy: Option<int>): Db
  {
    if !Mergeable(db, source, target) then db
    else
      var t := db.branches[target];
      var doc := t.shadow.value + db.branches[source].shadow.value;
      var all := if dummy.Some? then doc + {Change(dummy.value, Heads(doc))} else doc;
      db.(branches := db.branches[target := Reconciled(t.(shadow := Some(all)))])
  }

  // A merge: the target's shadow has its own changes and those of the source's shadow, and the
  // metadata commit on the heads of both, if there is one; with nothing pending the canonical
  // document has them too. No other branch changes.
  ghost predicate Joined(before: Db, after: Db, source: DocId, target: DocId, dummy: Option<int>)
    requires Mergeable(before, source, target)
  {
    var both := before.branches[target].shadow.value + before.branches[source].shadow.value;
    && after.branches.Keys == before.branches.Keys
    && (forall name :: name in before.branches && name != target ==> after.branches[name] == before.branches[name])
    && after.branches[target].shadow.Some? && both <= after.branches[target].shadow.value
    && (dummy.Some? ==> Change(dummy.value, Heads(both)) in after.branches[target].shadow.value)
    && before.branches[target].canonical <= after.branches[target].canonical
    && (Inv(before) && Resolved(before.branches[target].binaryDocs) ==> InStep(after.branches[target]))
  }

  lemma MergeJoins(db: Db, source: DocId, target: DocId, dummy: Option<int>)
    requires Mergeable(db, source, target)
    ensures Joined(db, Merged(db, source, target, dummy), source, target, dummy)
  {
    if Inv(db) {
      var b := MergedShadow(db, source, target, dummy);
      assert BranchOk(db, source) && BranchOk(db, target);
      UnionClosed(db.branches[target].shadow.value, db.branches[source].shadow.value);
      ReconciledInStep(b);
    }
  }

  function MergedShadow(db: Db, source: DocId, target: DocId, dummy: Option<int>): Branch
    requires Mergeable(db, source, target)
  {
    var doc := db.branches[target].shadow.value + db.branches[source].shadow.value;
    db.branches[target].(shadow := Some(if dummy.Some? then doc + {Change(dummy.value, Heads(doc))} else doc))
  }

  lemma UnionClosed(a: Doc, b: Doc)
    requires Closed(a) && Closed(b)
    ensures Closed(a + b)
  {
  }

  // A commit: on the heads of the shadow, in the shadow, and with nothing pending also in the
  // canonical document.
  ghost predicate Extended(before: Db, after: Db, name: DocId, c: Change)
    requires name in before.branches && before.branches[name].shadow.Some?
  {
    var shadow := before.branches[name].shadow.value;
    && after.branches.Keys == before.branches.Keys
    && (forall other :: other in before.branches && other != name ==> after.branches[other] == before.branches[other])
    && c.deps == Heads(shadow) && after.branches[name].shadow.Some? && shadow + {c} <= after.branches[name].shadow.value
    && before.branches[name].canonical <= after.branches[name].canonical
    && (Inv(before) && Resolved(before.branches[name].binaryDocs) ==> InStep(after.branches[name]))
  }

  lemma CommitExtends(db: Db, name: DocId, c: Change)
    requires name in db.branches && db.branches[name].shadow.Some? && c.deps == Heads(db.branches[name].shadow.value)
    ensures Extended(db, Committed(db, name, c), name, c)
  {
    if Inv(db) {
      assert BranchOk(db, name);
      ReconciledInStep(db.branches[name].(shadow := Some(db.branches[name].shadow.value + {c})));
    }
  }

  class BranchDb {
    var states: map<DocId, BranchSyncState>
    var binaries: map<DocId, bool>

    constructor ()
      ensures Valid() && Contents() == EMPTY_DB
    {
      states, binaries := map[], map[];
    }

    // Every branch has its own state object.
    ghost predicate Valid()
      reads this
    {
      forall a, b :: a in states && b in states && a != b ==> states[a] != states[b]
    }

    ghost function Contents(): Db
      reads this, states.Values
    {
      Db(map name | name in states :: states[name].Contents(), binaries, None, {})
    }

    // One waiting branch learns the outcome and may reconcile.
    method NotifyBranch(name: DocId, id: DocId, found: bool)
      requires Valid() && name in states && id in binaries && binaries[id] == found
      modifies states.Values
      ensures Valid()
      ensures Contents() == old(Contents()).(branches :=
        old(Contents()).branches[name := IngestedBranch(binaries, id, old(Contents()).branches[name])])
    {
      ghost var before := Contents();
      var state := states[name];
      if id in state.binaryDocs {
        state.binaryDocs := state.binaryDocs[id := if found then Found else Failed];
        state.TryReconcile();
      }
      forall other | other in states && other != name ensures states[other].Contents() == before.branches[other] { }
      assert Contents().branches == before.branches[name := IngestedBranch(binaries, id, before.branches[name])];
    }

    method IngestBinaryDoc(id: DocId, found: bool)
      requires Valid()
      modifies this`binaries, states.Values
      ensures Valid() && Contents() == Ingested(old(Contents()), id, found)
    {
      ghost var before := Contents().branches;
      binaries := binaries[id := found];
      ghost var now := binaries;
      var rest := states.Keys;
      while rest != {}
        invariant Valid() && rest <= states.Keys && binaries == now
        invariant before.Keys == states.Keys && Contents().branches == PartlyIngested(now, id, before, rest)
        modifies states.Values
        decreases rest
      {
        var name := Any(rest);
        PartlyNext(now, id, before, rest, name);
        rest := rest - {name};
        NotifyBranch(name, id, found);
      }
    }

    method UpdateBranchSyncState(name: DocId, canonical: Doc, heads: set<Change>, linked: set<DocId>)
      requires Valid()
      modifies this`states, states.Values
      ensures Valid() && Contents() == Updated(old(Contents()), name, canonical, heads, linked)
      ensures forall s :: s in states.Values ==> s in old(states.Values) || fresh(s)
    {
      if name !in states {
        var created := new BranchSyncState(canonical);
        Track(name, created);
      }
      UpdateState(name, heads, linked);
    }

    method Track(name: DocId, state: BranchSyncState)
      requires Valid() && name !in states && state !in states.Values
      modifies this`states
      ensures Valid() && states == old(states)[name := state]
      ensures Contents() == old(Contents()).(branches := old(Contents()).branches[name := old(state.Contents())])
    {
      ghost var before := Contents();
      states := states[name := state];
      assert Contents().branches == before.branches[name := state.Contents()];
    }

    method UpdateState(name: DocId, heads: set<Change>, linked: set<DocId>)
      requires Valid() && name in states
      modifies states.Values
      ensures Valid() && Contents() == Updated(old(Contents()), name, {}, heads, linked)
    {
      ghost var before := Contents();
      var state := states[name];
      state.Refresh(binaries, heads, linked);
      ghost var updated := UpdateBranch(before, name, {}, heads, linked);
      assert state.Contents() == if Resolved(updated.binaryDocs) then Reconciled(updated) else updated;
      forall other | other in states && other != name ensures states[other].Contents() == before.branches[other] { }
      assert Contents().branches == before.branches[name := state.Contents()];
    }

    // The commit itself is made by the document library on the current heads.
    method CommitFsChanges(name: DocId, id: int) returns (c: Option<Change>)
      requires Valid()
      modifies states.Values
      ensures Valid() && c.Some? == (name in states && old(Contents()).branches[name].shadow.Some?)
      ensures c.Some? ==> c.value == Change(id, Heads(old(Contents()).branches[name].shadow.value))
      ensures Contents() == if c.Some? then Committed(old(Contents()), name, c.value) else old(Contents())
      ensures c.Some? ==> Extended(old(Contents()), Contents(), name, c.value)
    {
      ghost var before := Contents();
      if name !in states { return None; }
      var state := states[name];
      if state.shadow.None? { return None; }
      var change := Change(id, Heads(state.shadow.value));
      state.shadow := Some(state.shadow.value + {change});
      state.TryReconcile();
      c := Some(change);
      forall other | other in states && other != name ensures states[other].Contents() == before.branches[other] { }
      assert Contents().branches == Committed(before, name, change).branches;
      CommitExtends(before, name, change);
    }

    method MergeBranch(source: DocId, target: DocId, dummy: Option<int>) returns (ok: bool)
      requires Valid()
      modifies states.Values
      ensures Valid() && ok == (Mergeable(old(Contents()), source, target))
      ensures Contents() == Merged(old(Contents()), source, target, dummy)
      ensures ok ==> Joined(old(Contents()), Contents(), source, target, dummy)
    {
      ghost var before := Contents();
      if source == target || source !in states || target !in states { return false; }
      var from, into := states[source], states[target];
      if from.shadow.None? || into.shadow.None? { return false; }
      into.shadow := Some(into.shadow.value + from.shadow.value);
      if dummy.Some? {
        into.shadow := Some(into.shadow.value + {Change(dummy.value, Heads(into.shadow.value))});
      }
      into.TryReconcile();
      ok := true;
      forall other | other in states && other != target ensures states[other].Contents() == before.branches[other] { }
      assert Contents().branches == Merged(before, source, target, dummy).branches;
      MergeJoins(before, source, target, dummy);
    }
  }

  // ---------- whole operations are runs ----------

  lemma UpdatedIsRun(db: Db, name: DocId, canonical: Doc, heads: set<Change>, linked: set<DocId>) returns (events: seq<Event>)
    requires Settled(db) && Enabled(db, Update(name, canonical, heads, linked))
    ensures Run(db, events) == Some(Updated(db, name, canonical, heads, linked))
    ensures events != [] && events[0] == Update(name, canonical, heads, linked)
    ensures forall i :: 0 < i < |events| ==> events[i] == Reconcile(name)
  {
    var e := Update(name, canonical, heads, linked);
    var state := UpdateBranch(db, name, canonical, heads, linked);
    if Resolved(state.binaryDocs) {
      events := [e, Reconcile(name)];
      RunTwo(db, e, Reconcile(name));
      var after := Apply(Apply(db, e), Reconcile(name));
      assert after.branches == Updated(db, name, canonical, heads, linked).branches;
      assert after.due == {};
    } else {
      events := [e];
      RunOne(db, e);
    }
  }

  lemma CommittedIsRun(db: Db, name: DocId, c: Change) returns (events: seq<Event>)
    requires Settled(db) && Enabled(db, Commit(name, c))
    ensures Run(db, events) == Some(Committed(db, name, c))
    ensures db.branches[name].shadow.Some? ==> events == [Commit(name, c), Reconcile(name)]
  {
    if db.branches[name].shadow.None? {
      events := [];
    } else {
      events := [Commit(name, c), Reconcile(name)];
      RunTwo(db, Commit(name, c), Reconcile(name));
      var after := Apply(Apply(db, Commit(name, c)), Reconcile(name));
      assert after.branches == Committed(db, name, c).branches;
      assert after.due == {};
    }
  }

  // The metadata commit is new to the merged document.
  lemma MergedIsRun(db: Db, source: DocId, target: DocId, dummy: Option<int>) returns (events: seq<Event>)
    requires Settled(db)
    requires Mergeable(db, source, target) && dummy.Some? ==>
      (var doc := db.branches[target].shadow.value + db.branches[source].shadow.value; Change(dummy.value, Heads(doc)) !in doc)
    ensures Run(db, events) == Some(Merged(db, source, target, dummy))
    ensures Mergeable(db, source, target) ==>
      && |events| == (if dummy.Some? then 3 else 2) && events[0] == Merge(source, target) && events[|events| - 1] == Reconcile(target)
      && (dummy.Some? ==> events[1].Commit? && events[1].branch == target && events[1].change.id == dummy.value)
  {
    if !Mergeable(db, source, target) {
      events := [];
    } else {
      var merge := Merge(source, target);
      var db1 := Apply(db, merge);
      RunOne(db, merge);
      events := [merge];
      var db2 := db1;
      if dummy.Some? {
        var commit := Commit(target, Change(dummy.value, Heads(db1.branches[target].shadow.value)));
        db2 := Apply(db1, commit);
        RunSnoc(db, events, commit);
        events := events + [commit];
      }
      RunSnoc(db, events, Reconcile(target));
      events := events + [Reconcile(target)];
      var after := Apply(db2, Reconcile(target));
      assert after.branches == Merged(db, source, target, dummy).branches;
      assert after.due == {};
    }
  }

  function VisitedAll(db: Db, id: DocId, todo: set<DocId>): Db
  {
    db.(branches := map name | name in db.branches ::
          if name in todo then IngestedBranch(db.binaries, id, db.branches[name]) else db.branches[name],
        ingest := Some(Ingest(id, {})))
  }

  lemma VisitOne(db: Db, id: DocId, todo: set<DocId>, name: DocId) returns (events: seq<Event>)
    requires db.ingest == Some(Ingest(id, todo)) && db.due == {} && name in todo && name in db.branches
    ensures Run(db, events) == Some(db.(branches := db.branches[name := IngestedBranch(db.binaries, id, db.branches[name])],
                                        ingest := Some(Ingest(id, todo - {name}))))
    ensures forall i :: 0 <= i < |events| ==> events[i].Visit? || events[i].Reconcile?
  {
    RunOne(db, Visit(name));
    events := [Visit(name)];
    if id in db.branches[name].binaryDocs {
      RunTwo(db, Visit(name), Reconcile(name));
      events := [Visit(name), Reconcile(name)];
      var after := Apply(Apply(db, Visit(name)), Reconcile(name));
      assert after.branches == db.branches[name := IngestedBranch(db.binaries, id, db.branches[name])];
      assert after.due == {};
    }
  }

  lemma {:induction false} VisitAll(db: Db, id: DocId, todo: set<DocId>) returns (events: seq<Event>)
    requires db.ingest == Some(Ingest(id, todo)) && db.due == {} && todo <= db.branches.Keys
    ensures Run(db, events) == Some(VisitedAll(db, id, todo))
    ensures forall i :: 0 <= i < |events| ==> events[i].Visit? || events[i].Reconcile?
    decreases todo
  {
    if todo == {} {
      events := [];
      assert VisitedAll(db, id, {}).branches == db.branches;
    } else {
      var name := Member(todo);
      var first := VisitOne(db, id, todo, name);
      var next := Run(db, first).value;
      var rest := VisitAll(next, id, todo - {name});
      RunConcat(db, first, rest);
      events := first + rest;
      assert VisitedAll(next, id, todo - {name}).branches == VisitedAll(db, id, todo).branches;
    }
  }

  lemma IngestedIsRun(db: Db, id: DocId, found: bool) returns (events: seq<Event>)
    requires Settled(db)
    ensures Run(db, events) == Some(Ingested(db, id, found))
    ensures |events| > 1 && events[0] == StartIngest(id, found) && events[|events| - 1] == EndIngest
    ensures forall i :: 0 < i < |events| - 1 ==> events[i].Visit? || events[i].Reconcile?
  {
    var start := StartIngest(id, found);
    RunOne(db, start);
    var db1 := Apply(db, start);
    var visits := VisitAll(db1, id, db.branches.Keys);
    RunConcat(db, [start], visits);
    RunSnoc(db, [start] + visits, EndIngest);
    events := [start] + visits + [EndIngest];
    assert Apply(VisitedAll(db1, id, db.branches.Keys), EndIngest).branches == Ingested(db, id, found).branches;
  }
}
