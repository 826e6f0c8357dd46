// The shadow document of a branch and its reconciliation with the canonical one, held back
// while linked binary documents are pending. Every lock-protected section is one step; the
// methods of BranchDb perform sequences of steps, and any interleaving of steps is a run.

module BranchSync {
  import opened Text
  import opened Changes

  type DocId = int

  datatype Status = Pending | Failed | Found

  datatype Branch = Branch(
    shadow: Option<Doc>,
    ready: bool,
    canonical: Doc,
    lastTracked: set<Change>,
    lastReconciled: set<Change>,
    binaryDocs: map<DocId, Status>)

  // `ingest` is the binary document whose result is being handed to the branches `todo`; it
  // stands for the lock on `binaries`. `due` are the branches whose reconcile is still to run.
  datatype Ingest = Ingest(id: DocId, todo: set<DocId>)

  datatype Db = Db(
    branches: map<DocId, Branch>,
    binaries: map<DocId, bool>,
    ingest: Option<Ingest>,
    due: set<DocId>)

  const EMPTY_DB := Db(map[], map[], None, {})

  // ---------- steps ----------

  predicate Resolved(binaryDocs: map<DocId, Status>)
  {
    forall id :: id in binaryDocs ==> binaryDocs[id] != Pending
  }

  function StatusOf(binaries: map<DocId, bool>, id: DocId): Status
  {
    if id !in binaries then Pending else if binaries[id] then Found else Failed
  }

  predicate UpToDate(b: Branch)
  {
    b.lastReconciled == b.lastTracked && b.shadow.Some? && b.lastReconciled == Heads(b.shadow.value)
  }

  // try_reconcile_branch: merges the live canonical document into the shadow and back.
  function Reconciled(b: Branch): Branch
  {
    if !Resolved(b.binaryDocs) || UpToDate(b) then b
    else
      var merged := (match b.shadow case None => b.canonical case Some(s) => s) + b.canonical;
      Branch(Some(merged), true, b.canonical + merged, Heads(b.canonical + merged), Heads(b.canonical + merged), b.binaryDocs)
  }

  function Linked(binaries: map<DocId, bool>, linked: set<DocId>): map<DocId, Status>
  {
    map id | id in linked :: StatusOf(binaries, id)
  }

  datatype Event =
    | Remote(branch: DocId, changes: Doc)
    | Update(branch: DocId, canonical: Doc, heads: set<Change>, linked: set<DocId>)
    | StartIngest(id: DocId, found: bool)
    | Visit(branch: DocId)
    | EndIngest
    | Reconcile(branch: DocId)
    | Commit(branch: DocId, change: Change)
    | Merge(source: DocId, target: DocId)

  // What the environment guarantees: documents are closed, reported heads were read from the
  // canonical document, a commit depends on the heads of the shadow document.
  predicate Enabled(db: Db, e: Event)
  {
    match e
    case Remote(b, changes) => b in db.branches && Closed(db.branches[b].canonical + changes)
    case Update(b, canonical, heads, linked) =>
      db.ingest.None? && Closed(canonical) && heads <= if b in db.branches then db.branches[b].canonical else canonical
    case StartIngest(id, found) => db.ingest.None?
    case Visit(b) => db.ingest.Some? && b in db.ingest.value.todo && b in db.branches
    case EndIngest => db.ingest.Some? && db.ingest.value.todo == {}
    case Reconcile(b) => b in db.branches
    case Commit(b, c) => b in db.branches && (db.branches[b].shadow.Some? ==>
        c !in db.branches[b].shadow.value && c.deps == Heads(db.branches[b].shadow.value))
    case Merge(source, target) => source in db.branches && target in db.branches && source != target
  }

  function UpdateBranch(db: Db, b: DocId, canonical: Doc, heads: set<Change>, linked: set<DocId>): Branch
  {
    var state := if b in db.branches then db.branches[b] else Branch(None, false, canonical, {}, {}, map[]);
    state.(binaryDocs := Linked(db.binaries, linked), lastTracked := heads)
  }

  function VisitBranch(db: Db, id: DocId, b: Branch): Branch
  {
    if id in b.binaryDocs then b.(binaryDocs := b.binaryDocs[id := StatusOf(db.binaries, id)]) else b
  }

  function Apply(db: Db, e: Event): Db
    requires Enabled(db, e)
  {
    match e
    case Remote(b, changes) =>
      db.(branches := db.branches[b := db.branches[b].(canonical := db.branches[b].canonical + changes)])
    case Update(b, canonical, heads, linked) =>
      var state := UpdateBranch(db, b, canonical, heads, linked);
      db.(branches := db.branches[b := state], due := if Resolved(state.binaryDocs) then db.due + {b} else db.due)
    case StartIngest(id, found) => db.(binaries := db.binaries[id := found], ingest := Some(Ingest(id, db.branches.Keys)))
    case Visit(b) =>
      var id := db.ingest.value.id;
      db.(branches := db.branches[b := VisitBranch(db, id, db.branches[b])],
          ingest := Some(Ingest(id, db.ingest.value.todo - {b})),
          due := if id in db.branches[b].binaryDocs then db.due + {b} else db.due)
    case EndIngest => db.(ingest := None)
    case Reconcile(b) => db.(branches := db.branches[b := Reconciled(db.branches[b])], due := db.due - {b})
    case Commit(b, c) =>
      (match db.branches[b].shadow
       case None => db
       case Some(s) => db.(branches := db.branches[b := db.branches[b].(shadow := Some(s + {c}))], due := db.due + {b}))
    case Merge(source, target) =>
      (match (db.branches[source].shadow, db.branches[target].shadow)
       case (Some(s), Some(t)) => db.(branches := db.branches[target := db.branches[target].(shadow := Some(t + s))], due := db.due + {target})
       case _ => db)
  }

  // None: some event was not enabled.
  function Run(db: Db, events: seq<Event>): Option<Db>
  {
    if events == [] then Some(db)
    else
      match Run(db, events[..|events| - 1])
      case None => None
      case Some(before) =>
        var e := events[|events| - 1];
        if Enabled(before, e) then Some(Apply(before, e)) else None
  }

  lemma RunSnoc(db: Db, events: seq<Event>, e: Event)
    requires Run(db, events).Some?
    ensures Run(db, events + [e])
         == if Enabled(Run(db, events).value, e) then Some(Apply(Run(db, events).value, e)) else None
  {
  }

  lemma {:induction false} RunConcat(db: Db, a: seq<Event>, b: seq<Event>)
    requires Run(db, a).Some?
    ensures Run(db, a + b) == Run(Run(db, a).value, b)
  {
    if b == [] {
      assert a + b == a;
    } else {
      RunConcat(db, a, b[..|b| - 1]);
      assert (a + b)[..|a + b| - 1] == a + b[..|b| - 1];
    }
  }

  lemma RunOne(db: Db, e: Event)
    requires Enabled(db, e)
    ensures Run(db, [e]) == Some(Apply(db, e))
  {
  }

  lemma RunTwo(db: Db, e: Event, f: Event)
    requires Enabled(db, e) && Enabled(Apply(db, e), f)
    ensures Run(db, [e, f]) == Some(Apply(Apply(db, e), f))
  {
    RunOne(db, e);
    RunSnoc(db, [e], f);
    assert [e] + [f] == [e, f];
  }

  // ---------- invariant ----------

  ghost predicate DocsOk(b: Branch)
  {
    && Closed(b.canonical) && b.lastTracked <= b.canonical
    && (b.shadow.Some? ==> Closed(b.shadow.value))
    && b.ready == b.shadow.Some?
  }

  // The shadow holds everything tracked and nothing the canonical document lacks.
  ghost predicate InStep(b: Branch)
  {
    b.shadow.Some? && b.lastTracked <= b.shadow.value <= b.canonical
  }

  ghost predicate StatusOk(db: Db, name: DocId, id: DocId)
    requires name in db.branches && id in db.branches[name].binaryDocs
  {
    || db.branches[name].binaryDocs[id] == StatusOf(db.binaries, id)
    || (db.ingest.Some? && db.ingest.value.id == id && name in db.ingest.value.todo)
  }

  ghost predicate BranchOk(db: Db, name: DocId)
    requires name in db.branches
  {
    && DocsOk(db.branches[name])
    && (forall id :: id in db.branches[name].binaryDocs ==> StatusOk(db, name, id))
    && (Resolved(db.branches[name].binaryDocs) && name !in db.due ==> InStep(db.branches[name]))
  }

  ghost predicate Inv(db: Db)
  {
    && (forall name :: name in db.branches ==> BranchOk(db, name))
    && (db.ingest.Some? ==> db.ingest.value.todo <= db.branches.Keys)
  }

  lemma ReconciledInStep(b: Branch)
    requires DocsOk(b)
    ensures DocsOk(Reconciled(b)) && Reconciled(b).binaryDocs == b.binaryDocs
    ensures Resolved(b.binaryDocs) ==> InStep(Reconciled(b))
  {
    if Resolved(b.binaryDocs) {
      if UpToDate(b) {
        HeadsContain(b.shadow.value, b.canonical);
      } else {
        assert Closed(Reconciled(b).canonical);
      }
    }
  }

  // A step on one branch leaves what is known about the others.
  lemma OthersOk(db: Db, after: Db, touched: set<DocId>)
    requires Inv(db) && db.branches.Keys <= after.branches.Keys && after.binaries == db.binaries
    requires after.ingest.Some? == db.ingest.Some?
    requires db.ingest.Some? ==>
      (after.ingest.value.id == db.ingest.value.id && db.ingest.value.todo - touched <= after.ingest.value.todo)
    requires forall name :: name in after.branches && name !in touched ==> name in db.branches && after.branches[name] == db.branches[name]
    requires db.due - touched <= after.due
    ensures forall name :: name in after.branches && name !in touched ==> BranchOk(after, name)
  {
  }

  lemma RemoteKeeps(db: Db, name: DocId, changes: Doc)
    requires Inv(db) && Enabled(db, Remote(name, changes))
    ensures Inv(Apply(db, Remote(name, changes)))
  {
  }

  lemma UpdateKeeps(db: Db, name: DocId, canonical: Doc, heads: set<Change>, linked: set<DocId>)
    requires Inv(db) && Enabled(db, Update(name, canonical, heads, linked))
    ensures Inv(Apply(db, Update(name, canonical, heads, linked)))
  {
  }

  lemma StartIngestKeeps(db: Db, id: DocId, found: bool)
    requires Inv(db) && Enabled(db, StartIngest(id, found))
    ensures Inv(Apply(db, StartIngest(id, found)))
  {
  }

  lemma VisitKeeps(db: Db, name: DocId)
    requires Inv(db) && Enabled(db, Visit(name))
    ensures Inv(Apply(db, Visit(name)))
  {
  }

  lemma EndIngestKeeps(db: Db)
    requires Inv(db) && Enabled(db, EndIngest)
    ensures Inv(Apply(db, EndIngest))
  {
  }

  lemma ReconcileKeeps(db: Db, name: DocId)
    requires Inv(db) && Enabled(db, Reconcile(name))
    ensures Inv(Apply(db, Reconcile(name)))
  {
    var after := Apply(db, Reconcile(name));
    OthersOk(db, after, {name});
    assert BranchOk(db, name);
    ReconciledInStep(db.branches[name]);
    forall x | x in after.branches[name].binaryDocs ensures StatusOk(after, name, x) { assert StatusOk(db, name, x); }
  }

  lemma CommitKeeps(db: Db, name: DocId, c: Change)
    requires Inv(db) && Enabled(db, Commit(name, c))
    ensures Inv(Apply(db, Commit(name, c)))
  {
  }

  lemma MergeKeeps(db: Db, source: DocId, target: DocId)
    requires Inv(db) && Enabled(db, Merge(source, target))
    ensures Inv(Apply(db, Merge(source, target)))
  {
  }

  lemma StepKeeps(db: Db, e: Event)
    requires Inv(db) && Enabled(db, e)
    ensures Inv(Apply(db, e))
  {
    match e
    case Remote(b, changes) => RemoteKeeps(db, b, changes);
    case Update(b, canonical, heads, linked) => UpdateKeeps(db, b, canonical, heads, linked);
    case StartIngest(id, found) => StartIngestKeeps(db, id, found);
    case Visit(b) => VisitKeeps(db, b);
    case EndIngest => EndIngestKeeps(db);
    case Reconcile(b) => ReconcileKeeps(db, b);
    case Commit(b, c) => CommitKeeps(db, b, c);
    case Merge(source, target) => MergeKeeps(db, source, target);
  }

  lemma {:induction false} RunKeeps(db: Db, events: seq<Event>)
    requires Inv(db) && Run(db, events).Some?
    ensures Inv(Run(db, events).value)
  {
    if events != [] {
      RunKeeps(db, events[..|events| - 1]);
      StepKeeps(Run(db, events[..|events| - 1]).value, events[|events| - 1]);
    }
  }

  // ---------- what the invariant gives ----------

  // No lock is held and no reconcile is outstanding.
  predicate Settled(db: Db) { db.ingest.None? && db.due == {} }

  // In every run, between operations: statuses are those of the binary documents; a branch
  // without pending documents has a shadow that holds everything tracked, with its whole
  // history, and nothing the canonical document lacks.
  lemma RunsReconcile(events: seq<Event>, name: DocId, tracked: Doc)
    requires var r := Run(EMPTY_DB, events); r.Some? && Settled(r.value) && name in r.value.branches
    requires Closed(tracked) && Heads(tracked) == Run(EMPTY_DB, events).value.branches[name].lastTracked
    ensures var db := Run(EMPTY_DB, events).value; var b := db.branches[name];
      && (forall id :: id in b.binaryDocs ==> b.binaryDocs[id] == StatusOf(db.binaries, id))
      && (Resolved(b.binaryDocs) ==> b.ready && b.shadow.Some? && tracked <= b.shadow.value <= b.canonical)
  {
    RunKeeps(EMPTY_DB, events);
    var db := Run(EMPTY_DB, events).value;
    assert BranchOk(db, name);
    forall id | id in db.branches[name].binaryDocs ensures db.branches[name].binaryDocs[id] == StatusOf(db.binaries, id) {
      assert StatusOk(db, name, id);
    }
    if Resolved(db.branches[name].binaryDocs) { HeadsContain(tracked, db.branches[name].shadow.value); }
  }

  ghost predicate Grown(a: Db, b: Db)
  {
    forall name :: name in a.branches ==>
      && name in b.branches && a.branches[name].canonical <= b.branches[name].canonical
      && (a.branches[name].shadow.Some? ==> b.branches[name].shadow.Some? && a.branches[name].shadow.value <= b.branches[name].shadow.value)
  }

  lemma StepLosesNothing(db: Db, e: Event)
    requires Enabled(db, e)
    ensures Grown(db, Apply(db, e))
  {
  }

  // No document ever loses a change, in any run.
  lemma {:induction false} RunLosesNothing(db: Db, events: seq<Event>)
    requires Run(db, events).Some?
    ensures Grown(db, Run(db, events).value)
  {
    if events != [] {
      RunLosesNothing(db, events[..|events| - 1]);
      StepLosesNothing(Run(db, events[..|events| - 1]).value, events[|events| - 1]);
    }
  }

  // A reconcile that went through leaves both documents equal, at the heads it recorded.
  lemma ReconcileCompletes(b: Branch)
    requires DocsOk(b) && Resolved(b.binaryDocs) && !UpToDate(b)
    ensures var r := Reconciled(b);
      && r.shadow == Some(r.canonical) && r.lastTracked == r.lastReconciled == Heads(r.canonical)
      && r.canonical == b.canonical + (if b.shadow.Some? then b.shadow.value else {})
      && UpToDate(r) && Reconciled(r) == r
  {
    var merged := (match b.shadow case None => b.canonical case Some(s) => s) + b.canonical;
    assert b.canonical + merged == merged;
  }

  // The early exit is taken exactly when the recorded heads agree, and then the shadow is the
  // history of what was tracked.
  lemma UpToDateMeans(b: Branch, tracked: Doc)
    requires DocsOk(b) && Closed(tracked) && Heads(tracked) == b.lastTracked
    ensures UpToDate(b) <==> b.lastReconciled == b.lastTracked && b.shadow == Some(tracked)
  {
    if b.shadow.Some? { HeadsDetermine(b.shadow.value, tracked); }
  }

  // ---------- the gate covers only what was tracked ----------

  // The first reconcile forks the live canonical document: it takes exactly what was tracked
  // if and only if nothing has arrived since.
  lemma FirstForkExact(b: Branch, tracked: Doc)
    requires DocsOk(b) && Resolved(b.binaryDocs) && b.shadow.None?
    requires Closed(tracked) && Heads(tracked) == b.lastTracked
    ensures Reconciled(b).shadow == Some(tracked) <==> Heads(b.canonical) == b.lastTracked
  {
    assert b.canonical + b.canonical == b.canonical;
    HeadsDetermine(b.canonical, tracked);
  }

  // A later reconcile adds exactly what was tracked if and only if the live canonical document
  // holds nothing else that is new to the shadow.
  lemma LaterReconcileExact(b: Branch, tracked: Doc)
    requires Resolved(b.binaryDocs) && !UpToDate(b) && b.shadow.Some? && tracked <= b.canonical
    ensures Reconciled(b).shadow == Some(b.shadow.value + tracked) <==> b.canonical <= b.shadow.value + tracked
  {
    var shadow := b.shadow.value;
    if Reconciled(b).shadow == Some(shadow + tracked) { assert shadow + b.canonical == shadow + tracked; }
    if b.canonical <= shadow + tracked { assert shadow + b.canonical == shadow + tracked; }
  }

  // A run in which a change that was never tracked passes the gate.
  lemma UntrackedPasses(name: DocId)
    ensures exists events: seq<Event>, c: Change ::
      var r := Run(EMPTY_DB, events);
      && r.Some? && Settled(r.value) && name in r.value.branches
      && (forall i :: 0 <= i < |events| && events[i].Update? ==> c !in events[i].canonical && c !in events[i].heads)
      && r.value.branches[name].shadow.Some? && c in r.value.branches[name].shadow.value
  {
    var first := Change(1, {});
    var second := Change(2, {first});
    var e0, e1, e2 := Update(name, {first}, {first}, {}), Remote(name, {second}), Reconcile(name);
    var db1 := Apply(EMPTY_DB, e0);
    var db2 := Apply(db1, e1);
    var db3 := Apply(db2, e2);
    RunSnoc(EMPTY_DB, [], e0);
    RunSnoc(EMPTY_DB, [e0], e1);
    RunSnoc(EMPTY_DB, [e0, e1], e2);
    assert [] + [e0] == [e0] && [e0] + [e1] == [e0, e1] && [e0, e1] + [e2] == [e0, e1, e2];
    assert second in db3.branches[name].shadow.value;
    assert Run(EMPTY_DB, [e0, e1, e2]) == Some(db3);
  }
}
