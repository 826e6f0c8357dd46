// What whole runs of branch synchronisation guarantee, stated by the events that happened: what
// was reported, ingested, received, committed and merged.

module BranchRuns {
  import opened Text
  import opened Changes
  import opened BranchSync

  // ---------- what was reported ----------

  datatype Report = Report(heads: set<Change>, linked: set<DocId>)

  // The last update of a branch: the heads and linked documents it reported.
  function LastReport(events: seq<Event>, name: DocId): Option<Report>
  {
    if events == [] then None
    else
      var e := events[|events| - 1];
      if e.Update? && e.branch == name then Some(Report(e.heads, e.linked)) else LastReport(events[..|events| - 1], name)
  }

  // Whether the last ingest of a document found it.
  function LastIngest(events: seq<Event>, id: DocId): Option<bool>
  {
    if events == [] then None
    else
      var e := events[|events| - 1];
      if e.StartIngest? && e.id == id then Some(e.found) else LastIngest(events[..|events| - 1], id)
  }

  predicate AllIngested(events: seq<Event>, linked: set<DocId>)
  {
    forall id :: id in linked ==> LastIngest(events, id).Some?
  }

  // Every document that contains `a` contains `b`.
  ghost predicate Covers(a: set<Change>, b: set<Change>)
  {
    forall doc: Doc :: Closed(doc) && a <= doc ==> b <= doc
  }

  ghost predicate ReportOk(db: Db, name: DocId, r: Option<Report>)
  {
    match r
    case None => name !in db.branches
    case Some(r) =>
      name in db.branches && db.branches[name].binaryDocs.Keys == r.linked && Covers(db.branches[name].lastTracked, r.heads)
  }

  predicate IngestOk(db: Db, id: DocId, found: Option<bool>)
  {
    && (found == if id in db.binaries then Some(db.binaries[id]) else None)
    && (db.ingest.Some? && db.ingest.value.id == id ==> found.Some?)
  }

  lemma TrackedStep(db: Db, e: Event, name: DocId, r: Report)
    requires Inv(db) && Enabled(db, e) && ReportOk(db, name, Some(r)) && !(e.Update? && e.branch == name)
    ensures ReportOk(Apply(db, e), name, Some(r))
  {
    assert BranchOk(db, name);
    if e == Reconcile(name) { ReconciledCovers(db.branches[name], r.heads); }
  }

  lemma ReconciledCovers(b: Branch, heads: set<Change>)
    requires DocsOk(b) && Covers(b.lastTracked, heads)
    ensures Covers(Reconciled(b).lastTracked, heads)
  {
    if Resolved(b.binaryDocs) && !UpToDate(b) {
      var all := Reconciled(b).canonical;
      forall doc: Doc | Closed(doc) && Heads(all) <= doc ensures heads <= doc { HeadsContain(all, doc); }
    }
  }

  lemma ReportStep(db: Db, e: Event, name: DocId, r: Option<Report>)
    requires Inv(db) && Enabled(db, e) && ReportOk(db, name, r)
    ensures ReportOk(Apply(db, e), name, if e.Update? && e.branch == name then Some(Report(e.heads, e.linked)) else r)
  {
    if r.Some? && !(e.Update? && e.branch == name) { TrackedStep(db, e, name, r.value); }
  }

  lemma {:induction false} RunReports(events: seq<Event>, name: DocId, id: DocId)
    requires Run(EMPTY_DB, events).Some?
    ensures var db := Run(EMPTY_DB, events).value;
      ReportOk(db, name, LastReport(events, name)) && IngestOk(db, id, LastIngest(events, id))
  {
    if events != [] {
      var front, e := events[..|events| - 1], events[|events| - 1];
      RunReports(front, name, id);
      RunKeeps(EMPTY_DB, front);
      ReportStep(Run(EMPTY_DB, front).value, e, name, LastReport(front, name));
    }
  }

  // Nothing is pending exactly when every linked document has been ingested.
  lemma ResolvedMeans(events: seq<Event>, name: DocId)
    requires Run(EMPTY_DB, events).Some? && LastReport(events, name).Some?
    ensures var db := Run(EMPTY_DB, events).value;
      && name in db.branches
      && (Resolved(db.branches[name].binaryDocs) ==> AllIngested(events, LastReport(events, name).value.linked))
      && (AllIngested(events, LastReport(events, name).value.linked) && db.ingest.None? ==> Resolved(db.branches[name].binaryDocs))
  {
    RunKeeps(EMPTY_DB, events);
    RunReports(events, name, 0);
    var db := Run(EMPTY_DB, events).value;
    assert BranchOk(db, name);
    forall id | id in db.branches[name].binaryDocs
      ensures db.branches[name].binaryDocs[id] != Pending ==> LastIngest(events, id).Some?
      ensures db.ingest.None? && LastIngest(events, id).Some? ==> db.branches[name].binaryDocs[id] != Pending {
      assert StatusOk(db, name, id);
      RunReports(events, name, id);
    }
  }

  // Between operations the status of a linked document is what its last ingest reported.
  lemma StatusReported(events: seq<Event>, name: DocId, id: DocId)
    requires Run(EMPTY_DB, events).Some? && Settled(Run(EMPTY_DB, events).value)
    requires LastReport(events, name).Some? && id in LastReport(events, name).value.linked
    ensures var db := Run(EMPTY_DB, events).value;
      && name in db.branches && id in db.branches[name].binaryDocs
      && db.branches[name].binaryDocs[id] == match LastIngest(events, id) case None => Pending case Some(found) => if found then Found else Failed
  {
    RunKeeps(EMPTY_DB, events);
    RunReports(events, name, id);
    var db := Run(EMPTY_DB, events).value;
    assert BranchOk(db, name) && StatusOk(db, name, id);
  }

  // Between operations, once all documents linked by the last update have been ingested, found
  // or not, the shadow has the whole history of the heads that update reported, and nothing the
  // canonical document lacks.
  lemma ReportedReconciled(events: seq<Event>, name: DocId, reported: Doc)
    requires Run(EMPTY_DB, events).Some? && Settled(Run(EMPTY_DB, events).value)
    requires var r := LastReport(events, name);
      r.Some? && Closed(reported) && Heads(reported) == r.value.heads && AllIngested(events, r.value.linked)
    ensures var db := Run(EMPTY_DB, events).value;
      && name in db.branches && db.branches[name].ready && db.branches[name].shadow.Some?
      && reported <= db.branches[name].shadow.value <= db.branches[name].canonical
  {
    RunKeeps(EMPTY_DB, events);
    RunReports(events, name, 0);
    ResolvedMeans(events, name);
    var b := Run(EMPTY_DB, events).value.branches[name];
    assert BranchOk(Run(EMPTY_DB, events).value, name);
    assert Heads(reported) <= b.shadow.value;
    HeadsContain(reported, b.shadow.value);
  }

  // ---------- what arrives, and how ----------

  predicate InShadow(db: Db, name: DocId, c: Change)
  {
    name in db.branches && db.branches[name].shadow.Some? && c in db.branches[name].shadow.value
  }

  predicate InCanonical(db: Db, name: DocId, c: Change) { name in db.branches && c in db.branches[name].canonical }

  predicate HasShadow(db: Db, name: DocId) { name in db.branches && db.branches[name].shadow.Some? }

  // From outside: the first update hands over the canonical document, later changes are received.
  predicate Receives(db: Db, e: Event, name: DocId, c: Change)
  {
    || (e.Remote? && e.branch == name && c in e.changes)
    || (e.Update? && e.branch == name && name !in db.branches && c in e.canonical)
  }

  // Written here: by a commit, or by a merge of a branch whose shadow has it.
  predicate Writes(db: Db, e: Event, name: DocId, c: Change)
  {
    || (e.Commit? && e.branch == name && HasShadow(db, name) && c == e.change)
    || (e.Merge? && e.target == name && HasShadow(db, name) && InShadow(db, e.source, c))
  }

  // A reconcile that nothing holds back.
  predicate Exchanges(db: Db, e: Event, name: DocId)
  {
    e == Reconcile(name) && name in db.branches && Resolved(db.branches[name].binaryDocs)
  }

  // What is received goes to the canonical document and what is written to the shadow; only a
  // reconcile with nothing pending carries changes between the two.
  lemma StepMoves(db: Db, e: Event, name: DocId, c: Change)
    requires Enabled(db, e)
    ensures InShadow(db, name, c) || Writes(db, e, name, c) ==> InShadow(Apply(db, e), name, c)
    ensures InShadow(Apply(db, e), name, c) ==>
      InShadow(db, name, c) || Writes(db, e, name, c) || (Exchanges(db, e, name) && InCanonical(db, name, c))
    ensures InCanonical(db, name, c) || Receives(db, e, name, c) ==> InCanonical(Apply(db, e), name, c)
    ensures InCanonical(Apply(db, e), name, c) ==>
      InCanonical(db, name, c) || Receives(db, e, name, c) || (Exchanges(db, e, name) && InShadow(db, name, c))
  {
  }

  // The state before event `i`.
  function Before(events: seq<Event>, i: nat): Db
    requires i <= |events|
  {
    match Run(EMPTY_DB, events[..i]) case None => EMPTY_DB case Some(db) => db
  }

  predicate BroughtAt(events: seq<Event>, i: nat, name: DocId, c: Change)
  {
    i < |events| && (Receives(Before(events, i), events[i], name, c) || Writes(Before(events, i), events[i], name, c))
  }

  // A branch holds a change exactly when some event brought it there.
  lemma {:induction false} HeldExactly(events: seq<Event>, name: DocId, c: Change)
    requires Run(EMPTY_DB, events).Some?
    ensures var db := Run(EMPTY_DB, events).value;
      InShadow(db, name, c) || InCanonical(db, name, c) <==> exists i: nat :: BroughtAt(events, i, name, c)
  {
    if events != [] {
      var n := |events| - 1;
      HeldExactly(events[..n], name, c);
      StepMoves(Run(EMPTY_DB, events[..n]).value, events[n], name, c);
      forall i: nat | i < n ensures BroughtAt(events, i, name, c) == BroughtAt(events[..n], i, name, c) {
        assert events[..n][..i] == events[..i];
      }
      assert BroughtAt(events, n, name, c)
        <==> Receives(Run(EMPTY_DB, events[..n]).value, events[n], name, c) || Writes(Run(EMPTY_DB, events[..n]).value, events[n], name, c);
    }
  }

  // The shadow got a change by a write, or by a reconcile at which all linked documents had
  // been ingested.
  predicate AdmittedAt(events: seq<Event>, i: nat, name: DocId, c: Change)
  {
    && i < |events|
    && (Writes(Before(events, i), events[i], name, c)
        || (events[i] == Reconcile(name) && InCanonical(Before(events, i), name, c)
            && LastReport(events[..i], name).Some? && AllIngested(events[..i], LastReport(events[..i], name).value.linked)))
  }

  lemma {:induction false} ShadowGated(events: seq<Event>, name: DocId, c: Change)
    requires Run(EMPTY_DB, events).Some? && InShadow(Run(EMPTY_DB, events).value, name, c)
    ensures exists i: nat :: AdmittedAt(events, i, name, c)
  {
    if events != [] {
      var n := |events| - 1;
      var db := Run(EMPTY_DB, events[..n]).value;
      StepMoves(db, events[n], name, c);
      if InShadow(db, name, c) {
        ShadowGated(events[..n], name, c);
        var i: nat :| AdmittedAt(events[..n], i, name, c);
        assert events[..n][..i] == events[..i];
        assert AdmittedAt(events, i, name, c);
      } else {
        if !Writes(db, events[n], name, c) {
          RunReports(events[..n], name, 0);
          ResolvedMeans(events[..n], name);
        }
        assert AdmittedAt(events, n, name, c);
      }
    }
  }

  // What a merge takes over stays: the target has the shadow of the source for good.
  lemma MergedStays(events: seq<Event>, source: DocId, target: DocId, later: seq<Event>, c: Change)
    requires Run(EMPTY_DB, events).Some? && Enabled(Run(EMPTY_DB, events).value, Merge(source, target))
    requires HasShadow(Run(EMPTY_DB, events).value, target) && InShadow(Run(EMPTY_DB, events).value, source, c)
    requires Run(EMPTY_DB, events + [Merge(source, target)] + later).Some?
    ensures InShadow(Run(EMPTY_DB, events + [Merge(source, target)] + later).value, target, c)
  {
    var db, e := Run(EMPTY_DB, events).value, Merge(source, target);
    StepMoves(db, e, target, c);
    RunSnoc(EMPTY_DB, events, e);
    RunConcat(EMPTY_DB, events + [e], later);
    RunLosesNothing(Apply(db, e), later);
  }
}
