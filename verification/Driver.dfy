// The sync driver: a disk, the snapshots of a repository, the ref that is checked out, and the
// files whose committed form still has to be written back (pending normalisations).

module Driver {
  import opened Text
  import opened Files
  import opened Sets

  type Path = string

  type Snapshot = map<Path, Bytes>

  // `heads` names a set of document heads.
  datatype Ref = Ref(branch: DocId, heads: nat)

  // Committing a file stores its normal form: a scene is parsed and printed again.
  datatype Env = Env(norm: Bytes -> Bytes, ignored: set<Path>)

  // A ref to check out and what to do for it: a content to write, or None for a deletion.
  datatype Goal = Goal(ref: Ref, changes: map<Path, Option<Bytes>>)

  // A checkout computes its goal and then waits for the main thread; `current` is what was
  // checked out at that time.
  datatype Stage = Idle | Waiting(current: Option<Ref>, goal: Option<Goal>)

  datatype State = State(
    disk: Snapshot,
    touched: bool,
    snapshots: map<Ref, Snapshot>,
    latest: map<DocId, Ref>,
    checked: Option<Ref>,
    pending: map<Path, Hash>,
    requested: Option<DocId>,
    main: Option<DocId>,
    stage: Stage,
    next: nat)

  // ---------- indices ----------

  function Hashed(env: Env, files: Snapshot): Index
  {
    map path | path in files && path !in env.ignored :: HashOf(files[path])
  }

  function Visible(env: Env, files: Snapshot): Snapshot
  {
    map path | path in files && path !in env.ignored :: files[path]
  }

  // ---------- commit ----------

  predicate Skipped(pending: map<Path, Hash>, current: Index, path: Path)
  {
    path in pending && path in current && pending[path] == current[path]
  }

  // The paths a commit at `ref` writes.
  function ToCommit(env: Env, s: State, ref: Ref): set<Path>
    requires ref in s.snapshots
  {
    var before, current := Hashed(env, s.snapshots[ref]), Hashed(env, s.disk);
    set path | path in before.Keys + current.Keys && ChangeOf(before, current, path).Some? && !Skipped(s.pending, current, path)
  }

  // The files after committing the disk content of `paths` on top of `base`.
  function CommitOnto(env: Env, disk: Snapshot, paths: set<Path>, base: Snapshot): Snapshot
  {
    map path | path in base.Keys + disk.Keys && (if path in paths then path in disk else path in base) ::
      if path in paths then env.norm(disk[path]) else base[path]
  }

  // Committed paths leave the map; those whose stored form differs from the disk enter it.
  function PendingAfter(env: Env, disk: Snapshot, paths: set<Path>, pending: map<Path, Hash>): map<Path, Hash>
  {
    map path | path in pending.Keys + disk.Keys
            && (if path in paths then path in disk && env.norm(disk[path]) != disk[path] else path in pending) ::
      if path in paths then HashOf(disk[path]) else pending[path]
  }

  lemma PendingNext(env: Env, disk: Snapshot, done: set<Path>, pending: map<Path, Hash>, path: Path)
    ensures var rest := PendingAfter(env, disk, done, pending) - {path};
      PendingAfter(env, disk, done + {path}, pending)
        == if path in disk && env.norm(disk[path]) != disk[path] then rest[path := HashOf(disk[path])] else rest
  {
  }

  // Sync's first half. Without file events nothing is scanned; the commit goes to the newest
  // state of the branch, which need not be the checked-out one.
  function Committed(env: Env, s: State): State
  {
    if s.checked.None? || !s.touched || s.checked.value !in s.snapshots then s
    else
      var ref := s.checked.value;
      var paths := ToCommit(env, s, ref);
      if paths == {} || ref.branch !in s.latest || s.latest[ref.branch] !in s.snapshots then s.(touched := false)
      else
        MadeAt(env, s.(touched := false), ref, paths)
  }

  function MadeAt(env: Env, s: State, ref: Ref, paths: set<Path>): State
    requires ref.branch in s.latest && s.latest[ref.branch] in s.snapshots
  {
    var made := Ref(ref.branch, s.next);
    s.(snapshots := s.snapshots[made := CommitOnto(env, s.disk, paths, s.snapshots[s.latest[ref.branch]])],
       latest := s.latest[ref.branch := made],
       checked := Some(made),
       pending := PendingAfter(env, s.disk, paths, s.pending),
       next := s.next + 1)
  }

  // ---------- resolving pending normalisations ----------

  predicate Writes(env: Env, s: State, snap: Snapshot, path: Path)
  {
    && path in s.pending && path in s.disk && HashOf(s.disk[path]) == s.pending[path]
    && path in snap && path !in env.ignored
  }

  // Fetching no files at all is an error, which leaves everything as it is.
  function ResolvedAt(env: Env, s: State, ref: Ref): State
  {
    if s.pending == map[] || ref !in s.snapshots then s
    else
      var snap := s.snapshots[ref];
      s.(disk := map path | path in s.disk :: if Writes(env, s, snap, path) then snap[path] else s.disk[path],
         pending := map[])
  }

  // ---------- checkout ----------

  function Changes(env: Env, disk: Snapshot, goal: Snapshot): map<Path, Option<Bytes>>
  {
    var before, after := Hashed(env, disk), Hashed(env, goal);
    map path | path in before.Keys + after.Keys && ChangeOf(before, after, path).Some? ::
      if path in goal then Some(goal[path]) else None
  }

  function GoalRef(s: State): Option<Ref>
  {
    if s.requested.Some? && s.requested.value in s.latest then Some(s.latest[s.requested.value])
    else if s.checked.Some? && s.checked.value.branch in s.latest then Some(s.latest[s.checked.value.branch])
    else if s.main.Some? && s.main.value in s.latest then Some(s.latest[s.main.value])
    else None
  }

  function Planned(env: Env, s: State): State
  {
    var goal := GoalRef(s);
    if goal.None? then s
    else
      var asked := s.(requested := if s.requested.Some? && s.requested.value in s.latest then None else s.requested);
      if s.checked == goal || goal.value !in s.snapshots then asked.(stage := Waiting(s.checked, None))
      else asked.(stage := Waiting(s.checked, Some(Goal(goal.value, Changes(env, s.disk, s.snapshots[goal.value])))))
  }

  function Applied(env: Env, disk: Snapshot, changes: map<Path, Option<Bytes>>): Snapshot
  {
    map path | path in disk.Keys + changes.Keys
            && (if path in changes && path !in env.ignored then changes[path].Some? else path in disk) ::
      if path in changes && path !in env.ignored then changes[path].value else disk[path]
  }

  // Behind the guard: give up if the ref moved, resolve, then apply what was computed before.
  function CheckedOut(env: Env, s: State): State
  {
    if s.stage.Idle? then s
    else if s.stage.current != s.checked then s.(stage := Idle)
    else
      var resolved := if s.checked.Some? then ResolvedAt(env, s, s.checked.value) else s;
      match s.stage.goal
      case None => resolved.(stage := Idle)
      case Some(goal) => resolved.(disk := Applied(env, resolved.disk, goal.changes), checked := Some(goal.ref), stage := Idle)
  }

  lemma AppliedNext(env: Env, disk: Snapshot, done: map<Path, Option<Bytes>>, path: Path, change: Option<Bytes>)
    requires path !in done
    ensures Applied(env, disk, done[path := change])
      == if path in env.ignored then Applied(env, disk, done)
         else if change.Some? then Applied(env, disk, done)[path := change.value]
         else Applied(env, disk, done) - {path}
  {
  }

  // ---------- the program ----------

  class DriverInner {
    const env: Env
    var disk: Snapshot
    var touched: bool
    var snapshots: map<Ref, Snapshot>
    var latest: map<DocId, Ref>
    var checked: Option<Ref>
    var pending: map<Path, Hash>
    var requested: Option<DocId>
    var main: Option<DocId>
    var stage: Stage
    var next: nat

    constructor (env: Env, s: State)
      ensures this.env == env && Contents() == s
    {
      this.env := env;
      disk, touched, snapshots, latest, checked := s.disk, s.touched, s.snapshots, s.latest, s.checked;
      pending, requested, main, stage, next := s.pending, s.requested, s.main, s.stage, s.next;
    }

    function Contents(): State
      reads this
    {
      State(disk, touched, snapshots, latest, checked, pending, requested, main, stage, next)
    }

    method FilterDiff(ref: Ref) returns (paths: set<Path>)
      requires ref in snapshots
      ensures paths == ToCommit(env, Contents(), ref)
    {
      var before, current := Hashed(env, snapshots[ref]), Hashed(env, disk);
      var changes := GetFileChanges(before, current);
      paths := set path | path in changes && !Skipped(pending, current, path);
    }

    // Bookkeeping for the committed paths, one at a time.
    method QueueNormalizations(paths: set<Path>)
      modifies this`pending
      ensures pending == PendingAfter(env, disk, paths, old(pending))
    {
      var rest := paths;
      while rest != {}
        invariant rest <= paths
        invariant pending == PendingAfter(env, disk, paths - rest, old(pending))
        decreases rest
      {
        var path := Any(rest);
        PendingNext(env, disk, paths - rest, old(pending), path);
        assert paths - (rest - {path}) == paths - rest + {path};
        rest := rest - {path};
        pending := pending - {path};
        if path in disk && env.norm(disk[path]) != disk[path] {
          pending := pending[path := HashOf(disk[path])];
        }
      }
      assert paths - rest == paths;
    }

    method Commit()
      modifies this
      ensures Contents() == Committed(env, old(Contents()))
    {
      if checked.None? || !touched { return; }
      var ref := checked.value;
      if ref !in snapshots { return; }
      var paths := FilterDiff(ref);
      touched := false;
      if paths == {} { return; }
      if ref.branch !in latest || latest[ref.branch] !in snapshots { return; }
      CommitFiles(ref, paths);
    }

    method CommitFiles(ref: Ref, paths: set<Path>)
      requires ref.branch in latest && latest[ref.branch] in snapshots
      modifies this
      ensures Contents() == MadeAt(env, old(Contents()), ref, paths)
    {
      var made := Ref(ref.branch, next);
      snapshots := snapshots[made := CommitOnto(env, disk, paths, snapshots[latest[ref.branch]])];
      latest := latest[ref.branch := made];
      next := next + 1;
      QueueNormalizations(paths);
      checked := Some(made);
    }

    method HandleFileUpdate(path: Path, content: Bytes)
      modifies this`disk
      ensures disk == if path in env.ignored then old(disk) else old(disk)[path := content]
    {
      if path in env.ignored { return; }
      if path in disk && HashOf(disk[path]) == HashOf(content) { return; }
      disk := disk[path := content];
    }

    method HandleFileDelete(path: Path)
      modifies this`disk
      ensures disk == if path in env.ignored then old(disk) else old(disk) - {path}
    {
      if path in env.ignored || path !in disk { return; }
      disk := disk - {path};
    }

    method ResolvePending(ref: Ref)
      modifies this`disk, this`pending
      ensures Contents() == ResolvedAt(env, old(Contents()), ref)
    {
      if pending == map[] || ref !in snapshots { return; }
      var snap := snapshots[ref];
      ghost var start := Contents();
      var rest := pending.Keys;
      while rest != {}
        invariant rest <= pending.Keys && pending == start.pending && disk.Keys == start.disk.Keys
        invariant forall path :: path in disk ==>
          disk[path] == if path !in rest && Writes(env, start, snap, path) then snap[path] else start.disk[path]
        decreases rest
      {
        var path := Any(rest);
        rest := rest - {path};
        if path !in disk { continue; }
        if pending[path] != HashOf(disk[path]) { continue; }
        if path !in snap { continue; }
        HandleFileUpdate(path, snap[path]);
      }
      pending := map[];
      assert disk == ResolvedAt(env, start, ref).disk;
    }

    method ApplyChanges(changes: map<Path, Option<Bytes>>)
      modifies this`disk
      ensures disk == Applied(env, old(disk), changes)
    {
      var rest := changes.Keys;
      ghost var done: map<Path, Option<Bytes>> := map[];
      while rest != {}
        invariant rest <= changes.Keys
        invariant done == map path | path in changes && path !in rest :: changes[path]
        invariant disk == Applied(env, old(disk), done)
        decreases rest
      {
        var path := Any(rest);
        rest := rest - {path};
        AppliedNext(env, old(disk), done, path, changes[path]);
        if changes[path].Some? { HandleFileUpdate(path, changes[path].value); } else { HandleFileDelete(path); }
        done := done[path := changes[path]];
      }
      assert done == changes;
    }

    method ComputePlan()
      modifies this`requested, this`stage
      ensures Contents() == Planned(env, old(Contents()))
    {
      var goal;
      if requested.Some? && requested.value in latest {
        goal := latest[requested.value];
        requested := None;
      } else if checked.Some? && checked.value.branch in latest {
        goal := latest[checked.value.branch];
      } else if main.Some? && main.value in latest {
        goal := latest[main.value];
      } else {
        return;
      }
      stage := Waiting(checked, None);
      if checked == Some(goal) || goal !in snapshots { return; }
      stage := Waiting(checked, Some(Goal(goal, Changes(env, disk, snapshots[goal]))));
    }

    method SyncCorrectRef()
      modifies this
      ensures Contents() == CheckedOut(env, old(Contents()))
    {
      if stage.Idle? { return; }
      if stage.current != checked { stage := Idle; return; }
      if checked.Some? { ResolvePending(checked.value); }
      if stage.goal.Some? {
        ApplyChanges(stage.goal.value.changes);
        checked := Some(stage.goal.value.ref);
      }
      stage := Idle;
    }

    // One round without anyone else running in between.
    method Sync()
      requires stage.Idle?
      modifies this
      ensures Contents() == CheckedOut(env, Planned(env, Committed(env, old(Contents()))))
    {
      Commit();
      ComputePlan();
      SyncCorrectRef();
    }
  }
}
