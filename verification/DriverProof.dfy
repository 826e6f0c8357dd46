// What the sync driver guarantees over all runs, and where it does not.

module DriverProof {
  import opened Text
  import opened Files
  import opened Driver

  // ---------- runs ----------

  // The user and other programs change files at any time; merges move a branch; the driver
  // commits, plans a checkout, and performs or abandons it.
  datatype Event = UserWrite(path: Path, content: Option<Bytes>) | Touch | Move(branch: DocId, files: Snapshot)
                 | Request(branch: DocId) | CommitTick | PlanTick | CheckoutTick | Abandon

  ghost predicate Normal(env: Env, files: Snapshot)
  {
    forall path :: path in files ==> env.norm(files[path]) == files[path]
  }

  // Normalising the content twice is the same as once.
  predicate Stable(env: Env, b: Bytes)
  {
    env.norm(env.norm(b)) == env.norm(b)
  }

  // Every writer of the repository stores normal forms, and what users write has one.
  ghost predicate Enabled(env: Env, e: Event)
  {
    && (e.Move? ==> Normal(env, e.files))
    && (e.UserWrite? && e.path !in env.ignored && e.content.Some? ==> Stable(env, e.content.value))
  }

  function Step(env: Env, s: State, e: Event): State
  {
    match e
    case UserWrite(path, content) => s.(disk := if content.Some? then s.disk[path := content.value] else s.disk - {path})
    case Touch => s.(touched := true)
    case Move(branch, files) =>
      var made := Ref(branch, s.next);
      s.(snapshots := s.snapshots[made := files], latest := s.latest[branch := made], next := s.next + 1)
    case Request(branch) => s.(requested := Some(branch))
    case CommitTick => Committed(env, s)
    case PlanTick => if s.stage.Idle? then Planned(env, s) else s
    case CheckoutTick => CheckedOut(env, s)
    case Abandon => s.(stage := Idle)
  }

  function Run(env: Env, s: State, events: seq<Event>): State
  {
    if events == [] then s else Step(env, Run(env, s, events[..|events| - 1]), events[|events| - 1])
  }

  // ---------- invariant ----------

  ghost predicate Kept(s: State, path: Path, content: Bytes)
  {
    exists ref :: ref in s.snapshots && path in s.snapshots[ref] && s.snapshots[ref][path] == content
  }

  predicate RefsOk(s: State)
  {
    && (s.checked.Some? ==> s.checked.value in s.snapshots)
    && (forall b :: b in s.latest ==> s.latest[b].branch == b && s.latest[b] in s.snapshots)
    && (forall ref :: ref in s.snapshots ==> ref.heads < s.next)
    && (s.stage.Waiting? && s.stage.goal.Some? ==> s.stage.goal.value.ref in s.snapshots)
  }

  // A pending file was committed from bytes that are not their own normal form.
  ghost predicate PendingOk(env: Env, s: State)
  {
    forall path :: path in s.pending ==>
      env.norm(s.pending[path].bytes) != s.pending[path].bytes && Kept(s, path, env.norm(s.pending[path].bytes))
  }

  // What is on the disk, or about to be written there.
  ghost predicate StableDisk(env: Env, s: State)
  {
    && (forall path :: path in s.disk && path !in env.ignored ==> Stable(env, s.disk[path]))
    && (s.stage.Waiting? && s.stage.goal.Some? ==> StableChanges(env, s.stage.goal.value.changes))
  }

  ghost predicate StableChanges(env: Env, changes: map<Path, Option<Bytes>>)
  {
    forall path :: path in changes && changes[path].Some? ==> Stable(env, changes[path].value)
  }

  ghost predicate Inv(env: Env, s: State)
  {
    && RefsOk(s)
    && (forall ref :: ref in s.snapshots ==> Normal(env, s.snapshots[ref]))
    && PendingOk(env, s)
    && StableDisk(env, s)
  }

  lemma KeptGrows(s: State, after: State, path: Path, content: Bytes)
    requires Kept(s, path, content)
    requires forall ref :: ref in s.snapshots ==> ref in after.snapshots && after.snapshots[ref] == s.snapshots[ref]
    ensures Kept(after, path, content)
  {
  }

  lemma CommitKeeps(env: Env, s: State)
    requires Inv(env, s)
    ensures Inv(env, Committed(env, s))
  {
    var after := Committed(env, s);
    if after.snapshots != s.snapshots {
      var ref := s.checked.value;
      var paths := ToCommit(env, s, ref);
      MadeKeeps(env, s.(touched := false), ref, paths);
    }
  }

  lemma MadeKeeps(env: Env, s: State, ref: Ref, paths: set<Path>)
    requires Inv(env, s) && ref.branch in s.latest && forall path :: path in paths ==> path !in env.ignored
    ensures Inv(env, MadeAt(env, s, ref, paths))
  {
    var after := MadeAt(env, s, ref, paths);
    var made := Ref(ref.branch, s.next);
    forall path | path in after.snapshots[made] ensures env.norm(after.snapshots[made][path]) == after.snapshots[made][path] {
      if path in paths { assert Stable(env, s.disk[path]); }
    }
    forall path | path in after.pending
      ensures env.norm(after.pending[path].bytes) != after.pending[path].bytes && Kept(after, path, env.norm(after.pending[path].bytes)) {
      if path in paths {
        assert after.snapshots[made][path] == env.norm(s.disk[path]);
      } else {
        KeptGrows(s, after, path, env.norm(s.pending[path].bytes));
      }
    }
  }

  lemma MoveKeeps(env: Env, s: State, branch: DocId, files: Snapshot)
    requires Inv(env, s) && Normal(env, files)
    ensures Inv(env, Step(env, s, Move(branch, files)))
  {
    var after := Step(env, s, Move(branch, files));
    forall path | path in after.pending ensures Kept(after, path, env.norm(after.pending[path].bytes)) {
      KeptGrows(s, after, path, env.norm(s.pending[path].bytes));
    }
  }

  lemma QuietKeeps(env: Env, s: State, after: State)
    requires Inv(env, s) && RefsOk(after) && after.snapshots == s.snapshots && StableDisk(env, after)
    requires forall path :: path in after.pending ==> path in s.pending && after.pending[path] == s.pending[path]
    ensures Inv(env, after)
  {
  }

  lemma StepKeeps(env: Env, s: State, e: Event)
    requires Inv(env, s) && Enabled(env, e)
    ensures Inv(env, Step(env, s, e))
  {
    match e
    case CommitTick => CommitKeeps(env, s);
    case Move(branch, files) => MoveKeeps(env, s, branch, files);
    case PlanTick => PlanKeeps(env, s);
    case CheckoutTick => CheckoutKeeps(env, s);
    case _ => QuietKeeps(env, s, Step(env, s, e));
  }

  lemma PlanRefs(env: Env, s: State)
    requires RefsOk(s)
    ensures var after := Planned(env, s);
      RefsOk(after) && after.snapshots == s.snapshots && after.pending == s.pending && after.disk == s.disk
  {
    var goal := GoalRef(s);
    if goal.Some? { assert goal.value in s.snapshots; }
  }

  lemma PlanKeeps(env: Env, s: State)
    requires Inv(env, s)
    ensures Inv(env, Planned(env, s)) && Planned(env, s).snapshots == s.snapshots && Planned(env, s).disk == s.disk
  {
    PlanRefs(env, s);
    var goal := GoalRef(s);
    if goal.Some? && goal.value in s.snapshots { NormalChanges(env, s.disk, s.snapshots[goal.value]); }
    QuietKeeps(env, s, Planned(env, s));
  }

  // A plan writes stored contents, which are normal forms.
  lemma NormalChanges(env: Env, disk: Snapshot, goal: Snapshot)
    requires Normal(env, goal)
    ensures StableChanges(env, Changes(env, disk, goal))
  {
  }

  lemma ResolvedFields(env: Env, s: State, ref: Ref)
    ensures var r := ResolvedAt(env, s, ref);
      r == s.(disk := r.disk, pending := r.pending) && (r.pending == s.pending || r.pending == map[])
  {
  }

  lemma CheckoutRefs(env: Env, s: State)
    requires RefsOk(s)
    ensures var after := CheckedOut(env, s);
      RefsOk(after) && after.snapshots == s.snapshots && (after.pending == s.pending || after.pending == map[])
  {
    var resolved := if s.checked.Some? then ResolvedAt(env, s, s.checked.value) else s;
    if s.checked.Some? { ResolvedFields(env, s, s.checked.value); }
    if s.stage.Waiting? && s.stage.current == s.checked {
      var after := CheckedOut(env, s);
      assert after == if s.stage.goal.None? then resolved.(stage := Idle)
                      else resolved.(disk := after.disk, checked := Some(s.stage.goal.value.ref), stage := Idle);
    }
  }

  lemma CheckoutKeeps(env: Env, s: State)
    requires Inv(env, s)
    ensures Inv(env, CheckedOut(env, s)) && CheckedOut(env, s).snapshots == s.snapshots
  {
    CheckoutRefs(env, s);
    CheckoutStable(env, s);
    QuietKeeps(env, s, CheckedOut(env, s));
  }

  lemma ResolveStable(env: Env, s: State, ref: Ref)
    requires Inv(env, s)
    ensures StableDisk(env, ResolvedAt(env, s, ref))
  {
  }

  lemma CheckoutStable(env: Env, s: State)
    requires Inv(env, s)
    ensures StableDisk(env, CheckedOut(env, s))
  {
    if s.checked.Some? { ResolveStable(env, s, s.checked.value); }
  }

  // In every run a pending file has its normal form in the history, and all stored contents
  // are normal forms.
  lemma {:induction false} RunKeeps(env: Env, s: State, events: seq<Event>)
    requires Inv(env, s)
    requires forall i :: 0 <= i < |events| ==> Enabled(env, events[i])
    ensures Inv(env, Run(env, s, events))
  {
    if events != [] {
      RunKeeps(env, s, events[..|events| - 1]);
      StepKeeps(env, Run(env, s, events[..|events| - 1]), events[|events| - 1]);
    }
  }

  // ---------- checkout reaches its goal ----------

  function At(files: Snapshot, path: Path): Option<Bytes>
  {
    if path in files then Some(files[path]) else None
  }

  lemma VisibleEqual(env: Env, a: Snapshot, b: Snapshot)
    ensures Visible(env, a) == Visible(env, b) <==> forall path :: path !in env.ignored ==> At(a, path) == At(b, path)
  {
    var x, y := Visible(env, a), Visible(env, b);
    if x == y {
      forall path | path !in env.ignored ensures At(a, path) == At(b, path) {
        assert path in x <==> path in y;
        if path in x { assert x[path] == y[path]; }
      }
    }
    if forall path :: path !in env.ignored ==> At(a, path) == At(b, path) {
      forall path ensures path in x <==> path in y { assert path in env.ignored || At(a, path) == At(b, path); }
      forall path | path in x ensures x[path] == y[path] { assert At(a, path) == At(b, path); }
    }
  }

  // A normalisation that undoes a file which already was as the goal wants it.
  predicate Spoils(env: Env, s: State, from: Snapshot, goal: Snapshot, path: Path)
  {
    Writes(env, s, from, path) && path in goal && s.disk[path] == goal[path] && from[path] != goal[path]
  }

  lemma CheckoutAt(env: Env, s: State, path: Path)
    requires s.stage.Waiting? && s.stage.current == s.checked && s.stage.goal.Some?
    requires s.checked.Some? && s.checked.value in s.snapshots && s.stage.goal.value.ref in s.snapshots
    requires s.stage.goal.value.changes == Changes(env, s.disk, s.snapshots[s.stage.goal.value.ref])
    requires path !in env.ignored
    ensures var from, goal := s.snapshots[s.checked.value], s.snapshots[s.stage.goal.value.ref];
      At(CheckedOut(env, s).disk, path) == At(goal, path) <==> !Spoils(env, s, from, goal, path)
  {
  }

  // Applying, after the pending normalisations, the changes computed before them leaves the
  // disk at the goal exactly when no normalisation undoes a file that was already right.
  lemma CheckoutExact(env: Env, s: State)
    requires s.stage.Waiting? && s.stage.current == s.checked && s.stage.goal.Some?
    requires s.checked.Some? && s.checked.value in s.snapshots && s.stage.goal.value.ref in s.snapshots
    requires s.stage.goal.value.changes == Changes(env, s.disk, s.snapshots[s.stage.goal.value.ref])
    ensures var from, goal, after := s.snapshots[s.checked.value], s.snapshots[s.stage.goal.value.ref], CheckedOut(env, s);
      && (Visible(env, after.disk) == Visible(env, goal) <==> forall path :: !Spoils(env, s, from, goal, path))
      && after.checked == Some(s.stage.goal.value.ref) && after.pending == map[]
      && (forall path :: path in env.ignored ==> At(after.disk, path) == At(s.disk, path))
  {
    var from, goal := s.snapshots[s.checked.value], s.snapshots[s.stage.goal.value.ref];
    var after := CheckedOut(env, s);
    forall path | path !in env.ignored ensures At(after.disk, path) == At(goal, path) <==> !Spoils(env, s, from, goal, path) {
      CheckoutAt(env, s, path);
    }
    VisibleEqual(env, after.disk, goal);
  }

  // With normal forms in the history that never happens: if nobody else wrote to the disk since
  // the plan was made, the checkout always reaches its goal.
  lemma CheckoutReachesGoal(env: Env, s: State)
    requires Inv(env, s)
    requires s.stage.Waiting? && s.stage.current == s.checked && s.stage.goal.Some? && s.checked.Some?
    requires s.stage.goal.value.changes == Changes(env, s.disk, s.snapshots[s.stage.goal.value.ref])
    ensures var goal, after := s.stage.goal.value.ref, CheckedOut(env, s);
      && Visible(env, after.disk) == Visible(env, s.snapshots[goal])
      && after.checked == Some(goal) && after.pending == map[]
  {
    CheckoutExact(env, s);
    var goal := s.snapshots[s.stage.goal.value.ref];
    forall path ensures !Spoils(env, s, s.snapshots[s.checked.value], goal, path) {
      if path in goal { assert env.norm(goal[path]) == goal[path]; }
    }
  }

  // The first checkout of a session has nothing to normalise.
  lemma FirstCheckout(env: Env, s: State)
    requires s.stage.Waiting? && s.stage.current == s.checked == None && s.stage.goal.Some? && s.stage.goal.value.ref in s.snapshots
    requires s.stage.goal.value.changes == Changes(env, s.disk, s.snapshots[s.stage.goal.value.ref])
    ensures Visible(env, CheckedOut(env, s).disk) == Visible(env, s.snapshots[s.stage.goal.value.ref])
    ensures CheckedOut(env, s).checked == Some(s.stage.goal.value.ref)
  {
    var goal, after := s.snapshots[s.stage.goal.value.ref], CheckedOut(env, s);
    forall path | path !in env.ignored ensures At(after.disk, path) == At(goal, path) {
      ChangeMeansDifference(Hashed(env, s.disk), Hashed(env, goal), path);
    }
    VisibleEqual(env, after.disk, goal);
  }

  // The first checkout of a session: of the requested branch if it is known, else of the main
  // branch; when neither is known the driver waits.
  lemma FirstSession(env: Env, s: State)
    requires RefsOk(s) && s.stage.Idle? && s.checked.None?
    ensures var after := CheckedOut(env, Planned(env, s));
      if s.requested.Some? && s.requested.value in s.latest then
        && after.checked == Some(s.latest[s.requested.value]) && after.requested == None
        && Visible(env, after.disk) == Visible(env, s.snapshots[s.latest[s.requested.value]])
      else if s.main.Some? && s.main.value in s.latest then
        && after.checked == Some(s.latest[s.main.value]) && after.requested == s.requested
        && Visible(env, after.disk) == Visible(env, s.snapshots[s.latest[s.main.value]])
      else after == s
  {
    PlanRefs(env, s);
    var planned := Planned(env, s);
    if planned.stage.Waiting? { FirstCheckout(env, planned); }
  }

  // ---------- requested branches ----------

  // An undisturbed plan and checkout honour a request for a known branch: its newest state is
  // checked out and on the disk, and the request is gone.
  lemma RequestReached(env: Env, s: State)
    requires Inv(env, s) && s.stage.Idle? && s.checked.Some? && s.requested.Some? && s.requested.value in s.latest
    ensures var after, goal := CheckedOut(env, Planned(env, s)), s.latest[s.requested.value];
      && after.checked == Some(goal) && after.requested == None
      && (s.checked != after.checked ==> Visible(env, after.disk) == Visible(env, s.snapshots[goal]))
  {
    PlanKeeps(env, s);
    if s.checked != Some(s.latest[s.requested.value]) { CheckoutReachesGoal(env, Planned(env, s)); }
  }

  // A request for an unknown branch stays.
  lemma RequestStays(env: Env, s: State)
    requires s.requested.Some? && s.requested.value !in s.latest
    ensures CheckedOut(env, Planned(env, s)).requested == s.requested
  {
    CheckoutKeepsRequest(env, Planned(env, s));
  }

  lemma CheckoutKeepsRequest(env: Env, s: State)
    ensures CheckedOut(env, s).requested == s.requested
  {
    if s.checked.Some? { ResolvedFields(env, s, s.checked.value); }
  }

  // Without a request the driver follows the branch that is checked out.
  lemma BranchKept(env: Env, s: State)
    requires Inv(env, s) && s.stage.Idle? && s.requested.None? && s.checked.Some? && s.checked.value.branch in s.latest
    ensures CheckedOut(env, Planned(env, s)).checked == Some(s.latest[s.checked.value.branch])
  {
    PlanKeeps(env, s);
  }

  // ---------- normalisation neither thrashes nor masks edits ----------

  // Wherever the disk differs from the checked-out ref, the difference is a pending
  // normalisation of exactly what is on the disk.
  ghost predicate Covered(env: Env, s: State)
  {
    && s.checked.Some? && s.checked.value in s.snapshots
    && forall path :: path !in env.ignored && At(s.disk, path) != At(s.snapshots[s.checked.value], path) ==>
         path in s.pending && path in s.disk && s.pending[path] == HashOf(s.disk[path])
  }

  lemma ToCommitMeans(env: Env, s: State, ref: Ref, path: Path)
    requires ref in s.snapshots
    ensures path in ToCommit(env, s, ref) <==>
      path !in env.ignored && At(s.disk, path) != At(s.snapshots[ref], path)
      && !(path in s.pending && path in s.disk && s.pending[path] == HashOf(s.disk[path]))
  {
  }

  // Nothing is left to commit exactly when every difference is pending.
  lemma NothingToCommit(env: Env, s: State)
    requires s.checked.Some? && s.checked.value in s.snapshots
    ensures ToCommit(env, s, s.checked.value) == {} <==> Covered(env, s)
  {
    var paths := ToCommit(env, s, s.checked.value);
    forall path ensures path in paths <==>
      path !in env.ignored && At(s.disk, path) != At(s.snapshots[s.checked.value], path)
      && !(path in s.pending && path in s.disk && s.pending[path] == HashOf(s.disk[path])) {
      ToCommitMeans(env, s, s.checked.value, path);
    }
    if paths == {} {
      forall path | path !in env.ignored && At(s.disk, path) != At(s.snapshots[s.checked.value], path)
        ensures path in s.pending && path in s.disk && s.pending[path] == HashOf(s.disk[path]) {
        assert path !in paths;
      }
    } else {
      var path :| path in paths;
    }
  }

  // Committing again without edits changes nothing but the event flag.
  lemma SecondCommitNothing(env: Env, s: State)
    requires Covered(env, s) && s.touched
    ensures Committed(env, s) == s.(touched := false)
  {
    NothingToCommit(env, s);
  }

  // What the newest state of the branch holds agrees with the disk wherever nothing is committed.
  ghost predicate NothingMissed(env: Env, s: State)
    requires s.checked.Some? && s.checked.value in s.snapshots
    requires s.checked.value.branch in s.latest && s.latest[s.checked.value.branch] in s.snapshots
  {
    forall path :: path !in env.ignored && path !in ToCommit(env, s, s.checked.value) ==>
      || At(s.snapshots[s.latest[s.checked.value.branch]], path) == At(s.disk, path)
      || (path in s.pending && path in s.disk && s.pending[path] == HashOf(s.disk[path]))
  }

  lemma CommitAt(env: Env, s: State, path: Path)
    requires RefsOk(s) && s.checked.Some? && s.touched && s.checked.value.branch in s.latest
    requires ToCommit(env, s, s.checked.value) != {} && path !in env.ignored
    ensures var after, paths := Committed(env, s), ToCommit(env, s, s.checked.value);
      && after.disk == s.disk && after.checked.Some? && after.checked.value in after.snapshots
      && At(after.snapshots[after.checked.value], path)
           == (if path in paths then (if path in s.disk then Some(env.norm(s.disk[path])) else None)
               else At(s.snapshots[s.latest[s.checked.value.branch]], path))
      && (path !in paths ==> At2(after.pending, path) == At2(s.pending, path))
      && (path in paths ==> (path in after.pending <==> path in s.disk && env.norm(s.disk[path]) != s.disk[path]))
      && (path in paths && path in after.pending ==> after.pending[path] == HashOf(s.disk[path]))
  {
  }

  function At2(pending: map<Path, Hash>, path: Path): Option<Hash>
  {
    if path in pending then Some(pending[path]) else None
  }

  // After a commit all differences are pending if and only if the newest state of the branch
  // had brought nothing that is neither on the disk nor overwritten by this commit.
  lemma CommitCovers(env: Env, s: State)
    requires RefsOk(s) && s.checked.Some? && s.touched && s.checked.value.branch in s.latest
    requires ToCommit(env, s, s.checked.value) != {}
    ensures Covered(env, Committed(env, s)) <==> NothingMissed(env, s)
  {
    var after, paths := Committed(env, s), ToCommit(env, s, s.checked.value);
    forall path | path !in env.ignored
      ensures (At(after.disk, path) == At(after.snapshots[after.checked.value], path)
               || (path in after.pending && path in after.disk && after.pending[path] == HashOf(after.disk[path])))
        <==> (path in paths
              || At(s.snapshots[s.latest[s.checked.value.branch]], path) == At(s.disk, path)
              || (path in s.pending && path in s.disk && s.pending[path] == HashOf(s.disk[path]))) {
      CommitAt(env, s, path);
    }
    var path :| path in paths;
    CommitAt(env, s, path);
  }

  // In particular when the branch is where it was checked out.
  lemma CommitCoversUnmoved(env: Env, s: State)
    requires RefsOk(s) && s.checked.Some? && s.touched
    requires s.checked.value.branch in s.latest && s.latest[s.checked.value.branch] == s.checked.value
    ensures Covered(env, Committed(env, s))
  {
    var paths := ToCommit(env, s, s.checked.value);
    NothingToCommit(env, s);
    if paths != {} {
      forall path | path !in env.ignored && path !in paths
        ensures At(s.snapshots[s.checked.value], path) == At(s.disk, path)
          || (path in s.pending && path in s.disk && s.pending[path] == HashOf(s.disk[path])) {
        ToCommitMeans(env, s, s.checked.value, path);
      }
      CommitCovers(env, s);
    }
  }

  // Nothing is planned on the newest state of a branch.
  lemma NewestStays(env: Env, s: State)
    requires s.checked.Some? && s.checked.value.branch in s.latest && s.latest[s.checked.value.branch] == s.checked.value
    ensures s.requested.None? ==> Planned(env, s).stage == Waiting(s.checked, None)
  {
  }

  // A pending path that still has the content it was committed with, and is in the ref.
  predicate WrittenBack(s: State, files: Snapshot, path: Path)
  {
    path in s.pending && path in s.disk && s.pending[path] == HashOf(s.disk[path]) && path in files
  }

  // The ordinary round after a commit, with nothing to check out: pending files get their stored
  // form, all others keep their content, and nothing stays pending. The disk then shows the ref
  // exactly when the ref has all files of the disk.
  lemma RoundWritesBack(env: Env, s: State)
    requires Covered(env, s) && s.stage.Idle? && s.requested.None?
    requires s.checked.value.branch in s.latest && s.latest[s.checked.value.branch] == s.checked.value
    ensures var after, files := CheckedOut(env, Planned(env, s)), s.snapshots[s.checked.value];
      && after == s.(disk := after.disk, pending := map[])
      && (forall path :: path !in env.ignored ==> At(after.disk, path) == At(if WrittenBack(s, files, path) then files else s.disk, path))
      && (forall path :: path in env.ignored ==> At(after.disk, path) == At(s.disk, path))
      && (Visible(env, after.disk) == Visible(env, files) <==> forall path :: path in s.disk && path !in env.ignored ==> path in files)
  {
    NewestStays(env, s);
    var planned, files := Planned(env, s), s.snapshots[s.checked.value];
    assert planned == s.(stage := Waiting(s.checked, None));
    var after := CheckedOut(env, planned);
    assert s.pending == map[] ==> s.(pending := map[]) == s;
    forall path ensures At(after.disk, path) == At(if WrittenBack(s, files, path) && path !in env.ignored then files else s.disk, path) {
      ResolvedPath(env, planned, s.checked.value, path);
    }
    WrittenShows(env, s, files, after.disk);
  }

  lemma ResolvedPath(env: Env, s: State, ref: Ref, path: Path)
    requires ref in s.snapshots
    ensures At(ResolvedAt(env, s, ref).disk, path)
      == At(if WrittenBack(s, s.snapshots[ref], path) && path !in env.ignored then s.snapshots[ref] else s.disk, path)
    ensures ResolvedAt(env, s, ref).pending == map[]
  {
  }

  lemma WrittenShows(env: Env, s: State, files: Snapshot, disk: Snapshot)
    requires forall path :: path !in env.ignored ==> At(disk, path) == At(if WrittenBack(s, files, path) then files else s.disk, path)
    requires forall path :: path !in env.ignored && At(s.disk, path) != At(files, path) ==>
      path in s.pending && path in s.disk && s.pending[path] == HashOf(s.disk[path])
    ensures Visible(env, disk) == Visible(env, files) <==> forall path :: path in s.disk && path !in env.ignored ==> path in files
  {
    VisibleEqual(env, disk, files);
    forall path | path !in env.ignored ensures At(disk, path) == At(files, path) <==> path in s.disk ==> path in files { }
  }

  // A whole round on the newest state of a branch: whatever the user had written is committed,
  // and the disk ends up with its normal form, equal to the new ref and with nothing pending.
  lemma RoundSettles(env: Env, s: State)
    requires Inv(env, s) && s.touched && s.stage.Idle? && s.requested.None? && s.pending == map[]
    requires s.checked.Some? && s.checked.value.branch in s.latest && s.latest[s.checked.value.branch] == s.checked.value
    ensures var after := CheckedOut(env, Planned(env, Committed(env, s)));
      && after.pending == map[] && !after.touched && after.stage.Idle?
      && after.checked.Some? && after.checked.value in after.snapshots
      && Visible(env, after.disk) == Visible(env, after.snapshots[after.checked.value])
      && forall path :: path !in env.ignored ==>
           At(after.disk, path) == if path in s.disk then Some(env.norm(s.disk[path])) else None
  {
    var done := Committed(env, s);
    CommitCoversUnmoved(env, s);
    forall path | path !in env.ignored
      ensures At(done.snapshots[done.checked.value], path) == if path in s.disk then Some(env.norm(s.disk[path])) else None {
      CommittedNormal(env, s, path);
    }
    RoundWritesBack(env, done);
    var after := CheckedOut(env, Planned(env, done));
    VisibleEqual(env, after.disk, after.snapshots[after.checked.value]);
  }

  lemma CommittedNormal(env: Env, s: State, path: Path)
    requires Inv(env, s) && s.touched && s.pending == map[] && path !in env.ignored
    requires s.checked.Some? && s.checked.value.branch in s.latest && s.latest[s.checked.value.branch] == s.checked.value
    ensures var done := Committed(env, s);
      && done.disk == s.disk && !done.touched && done.stage == s.stage && done.requested == s.requested
      && done.checked.Some? && done.checked.value in done.snapshots
      && done.checked.value.branch in done.latest && done.latest[done.checked.value.branch] == done.checked.value
      && At(done.snapshots[done.checked.value], path) == if path in s.disk then Some(env.norm(s.disk[path])) else None
  {
    var ref := s.checked.value;
    ToCommitMeans(env, s, ref, path);
    if ToCommit(env, s, ref) != {} {
      CommitAt(env, s, path);
    }
    if path !in ToCommit(env, s, ref) && path in s.disk { assert env.norm(s.snapshots[ref][path]) == s.snapshots[ref][path]; }
  }

  // A commit is made exactly when files were touched and the checked-out ref differs from the
  // disk in more than pending normalisations; it becomes the newest state of its branch.
  lemma CommitsExactly(env: Env, s: State)
    requires RefsOk(s)
    ensures var after := Committed(env, s);
      && (after.snapshots != s.snapshots <==>
            s.touched && s.checked.Some? && s.checked.value.branch in s.latest && !Covered(env, s))
      && (after.snapshots == s.snapshots ==> after == s.(touched := after.touched))
      && (after.snapshots != s.snapshots ==>
            && after.checked.Some? && after.checked.value.branch == s.checked.value.branch && after.checked.value !in s.snapshots
            && after.latest == s.latest[s.checked.value.branch := after.checked.value])
  {
    if s.checked.Some? { NothingToCommit(env, s); }
    if s.checked.Some? { assert Ref(s.checked.value.branch, s.next) !in s.snapshots; }
  }

  // A commit between plan and checkout makes the checkout give up: what the user saved meanwhile
  // is not overwritten.
  lemma CommitStopsCheckout(env: Env, s: State)
    requires RefsOk(s) && s.stage.Waiting? && s.stage.current == s.checked && Committed(env, s).snapshots != s.snapshots
    ensures CheckedOut(env, Committed(env, s)) == Committed(env, s).(stage := Idle)
    ensures CheckedOut(env, Committed(env, s)).disk == s.disk
  {
    CommitsExactly(env, s);
  }

  predicate StoredAs(s: State, path: Path, content: Option<Bytes>)
  {
    s.checked.Some? && s.checked.value in s.snapshots && At(s.snapshots[s.checked.value], path) == content
  }

  // A pending file that was edited or deleted meanwhile is committed next, in the form it has
  // on the disk, and the resolve does not touch it.
  lemma EditedPending(env: Env, s: State, path: Path)
    requires RefsOk(s) && s.checked.Some? && s.checked.value.branch in s.latest && path in s.pending && path !in env.ignored
    requires At(s.disk, path) != At(s.snapshots[s.checked.value], path)
    requires path !in s.disk || HashOf(s.disk[path]) != s.pending[path]
    ensures path in ToCommit(env, s, s.checked.value)
    ensures s.touched ==> StoredAs(Committed(env, s), path, if path in s.disk then Some(env.norm(s.disk[path])) else None)
    ensures forall ref :: At(ResolvedAt(env, s, ref).disk, path) == At(s.disk, path)
  {
    ToCommitMeans(env, s, s.checked.value, path);
    if s.touched { CommitAt(env, s, path); }
  }

  // ---------- nothing is lost ----------

  // Every visible content of the disk has its normal form in the history.
  ghost predicate AllKept(env: Env, s: State)
  {
    forall path :: path in s.disk && path !in env.ignored ==> Kept(s, path, env.norm(s.disk[path]))
  }

  lemma CommitKeepsPath(env: Env, s: State, path: Path)
    requires Inv(env, s) && s.touched && s.checked.Some? && s.checked.value.branch in s.latest
    requires path in s.disk && path !in env.ignored
    ensures Kept(Committed(env, s), path, env.norm(s.disk[path]))
  {
    var after, ref := Committed(env, s), s.checked.value;
    ToCommitMeans(env, s, ref, path);
    if path in ToCommit(env, s, ref) {
      CommitAt(env, s, path);
    } else if At(s.disk, path) == At(s.snapshots[ref], path) {
      assert env.norm(s.snapshots[ref][path]) == s.snapshots[ref][path];
      assert Kept(s, path, s.disk[path]);
      KeptGrows(s, after, path, s.disk[path]);
    } else {
      KeptGrows(s, after, path, env.norm(s.disk[path]));
    }
  }

  // A commit that scanned the disk leaves nothing outside the history, wherever the branch is.
  lemma CommitKeepsAll(env: Env, s: State)
    requires Inv(env, s) && s.touched && s.checked.Some? && s.checked.value.branch in s.latest
    ensures AllKept(env, Committed(env, s))
  {
    var after := Committed(env, s);
    assert after.disk == s.disk;
    forall path | path in after.disk && path !in env.ignored ensures Kept(after, path, env.norm(after.disk[path])) {
      CommitKeepsPath(env, s, path);
    }
  }

  // So a round in which nobody else writes loses nothing: whatever was on the disk is in the
  // history afterwards.
  lemma RoundLosesNothing(env: Env, s: State, path: Path)
    requires Inv(env, s) && s.touched && s.checked.Some? && s.checked.value.branch in s.latest && s.stage.Idle?
    requires path in s.disk && path !in env.ignored
    ensures Kept(CheckedOut(env, Planned(env, Committed(env, s))), path, env.norm(s.disk[path]))
  {
    CommitKeepsAll(env, s);
    CommitKeeps(env, s);
    var committed := Committed(env, s);
    assert committed.disk == s.disk;
    PlanKeeps(env, committed);
    CheckoutKeeps(env, Planned(env, committed));
    KeptGrows(committed, CheckedOut(env, Planned(env, committed)), path, env.norm(s.disk[path]));
  }

  // ---------- where it does not hold ----------

  // A content on the disk when the checkout is planned is lost exactly when the goal wants
  // something else there and its normal form is not in the history: an edit made after the commit.
  lemma LostExactly(env: Env, s: State, path: Path)
    requires Inv(env, s) && path in s.disk && path !in env.ignored
    requires s.stage.Waiting? && s.stage.current == s.checked && s.stage.goal.Some? && s.checked.Some?
    requires s.stage.goal.value.changes == Changes(env, s.disk, s.snapshots[s.stage.goal.value.ref])
    ensures var goal, after := s.snapshots[s.stage.goal.value.ref], CheckedOut(env, s);
      At(after.disk, path) != At(s.disk, path) && !Kept(after, path, env.norm(s.disk[path]))
      <==> At(goal, path) != At(s.disk, path) && !Kept(s, path, env.norm(s.disk[path]))
  {
    CheckoutReachesGoal(env, s);
    CheckoutKeeps(env, s);
    VisibleEqual(env, CheckedOut(env, s).disk, s.snapshots[s.stage.goal.value.ref]);
  }

  const PLAIN := Env((b: Bytes) => b, {})

  const OLD := Data("old")
  const NEW := Data("new")
  const MINE := Data("mine")

  // A driver that is idle at Ref(0, 0) while branch 0 has moved on to Ref(0, 1).
  function Moved(disk: Snapshot, touched: bool, checkedOut: Snapshot, newest: Snapshot): State
  {
    State(disk, touched, map[Ref(0, 0) := checkedOut, Ref(0, 1) := newest], map[0 := Ref(0, 1)], Some(Ref(0, 0)), map[], None, Some(0), Idle, 2)
  }

  lemma MovedInv(disk: Snapshot, touched: bool, checkedOut: Snapshot, newest: Snapshot)
    ensures Inv(PLAIN, Moved(disk, touched, checkedOut, newest))
  {
  }

  lemma PlanMoved(s: State, checkedOut: Snapshot, newest: Snapshot)
    requires s == Moved(s.disk, s.touched, checkedOut, newest)
    ensures Planned(PLAIN, s) == s.(stage := Waiting(s.checked, Some(Goal(Ref(0, 1), Changes(PLAIN, s.disk, newest)))))
  {
    assert s.requested.None? && s.checked == Some(Ref(0, 0)) && s.latest[0] == Ref(0, 1);
    assert s.snapshots[Ref(0, 1)] == newest;
  }

  lemma NeverKept(s: State)
    requires s.snapshots == map[Ref(0, 0) := map["a" := OLD], Ref(0, 1) := map["a" := NEW]]
    ensures !Kept(s, "a", MINE)
  {
  }

  lemma LateEditState(s: State)
    requires s == Moved(map["a" := OLD], false, map["a" := OLD], map["a" := NEW])
    ensures Step(PLAIN, s, UserWrite("a", Some(MINE))) == Moved(map["a" := MINE], false, map["a" := OLD], map["a" := NEW])
  {
    assert map["a" := OLD]["a" := MINE] == map["a" := MINE];
  }

  lemma LateCheckout(s: State)
    requires s == Moved(map["a" := MINE], false, map["a" := OLD], map["a" := NEW])
    ensures var after := CheckedOut(PLAIN, Planned(PLAIN, s));
      after.snapshots == s.snapshots && Visible(PLAIN, after.disk) == Visible(PLAIN, map["a" := NEW])
  {
    MovedInv(s.disk, false, map["a" := OLD], map["a" := NEW]);
    PlanMoved(s, map["a" := OLD], map["a" := NEW]);
    PlanKeeps(PLAIN, s);
    CheckoutReachesGoal(PLAIN, Planned(PLAIN, s));
    CheckoutKeeps(PLAIN, Planned(PLAIN, s));
  }

  lemma TwoTicks(env: Env, s: State)
    requires s.stage.Idle?
    ensures Step(env, Step(env, s, PlanTick), CheckoutTick) == CheckedOut(env, Planned(env, s))
  {
  }

  // Such an edit exists: the branch has moved, the user writes, and the checkout overwrites it.
  lemma LateEditLost(s: State, after: State)
    requires s == Step(PLAIN, Moved(map["a" := OLD], false, map["a" := OLD], map["a" := NEW]), UserWrite("a", Some(MINE)))
    requires after == Step(PLAIN, Step(PLAIN, s, PlanTick), CheckoutTick)
    ensures At(after.disk, "a") == Some(NEW) && !Kept(after, "a", MINE)
  {
    LateEditState(Moved(map["a" := OLD], false, map["a" := OLD], map["a" := NEW]));
    TwoTicks(PLAIN, s);
    LateCheckout(s);
    VisibleEqual(PLAIN, after.disk, map["a" := NEW]);
    NeverKept(after);
  }

  lemma MovedNext(env: Env, s: State, path: Path)
    requires Inv(env, s) && s.checked.Some? && s.touched && s.checked.value.branch in s.latest
    requires ToCommit(env, s, s.checked.value) != {} && path !in ToCommit(env, s, s.checked.value) && path !in env.ignored && path !in s.pending
    ensures var again := Committed(env, s);
      && RefsOk(again) && again.disk == s.disk && path !in again.pending
      && !again.touched && again.checked.Some? && again.checked.value.branch in again.latest
      && again.latest[again.checked.value.branch] == again.checked.value
      && At(again.snapshots[again.checked.value], path) == At(s.snapshots[s.latest[s.checked.value.branch]], path)
  {
    CommitAt(env, s, path);
    CommitKeeps(env, s);
  }

  // A commit on a branch that has moved checks out a ref whose new files are not on the disk.
  // Nothing is planned to bring them there, and the next commit takes the old file for an edit
  // and undoes the move.
  lemma MovedBranchUndone(env: Env, s: State, path: Path)
    requires Inv(env, s) && s.checked.Some? && s.touched && s.checked.value.branch in s.latest
    requires ToCommit(env, s, s.checked.value) != {} && path !in ToCommit(env, s, s.checked.value) && path !in env.ignored
    requires path !in s.pending && At(s.snapshots[s.latest[s.checked.value.branch]], path) != At(s.disk, path)
    ensures var first := Committed(env, s);
      var second := Committed(env, first.(touched := true));
      && !Covered(env, first)
      && (s.requested.None? ==> Planned(env, first).stage == Waiting(first.checked, None))
      && first.checked.Some? && At(first.snapshots[first.checked.value], path) == At(s.snapshots[s.latest[s.checked.value.branch]], path)
      && second.checked.Some? && second.checked.value in second.snapshots
      && At(second.snapshots[second.checked.value], path) == match At(s.disk, path) case None => None case Some(b) => Some(env.norm(b))
  {
    var again := Committed(env, s).(touched := true);
    MovedNext(env, s, path);
    NewestStays(env, Committed(env, s));
    UndoneNext(env, again, path);
  }

  lemma UndoneNext(env: Env, s: State, path: Path)
    requires RefsOk(s) && s.checked.Some? && s.touched && s.checked.value.branch in s.latest
    requires path !in env.ignored && path !in s.pending && At(s.snapshots[s.checked.value], path) != At(s.disk, path)
    ensures !Covered(env, s.(touched := false))
    ensures var after := Committed(env, s);
      && after.checked.Some? && after.checked.value in after.snapshots
      && At(after.snapshots[after.checked.value], path) == match At(s.disk, path) case None => None case Some(b) => Some(env.norm(b))
  {
    ToCommitMeans(env, s, s.checked.value, path);
    CommitAt(env, s, path);
  }

  // Such a commit exists: one file was edited, another one is new on the branch.
  lemma MovedBranchExample(s: State)
    requires s == Moved(map["a" := MINE, "b" := OLD], true, map["a" := OLD, "b" := OLD], map["a" := OLD, "b" := NEW])
    ensures var first := Committed(PLAIN, s);
      var second := Committed(PLAIN, first.(touched := true));
      && Planned(PLAIN, first).stage == Waiting(first.checked, None)
      && first.checked.Some? && At(first.snapshots[first.checked.value], "b") == Some(NEW)
      && second.checked.Some? && second.checked.value in second.snapshots && At(second.snapshots[second.checked.value], "b") == Some(OLD)
  {
    MovedInv(s.disk, true, map["a" := OLD, "b" := OLD], map["a" := OLD, "b" := NEW]);
    ToCommitMeans(PLAIN, s, Ref(0, 0), "a");
    ToCommitMeans(PLAIN, s, Ref(0, 0), "b");
    MovedBranchUndone(PLAIN, s, "b");
  }

  // With a stored content that is not its own normal form a checkout can miss its goal: the
  // disk already is as the goal wants it, and the pending normalisation changes it.
  lemma UnstableMissesGoal(env: Env, s: State, raw: Bytes)
    requires env.ignored == {} && env.norm(raw) != raw
    requires s == State(map["a" := raw], false, map[Ref(0, 0) := map["a" := env.norm(raw)], Ref(0, 1) := map["a" := raw]], map[0 := Ref(0, 1)],
                        Some(Ref(0, 0)), map["a" := HashOf(raw)], None, Some(0), Idle, 2)
    ensures var after := CheckedOut(env, Planned(env, s));
      after.checked == Some(Ref(0, 1)) && Visible(env, after.disk) != Visible(env, s.snapshots[Ref(0, 1)])
  {
    var planned := Planned(env, s);
    assert planned == s.(stage := Waiting(Some(Ref(0, 0)), Some(Goal(Ref(0, 1), Changes(env, s.disk, map["a" := raw])))));
    CheckoutExact(env, planned);
    assert Spoils(env, planned, map["a" := env.norm(raw)], map["a" := raw], "a");
  }
}
