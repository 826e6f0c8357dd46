// The block that keeps the main thread in a checkpoint while workers hold their guards. The
// protocol is a state machine over the steps between await points; the methods of the block
// are those steps on its counter and semaphores.

module MainThreadBlock {
  datatype Task = Task(id: nat)

  // Where the main thread is: outside a checkpoint, past the cutoff with n registrations, or
  // waiting for n guards with the gate open.
  datatype Main = Outside | Cutoff(n: nat) | Open(n: nat)

  // `cancelled` counts the waits that were dropped before they got a permit; nothing takes
  // their registration back.
  datatype State = State(registered: nat, start: nat, done: nat, waiting: set<Task>, holding: set<Task>, cancelled: nat, main: Main)

  const INITIAL := State(0, 0, 0, {}, {}, 0, Outside)

  datatype Event = Register(task: Task) | Acquire(task: Task) | DropGuard(task: Task) | Cancel(task: Task)
                 | Swap | OpenGate | Return

  predicate Enabled(s: State, e: Event)
  {
    match e
    case Register(t) => t !in s.waiting && t !in s.holding
    case Acquire(t) => t in s.waiting && s.start > 0
    case DropGuard(t) => t in s.holding
    case Cancel(t) => t in s.waiting
    case Swap => s.main.Outside?
    case OpenGate => s.main.Cutoff?
    case Return => s.main.Open? && s.done >= s.main.n
  }

  function Step(s: State, e: Event): State
    requires Enabled(s, e)
  {
    match e
    case Register(t) => s.(registered := s.registered + 1, waiting := s.waiting + {t})
    case Acquire(t) => s.(start := s.start - 1, waiting := s.waiting - {t}, holding := s.holding + {t})
    case DropGuard(t) => s.(holding := s.holding - {t}, done := s.done + 1)
    case Cancel(t) => s.(waiting := s.waiting - {t}, cancelled := s.cancelled + 1)
    case Swap => s.(registered := 0, main := Cutoff(s.registered))
    case OpenGate => s.(start := s.start + s.main.n, main := Open(s.main.n))
    case Return => s.(done := s.done - s.main.n, main := Outside)
  }

  // ---------- the program ----------

  class Block {
    var registered: nat
    var start: nat
    var done: nat

    constructor ()
      ensures Matches(INITIAL)
    {
      registered, start, done := 0, 0, 0;
    }

    predicate Matches(s: State)
      reads this
    {
      registered == s.registered && start == s.start && done == s.done
    }

    // The first half of wait, up to its await point.
    method WaitRegister(ghost s: State, ghost t: Task)
      requires Matches(s) && Enabled(s, Register(t))
      modifies this
      ensures Matches(Step(s, Register(t)))
    {
      registered := registered + 1;
    }

    // The second half, when the semaphore has a permit.
    method WaitAcquire(ghost s: State, ghost t: Task)
      requires Matches(s) && Enabled(s, Acquire(t))
      modifies this
      ensures Matches(Step(s, Acquire(t)))
    {
      start := start - 1;
    }

    method GuardDrop(ghost s: State, ghost t: Task)
      requires Matches(s) && Enabled(s, DropGuard(t))
      modifies this
      ensures Matches(Step(s, DropGuard(t)))
    {
      done := done + 1;
    }

    method CheckpointSwap(ghost s: State) returns (n: nat)
      requires Matches(s) && Enabled(s, Swap)
      modifies this
      ensures Matches(Step(s, Swap)) && Step(s, Swap).main == Cutoff(n)
    {
      n := registered;
      registered := 0;
    }

    method CheckpointOpen(ghost s: State, n: nat)
      requires Matches(s) && s.main == Cutoff(n)
      modifies this
      ensures Matches(Step(s, OpenGate))
    {
      start := start + n;
    }

    // acquire_many(n) succeeds once n permits are there, and they are forgotten.
    method CheckpointFinish(ghost s: State, n: nat) returns (finished: bool)
      requires Matches(s) && s.main == Open(n)
      modifies this
      ensures finished <==> Enabled(s, Return)
      ensures Matches(if finished then Step(s, Return) else s)
    {
      finished := done >= n;
      if finished { done := done - n; }
    }
  }

  // ---------- runs ----------

  ghost predicate Inv(s: State)
  {
    && s.waiting !! s.holding
    && (if s.main.Open? then s.start + |s.holding| + s.done == s.main.n else s.start == s.done == |s.holding| == 0)
    && s.registered + (if s.main.Cutoff? then s.main.n else 0) + s.start == |s.waiting| + s.cancelled
  }

  predicate Valid(s: State, events: seq<Event>)
    decreases |events|
  {
    events == [] || (Enabled(s, events[0]) && Valid(Step(s, events[0]), events[1..]))
  }

  function Run(s: State, events: seq<Event>): State
    requires Valid(s, events)
    decreases |events|
  {
    if events == [] then s else Run(Step(s, events[0]), events[1..])
  }

  lemma StepKeeps(s: State, e: Event)
    requires Inv(s) && Enabled(s, e)
    ensures Inv(Step(s, e))
  {
  }

  // A checkpoint can return only when every permit it gave out came back.
  lemma ReturnExact(s: State)
    requires Inv(s) && s.main.Open?
    ensures Enabled(s, Return) <==> s.start == 0 && s.holding == {}
  {
    if |s.holding| == 0 { assert s.holding == {}; }
  }

  lemma {:induction false} RunKeeps(s: State, events: seq<Event>)
    requires Inv(s) && Valid(s, events)
    ensures Inv(Run(s, events))
    decreases |events|
  {
    if events != [] {
      StepKeeps(s, events[0]);
      RunKeeps(Step(s, events[0]), events[1..]);
    }
  }

  // Over any number of workers, rounds and cancelled waits: while the gate is open, permits,
  // guards and finished guards add up to n; otherwise nobody holds a guard and every count is
  // zero. Registrations are never lost: they are waiting workers or cancelled ones.
  lemma Conservation(events: seq<Event>)
    requires Valid(INITIAL, events)
    ensures var s := Run(INITIAL, events);
      && (s.main.Open? ==> s.start + |s.holding| + s.done == s.main.n)
      && (!s.main.Open? ==> s.holding == {} && s.start == 0 && s.done == 0)
      && s.registered + (if s.main.Cutoff? then s.main.n else 0) + s.start == |s.waiting| + s.cancelled
  {
    RunKeeps(INITIAL, events);
    var s := Run(INITIAL, events);
    if |s.holding| == 0 { assert s.holding == {}; }
  }

  // ---------- an open checkpoint ends ----------

  predicate WorkerStep(e: Event) { e.Acquire? || e.DropGuard? }

  function Work(s: State): nat { 2 * s.start + |s.holding| }

  lemma WorkShrinks(s: State, e: Event)
    requires Inv(s) && Enabled(s, e) && WorkerStep(e)
    ensures Work(Step(s, e)) == Work(s) - 1
    ensures |Step(s, e).waiting| - Step(s, e).start == |s.waiting| - s.start && Step(s, e).main == s.main
  {
  }

  // Workers make only boundedly many steps before the checkpoint must return.
  lemma {:induction false} WorkBounded(s: State, events: seq<Event>)
    requires Inv(s) && Valid(s, events) && forall i :: 0 <= i < |events| ==> WorkerStep(events[i])
    ensures |events| <= Work(s) && Work(Run(s, events)) == Work(s) - |events|
    ensures |Run(s, events).waiting| - Run(s, events).start == |s.waiting| - s.start && Run(s, events).main == s.main
    decreases |events|
  {
    if events != [] {
      WorkShrinks(s, events[0]);
      StepKeeps(s, events[0]);
      WorkBounded(Step(s, events[0]), events[1..]);
    }
  }

  lemma {:induction false} FinishingRun(s: State) returns (events: seq<Event>)
    requires Inv(s) && s.main.Open? && s.start <= |s.waiting|
    ensures Valid(s, events) && (forall i :: 0 <= i < |events| ==> WorkerStep(events[i]))
    ensures Enabled(Run(s, events), Return)
    decreases Work(s)
  {
    if s.holding != {} || s.start > 0 {
      var e;
      if s.holding != {} {
        var t :| t in s.holding;
        e := DropGuard(t);
      } else {
        assert s.waiting != {};
        var t :| t in s.waiting;
        e := Acquire(t);
      }
      WorkShrinks(s, e);
      StepKeeps(s, e);
      var rest := FinishingRun(Step(s, e));
      events := [e] + rest;
      assert events[1..] == rest;
    } else {
      events := [];
      ReturnExact(s);
    }
  }

  // The workers at hand can bring an open checkpoint to its end exactly when the cancelled
  // waits are made up for by workers that registered after the cutoff. Without cancellation
  // that is always so.
  lemma CheckpointCanFinish(s: State)
    requires Inv(s) && s.main.Open?
    ensures (exists events :: Valid(s, events) && (forall i :: 0 <= i < |events| ==> WorkerStep(events[i])) && Enabled(Run(s, events), Return))
      <==> s.cancelled <= s.registered
  {
    if s.cancelled <= s.registered { var events := FinishingRun(s); }
    forall events | Valid(s, events) && (forall i :: 0 <= i < |events| ==> WorkerStep(events[i])) && Enabled(Run(s, events), Return)
      ensures s.cancelled <= s.registered {
      WorkBounded(s, events);
      RunKeeps(s, events);
      ReturnExact(Run(s, events));
    }
  }

  // Without cancellation a checkpoint that has not finished always has a worker that can move.
  lemma NeverStuck(s: State)
    requires Inv(s) && s.main.Open? && s.cancelled == 0
    ensures Enabled(s, Return) || exists t :: Enabled(s, Acquire(t)) || Enabled(s, DropGuard(t))
  {
    ReturnExact(s);
    if s.holding != {} {
      var t :| t in s.holding;
      assert Enabled(s, DropGuard(t));
    } else if s.start > 0 {
      assert s.waiting != {};
      var t :| t in s.waiting;
      assert Enabled(s, Acquire(t));
    }
  }

  // One cancelled wait is enough to hang the next checkpoint until another worker comes.
  lemma CancelledWaitHangs(t: Task)
    ensures var s := Step(Step(Step(Step(INITIAL, Register(t)), Cancel(t)), Swap), OpenGate);
      s.main == Open(1) && !Enabled(s, Return) && forall u :: !Enabled(s, Acquire(u)) && !Enabled(s, DropGuard(u))
  {
  }
}
