// What connect, disconnect and the connection loop achieve: which handle is stored, when one is
// closed, when a loop ends or dials again, and that a waiting caller can always get on.

module ConnectionRuns {
  import opened Text
  import opened Connection

  // ---------- single steps ----------

  // A handle is opened by dialing only.
  lemma OpenedOnlyBy(s: State, e: Event, h: Handle)
    requires Inv(s) && Enabled(s, e) && h !in s.open
    ensures h in Step(s, e).open <==> e.Dial? && h == s.next
  {
  }

  // It is closed when its loop closes it, or right after dialing if a disconnect came in between.
  lemma ClosedOnlyBy(s: State, e: Event, h: Handle)
    requires Inv(s) && Enabled(s, e) && h in s.open
    ensures h !in Step(s, e).open <==>
      || (e.Close? && LoopAt(s, e.l, Listening(h)))
      || (e.Register? && LoopAt(s, e.l, Dialed(h)) && s.info == None)
  {
    assert h < s.next;
  }

  // A token is cancelled when a connect or disconnect finds it in the info, or when its loop
  // closes at shutdown.
  lemma CancelledOnlyBy(s: State, e: Event, l: Token)
    requires Enabled(s, e) && l !in s.cancelled
    ensures l in Step(s, e).cancelled <==>
      || ((e.CancelOld? || e.TakeInfo?) && s.info.Some? && s.info.value.token == l)
      || (e == Close(l) && s.shutdown)
  {
  }

  // A loop ends only when it has been cancelled or the program shuts down; otherwise a failed
  // attempt leads to the next one.
  lemma EndsOnlyIf(s: State, e: Event, l: Token)
    requires Inv(s) && Enabled(s, e) && l in s.loops
    ensures l !in Step(s, e).loops <==> Ended(s, l) && (e == Check(l) || e == Stop(l))
    ensures e == Check(l) && !Ended(s, l) ==> LoopAt(Step(s, e), l, Sleeping)
    ensures e == Retry(l) ==> LoopAt(Step(s, e), l, Dialing)
  {
  }

  predicate Waits(s: State, c: Caller) { c in s.callers && s.callers[c].ConnectWaitsEvent? }

  // A connect returns once the loop has reported anything: an event of its handle, a failure, or
  // its end.
  lemma ReturnsAfterReport(s: State, e: Event, c: Caller)
    requires Enabled(s, e) && Waits(s, c) && e != DropCaller(c) && e != ReturnConnect(c)
    ensures Waits(Step(s, e), c)
    ensures Enabled(Step(s, e), ReturnConnect(c)) <==> Enabled(s, ReturnConnect(c)) || e.Report? || e.Check?
  {
  }

  // ---------- what the info says ----------

  // Whether a connection is started: the last connect or disconnect to reach the info decides.
  function StartedAfter(was: bool, events: seq<Event>): bool
    decreases |events|
  {
    if events == [] then was
    else StartedAfter(if events[0].SetInfo? then true else if events[0].TakeInfo? then false else was, events[1..])
  }

  lemma {:induction false} StartedExactly(s: State, events: seq<Event>)
    requires Valid(s, events)
    ensures Run(s, events).info.Some? <==> StartedAfter(s.info.Some?, events)
    decreases |events|
  {
    if events != [] { StartedExactly(Step(s, events[0]), events[1..]); }
  }

  // The stored handle is the one the loop listens to.
  predicate HandleStored(s: State)
  {
    && (s.info.Some? ==> s.info.value.token < s.next && (s.info.value.handle.Some? ==> s.info.value.handle.value < s.next))
    && (forall l :: l in s.loops && s.loops[l].Listening? && s.info.Some? ==> s.info == Some(Info(l, Some(s.loops[l].handle))))
  }

  lemma StoredStep(s: State, e: Event)
    requires Inv(s) && HandleStored(s) && Enabled(s, e)
    ensures HandleStored(Step(s, e))
  {
    if e.SetInfo? { NoLoops(s, e.c); }
  }

  // ---------- waiting for the connection lock ----------

  predicate WaitsConn(pc: CallerPc) { pc.ConnectWaitsConn? || pc.DisconnectWaitsConn? }

  // Whoever waits for the connection lock has told the loop to stop; a disconnect has also taken
  // the info.
  predicate StopsTold(s: State)
  {
    && (forall c, l :: c in s.callers && WaitsConn(s.callers[c]) && l in s.loops ==> l in s.cancelled)
    && (forall c :: c in s.callers && s.callers[c].DisconnectWaitsConn? ==> s.info == None)
  }

  lemma ToldStep(s: State, e: Event)
    requires Inv(s) && StopsTold(s) && Enabled(s, e) && !LateDrop(s, e)
    ensures StopsTold(Step(s, e))
  {
    var after := Step(s, e);
    forall c | c in after.callers && WaitsConn(after.callers[c])
      ensures c in s.callers && s.startLock == Some(c)
      ensures forall l :: l in after.loops ==> l in after.cancelled {
    }
    if e.SetInfo? { assert s.startLock == Some(e.c); }
  }

  // ---------- runs ----------

  predicate Good(s: State) { Inv(s) && HandleStored(s) && StopsTold(s) }

  lemma {:induction false} RunGood(s: State, events: seq<Event>)
    requires Good(s) && Valid(s, events) && Timely(s, events)
    ensures Good(Run(s, events))
    decreases |events|
  {
    if events != [] {
      StepKeeps(s, events[0]);
      StoredStep(s, events[0]);
      ToldStep(s, events[0]);
      RunGood(Step(s, events[0]), events[1..]);
    }
  }

  // In every run: while a loop listens to a handle and nobody has disconnected, the info has that
  // handle and that loop's token; the handle is open.
  lemma ListeningIsStored(events: seq<Event>, l: Token)
    requires Valid(INITIAL, events) && Timely(INITIAL, events)
    requires l in Run(INITIAL, events).loops && Run(INITIAL, events).loops[l].Listening?
    ensures var s := Run(INITIAL, events);
      && s.loops[l].handle in s.open
      && (StartedAfter(false, events) <==> s.info == Some(Info(l, Some(s.loops[l].handle))))
  {
    RunGood(INITIAL, events);
    StartedExactly(INITIAL, events);
  }

  // Events of the loop `l` alone.
  predicate ByLoopOnly(l: Token, events: seq<Event>)
  {
    forall i :: 0 <= i < |events| ==>
      var e := events[i];
      && !ByCallers(e) && !e.Shutdown? && e.l == l
  }

  // What a loop that has been told to stop does to end.
  function WindDown(s: State, l: Token): seq<Event>
    requires l in s.loops
  {
    match s.loops[l]
    case Unstarted => []
    case Dialing => [DialFails(l), Check(l)]
    case Dialed(_) => if s.info == None then [Register(l), Check(l)] else [Register(l), Close(l), Check(l)]
    case Listening(_) => [Close(l), Check(l)]
    case Checking => [Check(l)]
    case Sleeping => [Stop(l)]
  }

  lemma RunsTwo(s: State, e: Event, f: Event)
    requires Enabled(s, e) && Enabled(Step(s, e), f)
    ensures Valid(s, [e, f]) && Run(s, [e, f]) == Step(Step(s, e), f)
  {
    Prepend(Step(s, e), f, []);
    Prepend(s, e, [f]);
    assert [e] + [f] == [e, f];
  }

  lemma RunsOne(s: State, e: Event)
    requires Enabled(s, e)
    ensures Valid(s, [e]) && Run(s, [e]) == Step(s, e)
  {
    Prepend(s, e, []);
  }

  // The lock is free, the loop is gone, and nobody who waited for the lock has moved.
  predicate Released(s: State, after: State, l: Token)
  {
    && after.connLock == None && l !in after.loops
    && (forall c :: c in s.callers && WaitsConn(s.callers[c]) ==> c in after.callers && after.callers[c] == s.callers[c])
  }

  lemma LeavesLast(s: State, l: Token)
    requires Inv(s) && l in s.loops && (s.loops[l].Checking? || s.loops[l].Sleeping?) && Ended(s, l)
    ensures var e := if s.loops[l].Checking? then Check(l) else Stop(l); Enabled(s, e) && Released(s, Step(s, e), l)
  {
  }

  lemma ClosesLast(s: State, l: Token)
    requires Inv(s) && l in s.loops && s.loops[l].Listening? && Ended(s, l)
    ensures Valid(s, [Close(l), Check(l)]) && Released(s, Run(s, [Close(l), Check(l)]), l)
  {
    var next := Step(s, Close(l));
    PcKeeps(s, Close(l), l);
    LeavesLast(next, l);
    RunsTwo(s, Close(l), Check(l));
  }

  // A loop that was told to stop can always end by itself, and then the lock is free.
  lemma EndsWhenTold(s: State, l: Token)
    requires Inv(s) && l in s.loops && !s.loops[l].Unstarted? && Ended(s, l)
    ensures ByLoopOnly(l, WindDown(s, l)) && Valid(s, WindDown(s, l)) && Released(s, Run(s, WindDown(s, l)), l)
  {
    var pc := s.loops[l];
    if pc.Checking? || pc.Sleeping? {
      LeavesLast(s, l);
      RunsOne(s, if pc.Checking? then Check(l) else Stop(l));
    } else if pc.Listening? {
      ClosesLast(s, l);
    } else if pc.Dialing? {
      PcKeeps(s, DialFails(l), l);
      LeavesLast(Step(s, DialFails(l)), l);
      RunsTwo(s, DialFails(l), Check(l));
    } else {
      RegistersLast(s, l);
    }
  }

  lemma RegistersLast(s: State, l: Token)
    requires Inv(s) && l in s.loops && s.loops[l].Dialed? && Ended(s, l)
    ensures Valid(s, WindDown(s, l)) && Released(s, Run(s, WindDown(s, l)), l)
  {
    var next := Step(s, Register(l));
    RegisterKeeps(s, l);
    if s.info == None {
      LeavesLast(next, l);
      RunsTwo(s, Register(l), Check(l));
    } else {
      ClosesLast(next, l);
      Prepend(s, Register(l), [Close(l), Check(l)]);
      assert [Register(l)] + [Close(l), Check(l)] == [Register(l), Close(l), Check(l)];
    }
  }

  // In every run a connect or disconnect that waits for the old connection to be gone can get
  // on: at once, or after steps of the old loop alone.
  lemma WaiterGetsOn(events: seq<Event>, c: Caller) returns (more: seq<Event>)
    requires Valid(INITIAL, events) && Timely(INITIAL, events)
    requires var s := Run(INITIAL, events); c in s.callers && WaitsConn(s.callers[c])
    ensures Valid(Run(INITIAL, events), more) && Enabled(Run(Run(INITIAL, events), more), TakeConn(c))
    ensures more != [] ==> exists l :: l in Run(INITIAL, events).loops && ByLoopOnly(l, more)
  {
    RunGood(INITIAL, events);
    var s := Run(INITIAL, events);
    if s.connLock == None {
      more := [];
    } else {
      LockedByLoop(s, c);
      var l :| l in s.loops && s.connLock == Some(ByLoop(l));
      EndsWhenTold(s, l);
      more := WindDown(s, l);
    }
  }

  // While a caller waits for the connection lock only a loop can have it.
  lemma LockedByLoop(s: State, c: Caller)
    requires Inv(s) && s.connLock.Some? && c in s.callers && WaitsConn(s.callers[c])
    ensures exists l :: l in s.loops && s.connLock == Some(ByLoop(l))
  {
    assert s.startLock == Some(c);
    match s.connLock.value
    case ByCaller(d) => assert false;
    case ByLoop(l) =>
  }

  // A loop nobody has told to stop can always dial again.
  lemma DialsAgain(s: State, l: Token) returns (events: seq<Event>)
    requires Inv(s) && l in s.loops && !s.loops[l].Unstarted? && !Ended(s, l)
    ensures ByLoopOnly(l, events) && Valid(s, events) && LoopAt(Run(s, events), l, Dialing)
  {
    events := match s.loops[l]
      case Dialing => []
      case Dialed(_) => if s.info == None then [Register(l), Check(l), Retry(l)] else [Register(l), Close(l), Check(l), Retry(l)]
      case Listening(_) => [Close(l), Check(l), Retry(l)]
      case Checking => [Check(l), Retry(l)]
      case _ => [Retry(l)];
    TriesOn(s, l, events);
  }

  lemma {:induction false} TriesOn(s: State, l: Token, events: seq<Event>)
    requires l in s.loops && !Ended(s, l) && ByLoopOnly(l, events)
    requires match s.loops[l]
      case Dialing => events == []
      case Dialed(_) => events != [] && events[0] == Register(l) && events[1..] == if s.info == None then [Check(l), Retry(l)] else [Close(l), Check(l), Retry(l)]
      case Listening(_) => events == [Close(l), Check(l), Retry(l)]
      case Checking => events == [Check(l), Retry(l)]
      case Sleeping => events == [Retry(l)]
      case Unstarted => false
    ensures Valid(s, events) && LoopAt(Run(s, events), l, Dialing)
    decreases |events|
  {
    if events != [] {
      assert forall i :: 0 <= i < |events[1..]| ==> events[1..][i] == events[i + 1];
      TriesOn(Step(s, events[0]), l, events[1..]);
    }
  }
}
