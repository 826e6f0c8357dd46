// Connecting to and disconnecting from a server: callers and connection loops sharing two
// locks, the connection info, and cancellation tokens. Steps run between await points.

module Connection {
  import opened Text

  type Token = nat

  type Handle = nat

  datatype Caller = Caller(id: nat)

  datatype Info = Info(token: Token, handle: Option<Handle>)

  // connect and disconnect, await point by await point.
  datatype CallerPc =
    | ConnectWaitsStart | ConnectHasStart | ConnectWaitsConn | ConnectHasConn | ConnectSetInfo(token: Token)
    | ConnectWaitsEvent(token: Token, got: bool)
    | DisconnectWaitsStart | DisconnectHasStart | DisconnectWaitsConn | DisconnectHasConn

  datatype LoopPc = Unstarted | Dialing | Dialed(handle: Handle) | Listening(handle: Handle) | Checking | Sleeping

  datatype Owner = ByCaller(caller: Caller) | ByLoop(token: Token)

  datatype State = State(
    startLock: Option<Caller>,
    connLock: Option<Owner>,
    info: Option<Info>,
    cancelled: set<Token>,
    shutdown: bool,
    callers: map<Caller, CallerPc>,
    loops: map<Token, LoopPc>,
    open: set<Handle>,
    next: nat)

  const INITIAL := State(None, None, None, {}, false, map[], map[], {}, 0)

  datatype Event =
    | CallConnect(c: Caller) | CallDisconnect(c: Caller) | TakeStart(c: Caller) | CancelOld(c: Caller) | TakeInfo(c: Caller)
    | TakeConn(c: Caller) | SetInfo(c: Caller) | Spawn(c: Caller) | ReturnConnect(c: Caller) | ReturnDisconnect(c: Caller)
    | DropCaller(c: Caller)
    | LoopStart(l: Token) | DialFails(l: Token) | Dial(l: Token) | Register(l: Token) | Report(l: Token) | Close(l: Token)
    | Check(l: Token) | Stop(l: Token) | Retry(l: Token)
    | Shutdown

  predicate At(s: State, c: Caller, pc: CallerPc) { c in s.callers && s.callers[c] == pc }

  predicate LoopAt(s: State, l: Token, pc: LoopPc) { l in s.loops && s.loops[l] == pc }

  // A connect that is dropped before its loop has the connection lock. Between setting the info
  // and spawning the loop there is no await point, so nobody is dropped there.
  predicate LateDrop(s: State, e: Event)
  {
    e.DropCaller? && e.c in s.callers && s.callers[e.c].ConnectWaitsEvent? && LoopAt(s, s.callers[e.c].token, Unstarted)
  }

  predicate Ended(s: State, l: Token) { s.shutdown || l in s.cancelled }

  predicate Enabled(s: State, e: Event)
  {
    match e
    case CallConnect(c) => c !in s.callers
    case CallDisconnect(c) => c !in s.callers
    case TakeStart(c) => s.startLock.None? && (At(s, c, ConnectWaitsStart) || At(s, c, DisconnectWaitsStart))
    case CancelOld(c) => At(s, c, ConnectHasStart)
    case TakeInfo(c) => At(s, c, DisconnectHasStart)
    case TakeConn(c) => s.connLock.None? && (At(s, c, ConnectWaitsConn) || At(s, c, DisconnectWaitsConn))
    case SetInfo(c) => At(s, c, ConnectHasConn)
    case Spawn(c) => c in s.callers && s.callers[c].ConnectSetInfo?
    case ReturnConnect(c) => c in s.callers && s.callers[c].ConnectWaitsEvent? && s.callers[c].got
    case ReturnDisconnect(c) => At(s, c, DisconnectHasConn)
    case DropCaller(c) => c in s.callers && !s.callers[c].ConnectSetInfo?
    case LoopStart(l) => s.connLock.None? && LoopAt(s, l, Unstarted)
    case DialFails(l) => LoopAt(s, l, Dialing)
    case Dial(l) => LoopAt(s, l, Dialing)
    case Register(l) => l in s.loops && s.loops[l].Dialed?
    case Report(l) => l in s.loops && s.loops[l].Listening?
    case Close(l) => l in s.loops && s.loops[l].Listening?
    case Check(l) => LoopAt(s, l, Checking)
    case Stop(l) => LoopAt(s, l, Sleeping) && Ended(s, l)
    case Retry(l) => LoopAt(s, l, Sleeping)
    case Shutdown => true
  }

  // Every caller that waits for an event receives it.
  function Notified(callers: map<Caller, CallerPc>): map<Caller, CallerPc>
  {
    map c | c in callers :: if callers[c].ConnectWaitsEvent? then callers[c].(got := true) else callers[c]
  }

  function Freed(s: State, owner: Owner): Option<Owner>
  {
    if s.connLock == Some(owner) then None else s.connLock
  }

  function Exit(s: State, l: Token): State
  {
    s.(loops := s.loops - {l}, connLock := Freed(s, ByLoop(l)))
  }

  // A caller that returns or is dropped lets go of what it holds.
  function Leave(s: State, c: Caller): State
  {
    s.(callers := s.callers - {c}, startLock := if s.startLock == Some(c) then None else s.startLock, connLock := Freed(s, ByCaller(c)))
  }

  function CallerStep(s: State, e: Event): State
    requires Enabled(s, e)
  {
    match e
    case CallConnect(c) => s.(callers := s.callers[c := ConnectWaitsStart])
    case CallDisconnect(c) => s.(callers := s.callers[c := DisconnectWaitsStart])
    case TakeStart(c) =>
      s.(startLock := Some(c), callers := s.callers[c := if s.callers[c].ConnectWaitsStart? then ConnectHasStart else DisconnectHasStart])
    case CancelOld(c) =>
      s.(callers := s.callers[c := ConnectWaitsConn], cancelled := if s.info.Some? then s.cancelled + {s.info.value.token} else s.cancelled)
    case TakeInfo(c) =>
      s.(callers := s.callers[c := DisconnectWaitsConn], info := None,
         cancelled := if s.info.Some? then s.cancelled + {s.info.value.token} else s.cancelled)
    case TakeConn(c) =>
      s.(connLock := Some(ByCaller(c)),
         callers := s.callers[c := if s.callers[c].ConnectWaitsConn? then ConnectHasConn else DisconnectHasConn])
    case SetInfo(c) => s.(info := Some(Info(s.next, None)), next := s.next + 1, callers := s.callers[c := ConnectSetInfo(s.next)])
    case Spawn(c) =>
      var token := s.callers[c].token;
      s.(connLock := Freed(s, ByCaller(c)), loops := s.loops[token := Unstarted], callers := s.callers[c := ConnectWaitsEvent(token, false)])
    case ReturnConnect(c) => Leave(s, c)
    case ReturnDisconnect(c) => Leave(s, c)
    case DropCaller(c) => Leave(s, c)
    case _ => s
  }

  function LoopStep(s: State, e: Event): State
    requires Enabled(s, e)
  {
    match e
    case LoopStart(l) => s.(connLock := Some(ByLoop(l)), loops := s.loops[l := Dialing])
    case DialFails(l) => s.(loops := s.loops[l := Checking])
    case Dial(l) => s.(loops := s.loops[l := Dialed(s.next)], open := s.open + {s.next}, next := s.next + 1)
    case Register(l) =>
      var h := s.loops[l].handle;
      if s.info.Some? then s.(info := Some(s.info.value.(handle := Some(h))), loops := s.loops[l := Listening(h)])
      else s.(open := s.open - {h}, loops := s.loops[l := Checking])
    case Report(l) => s.(callers := Notified(s.callers))
    case Close(l) =>
      s.(open := s.open - {s.loops[l].handle}, loops := s.loops[l := Checking],
         cancelled := if s.shutdown then s.cancelled + {l} else s.cancelled)
    case Check(l) =>
      if Ended(s, l) then Exit(s, l).(callers := Notified(s.callers))
      else s.(callers := Notified(s.callers), loops := s.loops[l := Sleeping])
    case Stop(l) => Exit(s, l)
    case Retry(l) => s.(loops := s.loops[l := Dialing])
    case _ => s
  }

  predicate ByCallers(e: Event)
  {
    e.CallConnect? || e.CallDisconnect? || e.TakeStart? || e.CancelOld? || e.TakeInfo? || e.TakeConn? || e.SetInfo? || e.Spawn?
    || e.ReturnConnect? || e.ReturnDisconnect? || e.DropCaller?
  }

  function Step(s: State, e: Event): State
    requires Enabled(s, e)
  {
    if e.Shutdown? then s.(shutdown := true) else if ByCallers(e) then CallerStep(s, e) else LoopStep(s, e)
  }

  // ---------- the shared data ----------

  // The protected section of each step that touches the shared data.
  class Shared {
    var info: Option<Info>
    var cancelled: set<Token>
    var shutdown: bool
    var open: set<Handle>
    var next: nat

    constructor ()
      ensures Matches(INITIAL)
    {
      info, cancelled, shutdown, open, next := None, {}, false, {}, 0;
    }

    predicate Matches(s: State)
      reads this
    {
      info == s.info && cancelled == s.cancelled && shutdown == s.shutdown && open == s.open && next == s.next
    }

    method CancelOldToken(ghost s: State, ghost c: Caller)
      requires Matches(s) && Enabled(s, CancelOld(c))
      modifies this
      ensures Matches(Step(s, CancelOld(c)))
    {
      if info.Some? { cancelled := cancelled + {info.value.token}; }
    }

    method TakeOldInfo(ghost s: State, ghost c: Caller)
      requires Matches(s) && Enabled(s, TakeInfo(c))
      modifies this
      ensures Matches(Step(s, TakeInfo(c)))
    {
      var taken := info;
      info := None;
      if taken.Some? { cancelled := cancelled + {taken.value.token}; }
    }

    method SetNewInfo(ghost s: State, ghost c: Caller) returns (token: Token)
      requires Matches(s) && Enabled(s, SetInfo(c))
      modifies this
      ensures Matches(Step(s, SetInfo(c))) && Step(s, SetInfo(c)).callers[c] == ConnectSetInfo(token)
    {
      token := next;
      next := next + 1;
      info := Some(Info(token, None));
    }

    method DialServer(ghost s: State, ghost l: Token) returns (h: Handle)
      requires Matches(s) && Enabled(s, Dial(l))
      modifies this
      ensures Matches(Step(s, Dial(l))) && Step(s, Dial(l)).loops[l] == Dialed(h)
    {
      h := next;
      next := next + 1;
      open := open + {h};
    }

    // Stores the handle; without an info someone wants the connection gone, so it is closed.
    method RegisterHandle(ghost s: State, ghost l: Token, h: Handle) returns (goOn: bool)
      requires Matches(s) && Enabled(s, Register(l)) && s.loops[l] == Dialed(h)
      modifies this
      ensures Matches(Step(s, Register(l))) && (goOn <==> Step(s, Register(l)).loops[l] == Listening(h))
    {
      if info.Some? {
        info := Some(info.value.(handle := Some(h)));
        return true;
      }
      open := open - {h};
      goOn := false;
    }

    method CloseHandle(ghost s: State, l: Token, h: Handle)
      requires Matches(s) && Enabled(s, Close(l)) && s.loops[l] == Listening(h)
      modifies this
      ensures Matches(Step(s, Close(l)))
    {
      open := open - {h};
      if shutdown { cancelled := cancelled + {l}; }
    }
  }

  // ---------- invariant ----------

  predicate WaitsStart(pc: CallerPc) { pc.ConnectWaitsStart? || pc.DisconnectWaitsStart? }

  predicate HasConn(pc: CallerPc) { pc.ConnectHasConn? || pc.ConnectSetInfo? || pc.DisconnectHasConn? }

  predicate Holds(pc: LoopPc, h: Handle) { (pc.Dialed? || pc.Listening?) && pc.handle == h }

  predicate LocksOk(s: State)
  {
    && (forall c :: c in s.callers ==> (s.startLock == Some(c) <==> !WaitsStart(s.callers[c])))
    && (s.startLock.Some? ==> s.startLock.value in s.callers)
    && (forall c :: c in s.callers ==> (s.connLock == Some(ByCaller(c)) <==> HasConn(s.callers[c])))
    && (forall l :: l in s.loops ==> (s.connLock == Some(ByLoop(l)) <==> !s.loops[l].Unstarted?))
    && (s.connLock.Some? ==>
          match s.connLock.value case ByCaller(c) => c in s.callers case ByLoop(l) => l in s.loops)
  }

  // At most one loop; it is the one the info describes, or it has been told to stop. Before it
  // has the lock, the caller that spawned it still waits for its first event.
  predicate LoopsOk(s: State)
  {
    && (forall l, m :: l in s.loops && m in s.loops ==> l == m)
    && (forall l :: l in s.loops ==> l in s.cancelled || (s.info.Some? && s.info.value.token == l))
    && (forall l :: l in s.loops && s.info.Some? ==> s.info.value.token == l)
    && (forall l :: l in s.loops && s.loops[l].Unstarted? ==>
          s.startLock.Some? && At(s, s.startLock.value, ConnectWaitsEvent(l, false)))
    && (forall c :: c in s.callers && s.callers[c].ConnectSetInfo? ==> s.info == Some(Info(s.callers[c].token, None)))
  }

  // Exactly the handles the loops hold are open.
  predicate HandlesOk(s: State)
  {
    && (forall l :: l in s.loops && (s.loops[l].Dialed? || s.loops[l].Listening?) ==> s.loops[l].handle in s.open)
    && (forall h :: h in s.open ==> h < s.next && exists l :: l in s.loops && Holds(s.loops[l], h))
  }

  predicate Inv(s: State) { LocksOk(s) && LoopsOk(s) && HandlesOk(s) }

  // While a caller holds the connection lock there is no loop at all.
  lemma NoLoops(s: State, c: Caller)
    requires Inv(s) && c in s.callers && HasConn(s.callers[c])
    ensures s.loops == map[] && s.open == {}
  {
  }

  lemma CallKeeps(s: State, e: Event)
    requires Inv(s) && Enabled(s, e) && (e.CallConnect? || e.CallDisconnect? || e.Shutdown? || e.TakeStart?)
    ensures Inv(Step(s, e))
  {
    var after := Step(s, e);
    assert LoopsOk(after);
    assert HandlesOk(after);
  }

  lemma CancelKeeps(s: State, e: Event)
    requires Inv(s) && Enabled(s, e) && (e.CancelOld? || e.TakeInfo?)
    ensures Inv(Step(s, e))
  {
    var after := Step(s, e);
    assert LocksOk(after);
    assert LoopsOk(after);
    assert HandlesOk(after);
  }

  lemma TakeConnKeeps(s: State, c: Caller)
    requires Inv(s) && Enabled(s, TakeConn(c))
    ensures Inv(Step(s, TakeConn(c)))
  {
  }

  lemma SetInfoKeeps(s: State, c: Caller)
    requires Inv(s) && Enabled(s, SetInfo(c))
    ensures Inv(Step(s, SetInfo(c)))
  {
  }

  lemma SpawnKeeps(s: State, c: Caller)
    requires Inv(s) && Enabled(s, Spawn(c))
    ensures Inv(Step(s, Spawn(c)))
  {
  }

  lemma ReturnKeeps(s: State, c: Caller)
    requires Inv(s) && (Enabled(s, ReturnConnect(c)) || Enabled(s, ReturnDisconnect(c)))
    ensures Inv(Leave(s, c))
  {
  }

  // Dropping a caller keeps the invariant exactly when it is not that drop.
  lemma DropExact(s: State, c: Caller)
    requires Inv(s) && Enabled(s, DropCaller(c))
    ensures Inv(Step(s, DropCaller(c))) <==> !LateDrop(s, DropCaller(c))
  {
    var after := Step(s, DropCaller(c));
    if LateDrop(s, DropCaller(c)) {
      DropLeavesLoop(s, c);
    } else {
      DropLocks(s, c);
      DropLoops(s, c);
      assert HandlesOk(after);
    }
  }

  lemma DropLocks(s: State, c: Caller)
    requires Inv(s) && Enabled(s, DropCaller(c))
    ensures LocksOk(Leave(s, c))
  {
  }

  lemma DropLoops(s: State, c: Caller)
    requires Inv(s) && Enabled(s, DropCaller(c)) && !LateDrop(s, DropCaller(c))
    ensures LoopsOk(Leave(s, c))
  {
  }

  lemma DropLeavesLoop(s: State, c: Caller)
    requires Inv(s) && LateDrop(s, DropCaller(c))
    ensures var l, after := s.callers[c].token, Leave(s, c);
      && LoopAt(after, l, Unstarted) && after.startLock == None && after.connLock == None && !LoopsOk(after)
  {
    var l := s.callers[c].token;
    assert s.startLock == Some(c);
  }

  lemma StartKeeps(s: State, l: Token)
    requires Inv(s) && Enabled(s, LoopStart(l))
    ensures Inv(Step(s, LoopStart(l)))
  {
  }

  // The loop `l` is the only one, so what it does concerns nobody else's handle.
  lemma OnlyHandles(s: State, l: Token)
    requires Inv(s) && l in s.loops
    ensures s.open == if s.loops[l].Dialed? || s.loops[l].Listening? then {s.loops[l].handle} else {}
  {
  }

  lemma DialKeeps(s: State, l: Token)
    requires Inv(s) && Enabled(s, Dial(l))
    ensures Inv(Step(s, Dial(l)))
  {
  }

  lemma RegisterKeeps(s: State, l: Token)
    requires Inv(s) && Enabled(s, Register(l))
    ensures Inv(Step(s, Register(l)))
  {
  }

  lemma PcKeeps(s: State, e: Event, l: Token)
    requires Inv(s) && Enabled(s, e) && (e == DialFails(l) || e == Retry(l) || e == Close(l))
    ensures Inv(Step(s, e))
  {
    OnlyHandles(s, l);
    var after := Step(s, e);
    assert LocksOk(after);
    assert LoopsOk(after);
  }

  lemma NotifyKeeps(s: State, l: Token)
    requires Inv(s) && l in s.loops && !s.loops[l].Unstarted?
    ensures Inv(s.(callers := Notified(s.callers)))
  {
  }

  lemma ExitKeeps(s: State, l: Token)
    requires Inv(s) && l in s.loops && (s.loops[l].Checking? || s.loops[l].Sleeping?)
    ensures Inv(Exit(s, l)) && Exit(s, l).loops == map[]
  {
  }

  lemma CheckKeeps(s: State, l: Token)
    requires Inv(s) && Enabled(s, Check(l))
    ensures Inv(Step(s, Check(l)))
  {
    NotifyKeeps(s, l);
    var notified := s.(callers := Notified(s.callers));
    if Ended(s, l) {
      ExitKeeps(notified, l);
      assert Step(s, Check(l)) == Exit(notified, l);
    } else {
      OnlyHandles(notified, l);
      var after := Step(s, Check(l));
      assert LocksOk(after);
      assert LoopsOk(after);
    }
  }

  lemma StepKeeps(s: State, e: Event)
    requires Inv(s) && Enabled(s, e) && !LateDrop(s, e)
    ensures Inv(Step(s, e))
  {
    match e
    case CallConnect(_) => CallKeeps(s, e);
    case CallDisconnect(_) => CallKeeps(s, e);
    case TakeStart(_) => CallKeeps(s, e);
    case Shutdown => CallKeeps(s, e);
    case CancelOld(_) => CancelKeeps(s, e);
    case TakeInfo(_) => CancelKeeps(s, e);
    case TakeConn(c) => TakeConnKeeps(s, c);
    case SetInfo(c) => SetInfoKeeps(s, c);
    case Spawn(c) => SpawnKeeps(s, c);
    case ReturnConnect(c) => ReturnKeeps(s, c);
    case ReturnDisconnect(c) => ReturnKeeps(s, c);
    case DropCaller(c) => DropExact(s, c);
    case LoopStart(l) => StartKeeps(s, l);
    case DialFails(l) => PcKeeps(s, e, l);
    case Dial(l) => DialKeeps(s, l);
    case Register(l) => RegisterKeeps(s, l);
    case Report(l) => NotifyKeeps(s, l);
    case Close(l) => PcKeeps(s, e, l);
    case Check(l) => CheckKeeps(s, l);
    case Stop(l) => ExitKeeps(s, l);
    case Retry(l) => PcKeeps(s, e, l);
  }

  // ---------- runs ----------

  predicate Valid(s: State, events: seq<Event>)
    decreases |events|
  {
    events == [] || (Enabled(s, events[0]) && Valid(Step(s, events[0]), events[1..]))
  }

  function Run(s: State, events: seq<Event>): State
    requires Valid(s, events)
    decreases |events|
  {
    if events == [] then s else Run(Step(s, events[0]), events[1..])
  }

  // No connect is dropped before its loop has the lock.
  predicate Timely(s: State, events: seq<Event>)
    requires Valid(s, events)
    decreases |events|
  {
    events == [] || (!LateDrop(s, events[0]) && Timely(Step(s, events[0]), events[1..]))
  }

  lemma {:induction false} RunKeeps(s: State, events: seq<Event>)
    requires Inv(s) && Valid(s, events) && Timely(s, events)
    ensures Inv(Run(s, events))
    decreases |events|
  {
    if events != [] {
      StepKeeps(s, events[0]);
      RunKeeps(Step(s, events[0]), events[1..]);
    }
  }

  // In every interleaving in which callers may be dropped, but no connect before its loop has the
  // lock, there is at most one loop and at most one open handle; the handle belongs to the loop
  // that holds the connection lock; a loop the info does not describe has been cancelled.
  lemma OneConnection(events: seq<Event>)
    requires Valid(INITIAL, events) && Timely(INITIAL, events)
    ensures var s := Run(INITIAL, events);
      && (forall l, m :: l in s.loops && m in s.loops ==> l == m)
      && |s.open| <= 1
      && (forall h :: h in s.open ==> exists l :: l in s.loops && Holds(s.loops[l], h) && s.connLock == Some(ByLoop(l)))
      && (forall l :: l in s.loops ==> l in s.cancelled || (s.info.Some? && s.info.value.token == l))
  {
    RunKeeps(INITIAL, events);
    var s := Run(INITIAL, events);
    forall h | h in s.open ensures exists l :: l in s.loops && Holds(s.loops[l], h) && s.connLock == Some(ByLoop(l)) {
      var l :| l in s.loops && Holds(s.loops[l], h);
      assert s.connLock == Some(ByLoop(l));
    }
    if l :| l in s.loops {
      OnlyHandles(s, l);
    } else {
      forall h ensures h !in s.open { }
      assert s.open == {};
    }
  }

  // When disconnect returns, no handle is open and no loop is left that could open one.
  lemma DisconnectedMeansClosed(events: seq<Event>, c: Caller)
    requires Valid(INITIAL, events) && Timely(INITIAL, events)
    requires Enabled(Run(INITIAL, events), ReturnDisconnect(c))
    ensures var s := Step(Run(INITIAL, events), ReturnDisconnect(c)); s.open == {} && s.loops == map[]
  {
    RunKeeps(INITIAL, events);
    NoLoops(Run(INITIAL, events), c);
  }

  // A loop gives up the connection lock only with its handle closed.
  lemma ReleasedMeansClosed(events: seq<Event>, e: Event, l: Token)
    requires Valid(INITIAL, events) && Timely(INITIAL, events)
    requires Enabled(Run(INITIAL, events), e) && !LateDrop(Run(INITIAL, events), e)
    requires Run(INITIAL, events).connLock == Some(ByLoop(l)) != Step(Run(INITIAL, events), e).connLock
    ensures Step(Run(INITIAL, events), e).open == {}
  {
    RunKeeps(INITIAL, events);
    var s := Run(INITIAL, events);
    assert e == Check(l) || e == Stop(l);
    OnlyHandles(s, l);
  }

  // ---------- dropped callers ----------

  function LEAVING(d: Caller): seq<Event>
  {
    [CallDisconnect(d), TakeStart(d), TakeInfo(d), TakeConn(d), ReturnDisconnect(d)]
  }

  // With both locks free a disconnect runs through and leaves the loops as they are.
  lemma Leaving(s: State, d: Caller) returns (after: State)
    requires d !in s.callers && s.startLock == None && s.connLock == None
    ensures Valid(s, LEAVING(d)) && after == Run(s, LEAVING(d))
    ensures after.connLock == None && after.loops == s.loops && after.open == s.open && after.info == None && after.next == s.next
  {
    var e := LEAVING(d);
    var s1 := Step(s, e[0]);
    var s2 := Step(s1, e[1]);
    var s3 := Step(s2, e[2]);
    var s4 := Step(s3, e[3]);
    after := Step(s4, e[4]);
    Prepend(s4, e[4], []);
    Prepend(s3, e[3], [e[4]]);
    Prepend(s2, e[2], [e[3], e[4]]);
    Prepend(s1, e[1], [e[2], e[3], e[4]]);
    Prepend(s, e[0], [e[1], e[2], e[3], e[4]]);
  }

  lemma DialsNow(s: State, l: Token)
    requires s.connLock == None && LoopAt(s, l, Unstarted)
    ensures var e := [LoopStart(l), Dial(l)]; Valid(s, e) && s.next in Run(s, e).open && Run(s, e).info == s.info
  {
    var e := [LoopStart(l), Dial(l)];
    var s1 := Step(s, e[0]);
    assert s.next in Step(s1, e[1]).open;
    Prepend(s1, e[1], []);
    Prepend(s, e[0], [e[1]]);
  }

  // After such a drop a disconnect can always return before the loop dials: a handle is opened
  // when nobody wants a connection any more.
  lemma LateDropDials(s: State, c: Caller, d: Caller)
    requires Inv(s) && LateDrop(s, DropCaller(c)) && d !in s.callers
    ensures var events := [DropCaller(c)] + LEAVING(d) + [LoopStart(s.callers[c].token), Dial(s.callers[c].token)];
      Valid(s, events) && s.next in Run(s, events).open && Run(s, events).info == None
  {
    var l, dropped := s.callers[c].token, Step(s, DropCaller(c));
    DropLeavesLoop(s, c);
    var left := Leaving(dropped, d);
    DialsNow(left, l);
    ValidConcat(dropped, LEAVING(d), [LoopStart(l), Dial(l)]);
    Prepend(s, DropCaller(c), LEAVING(d) + [LoopStart(l), Dial(l)]);
    assert [DropCaller(c)] + LEAVING(d) + [LoopStart(l), Dial(l)] == [DropCaller(c)] + (LEAVING(d) + [LoopStart(l), Dial(l)]);
  }

  function CONNECTING(c: Caller): seq<Event>
  {
    [CallConnect(c), TakeStart(c), CancelOld(c), TakeConn(c), SetInfo(c), Spawn(c)]
  }

  lemma Connecting(c: Caller) returns (after: State)
    ensures Valid(INITIAL, CONNECTING(c)) && Timely(INITIAL, CONNECTING(c)) && after == Run(INITIAL, CONNECTING(c))
    ensures LateDrop(after, DropCaller(c)) && after.callers.Keys == {c}
  {
    var e := CONNECTING(c);
    var s1 := Step(INITIAL, e[0]);
    var s2 := Step(s1, e[1]);
    var s3 := Step(s2, e[2]);
    var s4 := Step(s3, e[3]);
    var s5 := Step(s4, e[4]);
    after := Step(s5, e[5]);
    Prepend(s5, e[5], []);
    Prepend(s4, e[4], [e[5]]);
    Prepend(s3, e[3], [e[4], e[5]]);
    Prepend(s2, e[2], [e[3], e[4], e[5]]);
    Prepend(s1, e[1], [e[2], e[3], e[4], e[5]]);
    Prepend(INITIAL, e[0], [e[1], e[2], e[3], e[4], e[5]]);
    NoDropsTimely(INITIAL, e);
  }

  lemma {:induction false} NoDropsTimely(s: State, events: seq<Event>)
    requires Valid(s, events) && forall i :: 0 <= i < |events| ==> !events[i].DropCaller?
    ensures Timely(s, events)
    decreases |events|
  {
    if events != [] { NoDropsTimely(Step(s, events[0]), events[1..]); }
  }

  // From the start: a connect that is dropped while it waits for its first event lets a
  // disconnect through, and its loop dials after that has returned.
  lemma DroppedConnectDialsLate(c: Caller, d: Caller)
    requires c != d
    ensures exists events: seq<Event> ::
      && Valid(INITIAL, events) && Run(INITIAL, events).open != {} && Run(INITIAL, events).info == None
      && ReturnDisconnect(d) in events
  {
    var s := Connecting(c);
    RunKeeps(INITIAL, CONNECTING(c));
    LateDropDials(s, c, d);
    var l := s.callers[c].token;
    var events := [DropCaller(c)] + LEAVING(d) + [LoopStart(l), Dial(l)];
    ValidConcat(INITIAL, CONNECTING(c), events);
    assert events[5] == ReturnDisconnect(d);
    assert (CONNECTING(c) + events)[|CONNECTING(c)| + 5] == ReturnDisconnect(d);
  }

  lemma Prepend(s: State, e: Event, rest: seq<Event>)
    requires Enabled(s, e) && Valid(Step(s, e), rest)
    ensures var all := [e] + rest; Valid(s, all) && Run(s, all) == Run(Step(s, e), rest)
    ensures |rest| == 0 ==> [e] + rest == [e]
  {
  }

  lemma {:induction false} ValidConcat(s: State, a: seq<Event>, b: seq<Event>)
    requires Valid(s, a) && Valid(Run(s, a), b)
    ensures Valid(s, a + b) && Run(s, a + b) == Run(Run(s, a), b)
    decreases |a|
  {
    if a == [] {
      assert a + b == b;
    } else {
      assert (a + b)[1..] == a[1..] + b;
      ValidConcat(Step(s, a[0]), a[1..], b);
    }
  }
}
