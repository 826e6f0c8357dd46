// Handshakes with servers and authentication: tasks sharing a map of server states, one
// handshake lock per server, and one lock for interactive authentication. Steps run between
// await points.

module ServerManager {
  import opened Text

  type Url = string

  datatype Task = Task(id: nat)

  // `valid`: the cached user information has not expired.
  datatype ServerState = Handshaking | HandshakeFailed | AuthNeeded | Ready(valid: bool)

  datatype Pc =
    | WaitsHandshake(url: Url) | HasHandshake(url: Url) | Dialing(url: Url)
    | AuthWaits(url: Url) | AuthHasLock(url: Url) | Authenticating(url: Url)
    | DeauthWaits(url: Url) | DeauthHasLock(url: Url) | Deauthenticating(url: Url)

  // `handed` are the servers whose ServerInfo some caller has been given.
  datatype State = State(
    servers: map<Url, ServerState>,
    handshakes: map<Url, Task>,
    auth: Option<Task>,
    handed: set<Url>,
    tasks: map<Task, Pc>)

  const INITIAL := State(map[], map[], None, {}, map[])

  datatype Event =
    | CallHandshake(t: Task, url: Url) | LockHandshake(t: Task) | CheckCache(t: Task)
    | HandshakeFails(t: Task) | HandshakeDone(t: Task, user: bool)
    | CallAuthenticate(t: Task, url: Url) | CallDeauthenticate(t: Task, url: Url) | LockAuth(t: Task) | CheckServer(t: Task)
    | AuthSucceeds(t: Task) | AuthEnds(t: Task) | DeauthDone(t: Task)
    | Reauthenticate(url: Url, renewed: bool) | Expire(url: Url) | DropTask(t: Task)

  predicate HoldsAuth(pc: Pc) { pc.AuthHasLock? || pc.Authenticating? || pc.DeauthHasLock? || pc.Deauthenticating? }

  predicate HoldsHandshake(pc: Pc) { pc.HasHandshake? || pc.Dialing? }

  // Callers authenticate only with a ServerInfo they were given.
  predicate Enabled(s: State, e: Event)
  {
    match e
    case CallHandshake(t, url) => t !in s.tasks
    case LockHandshake(t) => t in s.tasks && s.tasks[t].WaitsHandshake? && s.tasks[t].url !in s.handshakes
    case CheckCache(t) => t in s.tasks && s.tasks[t].HasHandshake?
    case HandshakeFails(t) => t in s.tasks && s.tasks[t].Dialing?
    case HandshakeDone(t, user) => t in s.tasks && s.tasks[t].Dialing?
    case CallAuthenticate(t, url) => t !in s.tasks && url in s.handed
    case CallDeauthenticate(t, url) => t !in s.tasks && url in s.handed
    case LockAuth(t) => t in s.tasks && (s.tasks[t].AuthWaits? || s.tasks[t].DeauthWaits?) && s.auth.None?
    case CheckServer(t) => t in s.tasks && (s.tasks[t].AuthHasLock? || s.tasks[t].DeauthHasLock?)
    case AuthSucceeds(t) => t in s.tasks && s.tasks[t].Authenticating?
    case AuthEnds(t) => t in s.tasks && (s.tasks[t].Authenticating? || s.tasks[t].Deauthenticating?)
    case DeauthDone(t) => t in s.tasks && s.tasks[t].Deauthenticating?
    case Reauthenticate(url, renewed) => url in s.handed
    case Expire(url) => url in s.servers && s.servers[url] == Ready(true)
    case DropTask(t) => t in s.tasks
  }

  predicate Usable(s: State, url: Url) { url in s.servers && (s.servers[url].AuthNeeded? || s.servers[url].Ready?) }

  // The panics and failed expectations of the source, by the step that would hit them.
  predicate Panics(s: State, e: Event)
    requires Enabled(s, e)
  {
    match e
    case CheckCache(t) => s.tasks[t].url !in s.servers
    case HandshakeFails(t) => s.tasks[t].url !in s.servers
    case HandshakeDone(t, _) => s.tasks[t].url !in s.servers
    case CheckServer(t) => !Usable(s, s.tasks[t].url)
    case AuthSucceeds(t) => s.tasks[t].url !in s.servers
    case DeauthDone(t) => s.tasks[t].url !in s.servers
    case _ => false
  }

  // A task that returns or is dropped lets go of its locks.
  function Leave(s: State, t: Task): State
    requires t in s.tasks
  {
    var url := s.tasks[t].url;
    s.(tasks := s.tasks - {t},
       handshakes := if url in s.handshakes && s.handshakes[url] == t then s.handshakes - {url} else s.handshakes,
       auth := if s.auth == Some(t) then None else s.auth)
  }

  function Reauthenticated(state: ServerState, renewed: bool): ServerState
  {
    if !state.Ready? then state else if !state.valid && renewed then Ready(true) else AuthNeeded
  }

  function Step(s: State, e: Event): State
    requires Enabled(s, e) && !Panics(s, e)
  {
    match e
    case CallHandshake(t, url) =>
      s.(servers := if url in s.servers then s.servers else s.servers[url := Handshaking], tasks := s.tasks[t := WaitsHandshake(url)])
    case LockHandshake(t) => s.(handshakes := s.handshakes[s.tasks[t].url := t], tasks := s.tasks[t := HasHandshake(s.tasks[t].url)])
    case CheckCache(t) =>
      var url := s.tasks[t].url;
      if Usable(s, url) then Leave(s, t).(handed := s.handed + {url})
      else s.(servers := s.servers[url := Handshaking], tasks := s.tasks[t := Dialing(url)])
    case HandshakeFails(t) => Leave(s, t).(servers := s.servers[s.tasks[t].url := HandshakeFailed])
    case HandshakeDone(t, user) =>
      var url := s.tasks[t].url;
      Leave(s, t).(servers := s.servers[url := if user then Ready(true) else AuthNeeded], handed := s.handed + {url})
    case CallAuthenticate(t, url) => s.(tasks := s.tasks[t := AuthWaits(url)])
    case CallDeauthenticate(t, url) => s.(tasks := s.tasks[t := DeauthWaits(url)])
    case LockAuth(t) =>
      s.(auth := Some(t), tasks := s.tasks[t := if s.tasks[t].AuthWaits? then AuthHasLock(s.tasks[t].url) else DeauthHasLock(s.tasks[t].url)])
    case CheckServer(t) =>
      var url := s.tasks[t].url;
      if s.tasks[t].DeauthHasLock? then s.(tasks := s.tasks[t := Deauthenticating(url)])
      else if s.servers[url] == Ready(true) then Leave(s, t)
      else s.(servers := s.servers[url := AuthNeeded], tasks := s.tasks[t := Authenticating(url)])
    case AuthSucceeds(t) => Leave(s, t).(servers := s.servers[s.tasks[t].url := Ready(true)])
    case AuthEnds(t) => Leave(s, t)
    case DeauthDone(t) => Leave(s, t).(servers := s.servers[s.tasks[t].url := AuthNeeded])
    case Reauthenticate(url, renewed) =>
      if url in s.servers then s.(servers := s.servers[url := Reauthenticated(s.servers[url], renewed)]) else s
    case Expire(url) => s.(servers := s.servers[url := Ready(false)])
    case DropTask(t) => Leave(s, t)
  }

  // ---------- the map of servers ----------

  // What each step does to the shared map, under its lock.
  class Servers {
    var servers: map<Url, ServerState>

    constructor ()
      ensures servers == INITIAL.servers
    {
      servers := map[];
    }

    method SetServerState(url: Url, state: ServerState)
      modifies this
      ensures servers == old(servers)[url := state]
    {
      servers := servers[url := state];
    }

    method Enter(ghost s: State, ghost t: Task, url: Url)
      requires servers == s.servers && Enabled(s, CallHandshake(t, url))
      modifies this
      ensures servers == Step(s, CallHandshake(t, url)).servers
    {
      if url !in servers { servers := servers[url := Handshaking]; }
    }

    // Returns whether the handshake was cached.
    method CheckCached(ghost s: State, ghost t: Task, url: Url) returns (cached: bool)
      requires servers == s.servers && Enabled(s, CheckCache(t)) && !Panics(s, CheckCache(t)) && s.tasks[t].url == url
      modifies this
      ensures servers == Step(s, CheckCache(t)).servers
      ensures cached <==> t !in Step(s, CheckCache(t)).tasks
      ensures cached ==> url in Step(s, CheckCache(t)).handed
    {
      match servers[url] {
        case Handshaking =>
        case HandshakeFailed =>
        case AuthNeeded => return true;
        case Ready(_) => return true;
      }
      SetServerState(url, Handshaking);
      cached := false;
    }

    method FinishHandshake(ghost s: State, ghost t: Task, url: Url, ok: bool, user: bool)
      requires servers == s.servers && t in s.tasks && s.tasks[t] == Dialing(url) && url in servers
      modifies this
      ensures servers == Step(s, if ok then HandshakeDone(t, user) else HandshakeFails(t)).servers
    {
      if !ok { SetServerState(url, HandshakeFailed); return; }
      SetServerState(url, if user then Ready(true) else AuthNeeded);
    }

    // Returns whether the cached user information is good enough.
    method CheckUser(ghost s: State, ghost t: Task, url: Url) returns (cached: bool)
      requires servers == s.servers && Enabled(s, CheckServer(t)) && !Panics(s, CheckServer(t)) && s.tasks[t] == AuthHasLock(url)
      modifies this
      ensures servers == Step(s, CheckServer(t)).servers && (cached <==> t !in Step(s, CheckServer(t)).tasks)
    {
      match servers[url] {
        case AuthNeeded =>
        case Ready(valid) =>
          if valid { return true; }
          SetServerState(url, AuthNeeded);
      }
      cached := false;
    }

    method TryReauthenticate(ghost s: State, url: Url, renewed: bool) returns (ok: bool)
      requires servers == s.servers && url in s.handed
      modifies this
      ensures servers == Step(s, Reauthenticate(url, renewed)).servers
      ensures ok <==> url in old(servers) && old(servers[url]) == Ready(false) && renewed
    {
      if url !in servers || !servers[url].Ready? { return false; }
      ok := !servers[url].valid && renewed;
      SetServerState(url, if ok then Ready(true) else AuthNeeded);
    }
  }

  // ---------- invariant ----------

  predicate TaskOk(s: State, t: Task)
    requires t in s.tasks
  {
    var pc := s.tasks[t];
    && pc.url in s.servers
    && (HoldsHandshake(pc) <==> pc.url in s.handshakes && s.handshakes[pc.url] == t)
    && (HoldsAuth(pc) <==> s.auth == Some(t))
    && (pc.Dialing? ==> pc.url !in s.handed && s.servers[pc.url] == Handshaking)
    && (!(pc.WaitsHandshake? || HoldsHandshake(pc)) ==> pc.url in s.handed)
  }

  predicate Inv(s: State)
  {
    && (forall url :: url in s.handed ==> Usable(s, url))
    && (forall t :: t in s.tasks ==> TaskOk(s, t))
    && (forall url :: url in s.handshakes ==> s.handshakes[url] in s.tasks && s.tasks[s.handshakes[url]].url == url)
    && (s.auth.Some? ==> s.auth.value in s.tasks)
  }

  lemma NeverPanics(s: State, e: Event)
    requires Inv(s) && Enabled(s, e)
    ensures !Panics(s, e)
  {
  }

  // Leaving concerns nobody else.
  lemma LeaveKeeps(s: State, t: Task)
    requires Inv(s) && t in s.tasks
    ensures Inv(Leave(s, t))
  {
  }

  // Changing a server that was handed out to another usable state is harmless.
  lemma UpdateKeeps(s: State, url: Url, state: ServerState)
    requires Inv(s) && url in s.handed && (state.AuthNeeded? || state.Ready?)
    ensures Inv(s.(servers := s.servers[url := state]))
  {
  }

  // So is settling a server nobody is dialing.
  lemma SettleKeeps(s: State, url: Url, state: ServerState, hand: bool)
    requires Inv(s) && url in s.servers && url !in s.handed && url !in s.handshakes && (hand ==> state.AuthNeeded? || state.Ready?)
    ensures Inv(s.(servers := s.servers[url := state], handed := if hand then s.handed + {url} else s.handed))
  {
  }

  lemma HandKeeps(s: State, url: Url)
    requires Inv(s) && Usable(s, url)
    ensures Inv(s.(handed := s.handed + {url}))
  {
  }

  lemma HandshakeKeeps(s: State, e: Event)
    requires Inv(s) && Enabled(s, e) && (e.CallHandshake? || e.LockHandshake? || e.CheckCache? || e.HandshakeFails? || e.HandshakeDone?)
    ensures !Panics(s, e) && Inv(Step(s, e))
  {
    NeverPanics(s, e);
    var after := Step(s, e);
    match e
    case CheckCache(t) =>
      assert TaskOk(s, t);
      if Usable(s, s.tasks[t].url) {
        LeaveKeeps(s, t);
        HandKeeps(Leave(s, t), s.tasks[t].url);
      } else {
        DialKeeps(s, t);
      }
    case HandshakeFails(t) =>
      assert TaskOk(s, t);
      LeaveKeeps(s, t);
      SettleKeeps(Leave(s, t), s.tasks[t].url, HandshakeFailed, false);
    case HandshakeDone(t, user) =>
      assert TaskOk(s, t);
      LeaveKeeps(s, t);
      SettleKeeps(Leave(s, t), s.tasks[t].url, if user then Ready(true) else AuthNeeded, true);
    case CallHandshake(t, url) =>
      forall u | u in after.tasks ensures TaskOk(after, u) { if u != t { assert TaskOk(s, u); } else { FreshTask(s, t); } }
    case LockHandshake(t) =>
      forall u | u in after.tasks ensures TaskOk(after, u) { assert TaskOk(s, u); }
  }

  lemma FreshTask(s: State, t: Task)
    requires Inv(s) && t !in s.tasks
    ensures s.auth != Some(t) && forall url :: url in s.handshakes ==> s.handshakes[url] != t
  {
  }

  lemma DialKeeps(s: State, t: Task)
    requires Inv(s) && Enabled(s, CheckCache(t)) && !Usable(s, s.tasks[t].url) && s.tasks[t].url in s.servers
    ensures Inv(Step(s, CheckCache(t)))
  {
  }

  lemma AuthKeeps(s: State, e: Event)
    requires Inv(s) && Enabled(s, e)
      && (e.CallAuthenticate? || e.CallDeauthenticate? || e.LockAuth? || e.CheckServer? || e.AuthSucceeds? || e.AuthEnds? || e.DeauthDone?)
    ensures !Panics(s, e) && Inv(Step(s, e))
  {
    NeverPanics(s, e);
    var after := Step(s, e);
    match e
    case CheckServer(t) =>
      assert TaskOk(s, t);
      if s.tasks[t].AuthHasLock? && s.servers[s.tasks[t].url] == Ready(true) {
        LeaveKeeps(s, t);
      } else if s.tasks[t].AuthHasLock? {
        UpdateKeeps(s, s.tasks[t].url, AuthNeeded);
        MoveKeeps(s.(servers := s.servers[s.tasks[t].url := AuthNeeded]), t, Authenticating(s.tasks[t].url));
      } else {
        MoveKeeps(s, t, Deauthenticating(s.tasks[t].url));
      }
    case AuthSucceeds(t) =>
      assert TaskOk(s, t);
      LeaveKeeps(s, t);
      UpdateKeeps(Leave(s, t), s.tasks[t].url, Ready(true));
    case DeauthDone(t) =>
      assert TaskOk(s, t);
      LeaveKeeps(s, t);
      UpdateKeeps(Leave(s, t), s.tasks[t].url, AuthNeeded);
    case AuthEnds(t) => LeaveKeeps(s, t);
    case LockAuth(t) =>
      forall u | u in after.tasks ensures TaskOk(after, u) { assert TaskOk(s, u); }
    case CallAuthenticate(t, url) => CallKeeps(s, t, AuthWaits(url));
    case CallDeauthenticate(t, url) => CallKeeps(s, t, DeauthWaits(url));
  }

  lemma CallKeeps(s: State, t: Task, pc: Pc)
    requires Inv(s) && t !in s.tasks && pc.url in s.handed && (pc.AuthWaits? || pc.DeauthWaits?)
    ensures Inv(s.(tasks := s.tasks[t := pc]))
  {
  }

  lemma MoveKeeps(s: State, t: Task, pc: Pc)
    requires Inv(s) && t in s.tasks && HoldsAuth(s.tasks[t]) && HoldsAuth(pc) && pc.url == s.tasks[t].url
    ensures Inv(s.(tasks := s.tasks[t := pc]))
  {
  }

  lemma ExpireKeeps(s: State, url: Url)
    requires Inv(s) && Enabled(s, Expire(url))
    ensures Inv(Step(s, Expire(url)))
  {
  }

  lemma StepKeeps(s: State, e: Event)
    requires Inv(s) && Enabled(s, e)
    ensures !Panics(s, e) && Inv(Step(s, e)) && s.handed <= Step(s, e).handed
  {
    NeverPanics(s, e);
    match e
    case Reauthenticate(url, renewed) => UpdateKeeps(s, url, Reauthenticated(s.servers[url], renewed));
    case Expire(url) => ExpireKeeps(s, url);
    case DropTask(t) => LeaveKeeps(s, t);
    case _ =>
      if e.CallHandshake? || e.LockHandshake? || e.CheckCache? || e.HandshakeFails? || e.HandshakeDone? {
        HandshakeKeeps(s, e);
      } else {
        AuthKeeps(s, e);
      }
  }

  // ---------- runs ----------

  // None: an event was not enabled, or its step would panic.
  function Run(s: State, events: seq<Event>): Option<State>
    decreases |events|
  {
    if events == [] then Some(s)
    else if !Enabled(s, events[0]) || Panics(s, events[0]) then None
    else Run(Step(s, events[0]), events[1..])
  }

  lemma {:induction false} RunKeeps(s: State, events: seq<Event>)
    requires Inv(s) && Run(s, events).Some?
    ensures Inv(Run(s, events).value) && s.handed <= Run(s, events).value.handed
    decreases |events|
  {
    if events != [] {
      StepKeeps(s, events[0]);
      RunKeeps(Step(s, events[0]), events[1..]);
    }
  }

  // No run panics: where every event is enabled, the next step goes through.
  lemma PanicsUnreachable(events: seq<Event>, e: Event)
    requires Run(INITIAL, events).Some? && Enabled(Run(INITIAL, events).value, e)
    ensures !Panics(Run(INITIAL, events).value, e)
  {
    RunKeeps(INITIAL, events);
    NeverPanics(Run(INITIAL, events).value, e);
  }

  // Once a ServerInfo has been handed out, its server is in AuthNeeded or Ready in every
  // later state of every run.
  lemma HandedOutStaysUsable(events: seq<Event>, later: seq<Event>, url: Url)
    requires Run(INITIAL, events).Some? && url in Run(INITIAL, events).value.handed
    requires Run(Run(INITIAL, events).value, later).Some?
    ensures Usable(Run(Run(INITIAL, events).value, later).value, url)
  {
    RunKeeps(INITIAL, events);
    RunKeeps(Run(INITIAL, events).value, later);
  }

  // At most one handshake per server and one interactive authentication overall are in flight.
  lemma OneInFlight(events: seq<Event>, t: Task, u: Task)
    requires Run(INITIAL, events).Some? && t in Run(INITIAL, events).value.tasks && u in Run(INITIAL, events).value.tasks
    ensures var tasks := Run(INITIAL, events).value.tasks;
      && (tasks[t].Dialing? && tasks[u].Dialing? && tasks[t].url == tasks[u].url ==> t == u)
      && (HoldsAuth(tasks[t]) && HoldsAuth(tasks[u]) ==> t == u)
  {
    RunKeeps(INITIAL, events);
    var s := Run(INITIAL, events).value;
    assert TaskOk(s, t) && TaskOk(s, u);
  }

  // ---------- which state a server is in ----------

  // The server a step decides something about.
  predicate Concerns(s: State, e: Event, url: Url)
    requires Enabled(s, e)
  {
    match e
    case CallHandshake(_, u) => u == url
    case CallAuthenticate(_, u) => u == url
    case CallDeauthenticate(_, u) => u == url
    case Reauthenticate(u, _) => u == url
    case Expire(u) => u == url
    case _ => s.tasks[e.t].url == url
  }

  predicate ByTask(e: Event) { e.CheckCache? || e.HandshakeFails? || e.HandshakeDone? || e.CheckServer? || e.AuthSucceeds? || e.DeauthDone? }

  // Valid user information arrives: with a handshake, an interactive authentication, or the
  // renewal of information that has expired.
  predicate LogsIn(s: State, e: Event, url: Url)
    requires Enabled(s, e)
  {
    && Concerns(s, e, url)
    && ((e.HandshakeDone? && e.user) || e.AuthSucceeds?
        || (e.Reauthenticate? && e.renewed && url in s.servers && s.servers[url] == Ready(false)))
  }

  // It is gone: it expired, the user logged out, or a renewal was tried for information that is
  // still valid or cannot be renewed.
  predicate LogsOut(s: State, e: Event, url: Url)
    requires Enabled(s, e)
  {
    && Concerns(s, e, url)
    && (e.Expire? || e.DeauthDone? || (e.HandshakeDone? && !e.user)
        || (e.Reauthenticate? && url in s.servers && (s.servers[url] == Ready(true) || !e.renewed)))
  }

  predicate LoggedIn(s: State, url: Url) { url in s.servers && s.servers[url] == Ready(true) }

  lemma LoginStep(s: State, e: Event, url: Url)
    requires Inv(s) && Enabled(s, e)
    ensures !Panics(s, e)
    ensures LoggedIn(Step(s, e), url) <==> LogsIn(s, e, url) || (LoggedIn(s, url) && !LogsOut(s, e, url))
  {
    NeverPanics(s, e);
    if ByTask(e) { assert TaskOk(s, e.t); }
  }

  // A failed handshake stands until the next one dials.
  predicate Fails(s: State, e: Event, url: Url)
    requires Enabled(s, e)
  {
    e.HandshakeFails? && Concerns(s, e, url)
  }

  lemma FailedStep(s: State, e: Event, url: Url)
    requires Inv(s) && Enabled(s, e)
    ensures !Panics(s, e)
    ensures var failed, now := url in s.servers && s.servers[url] == HandshakeFailed, Step(s, e).servers;
      url in now && now[url] == HandshakeFailed <==> Fails(s, e, url) || (failed && !(e.CheckCache? && Concerns(s, e, url)))
  {
    NeverPanics(s, e);
    if ByTask(e) { assert TaskOk(s, e.t); }
  }

  // The user has to be asked: a handshake without user information, a logout, a renewal that is
  // not possible, or an interactive authentication that begins on expired information.
  predicate Asks(s: State, e: Event, url: Url)
    requires Enabled(s, e)
  {
    && Concerns(s, e, url)
    && (e.DeauthDone? || (e.HandshakeDone? && !e.user)
        || (e.Reauthenticate? && url in s.servers && (s.servers[url] == Ready(true) || (s.servers[url] == Ready(false) && !e.renewed)))
        || (e.CheckServer? && s.tasks[e.t].AuthHasLock? && url in s.servers && s.servers[url] == Ready(false)))
  }

  lemma AskedStep(s: State, e: Event, url: Url)
    requires Inv(s) && Enabled(s, e)
    ensures !Panics(s, e)
    ensures var asked, now := url in s.servers && s.servers[url] == AuthNeeded, Step(s, e).servers;
      url in now && now[url] == AuthNeeded <==> Asks(s, e, url) || (asked && !(e.AuthSucceeds? && Concerns(s, e, url)))
  {
    NeverPanics(s, e);
    if ByTask(e) { assert TaskOk(s, e.t); }
  }

  // Expired information stays so until it is renewed, given up, or an authentication begins.
  lemma ExpiredStep(s: State, e: Event, url: Url)
    requires Inv(s) && Enabled(s, e)
    ensures !Panics(s, e)
    ensures var expired, now := url in s.servers && s.servers[url] == Ready(false), Step(s, e).servers;
      url in now && now[url] == Ready(false) <==>
        (e.Expire? && e.url == url) || (expired && !LogsIn(s, e, url) && !Asks(s, e, url))
  {
    NeverPanics(s, e);
    if ByTask(e) { assert TaskOk(s, e.t); }
  }

  // A server is in the map from the first call on, and no step takes one out.
  lemma EnteredStep(s: State, e: Event, url: Url)
    requires Inv(s) && Enabled(s, e)
    ensures !Panics(s, e)
    ensures url in Step(s, e).servers <==> url in s.servers || (e.CallHandshake? && e.url == url)
  {
    NeverPanics(s, e);
    if ByTask(e) { assert TaskOk(s, e.t); }
  }

  // A run ends with its last step.
  lemma {:induction false} RunLast(s: State, events: seq<Event>)
    requires events != [] && Run(s, events).Some?
    ensures var n := |events| - 1;
      && Run(s, events[..n]).Some? && Enabled(Run(s, events[..n]).value, events[n]) && !Panics(Run(s, events[..n]).value, events[n])
      && Run(s, events) == Some(Step(Run(s, events[..n]).value, events[n]))
    decreases |events|
  {
    var n := |events| - 1;
    if n > 0 {
      RunLast(Step(s, events[0]), events[1..]);
      assert events[1..][..n - 1] == events[..n][1..] && events[1..][n - 1] == events[n];
    }
  }

  // The state before event `i`, when that event goes through.
  function StateAt(events: seq<Event>, i: nat): Option<State>
  {
    if i >= |events| then None
    else match Run(INITIAL, events[..i]) case None => None case Some(s) => if Enabled(s, events[i]) then Some(s) else None
  }

  predicate LogsInAt(events: seq<Event>, i: nat, url: Url)
  {
    match StateAt(events, i) case None => false case Some(s) => LogsIn(s, events[i], url)
  }

  predicate LogsOutAt(events: seq<Event>, i: nat, url: Url)
  {
    match StateAt(events, i) case None => false case Some(s) => LogsOut(s, events[i], url)
  }

  predicate LoginLasts(events: seq<Event>, i: nat, url: Url)
  {
    LogsInAt(events, i, url) && forall j: nat :: i < j < |events| ==> !LogsOutAt(events, j, url)
  }

  lemma FrontAt(events: seq<Event>, i: nat)
    requires events != [] && i < |events| - 1
    ensures StateAt(events[..|events| - 1], i) == StateAt(events, i)
  {
    assert events[..|events| - 1][..i] == events[..i];
  }

  lemma LastsFront(events: seq<Event>, i: nat, url: Url)
    requires events != [] && i < |events| - 1
    ensures LoginLasts(events, i, url) <==> LoginLasts(events[..|events| - 1], i, url) && !LogsOutAt(events, |events| - 1, url)
  {
    var n := |events| - 1;
    forall j: nat | j < n ensures StateAt(events[..n], j) == StateAt(events, j) { FrontAt(events, j); }
    forall j: nat | j < n ensures LogsOutAt(events[..n], j, url) == LogsOutAt(events, j, url) { assert StateAt(events[..n], j) == StateAt(events, j); }
    assert StateAt(events[..n], i) == StateAt(events, i);
  }

  // In every run: a server is Ready with valid user information if and only if some event
  // brought that and none since has taken it away.
  lemma {:induction false} ReadyExactly(events: seq<Event>, url: Url)
    requires Run(INITIAL, events).Some?
    ensures LoggedIn(Run(INITIAL, events).value, url) <==> exists i: nat :: LoginLasts(events, i, url)
  {
    if events != [] {
      var n := |events| - 1;
      RunLast(INITIAL, events);
      ReadyExactly(events[..n], url);
      RunKeeps(INITIAL, events[..n]);
      var s := Run(INITIAL, events[..n]).value;
      LoginStep(s, events[n], url);
      assert StateAt(events, n) == Some(s);
      LoginsAfter(events, events[..n], url, LoggedIn(s, url), LoggedIn(Run(INITIAL, events).value, url));
    }
  }

  lemma LoginsAfter(events: seq<Event>, front: seq<Event>, url: Url, was: bool, now: bool)
    requires events != [] && front == events[..|events| - 1] && (was <==> exists i: nat :: LoginLasts(front, i, url))
    requires now <==> LogsInAt(events, |events| - 1, url) || (was && !LogsOutAt(events, |events| - 1, url))
    ensures now <==> exists i: nat :: LoginLasts(events, i, url)
  {
    var n := |events| - 1;
    if i: nat :| LoginLasts(events, i, url) {
      if i < n { LastsFront(events, i, url); }
    }
    if now {
      if LogsInAt(events, n, url) {
        assert LoginLasts(events, n, url);
      } else {
        var i: nat :| LoginLasts(front, i, url);
        LastsFront(events, i, url);
      }
    }
  }

  // So an authenticate call that has the lock returns at once exactly then, and otherwise goes
  // on to ask the user.
  lemma ReturnsAtOnce(events: seq<Event>, t: Task)
    requires Run(INITIAL, events).Some? && Enabled(Run(INITIAL, events).value, CheckServer(t))
    requires Run(INITIAL, events).value.tasks[t].AuthHasLock?
    ensures var s := Run(INITIAL, events).value; var url := s.tasks[t].url;
      && !Panics(s, CheckServer(t))
      && (t !in Step(s, CheckServer(t)).tasks <==> exists i: nat :: LoginLasts(events, i, url))
      && (t in Step(s, CheckServer(t)).tasks ==> Step(s, CheckServer(t)).tasks[t] == Authenticating(url))
  {
    PanicsUnreachable(events, CheckServer(t));
    ReadyExactly(events, Run(INITIAL, events).value.tasks[t].url);
  }

  predicate CompletesAt(events: seq<Event>, i: nat, url: Url)
  {
    match StateAt(events, i) case None => false case Some(s) => events[i].HandshakeDone? && Concerns(s, events[i], url)
  }

  lemma UsableStep(s: State, e: Event, url: Url)
    requires Inv(s) && Enabled(s, e)
    ensures !Panics(s, e)
    ensures Usable(Step(s, e), url) <==> Usable(s, url) || (e.HandshakeDone? && Concerns(s, e, url))
  {
    NeverPanics(s, e);
    if ByTask(e) { assert TaskOk(s, e.t); }
  }

  // A server is usable once a handshake has completed, and from then on: later handshakes are
  // answered from the cache, earlier ones dial.
  lemma {:induction false} UsableExactly(events: seq<Event>, url: Url)
    requires Run(INITIAL, events).Some?
    ensures Usable(Run(INITIAL, events).value, url) <==> exists i: nat :: CompletesAt(events, i, url)
  {
    if events != [] {
      var n := |events| - 1;
      RunLast(INITIAL, events);
      UsableExactly(events[..n], url);
      RunKeeps(INITIAL, events[..n]);
      UsableStep(Run(INITIAL, events[..n]).value, events[n], url);
      assert StateAt(events, n) == Some(Run(INITIAL, events[..n]).value);
      forall i: nat | i < n ensures CompletesAt(events, i, url) <==> CompletesAt(events[..n], i, url) { FrontAt(events, i); }
      assert Usable(Run(INITIAL, events).value, url) <==> Usable(Run(INITIAL, events[..n]).value, url) || CompletesAt(events, n, url);
    }
  }

  lemma CachedExactly(events: seq<Event>, t: Task)
    requires Run(INITIAL, events).Some? && Enabled(Run(INITIAL, events).value, CheckCache(t))
    ensures var s := Run(INITIAL, events).value; var url := s.tasks[t].url;
      && !Panics(s, CheckCache(t))
      && (t !in Step(s, CheckCache(t)).tasks <==> exists i: nat :: CompletesAt(events, i, url))
      && (t in Step(s, CheckCache(t)).tasks ==> Step(s, CheckCache(t)).tasks[t] == Dialing(url))
  {
    PanicsUnreachable(events, CheckCache(t));
    UsableExactly(events, Run(INITIAL, events).value.tasks[t].url);
  }
}
