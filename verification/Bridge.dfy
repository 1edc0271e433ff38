/**
 * The browser bridge's service worker as a state machine. Every handler of the
 * worker is one step up to its next `await`; what it awaits is a step of its
 * own, so any interleaving of sockets, proofs, timers and reconnects is a run.
 */
module Bridge {
  import opened Wrappers

  /** Strings as UTF-16 code units, so that the proof comparison can be done bit by bit. */
  type Units = seq<bv16>

  type SockId = nat

  datatype Config = Config(token: Units, port: string)

  predicate Usable(c: Option<Config>) { c.Some? && c.value.token != [] && c.value.port != "" }

  datatype Ready = Connecting | Open | Closing | Closed

  /** The one proof check of a socket: not asked for, computing the HMAC, or settled. */
  datatype Proving = NotAsked | Checking(claim: Option<Units>) | Settled(claim: Option<Units>)

  datatype Sock = Sock(ready: Ready, cfg: Config, nonce: Units, proven: bool, proving: Proving, deadline: bool)

  datatype Status = NoConfig | ConnectingNow | Connected | Disconnected | BadToken | Standby

  datatype Message = Welcome(proof: Option<Units>) | Ping | Pong | Op(id: int) | Unnumbered | Garbage

  /** What the worker sends. */
  datatype Sent = Hello(nonce: Units) | PingOut | PongOut | Reply(id: int) | Note

  /** What a step does to the outside: a message on a socket, or an op begun for one. */
  datatype Act = Send(to: SockId, msg: Sent) | RunOp(from: SockId, id: int)

  /** A `connect` under way: reading the stored config (under the version it saw), or holding what it read. */
  datatype Frame = Reading(version: nat) | Holding(cfg: Option<Config>)

  /** A message handler under way: waiting for its socket's proof, or for its op. */
  datatype Task = AwaitingProof(s: SockId, msg: Message) | AwaitingOp(s: SockId, id: int)

  datatype State = State(
    ws: Option<SockId>,
    hostProven: bool,
    status: Status,
    retries: nat,
    retryTimer: Option<nat>,
    timers: map<nat, nat>,
    keepalive: bool,
    bridgeConfig: Option<Config>,
    configVersion: nat,
    socks: map<SockId, Sock>,
    helloDue: set<SockId>,
    frames: map<nat, Frame>,
    tasks: map<nat, Task>,
    nextId: nat,
    threw: bool)

  const START := State(None, false, NoConfig, 0, None, map[], false, None, 0, map[], {}, map[], map[], 0, false)

  datatype Event =
    | ConnectCall
    | KeeperBeat
    | Wake
    | ReconnectCall
    | ConfigRead(frame: nat, stored: Option<Config>)
    | ConfigHeld(frame: nat, nonce: Units)
    | Opens(s: SockId)
    | HelloReady(s: SockId)
    | Arrives(s: SockId, msg: Message)
    | ProofChecked(s: SockId)
    | ProofAwaited(task: nat)
    | OpFinished(task: nat)
    | DeadlineFires(s: SockId)
    | PeerCloses(s: SockId)
    | Closes(s: SockId, code: int)
    | RetryFires(timer: nat)
    | KeepaliveTick
    | Emits

  /** What is outside the worker: the HMAC, and which ports make a URL `new WebSocket` accepts. */
  datatype World = World(hmac: (Units, Units) -> Units, urlOk: string -> bool)

  datatype Out = Out(st: State, acts: seq<Act>)

  function Ready?(st: State, s: Option<SockId>): Ready {
    if s.Some? && s.value in st.socks then st.socks[s.value].ready else Closed
  }

  /** `ws` is open or connecting. */
  predicate Live(st: State) {
    Ready?(st, st.ws) == Open || Ready?(st, st.ws) == Connecting
  }

  /** `send`: nothing but hello before the proof, and always on the socket that is current now. */
  function SendNow(st: State, msg: Sent): seq<Act> {
    if !st.hostProven && !msg.Hello? then []
    else if Ready?(st, st.ws) == Open then [Send(st.ws.value, msg)]
    else []
  }

  const RETRY_MS := [1000, 2000, 5000]

  function ScheduleRetry(st: State): State {
    if st.retryTimer.Some? then st
    else st.(retries := st.retries + 1, retryTimer := Some(st.nextId), nextId := st.nextId + 1,
             timers := st.timers[st.nextId := RETRY_MS[Min(st.retries, 2)]])
  }

  function ResetRetries(st: State): State {
    st.(timers := if st.retryTimer.Some? then st.timers - {st.retryTimer.value} else st.timers,
        retryTimer := None, retries := 0)
  }

  /** `getConfig` up to its await: a cached config is at hand, else storage is read. */
  function AskConfig(st: State): Frame {
    if st.bridgeConfig.Some? then Holding(st.bridgeConfig) else Reading(st.configVersion)
  }

  function Connect(st: State): State {
    if Live(st) then st
    else st.(frames := st.frames[st.nextId := AskConfig(st)], nextId := st.nextId + 1)
  }

  /** Storage answered; a config changed meanwhile is asked for again. */
  function ReadConfig(st: State, frame: nat, stored: Option<Config>): State
    requires frame in st.frames && st.frames[frame].Reading?
  {
    if st.frames[frame].version != st.configVersion then st.(frames := st.frames[frame := AskConfig(st)])
    else st.(bridgeConfig := stored, frames := st.frames[frame := Holding(stored)])
  }

  function Drop(st: State, frame: nat): State { st.(frames := st.frames - {frame}) }

  /** A new socket becomes the current one, unproven and under its deadline; a rejection stays on show. */
  function OpenSocket(st: State, cfg: Config, nonce: Units): State {
    st.(ws := Some(st.nextId),
        socks := st.socks[st.nextId := Sock(Connecting, cfg, nonce, false, NotAsked, true)],
        nextId := st.nextId + 1,
        status := if st.status == BadToken || st.status == Standby then st.status else ConnectingNow,
        hostProven := false)
  }

  /** The rest of `connect`: give up, yield to a live socket, throw, or open a new socket. */
  function UseConfig(st: State, frame: nat, nonce: Units, w: World): State
    requires frame in st.frames && st.frames[frame].Holding?
  {
    var cfg := st.frames[frame].cfg;
    if !Usable(cfg) then Drop(st, frame).(status := NoConfig)
    else if Live(st) then Drop(st, frame)
    else if !w.urlOk(cfg.value.port) then Drop(st, frame).(threw := true)
    else OpenSocket(Drop(st, frame), cfg.value, nonce)
  }

  function SetSock(st: State, s: SockId, sock: Sock): State { st.(socks := st.socks[s := sock]) }

  /** `sock.close()`: an open or connecting socket begins to close, the close event follows. */
  function CloseSock(sock: Sock): Sock {
    if sock.ready == Open || sock.ready == Connecting then sock.(ready := Closing) else sock
  }

  /** A numbered op begins, a ping is answered, the rest is ignored. */
  function Dispatch(st: State, s: SockId, msg: Message): Out {
    match msg
    case Ping => Out(st, SendNow(st, PongOut))
    case Op(id) => Out(st.(tasks := st.tasks[st.nextId := AwaitingOp(s, id)], nextId := st.nextId + 1), [RunOp(s, id)])
    case _ => Out(st, [])
  }

  function OnMessage(st: State, s: SockId, msg: Message): Out
    requires s in st.socks
  {
    var sock := st.socks[s];
    if st.ws != Some(s) || msg.Garbage? then Out(st, [])
    else if sock.proven then Dispatch(st, s, msg)
    else if msg.Welcome? then
      Out(if sock.proving.NotAsked? then SetSock(st, s, sock.(proving := Checking(msg.proof))) else st, [])
    else if sock.proving.NotAsked? then Out(st, [])
    else Out(st.(tasks := st.tasks[st.nextId := AwaitingProof(s, msg)], nextId := st.nextId + 1), [])
  }

  function Trusting(st: State): State { st.(hostProven := true, keepalive := true, status := Connected) }

  function Accept(st: State, s: SockId): State
    requires s in st.socks
  {
    Trusting(ResetRetries(SetSock(st, s, st.socks[s].(proven := true, deadline := false))))
  }

  /** The HMAC is there: a valid proof opens the bridge, a wrong one closes the socket for good. */
  function CheckProof(st: State, s: SockId, w: World): State
    requires s in st.socks && st.socks[s].proving.Checking?
  {
    var sock := st.socks[s].(proving := Settled(st.socks[s].proving.claim));
    if st.ws != Some(s) || sock.ready != Open then SetSock(st, s, sock)
    else if sock.proving.claim == Some(w.hmac(sock.cfg.token, sock.nonce)) then
      Accept(SetSock(st, s, sock), s)
    else
      SetSock(st, s, CloseSock(sock)).(status := BadToken)
  }

  function FinishTask(st: State, task: nat): State { st.(tasks := st.tasks - {task}) }

  function AfterProof(st: State, task: nat): Out
    requires task in st.tasks && st.tasks[task].AwaitingProof?
  {
    var s, msg := st.tasks[task].s, st.tasks[task].msg;
    var rest := FinishTask(st, task);
    if s !in st.socks || !st.socks[s].proven || st.ws != Some(s) then Out(rest, []) else Dispatch(rest, s, msg)
  }

  function AfterOp(st: State, task: nat): Out
    requires task in st.tasks && st.tasks[task].AwaitingOp?
  {
    var rest := FinishTask(st, task);
    Out(rest, if st.ws == Some(st.tasks[task].s) then SendNow(rest, Reply(st.tasks[task].id)) else [])
  }

  function OnDeadline(st: State, s: SockId): State
    requires s in st.socks
  {
    var sock := st.socks[s].(deadline := false);
    SetSock(st, s, if sock.proven || st.ws != Some(s) then sock else CloseSock(sock))
  }

  /** A rejected token and a standby are left to the alarm; any other loss is retried. */
  function AfterLoss(lost: State, code: int): State {
    if lost.status == BadToken then lost
    else if code == 4401 then lost.(status := BadToken)
    else if code == 4409 then lost.(status := Standby)
    else ScheduleRetry(lost.(status := Disconnected))
  }

  function OnClose(st: State, s: SockId, code: int): State
    requires s in st.socks
  {
    var gone := SetSock(st, s, st.socks[s].(ready := Closed, deadline := false));
    if st.ws != Some(s) then gone
    else
      AfterLoss(gone.(ws := None, hostProven := false, keepalive := false), code)
  }

  /** The worker with its socket closed and forgotten. */
  function LetGo(st: State): State {
    (if st.ws.Some? && st.ws.value in st.socks then SetSock(st, st.ws.value, CloseSock(st.socks[st.ws.value])) else st)
      .(ws := None, hostProven := false, keepalive := false)
  }

  /** `reconnect` up to its `connect`: the config may be re-read, the retry ladder is reset. */
  function Idle(st: State, refresh: bool): State {
    var reset := ResetRetries(LetGo(st)).(status := Disconnected);
    if refresh then reset.(bridgeConfig := None, configVersion := st.configVersion + 1) else reset
  }

  function Reconnect(st: State, refresh: bool): State { Connect(Idle(st, refresh)) }

  /** What can happen next. */
  predicate Enabled(st: State, e: Event) {
    match e
    case ConfigRead(frame, _) => frame in st.frames && st.frames[frame].Reading?
    case ConfigHeld(frame, _) => frame in st.frames && st.frames[frame].Holding?
    case Opens(s) => s in st.socks && st.socks[s].ready == Connecting
    case HelloReady(s) => s in st.helloDue && s in st.socks
    case Arrives(s, _) => s in st.socks && st.socks[s].ready == Open
    case ProofChecked(s) => s in st.socks && st.socks[s].proving.Checking?
    case ProofAwaited(task) =>
      task in st.tasks && st.tasks[task].AwaitingProof? &&
      st.tasks[task].s in st.socks && st.socks[st.tasks[task].s].proving.Settled?
    case OpFinished(task) => task in st.tasks && st.tasks[task].AwaitingOp?
    case DeadlineFires(s) => s in st.socks && st.socks[s].deadline
    case PeerCloses(s) => s in st.socks && st.socks[s].ready == Open
    case Closes(s, _) => s in st.socks && st.socks[s].ready != Closed
    case RetryFires(timer) => timer in st.timers
    case KeepaliveTick => st.keepalive
    case _ => true
  }

  function Step(st: State, e: Event, w: World): Out
    requires Enabled(st, e)
  {
    match e
    case ConnectCall => Out(Connect(st), [])
    case KeeperBeat => Out(if st.ws == None then Connect(st) else st, [])
    case Wake => Out(if !st.hostProven || Ready?(st, st.ws) != Open then Reconnect(st, false) else st, [])
    case ReconnectCall => Out(Reconnect(st, true), [])
    case ConfigRead(frame, stored) => Out(ReadConfig(st, frame, stored), [])
    case ConfigHeld(frame, nonce) => Out(UseConfig(st, frame, nonce, w), [])
    case Opens(s) => Out(SetSock(st, s, st.socks[s].(ready := Open)).(helloDue := st.helloDue + {s}), [])
    case HelloReady(s) => Out(st.(helloDue := st.helloDue - {s}), SendNow(st, Hello(st.socks[s].nonce)))
    case Arrives(s, msg) => OnMessage(st, s, msg)
    case ProofChecked(s) => Out(CheckProof(st, s, w), [])
    case ProofAwaited(task) => AfterProof(st, task)
    case OpFinished(task) => AfterOp(st, task)
    case DeadlineFires(s) => Out(OnDeadline(st, s), [])
    case PeerCloses(s) => Out(SetSock(st, s, st.socks[s].(ready := Closing)), [])
    case Closes(s, code) => Out(OnClose(st, s, code), [])
    case RetryFires(timer) => Out(Connect(st.(retryTimer := None, timers := st.timers - {timer})), [])
    case KeepaliveTick => Out(st, SendNow(st, PingOut))
    case Emits => Out(st, SendNow(st, Note))
  }

  // Invariants

  /** A socket not past its close event, and not left to itself: proved, under its deadline, or about to close. */
  predicate Watched(sock: Sock) { sock.ready != Closed && (sock.proven || sock.deadline || sock.ready == Closing) }

  /** The current socket is watched. */
  ghost predicate CurrentStands(ws: Option<SockId>, socks: map<SockId, Sock>) {
    ws.Some? ==> ws.value in socks && Watched(socks[ws.value])
  }

  predicate Attended(st: State) { st.ws.Some? && st.ws.value in st.socks && Watched(st.socks[st.ws.value]) }

  /** The worker trusts its host exactly when the current socket proved itself. */
  ghost predicate TrustIsProof(ws: Option<SockId>, hostProven: bool, socks: map<SockId, Sock>) {
    hostProven <==> ws.Some? && ws.value in socks && socks[ws.value].proven
  }

  /** Only the right HMAC of a socket's own nonce, answered on that socket, proves it. */
  ghost predicate ProvedRight(sock: Sock, w: World) {
    sock.proven ==> sock.proving == Settled(Some(w.hmac(sock.cfg.token, sock.nonce)))
  }

  ghost predicate Safe(ws: Option<SockId>, hostProven: bool, socks: map<SockId, Sock>, w: World) {
    CurrentStands(ws, socks) && TrustIsProof(ws, hostProven, socks) &&
    forall s | s in socks :: ProvedRight(socks[s], w)
  }

  /** At most one retry timer, the one the worker remembers. */
  ghost predicate OneTimer(retryTimer: Option<nat>, timers: map<nat, nat>) {
    timers.Keys == if retryTimer.Some? then {retryTimer.value} else {}
  }

  /** Something will bring the worker on: an attended socket, a connect, a timer; or it shows why not. */
  predicate Covered(st: State) {
    Attended(st) || st.frames != map[] || st.retryTimer.Some? || st.status in {NoConfig, BadToken, Standby}
  }

  ghost predicate Inv(st: State, w: World) {
    Safe(st.ws, st.hostProven, st.socks, w) && OneTimer(st.retryTimer, st.timers) &&
    (forall s | s in st.socks :: s < st.nextId) &&
    (Covered(st) || st.threw)
  }

  lemma {:induction false} StartInv(w: World)
    ensures Inv(START, w)
  {
  }

  lemma {:induction false} SafeSet(ws: Option<SockId>, hostProven: bool, socks: map<SockId, Sock>, s: SockId, sock: Sock, w: World)
    requires Safe(ws, hostProven, socks, w) && ProvedRight(sock, w)
    requires ws == Some(s) ==> Watched(sock) && (hostProven <==> sock.proven)
    ensures Safe(ws, hostProven, socks[s := sock], w)
  {
  }

  lemma {:induction false} SafeWithout(ws: Option<SockId>, hostProven: bool, socks: map<SockId, Sock>, w: World)
    requires Safe(ws, hostProven, socks, w)
    ensures Safe(None, false, socks, w)
  {
  }

  lemma {:induction false} ConnectInv(st: State, w: World)
    requires Safe(st.ws, st.hostProven, st.socks, w) && OneTimer(st.retryTimer, st.timers)
    requires forall s | s in st.socks :: s < st.nextId
    ensures Inv(Connect(st), w)
  {
    if !Live(st) {
      assert st.nextId in Connect(st).frames;
    }
  }

  lemma {:induction false} OpenSocketInv(st: State, cfg: Config, nonce: Units, w: World)
    requires Safe(st.ws, st.hostProven, st.socks, w) && OneTimer(st.retryTimer, st.timers)
    requires forall s | s in st.socks :: s < st.nextId
    ensures Inv(OpenSocket(st, cfg, nonce), w)
  {
    var sock, next := Sock(Connecting, cfg, nonce, false, NotAsked, true), OpenSocket(st, cfg, nonce);
    SafeWithout(st.ws, st.hostProven, st.socks, w);
    SafeSet(None, false, st.socks, st.nextId, sock, w);
    assert next.ws == Some(st.nextId) && !next.hostProven && next.socks == st.socks[st.nextId := sock];
    assert next.retryTimer == st.retryTimer && next.timers == st.timers && next.nextId == st.nextId + 1;
  }

  lemma {:induction false} UseConfigInv(st: State, frame: nat, nonce: Units, w: World)
    requires Inv(st, w) && frame in st.frames && st.frames[frame].Holding?
    ensures Inv(UseConfig(st, frame, nonce, w), w)
  {
    var cfg, rest, next := st.frames[frame].cfg, Drop(st, frame), UseConfig(st, frame, nonce, w);
    assert rest.ws == st.ws && rest.hostProven == st.hostProven && rest.socks == st.socks && rest.nextId == st.nextId;
    assert rest.retryTimer == st.retryTimer && rest.timers == st.timers;
    if Usable(cfg) && !Live(st) && w.urlOk(cfg.value.port) {
      OpenSocketInv(rest, cfg.value, nonce, w);
    } else {
      assert next.ws == st.ws && next.hostProven == st.hostProven && next.socks == st.socks;
    }
  }

  /** A message, a deadline or a peer's close changes one socket's own fields and the task list at most. */
  lemma {:induction false} SocketStepInv(st: State, s: SockId, sock: Sock, w: World)
    requires Inv(st, w) && s in st.socks && ProvedRight(sock, w)
    requires sock.proven == st.socks[s].proven && (Watched(st.socks[s]) && st.ws == Some(s) ==> Watched(sock))
    ensures Inv(SetSock(st, s, sock), w)
  {
    SafeSet(st.ws, st.hostProven, st.socks, s, sock, w);
  }

  lemma {:induction false} AcceptInv(st: State, s: SockId, w: World)
    requires Inv(st, w) && st.ws == Some(s) && s in st.socks
    requires st.socks[s].proving == Settled(Some(w.hmac(st.socks[s].cfg.token, st.socks[s].nonce)))
    ensures Inv(Accept(st, s), w)
  {
    var good, next := st.socks[s].(proven := true, deadline := false), Accept(st, s);
    SafeWithout(st.ws, st.hostProven, st.socks, w);
    SafeSet(None, false, st.socks, s, good, w);
    assert next.ws == Some(s) && next.hostProven && next.socks == st.socks[s := good];
  }

  lemma {:induction false} CheckProofInv(st: State, s: SockId, w: World)
    requires Inv(st, w) && s in st.socks && st.socks[s].proving.Checking?
    ensures Inv(CheckProof(st, s, w), w)
  {
    var sock := st.socks[s].(proving := Settled(st.socks[s].proving.claim));
    assert ProvedRight(st.socks[s], w) && !st.socks[s].proven;
    SocketStepInv(st, s, sock, w);
    if st.ws == Some(s) && sock.ready == Open {
      if sock.proving.claim == Some(w.hmac(sock.cfg.token, sock.nonce)) {
        AcceptInv(SetSock(st, s, sock), s, w);
      } else {
        SocketStepInv(st, s, CloseSock(sock), w);
      }
    }
  }

  lemma {:induction false} ScheduleRetryInv(st: State)
    requires OneTimer(st.retryTimer, st.timers)
    ensures var next := ScheduleRetry(st);
            OneTimer(next.retryTimer, next.timers) && next.retryTimer.Some? && next.nextId >= st.nextId &&
            next.ws == st.ws && next.hostProven == st.hostProven && next.socks == st.socks
  {
  }

  /** The worker may show a reason not to try again. */
  lemma {:induction false} ShownInv(lost: State, status: Status, w: World)
    requires Safe(lost.ws, lost.hostProven, lost.socks, w) && OneTimer(lost.retryTimer, lost.timers)
    requires (forall s | s in lost.socks :: s < lost.nextId) && status in {BadToken, Standby}
    ensures Inv(lost.(status := status), w)
  {
    assert Covered(lost.(status := status));
  }

  lemma {:induction false} LostInv(lost: State, code: int, w: World)
    requires Safe(lost.ws, lost.hostProven, lost.socks, w) && OneTimer(lost.retryTimer, lost.timers)
    requires forall s | s in lost.socks :: s < lost.nextId
    ensures Inv(AfterLoss(lost, code), w)
  {
    if lost.status == BadToken {
      assert lost == lost.(status := BadToken);
      ShownInv(lost, BadToken, w);
    } else if code == 4401 {
      ShownInv(lost, BadToken, w);
    } else if code == 4409 {
      ShownInv(lost, Standby, w);
    } else {
      var down := lost.(status := Disconnected);
      assert down.retryTimer == lost.retryTimer && down.timers == lost.timers;
      ScheduleRetryInv(down);
      assert Covered(ScheduleRetry(down));
    }
  }

  lemma {:induction false} OnCloseInv(st: State, s: SockId, code: int, w: World)
    requires Inv(st, w) && s in st.socks
    ensures Inv(OnClose(st, s, code), w)
  {
    var sock := st.socks[s].(ready := Closed, deadline := false);
    assert ProvedRight(st.socks[s], w);
    if st.ws == Some(s) {
      SafeWithout(st.ws, st.hostProven, st.socks, w);
      SafeSet(None, false, st.socks, s, sock, w);
      LostInv(SetSock(st, s, sock).(ws := None, hostProven := false, keepalive := false), code, w);
    } else {
      SafeSet(st.ws, st.hostProven, st.socks, s, sock, w);
    }
  }

  lemma {:induction false} ResetRetriesInv(st: State)
    requires OneTimer(st.retryTimer, st.timers)
    ensures var next := ResetRetries(st);
            OneTimer(next.retryTimer, next.timers) && next.nextId == st.nextId &&
            next.ws == st.ws && next.hostProven == st.hostProven && next.socks == st.socks
  {
  }

  lemma {:induction false} IdleInv(st: State, refresh: bool, w: World)
    requires Inv(st, w)
    ensures var idle := Idle(st, refresh);
            Safe(idle.ws, idle.hostProven, idle.socks, w) && OneTimer(idle.retryTimer, idle.timers) &&
            forall s | s in idle.socks :: s < idle.nextId
  {
    var let := LetGo(st);
    SafeWithout(st.ws, st.hostProven, st.socks, w);
    if st.ws.Some? {
      assert ProvedRight(st.socks[st.ws.value], w);
      SafeSet(None, false, st.socks, st.ws.value, CloseSock(st.socks[st.ws.value]), w);
    }
    assert Safe(let.ws, let.hostProven, let.socks, w);
    ResetRetriesInv(let);
  }

  lemma {:induction false} ReconnectInv(st: State, refresh: bool, w: World)
    requires Inv(st, w)
    ensures Inv(Reconnect(st, refresh), w)
  {
    IdleInv(st, refresh, w);
    ConnectInv(Idle(st, refresh), w);
  }

  lemma {:induction false} DispatchInv(st: State, s: SockId, msg: Message, w: World)
    requires Inv(st, w)
    ensures Inv(Dispatch(st, s, msg).st, w)
  {
    var next := Dispatch(st, s, msg).st;
    assert next.ws == st.ws && next.hostProven == st.hostProven && next.socks == st.socks && next.nextId >= st.nextId;
    assert next.retryTimer == st.retryTimer && next.timers == st.timers;
  }

  lemma {:induction false} OnMessageInv(st: State, s: SockId, msg: Message, w: World)
    requires Inv(st, w) && s in st.socks
    ensures Inv(OnMessage(st, s, msg).st, w)
  {
    var sock := st.socks[s];
    assert ProvedRight(sock, w);
    if !sock.proven && msg.Welcome? && sock.proving.NotAsked? {
      SocketStepInv(st, s, sock.(proving := Checking(msg.proof)), w);
    }
  }

  lemma {:induction false} FrameInv(st: State, frame: nat, f: Frame, config: Option<Config>, w: World)
    requires Inv(st, w)
    ensures Inv(st.(bridgeConfig := config, frames := st.frames[frame := f]), w)
  {
    var next := st.(bridgeConfig := config, frames := st.frames[frame := f]);
    assert next.ws == st.ws && next.hostProven == st.hostProven && next.socks == st.socks && next.nextId == st.nextId;
    assert next.retryTimer == st.retryTimer && next.timers == st.timers;
    assert frame in next.frames;
  }

  lemma {:induction false} ReadConfigInv(st: State, frame: nat, stored: Option<Config>, w: World)
    requires Inv(st, w) && frame in st.frames && st.frames[frame].Reading?
    ensures Inv(ReadConfig(st, frame, stored), w)
  {
    if st.frames[frame].version != st.configVersion {
      FrameInv(st, frame, AskConfig(st), st.bridgeConfig, w);
    } else {
      FrameInv(st, frame, Holding(stored), stored, w);
    }
  }

  lemma {:induction false} OneSocketInv(st: State, e: Event, w: World)
    requires Inv(st, w) && Enabled(st, e) && (e.Opens? || e.DeadlineFires? || e.PeerCloses?)
    ensures Inv(Step(st, e, w).st, w)
  {
    assert ProvedRight(st.socks[e.s], w);
    SocketStepInv(st, e.s, Step(st, e, w).st.socks[e.s], w);
  }

  /** Steps that only finish a task or send. */
  lemma {:induction false} TaskStepInv(st: State, e: Event, w: World)
    requires Inv(st, w) && Enabled(st, e)
    requires e.HelloReady? || e.OpFinished? || e.KeepaliveTick? || e.Emits?
    ensures Inv(Step(st, e, w).st, w)
  {
  }

  lemma {:induction false} AfterProofInv(st: State, task: nat, w: World)
    requires Inv(st, w) && task in st.tasks && st.tasks[task].AwaitingProof?
    ensures Inv(AfterProof(st, task).st, w)
  {
    var s, msg, rest := st.tasks[task].s, st.tasks[task].msg, FinishTask(st, task);
    assert rest.ws == st.ws && rest.hostProven == st.hostProven && rest.socks == st.socks && rest.nextId == st.nextId;
    assert rest.retryTimer == st.retryTimer && rest.timers == st.timers;
    assert Inv(rest, w);
    DispatchInv(rest, s, msg, w);
  }

  lemma {:induction false} RetryInv(st: State, timer: nat, w: World)
    requires Inv(st, w) && timer in st.timers
    ensures Inv(Connect(st.(retryTimer := None, timers := st.timers - {timer})), w)
  {
    ConnectInv(st.(retryTimer := None, timers := st.timers - {timer}), w);
  }

  /** Every step keeps the invariant. */
  lemma {:induction false} StepInv(st: State, e: Event, w: World)
    requires Inv(st, w) && Enabled(st, e)
    ensures Inv(Step(st, e, w).st, w)
  {
    match e {
      case ConnectCall => ConnectInv(st, w);
      case KeeperBeat => ConnectInv(st, w);
      case Wake => ReconnectInv(st, false, w);
      case ReconnectCall => ReconnectInv(st, true, w);
      case ConfigRead(frame, stored) => ReadConfigInv(st, frame, stored, w);
      case ConfigHeld(frame, nonce) => UseConfigInv(st, frame, nonce, w);
      case Arrives(s, msg) => OnMessageInv(st, s, msg, w);
      case ProofChecked(s) => CheckProofInv(st, s, w);
      case Closes(s, code) => OnCloseInv(st, s, code, w);
      case RetryFires(timer) => RetryInv(st, timer, w);
      case ProofAwaited(task) => AfterProofInv(st, task, w);
      case Opens(s) => OneSocketInv(st, e, w);
      case DeadlineFires(s) => OneSocketInv(st, e, w);
      case PeerCloses(s) => OneSocketInv(st, e, w);
      case _ => TaskStepInv(st, e, w);
    }
  }
}
