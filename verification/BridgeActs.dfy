/** What the bridge worker says and does in a run, message by message. */
module BridgeActs {
  import opened Wrappers
  import opened Bridge
  import opened BridgeRuns
  import opened BridgeHistory
  import opened BridgeSockets

  /** Everything the steps of a run sent or began. */
  function Acts(st: State, events: seq<Event>, w: World): seq<Act>
    requires Possible(st, events, w)
    decreases |events|
  {
    if events == [] then [] else Step(st, events[0], w).acts + Acts(Step(st, events[0], w).st, events[1..], w)
  }

  /** The current socket proved itself and is open. */
  ghost predicate Serving(st: State, s: SockId, w: World) {
    ProvedAndCurrent(st, s, w) && st.socks[s].ready == Open
  }

  // Tasks

  /** A handler under way waits for an op that was begun, or for the proof of a socket that was welcomed. */
  ghost predicate TaskFits(t: Task, acts: seq<Act>, socks: map<SockId, Sock>) {
    match t
    case AwaitingOp(s, id) => RunOp(s, id) in acts
    case AwaitingProof(s, msg) => !msg.Welcome? && !msg.Garbage? && s in socks && !socks[s].proving.NotAsked?
  }

  ghost predicate TasksFit(tasks: map<nat, Task>, nextId: nat, acts: seq<Act>, socks: map<SockId, Sock>) {
    forall t | t in tasks :: t < nextId && TaskFits(tasks[t], acts, socks)
  }

  /** Sockets stay, and none goes back to connecting or to a proof not asked for. */
  ghost predicate SocksGo(a: map<SockId, Sock>, b: map<SockId, Sock>) {
    forall s | s in a ::
      s in b && (a[s].proving.NotAsked? || !b[s].proving.NotAsked?) && (a[s].ready == Connecting || b[s].ready != Connecting)
  }

  lemma {:induction false} TasksStay(tasks: map<nat, Task>, less: map<nat, Task>, nextId: nat, nextId': nat, acts: seq<Act>,
                                     more: seq<Act>, socks: map<SockId, Sock>, socks': map<SockId, Sock>)
    requires TasksFit(tasks, nextId, acts, socks) && SocksGo(socks, socks') && nextId <= nextId'
    requires forall t | t in less :: t in tasks && less[t] == tasks[t]
    ensures TasksFit(less, nextId', acts + more, socks')
  {
    forall t | t in less
      ensures t < nextId' && TaskFits(less[t], acts + more, socks')
    {
      assert TaskFits(tasks[t], acts, socks);
    }
  }

  lemma {:induction false} TaskAdded(tasks: map<nat, Task>, nextId: nat, t: Task, acts: seq<Act>, socks: map<SockId, Sock>)
    requires TasksFit(tasks, nextId, acts, socks) && TaskFits(t, acts, socks)
    ensures TasksFit(tasks[nextId := t], nextId + 1, acts, socks)
  {
  }

  /** Dispatching begins an op under a task of its own, or nothing. */
  lemma {:induction false} DispatchFits(st: State, s: SockId, msg: Message, acts: seq<Act>)
    requires TasksFit(st.tasks, st.nextId, acts, st.socks)
    ensures var out := Dispatch(st, s, msg);
            TasksFit(out.st.tasks, out.st.nextId, acts + out.acts, out.st.socks)
  {
    var out := Dispatch(st, s, msg);
    TasksStay(st.tasks, st.tasks, st.nextId, st.nextId, acts, out.acts, st.socks, st.socks);
    if msg.Op? {
      assert RunOp(s, msg.id) in acts + out.acts;
      TaskAdded(st.tasks, st.nextId, AwaitingOp(s, msg.id), acts + out.acts, st.socks);
    }
  }

  lemma {:induction false} MessageTasksFit(st: State, s: SockId, msg: Message, acts: seq<Act>)
    requires TasksFit(st.tasks, st.nextId, acts, st.socks) && s in st.socks
    ensures var out := OnMessage(st, s, msg);
            TasksFit(out.st.tasks, out.st.nextId, acts + out.acts, out.st.socks)
  {
    var sock := st.socks[s];
    assert acts + [] == acts;
    if st.ws == Some(s) && !msg.Garbage? {
      if sock.proven {
        DispatchFits(st, s, msg, acts);
      } else if msg.Welcome? {
        var asked := OnMessage(st, s, msg).st.socks;
        TasksStay(st.tasks, st.tasks, st.nextId, st.nextId, acts, [], st.socks, asked);
      } else if !sock.proving.NotAsked? {
        TaskAdded(st.tasks, st.nextId, AwaitingProof(s, msg), acts, st.socks);
      }
    }
  }

  lemma {:induction false} AwaitedFits(st: State, task: nat, acts: seq<Act>)
    requires TasksFit(st.tasks, st.nextId, acts, st.socks) && task in st.tasks && st.tasks[task].AwaitingProof?
    ensures var out := AfterProof(st, task);
            TasksFit(out.st.tasks, out.st.nextId, acts + out.acts, out.st.socks)
  {
    var s, msg, rest := st.tasks[task].s, st.tasks[task].msg, FinishTask(st, task);
    TasksStay(st.tasks, rest.tasks, st.nextId, st.nextId, acts, [], st.socks, st.socks);
    assert acts + [] == acts;
    DispatchFits(rest, s, msg, acts);
  }

  /** What a step may do besides the worker's own fields. */
  datatype Desk = Desk(tasks: map<nat, Task>, helloDue: set<SockId>, nextId: nat, socks: map<SockId, Sock>)

  function DeskOf(st: State): Desk { Desk(st.tasks, st.helloDue, st.nextId, st.socks) }

  /** From one desk to the next: no task is touched, no hello is due or sent. */
  ghost predicate Clear(a: Desk, b: Desk) {
    b.tasks == a.tasks && b.helloDue == a.helloDue && b.nextId >= a.nextId && SocksGo(a.socks, b.socks)
  }

  /** Steps that begin and end no handler of a message, and owe or send no hello. */
  predicate OffDesk(e: Event) { !e.Arrives? && !e.ProofAwaited? && !e.OpFinished? && !e.Opens? && !e.HelloReady? }

  lemma {:induction false} OffDeskClears(st: State, e: Event, w: World)
    requires Inv(st, w) && Enabled(st, e) && OffDesk(e)
    ensures Clear(DeskOf(st), DeskOf(Step(st, e, w).st))
  {
    match e {
      case ConfigHeld(frame, nonce) => DialClears(st, frame, nonce, w);
      case ProofChecked(s) => CheckClears(st, s, w);
      case Closes(s, code) => CloseClears(st, s, code);
      case Wake => RestartClears(st, false);
      case ReconnectCall => RestartClears(st, true);
      case ConnectCall => ConnectClears(st);
      case KeeperBeat => ConnectClears(st);
      case RetryFires(timer) =>
        var fired := st.(retryTimer := None, timers := st.timers - {timer});
        assert DeskOf(fired) == DeskOf(st);
        ConnectClears(fired);
      case ConfigRead(frame, stored) => ReadClears(st, frame, stored);
      case _ =>
    }
  }

  lemma {:induction false} ConnectClears(st: State)
    ensures Clear(DeskOf(st), DeskOf(Connect(st)))
  {
  }

  lemma {:induction false} ReadClears(st: State, frame: nat, stored: Option<Config>)
    requires frame in st.frames && st.frames[frame].Reading?
    ensures DeskOf(ReadConfig(st, frame, stored)) == DeskOf(st)
  {
    if st.frames[frame].version != st.configVersion {
      var again := st.(frames := st.frames[frame := AskConfig(st)]);
      assert ReadConfig(st, frame, stored) == again;
    } else {
      var read := st.(bridgeConfig := stored, frames := st.frames[frame := Holding(stored)]);
      assert ReadConfig(st, frame, stored) == read;
    }
  }

  lemma {:induction false} DialClears(st: State, frame: nat, nonce: Units, w: World)
    requires Inv(st, w) && frame in st.frames && st.frames[frame].Holding?
    ensures Clear(DeskOf(st), DeskOf(UseConfig(st, frame, nonce, w)))
  {
    var rest, cfg := Drop(st, frame), st.frames[frame].cfg;
    assert DeskOf(rest) == DeskOf(st);
    if !Usable(cfg) {
      StatusClears(rest, NoConfig);
    } else {
      OpenClears(rest, cfg.value, nonce);
      assert forall s | s in st.socks :: s < st.nextId;
    }
  }

  lemma {:induction false} OpenClears(st: State, cfg: Config, nonce: Units)
    requires st.nextId !in st.socks
    ensures Clear(DeskOf(st), DeskOf(OpenSocket(st, cfg, nonce)))
  {
    var sock := Sock(Connecting, cfg, nonce, false, NotAsked, true);
    assert DeskOf(OpenSocket(st, cfg, nonce)) == Desk(st.tasks, st.helloDue, st.nextId + 1, st.socks[st.nextId := sock]);
  }

  lemma {:induction false} ResetClears(st: State)
    ensures DeskOf(ResetRetries(st)) == DeskOf(st)
  {
  }

  lemma {:induction false} CheckClears(st: State, s: SockId, w: World)
    requires s in st.socks && st.socks[s].proving.Checking?
    ensures Clear(DeskOf(st), DeskOf(CheckProof(st, s, w)))
  {
    var sock := st.socks[s].(proving := Settled(st.socks[s].proving.claim));
    var settled := SetSock(st, s, sock);
    assert DeskOf(settled) == DeskOf(st).(socks := st.socks[s := sock]);
    if st.ws == Some(s) && sock.ready == Open {
      if sock.proving.claim == Some(w.hmac(sock.cfg.token, sock.nonce)) {
        AcceptClears(settled, s);
      } else {
        var closed := SetSock(settled, s, CloseSock(sock));
        assert DeskOf(closed) == DeskOf(st).(socks := settled.socks[s := CloseSock(sock)]);
        StatusClears(closed, BadToken);
      }
    }
  }

  lemma {:induction false} AcceptClears(st: State, s: SockId)
    requires s in st.socks
    ensures DeskOf(Accept(st, s)) == DeskOf(st).(socks := st.socks[s := st.socks[s].(proven := true, deadline := false)])
  {
    var accepted := SetSock(st, s, st.socks[s].(proven := true, deadline := false));
    assert DeskOf(accepted) == DeskOf(st).(socks := st.socks[s := st.socks[s].(proven := true, deadline := false)]);
    ResetClears(accepted);
    assert DeskOf(Trusting(ResetRetries(accepted))) == DeskOf(ResetRetries(accepted));
  }

  lemma {:induction false} CloseClears(st: State, s: SockId, code: int)
    requires s in st.socks
    ensures Clear(DeskOf(st), DeskOf(OnClose(st, s, code)))
  {
    var sock := st.socks[s].(ready := Closed, deadline := false);
    var gone := SetSock(st, s, sock);
    assert DeskOf(gone) == DeskOf(st).(socks := st.socks[s := sock]);
    var lost := gone.(ws := None, hostProven := false, keepalive := false);
    assert DeskOf(lost) == DeskOf(gone);
    LossClears(lost, code);
  }

  lemma {:induction false} LossClears(lost: State, code: int)
    ensures var after := DeskOf(AfterLoss(lost, code)); after.nextId >= lost.nextId && after == DeskOf(lost).(nextId := after.nextId)
  {
    if lost.status != BadToken {
      if code == 4401 {
        StatusClears(lost, BadToken);
      } else if code == 4409 {
        StatusClears(lost, Standby);
      } else {
        StatusClears(lost, Disconnected);
        ScheduleClears(lost.(status := Disconnected));
      }
    }
  }

  lemma {:induction false} StatusClears(st: State, status: Status)
    ensures DeskOf(st.(status := status)) == DeskOf(st)
  {
  }

  lemma {:induction false} ScheduleClears(st: State)
    ensures var after := DeskOf(ScheduleRetry(st)); after.nextId >= st.nextId && after == DeskOf(st).(nextId := after.nextId)
  {
  }

  lemma {:induction false} RestartClears(st: State, refresh: bool)
    ensures Clear(DeskOf(st), DeskOf(Reconnect(st, refresh)))
  {
    LetGoClears(st);
    ResetClears(LetGo(st));
    IdleClears(st, refresh);
    ConnectClears(Idle(st, refresh));
    ClearOn(DeskOf(st), DeskOf(LetGo(st)), DeskOf(Reconnect(st, refresh)));
  }

  lemma {:induction false} ClearOn(a: Desk, b: Desk, c: Desk)
    requires Clear(a, b) && Clear(b, c)
    ensures Clear(a, c)
  {
  }

  lemma {:induction false} LetGoClears(st: State)
    ensures Clear(DeskOf(st), DeskOf(LetGo(st)))
  {
  }

  lemma {:induction false} IdleClears(st: State, refresh: bool)
    requires DeskOf(ResetRetries(LetGo(st))) == DeskOf(LetGo(st))
    ensures DeskOf(Idle(st, refresh)) == DeskOf(LetGo(st))
  {
    var down := ResetRetries(LetGo(st)).(status := Disconnected);
    assert DeskOf(down) == DeskOf(LetGo(st));
  }

  lemma {:induction false} StepTasksFit(st: State, e: Event, w: World, acts: seq<Act>)
    requires Inv(st, w) && Enabled(st, e) && TasksFit(st.tasks, st.nextId, acts, st.socks)
    ensures var out := Step(st, e, w);
            TasksFit(out.st.tasks, out.st.nextId, acts + out.acts, out.st.socks) && out.st.nextId >= st.nextId
  {
    match e {
      case Arrives(s, msg) => MessageTasksFit(st, s, msg, acts);
      case ProofAwaited(task) => AwaitedFits(st, task, acts);
      case OpFinished(task) =>
        var out := Step(st, e, w);
        TasksStay(st.tasks, out.st.tasks, st.nextId, out.st.nextId, acts, out.acts, st.socks, out.st.socks);
      case _ => OthersKeepTasks(st, e, w, acts);
    }
  }

  lemma {:induction false} OthersKeepTasks(st: State, e: Event, w: World, acts: seq<Act>)
    requires Inv(st, w) && Enabled(st, e) && TasksFit(st.tasks, st.nextId, acts, st.socks)
    requires OffDesk(e) || e.Opens? || e.HelloReady?
    ensures var out := Step(st, e, w);
            TasksFit(out.st.tasks, out.st.nextId, acts + out.acts, out.st.socks) && out.st.nextId >= st.nextId
  {
    var out := Step(st, e, w);
    if OffDesk(e) {
      OffDeskClears(st, e, w);
    }
    TasksStay(st.tasks, out.st.tasks, st.nextId, out.st.nextId, acts, out.acts, st.socks, out.st.socks);
  }

  lemma {:induction false} RunTasksFit(st: State, events: seq<Event>, w: World, acts: seq<Act>)
    requires Inv(st, w) && Possible(st, events, w) && TasksFit(st.tasks, st.nextId, acts, st.socks)
    ensures var end := Run(st, events, w); TasksFit(end.tasks, end.nextId, acts + Acts(st, events, w), end.socks)
    decreases |events|
  {
    if events == [] {
      assert acts + [] == acts;
    } else {
      var out := Step(st, events[0], w);
      StepInv(st, events[0], w);
      StepTasksFit(st, events[0], w, acts);
      RunTasksFit(out.st, events[1..], w, acts + out.acts);
      Regroup(acts, out.acts, Acts(out.st, events[1..], w));
    }
  }

  lemma {:induction false} DispatchKeepsTask(st: State, s: SockId, msg: Message, t: nat)
    requires t < st.nextId
    ensures var next := Dispatch(st, s, msg).st;
            (t in next.tasks <==> t in st.tasks) && (t in st.tasks ==> next.tasks[t] == st.tasks[t]) && t < next.nextId
  {
  }

  lemma {:induction false} MessageKeepsTask(st: State, s: SockId, msg: Message, t: nat)
    requires t < st.nextId && s in st.socks
    ensures var next := OnMessage(st, s, msg).st;
            (t in next.tasks <==> t in st.tasks) && (t in st.tasks ==> next.tasks[t] == st.tasks[t]) && t < next.nextId
  {
    DispatchKeepsTask(st, s, msg, t);
  }

  /** A handler that ended stays ended, and one under way waits unchanged until it goes on. */
  lemma {:induction false} StepKeepsTask(st: State, e: Event, w: World, t: nat)
    requires Inv(st, w) && Enabled(st, e) && t < st.nextId
    requires e.ProofAwaited? || e.OpFinished? ==> e.task != t
    ensures var next := Step(st, e, w).st;
            (t in next.tasks <==> t in st.tasks) && (t in st.tasks ==> next.tasks[t] == st.tasks[t]) && t < next.nextId
  {
    if OffDesk(e) {
      OffDeskClears(st, e, w);
    } else {
      match e {
        case Arrives(s, msg) => MessageKeepsTask(st, s, msg, t);
        case ProofAwaited(task) => DispatchKeepsTask(FinishTask(st, task), st.tasks[task].s, st.tasks[task].msg, t);
        case _ =>
      }
    }
  }

  predicate GoesOn(e: Event, t: nat) { (e.ProofAwaited? || e.OpFinished?) && e.task == t }

  lemma {:induction false} RunKeepsTask(st: State, events: seq<Event>, w: World, t: nat)
    requires Inv(st, w) && Possible(st, events, w) && t < st.nextId && forall e | e in events :: !GoesOn(e, t)
    ensures var end := Run(st, events, w);
            (t in end.tasks <==> t in st.tasks) && (t in st.tasks ==> end.tasks[t] == st.tasks[t]) && t < end.nextId
    decreases |events|
  {
    if events != [] {
      assert events[0] in events;
      StepInv(st, events[0], w);
      StepKeepsTask(st, events[0], w, t);
      RunKeepsTask(Step(st, events[0], w).st, events[1..], w, t);
    }
  }

  /** A task once gone is never taken up again. */
  lemma {:induction false} GoneTasksStayGone(st: State, events: seq<Event>, w: World, t: nat)
    requires Inv(st, w) && Possible(st, events, w) && t < st.nextId && t !in st.tasks
    ensures t !in Run(st, events, w).tasks && forall e | e in events :: !GoesOn(e, t)
    decreases |events|
  {
    if events != [] {
      assert !GoesOn(events[0], t);
      StepInv(st, events[0], w);
      StepKeepsTask(st, events[0], w, t);
      GoneTasksStayGone(Step(st, events[0], w).st, events[1..], w, t);
    }
  }

  // What is said and done

  /** What a trusted host is answered at once, and what is begun for it. */
  function Served(s: SockId, msg: Message): seq<Act> {
    match msg
    case Ping => [Send(s, PongOut)]
    case Op(id) => [RunOp(s, id)]
    case _ => []
  }

  /**
   * In every run a message on the current open socket is served at once if the
   * socket proved itself; before any welcome it is dropped without a trace; and
   * between the welcome and the proof it waits, unless it is no message at all.
   */
  lemma {:induction false} MessagesAreServedExactly(events: seq<Event>, s: SockId, msg: Message, w: World)
    requires Possible(START, events, w) && Enabled(Run(START, events, w), Arrives(s, msg)) && Run(START, events, w).ws == Some(s)
    ensures var st, marks := Run(START, events, w), Marks(START, events, w); var out := Step(st, Arrives(s, msg), w);
            if Proved(s) in marks then out.acts == Served(s, msg)
            else
              out.acts == [] &&
              (!msg.Welcome? && FirstWelcome(marks, s) == None ==> out.st == st) &&
              (!msg.Welcome? && !msg.Garbage? && FirstWelcome(marks, s).Some? ==>
                 out.st == st.(tasks := st.tasks[st.nextId := AwaitingProof(s, msg)], nextId := st.nextId + 1))
  {
    var st, marks := Run(START, events, w), Marks(START, events, w);
    StartInv(w);
    RunInv(START, events, w);
    StartSocksFit(events, w);
    assert SockFits(s, st.socks[s], marks);
    if st.socks[s].proven {
      ProvedServes(st, s, msg, w);
    } else {
      UnprovedWaits(st, s, msg);
    }
  }

  lemma {:induction false} ProvedServes(st: State, s: SockId, msg: Message, w: World)
    requires Inv(st, w) && s in st.socks && st.ws == Some(s) && st.socks[s].proven && st.socks[s].ready == Open
    ensures OnMessage(st, s, msg).acts == Served(s, msg)
  {
    if !msg.Garbage? {
      assert OnMessage(st, s, msg) == Dispatch(st, s, msg);
    }
  }

  lemma {:induction false} UnprovedWaits(st: State, s: SockId, msg: Message)
    requires s in st.socks && st.ws == Some(s) && !st.socks[s].proven
    ensures var out := OnMessage(st, s, msg);
            out.acts == [] &&
            (!msg.Welcome? && st.socks[s].proving.NotAsked? ==> out.st == st) &&
            (!msg.Welcome? && !msg.Garbage? && !st.socks[s].proving.NotAsked? ==>
               out.st == st.(tasks := st.tasks[st.nextId := AwaitingProof(s, msg)], nextId := st.nextId + 1))
  {
  }

  /**
   * A message that had to wait goes on after any other events, unchanged: served
   * if its socket proved itself and is still the open current one, else dropped;
   * and it goes on only once.
   */
  lemma {:induction false} WaitingMessagesAreServed(events: seq<Event>, t: nat, more: seq<Event>, after: seq<Event>, w: World)
    requires Possible(START, events, w) && t in Run(START, events, w).tasks && Run(START, events, w).tasks[t].AwaitingProof?
    requires Possible(Run(START, events, w), more, w) && forall e | e in more :: !GoesOn(e, t)
    ensures var st, mid := Run(START, events, w), Run(Run(START, events, w), more, w);
            t in mid.tasks && mid.tasks[t] == st.tasks[t] &&
            (Enabled(mid, ProofAwaited(t)) ==>
               var out := Step(mid, ProofAwaited(t), w);
               (Serving(mid, st.tasks[t].s, w) ==> out.acts == Served(st.tasks[t].s, st.tasks[t].msg)) &&
               (!ProvedAndCurrent(mid, st.tasks[t].s, w) ==> out.acts == []) &&
               (Possible(out.st, after, w) ==> forall e | e in after :: !GoesOn(e, t)))
  {
    var st, mid := Run(START, events, w), Run(Run(START, events, w), more, w);
    StartInv(w);
    RunInv(START, events, w);
    RunTasksFit(START, events, w, []);
    RunInv(st, more, w);
    RunKeepsTask(st, more, w, t);
    if Enabled(mid, ProofAwaited(t)) {
      AwaitedServes(mid, t, w);
      var out := Step(mid, ProofAwaited(t), w);
      StepInv(mid, ProofAwaited(t), w);
      if Possible(out.st, after, w) {
        GoneTasksStayGone(out.st, after, w, t);
      }
    }
  }

  lemma {:induction false} AwaitedServes(st: State, t: nat, w: World)
    requires Inv(st, w) && t < st.nextId && Enabled(st, ProofAwaited(t))
    ensures var s, msg, out := st.tasks[t].s, st.tasks[t].msg, Step(st, ProofAwaited(t), w);
            (Serving(st, s, w) ==> out.acts == Served(s, msg)) && (!ProvedAndCurrent(st, s, w) ==> out.acts == []) &&
            t !in out.st.tasks && t < out.st.nextId
  {
    var s, msg, rest := st.tasks[t].s, st.tasks[t].msg, FinishTask(st, t);
    assert rest.ws == st.ws && rest.socks == st.socks && rest.hostProven == st.hostProven && rest.nextId == st.nextId;
    assert ProvedRight(st.socks[s], w);
  }

  /**
   * In every run an op that finishes was begun for a message on its socket; its
   * reply carries that message's number and goes to that socket, if and only if
   * the socket is still current, proved and open; and no op is answered twice.
   */
  lemma {:induction false} RepliesAnswerOps(events: seq<Event>, t: nat, after: seq<Event>, w: World)
    requires Possible(START, events, w) && Enabled(Run(START, events, w), OpFinished(t))
    ensures var st := Run(START, events, w); var s, id, out := st.tasks[t].s, st.tasks[t].id, Step(st, OpFinished(t), w);
            RunOp(s, id) in Acts(START, events, w) &&
            (out.acts == if Serving(st, s, w) then [Send(s, Reply(id))] else []) &&
            (Possible(out.st, after, w) ==> forall e | e in after :: !GoesOn(e, t))
  {
    var st := Run(START, events, w);
    var out := Step(st, OpFinished(t), w);
    StartInv(w);
    RunInv(START, events, w);
    RunTasksFit(START, events, w, []);
    assert [] + Acts(START, events, w) == Acts(START, events, w);
    assert TaskFits(st.tasks[t], Acts(START, events, w), st.socks);
    OpReplies(st, t, w);
    StepInv(st, OpFinished(t), w);
    if Possible(out.st, after, w) {
      GoneTasksStayGone(out.st, after, w, t);
    }
  }

  lemma {:induction false} OpReplies(st: State, t: nat, w: World)
    requires Inv(st, w) && Enabled(st, OpFinished(t))
    ensures var s, id, out := st.tasks[t].s, st.tasks[t].id, Step(st, OpFinished(t), w);
            (out.acts == if Serving(st, s, w) then [Send(s, Reply(id))] else []) && t !in out.st.tasks &&
            out.st.nextId == st.nextId
  {
    var rest := FinishTask(st, t);
    assert rest.ws == st.ws && rest.socks == st.socks && rest.hostProven == st.hostProven;
    if st.ws.Some? {
      assert ProvedRight(st.socks[st.ws.value], w);
    }
  }

  /** In every run the keepalive pings a trusted host on its open socket, events of the browser are told to it, and nobody else hears of either. */
  lemma {:induction false} TrustedHostIsPinged(events: seq<Event>, w: World)
    requires Possible(START, events, w)
    ensures var st := Run(START, events, w); var heard := st.ws.Some? && Serving(st, st.ws.value, w);
            (Step(st, Emits, w).acts == if heard then [Send(st.ws.value, Note)] else []) &&
            (st.keepalive ==> Step(st, KeepaliveTick, w).acts == if heard then [Send(st.ws.value, PingOut)] else [])
  {
    var st := Run(START, events, w);
    StartInv(w);
    RunInv(START, events, w);
    if st.ws.Some? {
      assert ProvedRight(st.socks[st.ws.value], w);
    }
  }

  // Hello

  /** A socket is due its hello from its opening until that is sent. */
  ghost predicate HelloFits(desk: Desk, events: seq<Event>) {
    forall s: SockId :: DueFits(desk, events, s)
  }

  ghost predicate DueFits(desk: Desk, events: seq<Event>, s: SockId) {
    (s in desk.helloDue <==> Opens(s) in events && HelloReady(s) !in events) &&
    (HelloReady(s) in events ==> Opens(s) in events) &&
    (Opens(s) in events ==> s in desk.socks && desk.socks[s].ready != Connecting)
  }

  /** Opening a socket makes its hello due, sending it ends that, and nothing else does either. */
  predicate HelloMoves(a: Desk, b: Desk, e: Event) {
    b.helloDue == (if e.Opens? then a.helloDue + {e.s} else if e.HelloReady? then a.helloDue - {e.s} else a.helloDue)
  }

  lemma {:induction false} StepMovesHello(st: State, e: Event, w: World)
    requires Inv(st, w) && Enabled(st, e)
    ensures var a, b := DeskOf(st), DeskOf(Step(st, e, w).st);
            HelloMoves(a, b, e) && SocksGo(a.socks, b.socks) && (e.Opens? ==> e.s in b.socks && b.socks[e.s].ready == Open)
  {
    if OffDesk(e) {
      OffDeskClears(st, e, w);
    } else {
      match e {
        case Arrives(s, msg) => MessageMovesHello(st, s, msg);
        case ProofAwaited(task) => DispatchMovesHello(FinishTask(st, task), st.tasks[task].s, st.tasks[task].msg);
        case _ =>
      }
    }
  }

  lemma {:induction false} DispatchMovesHello(st: State, s: SockId, msg: Message)
    ensures var b := Dispatch(st, s, msg).st; b.helloDue == st.helloDue && b.socks == st.socks
  {
  }

  lemma {:induction false} MessageMovesHello(st: State, s: SockId, msg: Message)
    requires s in st.socks
    ensures var b := OnMessage(st, s, msg).st; b.helloDue == st.helloDue && SocksGo(st.socks, b.socks)
  {
    var sock := st.socks[s];
    if st.ws != Some(s) || msg.Garbage? {
      assert OnMessage(st, s, msg) == Out(st, []);
    } else if sock.proven {
      assert OnMessage(st, s, msg) == Dispatch(st, s, msg);
      DispatchMovesHello(st, s, msg);
    } else if msg.Welcome? && sock.proving.NotAsked? {
      assert OnMessage(st, s, msg).st == SetSock(st, s, sock.(proving := Checking(msg.proof)));
      AskingMovesHello(st, s, msg.proof);
    } else if msg.Welcome? || sock.proving.NotAsked? {
      assert OnMessage(st, s, msg) == Out(st, []);
    } else {
      assert OnMessage(st, s, msg).st == st.(tasks := st.tasks[st.nextId := AwaitingProof(s, msg)], nextId := st.nextId + 1);
    }
  }

  lemma {:induction false} AskingMovesHello(st: State, s: SockId, proof: Option<Units>)
    requires s in st.socks && st.socks[s].proving.NotAsked?
    ensures var b := SetSock(st, s, st.socks[s].(proving := Checking(proof))); b.helloDue == st.helloDue && SocksGo(st.socks, b.socks)
  {
  }

  lemma {:induction false} PushHelloFits(a: Desk, b: Desk, e: Event, events: seq<Event>)
    requires HelloFits(a, events) && HelloMoves(a, b, e) && SocksGo(a.socks, b.socks)
    requires e.Opens? ==> e.s in a.socks && a.socks[e.s].ready == Connecting && e.s in b.socks && b.socks[e.s].ready == Open
    requires e.HelloReady? ==> e.s in a.helloDue
    ensures HelloFits(b, events + [e])
  {
    forall s: SockId
      ensures DueFits(b, events + [e], s)
    {
      assert DueFits(a, events, s);
      assert Opens(s) in events + [e] <==> Opens(s) in events || e == Opens(s);
      assert HelloReady(s) in events + [e] <==> HelloReady(s) in events || e == HelloReady(s);
    }
  }

  lemma {:induction false} RunHelloFits(st: State, events: seq<Event>, w: World, before: seq<Event>)
    requires Inv(st, w) && Possible(st, events, w) && HelloFits(DeskOf(st), before)
    ensures HelloFits(DeskOf(Run(st, events, w)), before + events)
    decreases |events|
  {
    if events == [] {
      assert before + events == before;
    } else {
      var e, next := events[0], Step(st, events[0], w).st;
      StepInv(st, e, w);
      StepMovesHello(st, e, w);
      PushHelloFits(DeskOf(st), DeskOf(next), e, before);
      RunHelloFits(next, events[1..], w, before + [e]);
      assert before + events == before + [e] + events[1..];
    }
  }

  /**
   * In every run a socket's hello is due from its opening until it is sent, once.
   * On the current open socket it is sent there, with the nonce that the socket
   * was opened with, the one its welcome must answer.
   */
  lemma {:induction false} HelloIsSentOnce(events: seq<Event>, s: SockId, w: World)
    requires Possible(START, events, w)
    ensures var st, marks := Run(START, events, w), Marks(START, events, w);
            (s in st.helloDue <==> Opens(s) in events && HelloReady(s) !in events) &&
            (Enabled(st, HelloReady(s)) && st.ws == Some(s) && st.socks[s].ready == Open ==>
               exists cfg, nonce :: Dialled(s, cfg, nonce) in marks &&
                                    Step(st, HelloReady(s), w).acts == [Send(s, Hello(nonce))])
  {
    var st, marks := Run(START, events, w), Marks(START, events, w);
    StartInv(w);
    RunHelloFits(START, events, w, []);
    assert [] + events == events;
    assert DueFits(DeskOf(st), events, s);
    StartSocksFit(events, w);
    if Enabled(st, HelloReady(s)) && st.ws == Some(s) && st.socks[s].ready == Open {
      assert SockFits(s, st.socks[s], marks);
      assert Dialled(s, st.socks[s].cfg, st.socks[s].nonce) in marks;
    }
  }
}
