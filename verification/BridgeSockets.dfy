/** What the bridge worker knows of each socket, said of the history of a run, and what it says and does on one. */
module BridgeSockets {
  import opened Wrappers
  import opened Bridge
  import opened BridgeRuns
  import opened BridgeHistory

  /** The socket a mark is about. */
  function About(m: Mark): Option<SockId> {
    match m
    case Dialled(s, _, _) => Some(s)
    case Welcomed(s, _) => Some(s)
    case Proved(s) => Some(s)
    case Refuted(s) => Some(s)
    case Lost(s, _) => Some(s)
    case _ => None
  }

  /** What the first welcome on a socket claimed. */
  function FirstWelcome(marks: seq<Mark>, s: SockId): Option<Option<Units>> {
    if marks == [] then None
    else
      var first := FirstWelcome(Butlast(marks), s);
      if first.None? && Last(marks).Welcomed? && Last(marks).s == s then Some(Last(marks).proof) else first
  }

  /** What a socket's proof check goes by. */
  function ClaimOf(p: Proving): Option<Option<Units>> {
    match p
    case NotAsked => None
    case Checking(claim) => Some(claim)
    case Settled(claim) => Some(claim)
  }

  /** The socket is as its own marks say. */
  ghost predicate SockFits(s: SockId, sock: Sock, marks: seq<Mark>) {
    ClaimOf(sock.proving) == FirstWelcome(marks, s) &&
    (sock.proven <==> Proved(s) in marks) && (sock.proven ==> !sock.proving.NotAsked?) &&
    Dialled(s, sock.cfg, sock.nonce) in marks &&
    (forall m | m in marks && m.Dialled? && m.s == s :: m.cfg == sock.cfg && m.nonce == sock.nonce) &&
    (Refuted(s) in marks ==> sock.ready == Closing || sock.ready == Closed) &&
    (forall m | m in marks && m.Lost? && m.s == s :: sock.ready == Closed)
  }

  ghost predicate SocksFit(st: State, marks: seq<Mark>) {
    (forall m | m in marks && About(m).Some? :: About(m).value in st.socks) &&
    (forall s | s in st.socks :: SockFits(s, st.socks[s], marks))
  }

  /** A mark about another socket, or about none, says nothing of this one. */
  lemma {:induction false} OthersFit(s: SockId, sock: Sock, marks: seq<Mark>, now: seq<Mark>)
    requires SockFits(s, sock, marks) && |now| <= 1 && forall m | m in now :: About(m) != Some(s)
    ensures SockFits(s, sock, marks + now)
  {
    if now == [] {
      assert marks + now == marks;
    } else {
      assert now == [now[0]] && now[0] in now;
      assert Butlast(marks + now) == marks && Last(marks + now) == now[0];
    }
  }

  /** A socket stays as its marks say while it opens, closes, or has its check settled without a verdict. */
  lemma {:induction false} SameSockFits(s: SockId, sock: Sock, after: Sock, marks: seq<Mark>)
    requires SockFits(s, sock, marks) && after.cfg == sock.cfg && after.nonce == sock.nonce && after.proven == sock.proven
    requires ClaimOf(after.proving) == ClaimOf(sock.proving)
    requires sock.ready == Closed ==> after.ready == Closed
    requires sock.ready == Closing ==> after.ready == Closing || after.ready == Closed
    ensures SockFits(s, after, marks)
  {
  }

  /** Only one socket changes, and it fits; then all do. */
  lemma {:induction false} OneChangeFits(st: State, next: State, s: SockId, marks: seq<Mark>, now: seq<Mark>)
    requires SocksFit(st, marks) && |now| <= 1
    requires forall m | m in now :: About(m).Some? ==> About(m) == Some(s)
    requires s in next.socks && next.socks == st.socks[s := next.socks[s]] && SockFits(s, next.socks[s], marks + now)
    ensures SocksFit(next, marks + now)
  {
    forall q | q in next.socks && q != s
      ensures SockFits(q, next.socks[q], marks + now)
    {
      assert SockFits(q, st.socks[q], marks);
      OthersFit(q, st.socks[q], marks, now);
    }
    forall m | m in marks + now && About(m).Some?
      ensures About(m).value in next.socks
    {
      assert m in marks || m in now;
    }
  }

  /** No socket changes, and nothing is marked of one. */
  lemma {:induction false} NoChangeFits(st: State, next: State, marks: seq<Mark>, now: seq<Mark>)
    requires SocksFit(st, marks) && next.socks == st.socks && |now| <= 1 && forall m | m in now :: About(m).None?
    ensures SocksFit(next, marks + now)
  {
    forall q | q in next.socks
      ensures SockFits(q, next.socks[q], marks + now)
    {
      assert SockFits(q, st.socks[q], marks);
      OthersFit(q, st.socks[q], marks, now);
    }
    forall m | m in marks + now && About(m).Some?
      ensures About(m).value in next.socks
    {
      assert m in marks || m in now;
    }
  }

  lemma {:induction false} NewSockFits(st: State, next: State, cfg: Config, nonce: Units, marks: seq<Mark>)
    requires SocksFit(st, marks) && (forall s | s in st.socks :: s < st.nextId)
    requires next.socks == st.socks[st.nextId := Sock(Connecting, cfg, nonce, false, NotAsked, true)]
    ensures SocksFit(next, marks + [Dialled(st.nextId, cfg, nonce)])
  {
    var s, m := st.nextId, Dialled(st.nextId, cfg, nonce);
    assert forall q | q in marks && About(q).Some? :: About(q).value != s;
    Unheard(marks, s);
    assert Butlast(marks + [m]) == marks && Last(marks + [m]) == m;
    assert m in marks + [m];
    OneChangeFits(st, next, s, marks, [m]);
  }

  lemma {:induction false} Unheard(marks: seq<Mark>, s: SockId)
    requires forall m | m in marks :: About(m) != Some(s)
    ensures FirstWelcome(marks, s) == None
  {
    if marks != [] {
      assert Last(marks) in marks;
      Unheard(Butlast(marks), s);
    }
  }

  lemma {:induction false} WelcomeFits(s: SockId, sock: Sock, claim: Option<Units>, marks: seq<Mark>)
    requires SockFits(s, sock, marks)
    ensures SockFits(s, if sock.proving.NotAsked? then sock.(proving := Checking(claim)) else sock, marks + [Welcomed(s, claim)])
  {
    var m := Welcomed(s, claim);
    assert Butlast(marks + [m]) == marks && Last(marks + [m]) == m;
  }

  lemma {:induction false} VerdictFits(s: SockId, sock: Sock, m: Mark, marks: seq<Mark>)
    requires SockFits(s, sock, marks) && sock.proving.Settled? && !sock.proven && sock.ready == Open
    requires m == Proved(s) || m == Refuted(s)
    ensures SockFits(s, if m.Proved? then sock.(proven := true, deadline := false) else CloseSock(sock), marks + [m])
  {
    assert Butlast(marks + [m]) == marks && Last(marks + [m]) == m;
    assert m in marks + [m];
  }

  lemma {:induction false} LostFits(s: SockId, sock: Sock, code: int, marks: seq<Mark>)
    requires SockFits(s, sock, marks)
    ensures SockFits(s, sock.(ready := Closed, deadline := false), marks + [Lost(s, code)])
  {
    var m := Lost(s, code);
    assert Butlast(marks + [m]) == marks && Last(marks + [m]) == m;
  }

  lemma {:induction false} CheckFits(st: State, s: SockId, w: World, marks: seq<Mark>)
    requires Inv(st, w) && SocksFit(st, marks) && s in st.socks && st.socks[s].proving.Checking?
    ensures SocksFit(CheckProof(st, s, w), marks + MarkOf(st, ProofChecked(s), w))
  {
    var sock, now := st.socks[s].(proving := Settled(st.socks[s].proving.claim)), MarkOf(st, ProofChecked(s), w);
    var next := CheckProof(st, s, w);
    assert ProvedRight(st.socks[s], w);
    SameSockFits(s, st.socks[s], sock, marks);
    if now == [] {
      assert next.socks == st.socks[s := sock] && marks + now == marks;
    } else {
      VerdictFits(s, sock, now[0], marks);
      assert now == [now[0]];
      CheckChanges(st, s, w);
    }
    OneChangeFits(st, next, s, marks, now);
  }

  lemma {:induction false} CheckChanges(st: State, s: SockId, w: World)
    requires s in st.socks && st.socks[s].proving.Checking? && MarkOf(st, ProofChecked(s), w) != []
    ensures var sock := st.socks[s].(proving := Settled(st.socks[s].proving.claim));
            var judged := if MarkOf(st, ProofChecked(s), w) == [Proved(s)] then sock.(proven := true, deadline := false)
                          else CloseSock(sock);
            CheckProof(st, s, w).socks == st.socks[s := judged]
  {
  }

  lemma {:induction false} CloseFits(st: State, s: SockId, code: int, w: World, marks: seq<Mark>)
    requires SocksFit(st, marks) && Enabled(st, Closes(s, code))
    ensures SocksFit(OnClose(st, s, code), marks + MarkOf(st, Closes(s, code), w))
  {
    var sock, now := st.socks[s].(ready := Closed, deadline := false), MarkOf(st, Closes(s, code), w);
    CloseChanges(st, s, code);
    assert SockFits(s, st.socks[s], marks);
    if st.ws == Some(s) {
      LostFits(s, st.socks[s], code, marks);
    } else {
      SameSockFits(s, st.socks[s], sock, marks);
      assert marks + now == marks;
    }
    OneChangeFits(st, OnClose(st, s, code), s, marks, now);
  }

  lemma {:induction false} CloseChanges(st: State, s: SockId, code: int)
    requires s in st.socks
    ensures OnClose(st, s, code).socks == st.socks[s := st.socks[s].(ready := Closed, deadline := false)]
  {
    var gone := SetSock(st, s, st.socks[s].(ready := Closed, deadline := false));
    LossLeavesSocks(gone.(ws := None, hostProven := false, keepalive := false), code);
  }

  lemma {:induction false} LossLeavesSocks(lost: State, code: int)
    ensures AfterLoss(lost, code).socks == lost.socks
  {
    var down := lost.(status := Disconnected);
    assert down.socks == lost.socks;
    ScheduleLeavesSocks(down);
  }

  lemma {:induction false} ScheduleLeavesSocks(st: State)
    ensures ScheduleRetry(st).socks == st.socks
  {
  }

  lemma {:induction false} MessageFits(st: State, s: SockId, msg: Message, w: World, marks: seq<Mark>)
    requires SocksFit(st, marks) && s in st.socks && st.socks[s].ready == Open
    ensures SocksFit(OnMessage(st, s, msg).st, marks + MarkOf(st, Arrives(s, msg), w))
  {
    if st.ws == Some(s) && msg.Welcome? {
      WelcomedFits(st, s, msg.proof, marks);
      assert msg == Welcome(msg.proof) && MarkOf(st, Arrives(s, msg), w) == [Welcomed(s, msg.proof)];
    } else {
      OtherMessageFits(st, s, msg, marks);
      assert MarkOf(st, Arrives(s, msg), w) == [] && marks + [] == marks;
    }
  }

  lemma {:induction false} OtherMessageFits(st: State, s: SockId, msg: Message, marks: seq<Mark>)
    requires SocksFit(st, marks) && s in st.socks && (st.ws != Some(s) || !msg.Welcome?)
    ensures SocksFit(OnMessage(st, s, msg).st, marks)
  {
    MessageLeavesSocks(st, s, msg);
  }

  lemma {:induction false} WelcomedFits(st: State, s: SockId, proof: Option<Units>, marks: seq<Mark>)
    requires SocksFit(st, marks) && s in st.socks && st.ws == Some(s)
    ensures SocksFit(OnMessage(st, s, Welcome(proof)).st, marks + [Welcomed(s, proof)])
  {
    assert SockFits(s, st.socks[s], marks);
    WelcomeFits(s, st.socks[s], proof, marks);
    WelcomeChanges(st, s, proof);
    OneChangeFits(st, OnMessage(st, s, Welcome(proof)).st, s, marks, [Welcomed(s, proof)]);
  }

  lemma {:induction false} WelcomeChanges(st: State, s: SockId, proof: Option<Units>)
    requires s in st.socks && st.ws == Some(s) && (st.socks[s].proven ==> !st.socks[s].proving.NotAsked?)
    ensures var sock := st.socks[s];
            OnMessage(st, s, Welcome(proof)).st.socks ==
            st.socks[s := if sock.proving.NotAsked? then sock.(proving := Checking(proof)) else sock]
  {
  }

  lemma {:induction false} MessageLeavesSocks(st: State, s: SockId, msg: Message)
    requires s in st.socks && (st.ws != Some(s) || !msg.Welcome?)
    ensures OnMessage(st, s, msg).st.socks == st.socks
  {
    if st.ws == Some(s) && !msg.Garbage? && st.socks[s].proven {
      assert OnMessage(st, s, msg) == Dispatch(st, s, msg);
    }
  }

  lemma {:induction false} LetGoFits(s: SockId, sock: Sock, marks: seq<Mark>)
    requires SockFits(s, sock, marks)
    ensures SockFits(s, CloseSock(sock), marks + [Restarted])
  {
    SameSockFits(s, sock, CloseSock(sock), marks);
    OthersFit(s, CloseSock(sock), marks, [Restarted]);
  }

  lemma {:induction false} RestartFits(st: State, refresh: bool, w: World, marks: seq<Mark>)
    requires Inv(st, w) && SocksFit(st, marks)
    ensures SocksFit(Reconnect(st, refresh), marks + [Restarted])
  {
    var next := Reconnect(st, refresh);
    RestartChanges(st, refresh);
    if st.ws.Some? && st.ws.value in st.socks {
      var s := st.ws.value;
      assert SockFits(s, st.socks[s], marks);
      LetGoFits(s, st.socks[s], marks);
      OneChangeFits(st, next, s, marks, [Restarted]);
    } else {
      NoChangeFits(st, next, marks, [Restarted]);
    }
  }

  lemma {:induction false} RestartChanges(st: State, refresh: bool)
    ensures Reconnect(st, refresh).socks ==
            if st.ws.Some? && st.ws.value in st.socks then st.socks[st.ws.value := CloseSock(st.socks[st.ws.value])]
            else st.socks
  {
    var reset := ResetRetries(LetGo(st));
    assert reset.socks == LetGo(st).socks;
    assert Idle(st, refresh).socks == reset.socks;
  }

  lemma {:induction false} DialFits(st: State, frame: nat, nonce: Units, w: World, marks: seq<Mark>)
    requires Inv(st, w) && SocksFit(st, marks) && frame in st.frames && st.frames[frame].Holding?
    ensures SocksFit(UseConfig(st, frame, nonce, w), marks + MarkOf(st, ConfigHeld(frame, nonce), w))
  {
    var rest, cfg, next := Drop(st, frame), st.frames[frame].cfg, UseConfig(st, frame, nonce, w);
    var now := MarkOf(st, ConfigHeld(frame, nonce), w);
    assert rest.socks == st.socks && rest.nextId == st.nextId && Live(rest) == Live(st);
    if now != [] && now[0].Dialled? {
      assert next == OpenSocket(rest, cfg.value, nonce);
      NewSockFits(st, next, cfg.value, nonce, marks);
    } else {
      NoChangeFits(st, next, marks, now);
    }
  }

  lemma {:induction false} OneSockFits(st: State, e: Event, w: World, marks: seq<Mark>)
    requires SocksFit(st, marks) && Enabled(st, e) && (e.Opens? || e.DeadlineFires? || e.PeerCloses?)
    ensures SocksFit(Step(st, e, w).st, marks + MarkOf(st, e, w))
  {
    var next := Step(st, e, w).st;
    assert SockFits(e.s, st.socks[e.s], marks);
    assert next.socks == st.socks[e.s := next.socks[e.s]];
    SameSockFits(e.s, st.socks[e.s], next.socks[e.s], marks);
    assert marks + [] == marks;
    OneChangeFits(st, next, e.s, marks, []);
  }

  /** Steps that touch no socket. */
  predicate OffSockets(e: Event) {
    e.ConnectCall? || e.KeeperBeat? || e.ConfigRead? || e.HelloReady? || e.ProofAwaited? || e.OpFinished? ||
    e.RetryFires? || e.KeepaliveTick? || e.Emits?
  }

  lemma {:induction false} OffSocketsFits(st: State, e: Event, w: World, marks: seq<Mark>)
    requires SocksFit(st, marks) && Enabled(st, e) && OffSockets(e)
    ensures SocksFit(Step(st, e, w).st, marks + MarkOf(st, e, w))
  {
    OffSocketsSame(st, e, w);
    NoChangeFits(st, Step(st, e, w).st, marks, MarkOf(st, e, w));
  }

  lemma {:induction false} OffSocketsSame(st: State, e: Event, w: World)
    requires Enabled(st, e) && OffSockets(e)
    ensures Step(st, e, w).st.socks == st.socks
  {
    if e.ProofAwaited? {
      var t := st.tasks[e.task];
      assert FinishTask(st, e.task).socks == st.socks;
      assert Dispatch(FinishTask(st, e.task), t.s, t.msg).st.socks == st.socks;
    }
  }

  lemma {:induction false} StepSocksFit(st: State, e: Event, w: World, marks: seq<Mark>)
    requires Inv(st, w) && SocksFit(st, marks) && Enabled(st, e)
    ensures SocksFit(Step(st, e, w).st, marks + MarkOf(st, e, w))
  {
    if OffSockets(e) {
      OffSocketsFits(st, e, w, marks);
    } else {
      match e {
        case ConfigHeld(frame, nonce) => DialFits(st, frame, nonce, w, marks);
        case Arrives(s, msg) => MessageFits(st, s, msg, w, marks);
        case ProofChecked(s) => CheckFits(st, s, w, marks);
        case Closes(s, code) => CloseFits(st, s, code, w, marks);
        case ReconnectCall => RestartFits(st, true, w, marks);
        case Wake =>
          if !st.hostProven || Ready?(st, st.ws) != Open {
            RestartFits(st, false, w, marks);
          } else {
            NoChangeFits(st, st, marks, []);
          }
        case _ => OneSockFits(st, e, w, marks);
      }
    }
  }

  lemma {:induction false} RunSocksFit(st: State, events: seq<Event>, w: World, marks: seq<Mark>)
    requires Inv(st, w) && SocksFit(st, marks) && Possible(st, events, w)
    ensures SocksFit(Run(st, events, w), marks + Marks(st, events, w))
    decreases |events|
  {
    if events == [] {
      assert marks + [] == marks;
    } else {
      var now, next := MarkOf(st, events[0], w), Step(st, events[0], w).st;
      StepInv(st, events[0], w);
      StepSocksFit(st, events[0], w, marks);
      RunSocksFit(next, events[1..], w, marks + now);
      Regroup(marks, now, Marks(next, events[1..], w));
    }
  }

  lemma {:induction false} StartSocksFit(events: seq<Event>, w: World)
    requires Possible(START, events, w)
    ensures SocksFit(Run(START, events, w), Marks(START, events, w))
  {
    StartInv(w);
    RunSocksFit(START, events, w, []);
    assert [] + Marks(START, events, w) == Marks(START, events, w);
  }

  // What becomes of a proof

  /** The token and nonce a socket was opened with make this the answer to its first welcome. */
  ghost predicate RightAnswer(marks: seq<Mark>, s: SockId, w: World) {
    exists cfg, nonce :: Dialled(s, cfg, nonce) in marks && FirstWelcome(marks, s) == Some(Some(w.hmac(cfg.token, nonce)))
  }

  /**
   * In every run the proof check of the current open socket decides by the first
   * welcome on it and by the token and nonce it was opened with: the right HMAC
   * makes the host trusted, shown and kept awake, with no retry left; any other
   * answer shows the refused token and begins to close the socket. A socket that
   * was replaced or is closing decides nothing.
   */
  lemma {:induction false} ProofDecidesExactly(events: seq<Event>, s: SockId, w: World)
    requires Possible(START, events, w) && Enabled(Run(START, events, w), ProofChecked(s))
    ensures var st, marks := Run(START, events, w), Marks(START, events, w);
            var after := Step(st, ProofChecked(s), w).st;
            if st.ws != Some(s) || st.socks[s].ready != Open then FaceOf(after) == FaceOf(st)
            else if RightAnswer(marks, s, w) then
              FaceOf(after) == Face(Some(s), Connected, true, true, false, 0) && s in after.socks && after.socks[s].proven
            else FaceOf(after) == FaceOf(st).(status := BadToken) && s in after.socks && after.socks[s].ready == Closing
  {
    var st, marks := Run(START, events, w), Marks(START, events, w);
    StartInv(w);
    RunInv(START, events, w);
    StartSocksFit(events, w);
    StepMoves(st, ProofChecked(s), w);
    assert SockFits(s, st.socks[s], marks);
    AnswerIsRight(s, st.socks[s], marks, w);
    if MarkOf(st, ProofChecked(s), w) != [] {
      CheckChanges(st, s, w);
    }
  }

  lemma {:induction false} AnswerIsRight(s: SockId, sock: Sock, marks: seq<Mark>, w: World)
    requires SockFits(s, sock, marks) && sock.proving.Checking?
    ensures RightAnswer(marks, s, w) <==> sock.proving.claim == Some(w.hmac(sock.cfg.token, sock.nonce))
  {
    if sock.proving.claim == Some(w.hmac(sock.cfg.token, sock.nonce)) {
      assert Dialled(s, sock.cfg, sock.nonce) in marks;
    }
  }

  /** In every run a deadline begins to close its socket if and only if that is the current one, not proved, and not closing or closed already. */
  lemma {:induction false} DeadlineClosesExactly(events: seq<Event>, s: SockId, w: World)
    requires Possible(START, events, w) && Enabled(Run(START, events, w), DeadlineFires(s))
    ensures var st, marks := Run(START, events, w), Marks(START, events, w);
            var before, after := st.socks[s].ready, Step(st, DeadlineFires(s), w).st.socks;
            s in after &&
            after[s].ready == if CurrentSocket(marks) == Some(s) && Proved(s) !in marks && before != Closed then Closing else before
  {
    var st, marks := Run(START, events, w), Marks(START, events, w);
    StartSocksFit(events, w);
    StartFits(events, w);
    assert SockFits(s, st.socks[s], marks);
    DeadlineCloses(st, s);
  }

  lemma {:induction false} DeadlineCloses(st: State, s: SockId)
    requires s in st.socks
    ensures OnDeadline(st, s).socks ==
            st.socks[s := if st.socks[s].proven || st.ws != Some(s) then st.socks[s].(deadline := false)
                          else CloseSock(st.socks[s].(deadline := false))]
  {
  }

  /** In every run a worker that starts over has begun to close the socket it lets go, and touches no other. */
  lemma {:induction false} RestartClosesItsSocket(events: seq<Event>, e: Event, w: World)
    requires Possible(START, events, w) && Enabled(Run(START, events, w), e)
    requires MarkOf(Run(START, events, w), e, w) == [Restarted]
    ensures var st := Run(START, events, w); var after := Step(st, e, w).st.socks;
            (forall s | s in st.socks && st.ws != Some(s) :: s in after && after[s] == st.socks[s]) &&
            (st.ws.Some? ==> st.ws.value in after && (after[st.ws.value].ready == Closing || after[st.ws.value].ready == Closed))
  {
    var st := Run(START, events, w);
    StartInv(w);
    RunInv(START, events, w);
    RestartChanges(st, false);
    RestartChanges(st, true);
  }
}
