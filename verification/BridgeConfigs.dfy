/** When the bridge worker connects, and which stored config it goes by, in whole runs. */
module BridgeConfigs {
  import opened Wrappers
  import opened Bridge
  import opened BridgeRuns
  import opened BridgeActs

  /** What connects go by. */
  datatype Conf = Conf(frames: map<nat, Frame>, nextId: nat, cached: Option<Config>, version: nat)

  function ConfOf(st: State): Conf { Conf(st.frames, st.nextId, st.bridgeConfig, st.configVersion) }

  /** A connect begins: with the config at hand, else by reading the stored one. */
  function Begun(c: Conf): Conf {
    c.(frames := c.frames[c.nextId := if c.cached.Some? then Holding(c.cached) else Reading(c.version)], nextId := c.nextId + 1)
  }

  /** How an event moves connects and config. */
  ghost predicate ConfMoves(st: State, a: Conf, b: Conf, e: Event)
    requires Enabled(st, e)
  {
    match e
    case ConnectCall => b == if Live(st) then a else Begun(a)
    case RetryFires(_) => b == if Live(st) then a else Begun(a)
    case KeeperBeat => b == if st.ws.Some? then a else Begun(a)
    case Wake => b == if st.hostProven && Ready?(st, st.ws) == Open then a else Begun(a)
    case ReconnectCall => b == Begun(a.(cached := None, version := a.version + 1))
    case ConfigRead(f, stored) =>
      f in a.frames && a.frames[f].Reading? &&
      if a.frames[f].version == a.version then b == a.(cached := stored, frames := a.frames[f := Holding(stored)])
      else b == a.(frames := a.frames[f := if a.cached.Some? then Holding(a.cached) else Reading(a.version)])
    case ConfigHeld(f, _) => b.nextId >= a.nextId && b == a.(frames := a.frames - {f}, nextId := b.nextId)
    case _ => b.nextId >= a.nextId && b == a.(nextId := b.nextId)
  }

  lemma {:induction false} ConnectConf(st: State)
    ensures ConfOf(Connect(st)) == if Live(st) then ConfOf(st) else Begun(ConfOf(st))
  {
  }

  lemma {:induction false} IdleConf(st: State, refresh: bool)
    ensures ConfOf(Idle(st, refresh)) ==
            (if refresh then ConfOf(st).(cached := None, version := st.configVersion + 1) else ConfOf(st)) &&
            !Live(Idle(st, refresh)) && Idle(st, refresh).ws == None
  {
    LetGoConf(st);
    ResetConf(LetGo(st));
    var down := ResetRetries(LetGo(st)).(status := Disconnected);
    assert ConfOf(down) == ConfOf(st) && down.ws == None;
  }

  lemma {:induction false} LetGoConf(st: State)
    ensures ConfOf(LetGo(st)) == ConfOf(st) && LetGo(st).ws == None
  {
  }

  lemma {:induction false} ResetConf(st: State)
    ensures ConfOf(ResetRetries(st)) == ConfOf(st) && ResetRetries(st).ws == st.ws
  {
  }

  lemma {:induction false} StepMovesConf(st: State, e: Event, w: World)
    requires Inv(st, w) && Enabled(st, e)
    ensures ConfMoves(st, ConfOf(st), ConfOf(Step(st, e, w).st), e)
  {
    match e {
      case ConnectCall => ConnectConf(st);
      case KeeperBeat => ConnectConf(st);
      case RetryFires(timer) =>
        var fired := st.(retryTimer := None, timers := st.timers - {timer});
        assert ConfOf(fired) == ConfOf(st) && Live(fired) == Live(st);
        ConnectConf(fired);
      case Wake =>
        IdleConf(st, false);
        ConnectConf(Idle(st, false));
      case ReconnectCall =>
        IdleConf(st, true);
        ConnectConf(Idle(st, true));
      case ConfigRead(frame, stored) => ReadConf(st, frame, stored);
      case ConfigHeld(frame, nonce) => HeldConf(st, frame, nonce, w);
      case ProofChecked(s) => CheckConf(st, s, w);
      case Closes(s, code) => CloseConf(st, s, code);
      case _ => OtherConf(st, e, w);
    }
  }

  lemma {:induction false} ReadConf(st: State, f: nat, stored: Option<Config>)
    requires f in st.frames && st.frames[f].Reading?
    ensures ConfMoves(st, ConfOf(st), ConfOf(ReadConfig(st, f, stored)), ConfigRead(f, stored))
  {
    if st.frames[f].version != st.configVersion {
      var again := st.(frames := st.frames[f := AskConfig(st)]);
      assert ReadConfig(st, f, stored) == again;
    } else {
      var read := st.(bridgeConfig := stored, frames := st.frames[f := Holding(stored)]);
      assert ReadConfig(st, f, stored) == read;
    }
  }

  lemma {:induction false} HeldConf(st: State, f: nat, nonce: Units, w: World)
    requires f in st.frames && st.frames[f].Holding?
    ensures ConfMoves(st, ConfOf(st), ConfOf(UseConfig(st, f, nonce, w)), ConfigHeld(f, nonce))
  {
    var rest, cfg := Drop(st, f), st.frames[f].cfg;
    assert ConfOf(rest) == ConfOf(st).(frames := st.frames - {f});
    if Usable(cfg) {
      assert ConfOf(OpenSocket(rest, cfg.value, nonce)) == ConfOf(rest).(nextId := st.nextId + 1);
    }
  }

  lemma {:induction false} CheckConf(st: State, s: SockId, w: World)
    requires s in st.socks && st.socks[s].proving.Checking?
    ensures ConfOf(CheckProof(st, s, w)) == ConfOf(st)
  {
    var sock := st.socks[s].(proving := Settled(st.socks[s].proving.claim));
    var settled := SetSock(st, s, sock);
    assert ConfOf(settled) == ConfOf(st);
    if st.ws == Some(s) && sock.ready == Open {
      if sock.proving.claim == Some(w.hmac(sock.cfg.token, sock.nonce)) {
        var accepted := SetSock(settled, s, sock.(proven := true, deadline := false));
        assert ConfOf(accepted) == ConfOf(st);
        ResetConf(accepted);
        assert CheckProof(st, s, w) == Trusting(ResetRetries(accepted));
      } else {
        var closed := SetSock(settled, s, CloseSock(sock));
        assert ConfOf(closed) == ConfOf(st);
      }
    }
  }

  lemma {:induction false} CloseConf(st: State, s: SockId, code: int)
    requires s in st.socks
    ensures var b := ConfOf(OnClose(st, s, code)); b.nextId >= st.nextId && b == ConfOf(st).(nextId := b.nextId)
  {
    var gone := SetSock(st, s, st.socks[s].(ready := Closed, deadline := false));
    assert ConfOf(gone) == ConfOf(st);
    var lost := gone.(ws := None, hostProven := false, keepalive := false);
    assert ConfOf(lost) == ConfOf(gone);
    LossConf(lost, code);
  }

  lemma {:induction false} LossConf(lost: State, code: int)
    ensures var b := ConfOf(AfterLoss(lost, code)); b.nextId >= lost.nextId && b == ConfOf(lost).(nextId := b.nextId)
  {
    if lost.status != BadToken {
      if code == 4401 {
        StatusConf(lost, BadToken);
      } else if code == 4409 {
        StatusConf(lost, Standby);
      } else {
        StatusConf(lost, Disconnected);
        ScheduleConf(lost.(status := Disconnected));
      }
    }
  }

  lemma {:induction false} StatusConf(st: State, status: Status)
    ensures ConfOf(st.(status := status)) == ConfOf(st)
  {
  }

  lemma {:induction false} ScheduleConf(st: State)
    ensures var b := ConfOf(ScheduleRetry(st)); b.nextId >= st.nextId && b == ConfOf(st).(nextId := b.nextId)
  {
  }

  /** Messages, sockets and timers that no connect depends on. */
  lemma {:induction false} OtherConf(st: State, e: Event, w: World)
    requires Enabled(st, e)
    requires e.Opens? || e.HelloReady? || e.Arrives? || e.ProofAwaited? || e.OpFinished? || e.DeadlineFires? || e.PeerCloses? ||
             e.KeepaliveTick? || e.Emits?
    ensures var b := ConfOf(Step(st, e, w).st); b.nextId >= st.nextId && b == ConfOf(st).(nextId := b.nextId)
  {
    match e {
      case Arrives(s, msg) => MessageConf(st, s, msg);
      case ProofAwaited(task) =>
        assert ConfOf(FinishTask(st, task)) == ConfOf(st);
        DispatchConf(FinishTask(st, task), st.tasks[task].s, st.tasks[task].msg);
      case _ =>
    }
  }

  lemma {:induction false} DispatchConf(st: State, s: SockId, msg: Message)
    ensures var b := ConfOf(Dispatch(st, s, msg).st); b.nextId >= st.nextId && b == ConfOf(st).(nextId := b.nextId)
  {
  }

  lemma {:induction false} MessageConf(st: State, s: SockId, msg: Message)
    requires s in st.socks
    ensures var b := ConfOf(OnMessage(st, s, msg).st); b.nextId >= st.nextId && b == ConfOf(st).(nextId := b.nextId)
  {
    if st.ws == Some(s) && !msg.Garbage? && st.socks[s].proven {
      DispatchConf(st, s, msg);
    }
  }

  // Over runs

  /** Connects are numbered apart, and no read is ahead of the config's version. */
  ghost predicate ConfFits(c: Conf) {
    forall f | f in c.frames :: f < c.nextId && (c.frames[f].Reading? ==> c.frames[f].version <= c.version)
  }

  lemma {:induction false} MovedConfFits(st: State, a: Conf, b: Conf, e: Event)
    requires Enabled(st, e) && ConfMoves(st, a, b, e) && ConfFits(a)
    ensures ConfFits(b) && b.version >= a.version
  {
  }

  lemma {:induction false} RunConfFits(st: State, events: seq<Event>, w: World)
    requires Inv(st, w) && Possible(st, events, w) && ConfFits(ConfOf(st))
    ensures ConfFits(ConfOf(Run(st, events, w)))
    decreases |events|
  {
    if events != [] {
      StepInv(st, events[0], w);
      StepMovesConf(st, events[0], w);
      MovedConfFits(st, ConfOf(st), ConfOf(Step(st, events[0], w).st), events[0]);
      RunConfFits(Step(st, events[0], w).st, events[1..], w);
    }
  }

  /**
   * In every run a call to connect, or a retry, begins a connect if and only if
   * no socket is open or opening; the keeper's beat, if and only if there is no
   * socket; a wake, unless the host is trusted on an open socket; a reconnect,
   * always.
   */
  lemma {:induction false} ConnectsBeginExactly(events: seq<Event>, e: Event, w: World)
    requires Possible(START, events, w) && Enabled(Run(START, events, w), e)
    ensures var st := Run(START, events, w);
            st.nextId in Step(st, e, w).st.frames <==>
            match e
            case ConnectCall => !Live(st)
            case RetryFires(_) => !Live(st)
            case KeeperBeat => st.ws.None?
            case Wake => !(st.ws.Some? && Serving(st, st.ws.value, w))
            case ReconnectCall => true
            case _ => false
  {
    var st := Run(START, events, w);
    StartInv(w);
    RunInv(START, events, w);
    RunConfFits(START, events, w);
    StepMovesConf(st, e, w);
    TrustedIsServing(st, w);
  }

  lemma {:induction false} TrustedIsServing(st: State, w: World)
    requires Inv(st, w)
    ensures st.hostProven && Ready?(st, st.ws) == Open <==> st.ws.Some? && Serving(st, st.ws.value, w)
  {
    if st.ws.Some? {
      assert ProvedRight(st.socks[st.ws.value], w);
    }
  }

  /**
   * In every run a wake leaves a worker alone that is trusted on an open socket;
   * any other lets its socket go and connects anew, by the config at hand if
   * there is one. A reconnect does so always, and forgets the config at hand:
   * storage is read anew.
   */
  lemma {:induction false} RestartsExactly(events: seq<Event>, w: World)
    requires Possible(START, events, w)
    ensures var st := Run(START, events, w);
            var woken, restarted := Step(st, Wake, w).st, Step(st, ReconnectCall, w).st;
            (st.ws.Some? && Serving(st, st.ws.value, w) ==> woken == st) &&
            (!(st.ws.Some? && Serving(st, st.ws.value, w)) ==>
               woken.ws == None && woken.bridgeConfig == st.bridgeConfig && st.nextId in woken.frames &&
               woken.frames[st.nextId] ==
                 (if st.bridgeConfig.Some? then Holding(st.bridgeConfig) else Reading(st.configVersion))) &&
            restarted.ws == None && restarted.bridgeConfig == None && st.nextId in restarted.frames &&
            restarted.frames[st.nextId] == Reading(restarted.configVersion) && restarted.configVersion > st.configVersion
  {
    var st := Run(START, events, w);
    StartInv(w);
    RunInv(START, events, w);
    TrustedIsServing(st, w);
    RestartLetsGo(st, true);
    if !(st.ws.Some? && Serving(st, st.ws.value, w)) {
      RestartLetsGo(st, false);
    }
  }

  lemma {:induction false} RestartLetsGo(st: State, refresh: bool)
    ensures Reconnect(st, refresh).ws == None
    ensures ConfOf(Reconnect(st, refresh)) ==
            Begun(if refresh then ConfOf(st).(cached := None, version := st.configVersion + 1) else ConfOf(st))
  {
    IdleConf(st, refresh);
    ConnectConf(Idle(st, refresh));
  }

  /** A read under way stays so until storage answers it, and is out of date once the worker was told to reconnect. */
  lemma {:induction false} ReadWaits(st: State, events: seq<Event>, w: World, f: nat)
    requires Inv(st, w) && Possible(st, events, w) && ConfFits(ConfOf(st)) && f in st.frames && st.frames[f].Reading?
    requires forall e | e in events :: !(e.ConfigRead? && e.frame == f)
    ensures var end := Run(st, events, w);
            f in end.frames && end.frames[f] == st.frames[f] && end.configVersion >= st.configVersion &&
            (end.configVersion > st.configVersion <==> ReconnectCall in events)
    decreases |events|
  {
    if events != [] {
      var e, next := events[0], Step(st, events[0], w).st;
      assert e in events;
      StepInv(st, e, w);
      StepMovesConf(st, e, w);
      MovedConfFits(st, ConfOf(st), ConfOf(next), e);
      FrameWaits(st, ConfOf(st), ConfOf(next), e, f);
      ReadWaits(next, events[1..], w, f);
      assert ReconnectCall in events <==> e == ReconnectCall || ReconnectCall in events[1..];
    }
  }

  lemma {:induction false} FrameWaits(st: State, a: Conf, b: Conf, e: Event, f: nat)
    requires Enabled(st, e) && ConfMoves(st, a, b, e) && ConfFits(a) && f in a.frames && a.frames[f].Reading?
    requires a == ConfOf(st) && !(e.ConfigRead? && e.frame == f)
    ensures f in b.frames && b.frames[f] == a.frames[f] && b.version == a.version + (if e.ReconnectCall? then 1 else 0)
  {
  }

  /**
   * In every run the answer to an up-to-date read of storage is taken, and kept
   * at hand, if and only if the worker was not told to reconnect since; else it
   * is thrown away, and the connect takes the config at hand by now, or reads
   * storage again.
   */
  lemma {:induction false} ReadsAreTakenExactly(events: seq<Event>, f: nat, more: seq<Event>, stored: Option<Config>, w: World)
    requires Possible(START, events, w) && f in Run(START, events, w).frames
    requires Run(START, events, w).frames[f] == Reading(Run(START, events, w).configVersion)
    requires Possible(Run(START, events, w), more, w) && forall e | e in more :: !(e.ConfigRead? && e.frame == f)
    ensures var mid := Run(Run(START, events, w), more, w);
            Enabled(mid, ConfigRead(f, stored)) &&
            var next := Step(mid, ConfigRead(f, stored), w).st;
            if ReconnectCall !in more then next.bridgeConfig == stored && next.frames == mid.frames[f := Holding(stored)]
            else next.bridgeConfig == mid.bridgeConfig && next.frames == mid.frames[f :=
              if mid.bridgeConfig.Some? then Holding(mid.bridgeConfig) else Reading(mid.configVersion)]
  {
    var st, mid := Run(START, events, w), Run(Run(START, events, w), more, w);
    StartInv(w);
    RunInv(START, events, w);
    RunConfFits(START, events, w);
    ReadWaits(st, more, w, f);
    ReadConf(mid, f, stored);
  }

  /** Storage gave this config, and the worker was not told to reconnect since. */
  ghost predicate ReadSince(events: seq<Event>, stored: Option<Config>) {
    exists i :: 0 <= i < |events| && events[i].ConfigRead? && events[i].stored == stored && ReconnectCall !in events[i + 1..]
  }

  lemma {:induction false} ReadSincePush(events: seq<Event>, e: Event, stored: Option<Config>)
    requires e != ReconnectCall && ReadSince(events, stored)
    ensures ReadSince(events + [e], stored)
  {
    var i :| 0 <= i < |events| && events[i].ConfigRead? && events[i].stored == stored && ReconnectCall !in events[i + 1..];
    var more := events + [e];
    assert more[i] == events[i] && more[i + 1..] == events[i + 1..] + [e];
  }

  lemma {:induction false} CacheIsRead(st: State, events: seq<Event>, w: World, before: seq<Event>)
    requires Inv(st, w) && Possible(st, events, w)
    requires st.bridgeConfig.Some? ==> ReadSince(before, st.bridgeConfig)
    ensures var end := Run(st, events, w); end.bridgeConfig.Some? ==> ReadSince(before + events, end.bridgeConfig)
    decreases |events|
  {
    if events == [] {
      assert before + events == before;
    } else {
      var e, next := events[0], Step(st, events[0], w).st;
      StepInv(st, e, w);
      StepMovesConf(st, e, w);
      CachePush(st, ConfOf(st), ConfOf(next), e, before);
      CacheIsRead(next, events[1..], w, before + [e]);
      assert before + events == before + [e] + events[1..];
    }
  }

  lemma {:induction false} CachePush(st: State, a: Conf, b: Conf, e: Event, before: seq<Event>)
    requires Enabled(st, e) && ConfMoves(st, a, b, e) && (a.cached.Some? ==> ReadSince(before, a.cached))
    ensures b.cached.Some? ==> ReadSince(before + [e], b.cached)
  {
    if b.cached.Some? {
      if e.ConfigRead? && b.cached == e.stored {
        var more := before + [e];
        assert more[|before|] == e && more[|before| + 1..] == [];
      } else {
        ReadSincePush(before, e, a.cached);
      }
    }
  }

  /** In every run the config at hand is one that storage gave since the last reconnect. */
  lemma {:induction false} ConfigAtHandIsFresh(events: seq<Event>, w: World)
    requires Possible(START, events, w)
    ensures Run(START, events, w).bridgeConfig.Some? ==> ReadSince(events, Run(START, events, w).bridgeConfig)
  {
    StartInv(w);
    CacheIsRead(START, events, w, []);
    assert [] + events == events;
  }
}
