/** The bridge worker over whole runs: what it never does, and when it can fall silent. */
module BridgeRuns {
  import opened Wrappers
  import opened Bridge

  /** The events can happen in this order. */
  predicate Possible(st: State, events: seq<Event>, w: World)
    decreases |events|
  {
    events == [] || (Enabled(st, events[0]) && Possible(Step(st, events[0], w).st, events[1..], w))
  }

  function Run(st: State, events: seq<Event>, w: World): State
    requires Possible(st, events, w)
    decreases |events|
  {
    if events == [] then st else Run(Step(st, events[0], w).st, events[1..], w)
  }

  lemma {:induction false} RunInv(st: State, events: seq<Event>, w: World)
    requires Inv(st, w) && Possible(st, events, w)
    ensures Inv(Run(st, events, w), w)
    decreases |events|
  {
    if events != [] {
      StepInv(st, events[0], w);
      RunInv(Step(st, events[0], w).st, events[1..], w);
    }
  }

  /** The socket is the current one and answered its own nonce with the right HMAC. */
  ghost predicate ProvedAndCurrent(st: State, s: SockId, w: World) {
    st.ws == Some(s) && s in st.socks && st.socks[s].proven &&
    st.socks[s].proving == Settled(Some(w.hmac(st.socks[s].cfg.token, st.socks[s].nonce)))
  }

  /** Nothing is sent or begun for a host that has not proved itself, save the hello. */
  ghost predicate Trusted(st: State, act: Act, w: World) {
    match act
    case Send(to, msg) => msg.Hello? || ProvedAndCurrent(st, to, w)
    case RunOp(from, _) => ProvedAndCurrent(st, from, w)
  }

  lemma {:induction false} ActsAreTrusted(st: State, e: Event, w: World)
    requires Inv(st, w) && Enabled(st, e)
    ensures forall a | a in Step(st, e, w).acts :: Trusted(Step(st, e, w).st, a, w)
  {
    forall s | s in st.socks
      ensures ProvedRight(st.socks[s], w)
    {
    }
  }

  /** In every interleaving: whatever any step sends or begins is hello, or for the proved current socket. */
  lemma {:induction false} NothingBeforeTheProof(events: seq<Event>, e: Event, w: World)
    requires Possible(START, events, w) && Enabled(Run(START, events, w), e)
    ensures var out := Step(Run(START, events, w), e, w);
            forall a | a in out.acts :: Trusted(out.st, a, w)
  {
    StartInv(w);
    RunInv(START, events, w);
    ActsAreTrusted(Run(START, events, w), e, w);
  }

  /** The socket an event speaks of. */
  function Subject(st: State, e: Event): Option<SockId>
    requires Enabled(st, e)
  {
    match e
    case Opens(s) => Some(s)
    case HelloReady(s) => Some(s)
    case Arrives(s, _) => Some(s)
    case ProofChecked(s) => Some(s)
    case ProofAwaited(task) => Some(st.tasks[task].s)
    case OpFinished(task) => Some(st.tasks[task].s)
    case DeadlineFires(s) => Some(s)
    case PeerCloses(s) => Some(s)
    case Closes(s, _) => Some(s)
    case _ => None
  }

  lemma {:induction false} LateEventsChangeNothing(st: State, e: Event, w: World)
    requires Inv(st, w) && Enabled(st, e)
    requires Subject(st, e).Some? && st.ws != Subject(st, e)
    ensures var out := Step(st, e, w);
            out.st.ws == st.ws && out.st.hostProven == st.hostProven && out.st.status == st.status &&
            out.st.keepalive == st.keepalive && out.st.retryTimer == st.retryTimer && out.st.timers == st.timers &&
            out.st.bridgeConfig == st.bridgeConfig && out.st.frames == st.frames &&
            out.acts == if e.HelloReady? then SendNow(st, Hello(st.socks[e.s].nonce)) else []
  {
    match e {
      case Arrives(s, msg) => assert OnMessage(st, s, msg) == Out(st, []);
      case ProofChecked(s) => assert CheckProof(st, s, w).socks.Keys == st.socks.Keys;
      case ProofAwaited(task) => assert AfterProof(st, task) == Out(FinishTask(st, task), []);
      case OpFinished(task) => assert AfterOp(st, task) == Out(FinishTask(st, task), []);
      case _ =>
    }
  }

  /**
   * In every run a replaced socket's late events change nothing the worker goes
   * by, and send nothing except its hello, which goes to whatever socket is
   * current by then.
   */
  lemma {:induction false} ReplacedSocketsAreMute(events: seq<Event>, e: Event, w: World)
    requires Possible(START, events, w) && Enabled(Run(START, events, w), e)
    requires Subject(Run(START, events, w), e).Some? && Run(START, events, w).ws != Subject(Run(START, events, w), e)
    ensures var st := Run(START, events, w); var out := Step(st, e, w);
            out.st.ws == st.ws && out.st.hostProven == st.hostProven && out.st.status == st.status &&
            out.st.keepalive == st.keepalive && out.st.retryTimer == st.retryTimer && out.st.timers == st.timers &&
            out.st.bridgeConfig == st.bridgeConfig && out.st.frames == st.frames &&
            out.acts == if e.HelloReady? then SendNow(st, Hello(st.socks[e.s].nonce)) else []
  {
    StartInv(w);
    RunInv(START, events, w);
    LateEventsChangeNothing(Run(START, events, w), e, w);
  }

  /** Two retry timers never run at once, and a proved host ends the ladder. */
  lemma {:induction false} OneRetryTimer(events: seq<Event>, w: World)
    requires Possible(START, events, w)
    ensures |Run(START, events, w).timers| <= 1
  {
    StartInv(w);
    RunInv(START, events, w);
    var st := Run(START, events, w);
    assert st.retryTimer == None ==> st.timers.Keys == {};
    assert |st.timers| == |st.timers.Keys|;
  }

  // The retry ladder and the keepalive

  /** What the ladder goes by. */
  datatype Care = Care(hostProven: bool, keepalive: bool, retries: nat, retryTimer: Option<nat>, timers: map<nat, nat>)

  function CareOf(st: State): Care { Care(st.hostProven, st.keepalive, st.retries, st.retryTimer, st.timers) }

  /** An armed retry waits the ladder's time for how often it was tried, and a trusted host is kept awake. */
  ghost predicate Tended(c: Care) {
    (c.hostProven ==> c.keepalive) &&
    (c.retryTimer.Some? ==>
      c.retries >= 1 && c.retryTimer.value in c.timers && c.timers[c.retryTimer.value] == RETRY_MS[Min(c.retries - 1, 2)])
  }

  lemma {:induction false} ScheduleIsTended(st: State)
    requires Tended(CareOf(st))
    ensures Tended(CareOf(ScheduleRetry(st)))
  {
    if st.retryTimer.None? {
      assert CareOf(ScheduleRetry(st)) ==
        Care(st.hostProven, st.keepalive, st.retries + 1, Some(st.nextId), st.timers[st.nextId := RETRY_MS[Min(st.retries, 2)]]);
    }
  }

  lemma {:induction false} LossIsTended(lost: State, code: int)
    requires Tended(CareOf(lost))
    ensures Tended(CareOf(AfterLoss(lost, code)))
  {
    if lost.status != BadToken {
      if code == 4401 {
        assert CareOf(lost.(status := BadToken)) == CareOf(lost);
      } else if code == 4409 {
        assert CareOf(lost.(status := Standby)) == CareOf(lost);
      } else {
        var down := lost.(status := Disconnected);
        assert CareOf(down) == CareOf(lost);
        ScheduleIsTended(down);
      }
    }
  }

  lemma {:induction false} CloseIsTended(st: State, s: SockId, code: int)
    requires Tended(CareOf(st)) && s in st.socks
    ensures Tended(CareOf(OnClose(st, s, code)))
  {
    var gone := SetSock(st, s, st.socks[s].(ready := Closed, deadline := false));
    assert CareOf(gone) == CareOf(st);
    var lost := gone.(ws := None, hostProven := false, keepalive := false);
    assert CareOf(lost) == CareOf(st).(hostProven := false, keepalive := false);
    LossIsTended(lost, code);
  }

  lemma {:induction false} ResetCare(st: State)
    ensures CareOf(ResetRetries(st)).retryTimer == None
    ensures CareOf(ResetRetries(st)).hostProven == st.hostProven && CareOf(ResetRetries(st)).keepalive == st.keepalive
  {
  }

  lemma {:induction false} CheckIsTended(st: State, s: SockId, w: World)
    requires Tended(CareOf(st)) && s in st.socks && st.socks[s].proving.Checking?
    ensures Tended(CareOf(CheckProof(st, s, w)))
  {
    var sock := st.socks[s].(proving := Settled(st.socks[s].proving.claim));
    var marked := SetSock(SetSock(st, s, sock), s, sock.(proven := true, deadline := false));
    ResetCare(marked);
    assert CareOf(Trusting(ResetRetries(marked))).retryTimer == None;
    assert CareOf(SetSock(st, s, sock)) == CareOf(st);
  }

  lemma {:induction false} ReconnectIsTended(st: State, refresh: bool)
    ensures Tended(CareOf(Reconnect(st, refresh)))
  {
    ResetCare(LetGo(st));
    var idle := Idle(st, refresh);
    assert !CareOf(idle).hostProven && CareOf(idle).retryTimer == None;
    assert CareOf(Connect(idle)) == CareOf(idle);
  }

  lemma {:induction false} RetryIsTended(st: State, timer: nat)
    requires Tended(CareOf(st))
    ensures Tended(CareOf(Connect(st.(retryTimer := None, timers := st.timers - {timer}))))
  {
    var fired := st.(retryTimer := None, timers := st.timers - {timer});
    assert CareOf(Connect(fired)) == CareOf(fired);
  }

  lemma {:induction false} UseIsTended(st: State, frame: nat, nonce: Units, w: World)
    requires Tended(CareOf(st)) && frame in st.frames && st.frames[frame].Holding?
    ensures Tended(CareOf(UseConfig(st, frame, nonce, w)))
  {
    var rest, cfg := Drop(st, frame), st.frames[frame].cfg;
    assert CareOf(rest) == CareOf(st);
    if Usable(cfg) {
      assert CareOf(OpenSocket(rest, cfg.value, nonce)) == CareOf(rest).(hostProven := false);
    }
  }

  lemma {:induction false} MessageCare(st: State, s: SockId, msg: Message)
    requires s in st.socks
    ensures CareOf(OnMessage(st, s, msg).st) == CareOf(st)
  {
  }

  lemma {:induction false} TaskCare(st: State, task: nat)
    requires task in st.tasks && st.tasks[task].AwaitingProof?
    ensures CareOf(AfterProof(st, task).st) == CareOf(st)
  {
  }

  /** Steps the ladder does not notice. */
  predicate Aside(e: Event) {
    e.ConnectCall? || e.KeeperBeat? || e.ConfigRead? || e.Opens? || e.HelloReady? || e.OpFinished? ||
    e.DeadlineFires? || e.PeerCloses? || e.KeepaliveTick? || e.Emits?
  }

  lemma {:induction false} AsideCare(st: State, e: Event, w: World)
    requires Enabled(st, e) && Aside(e)
    ensures CareOf(Step(st, e, w).st) == CareOf(st)
  {
  }

  lemma {:induction false} StepIsTended(st: State, e: Event, w: World)
    requires Tended(CareOf(st)) && Enabled(st, e)
    ensures Tended(CareOf(Step(st, e, w).st))
  {
    if Aside(e) {
      AsideCare(st, e, w);
    } else {
      match e {
        case Wake => ReconnectIsTended(st, false);
        case ReconnectCall => ReconnectIsTended(st, true);
        case ConfigHeld(frame, nonce) => UseIsTended(st, frame, nonce, w);
        case RetryFires(timer) => RetryIsTended(st, timer);
        case ProofChecked(s) => CheckIsTended(st, s, w);
        case Closes(s, code) => CloseIsTended(st, s, code);
        case Arrives(s, msg) => MessageCare(st, s, msg);
        case ProofAwaited(task) => TaskCare(st, task);
        case _ => assert false;
      }
    }
  }

  lemma {:induction false} RunIsTended(st: State, events: seq<Event>, w: World)
    requires Tended(CareOf(st)) && Possible(st, events, w)
    ensures Tended(CareOf(Run(st, events, w)))
    decreases |events|
  {
    if events != [] {
      StepIsTended(st, events[0], w);
      RunIsTended(Step(st, events[0], w).st, events[1..], w);
    }
  }

  /** How long the ladder waits before a retry that comes after this many. */
  function Rung(tried: nat): nat { if tried == 0 then 1000 else if tried == 1 then 2000 else 5000 }

  /** In every run an armed retry waits the ladder's time and never more than five seconds, and a proved host is pinged. */
  lemma {:induction false} RetriesComeSoon(events: seq<Event>, w: World)
    requires Possible(START, events, w)
    ensures var st := Run(START, events, w);
            (st.hostProven ==> st.keepalive) &&
            (st.retryTimer.Some? ==>
              st.retries >= 1 && st.retryTimer.value in st.timers &&
              st.timers[st.retryTimer.value] == Rung(st.retries - 1) <= 5000)
  {
    RunIsTended(START, events, w);
  }

  // Never silently stuck

  ghost predicate ReadsFrom(events: seq<Event>, stored: set<Config>) {
    forall i | 0 <= i < |events| && events[i].ConfigRead? && events[i].stored.Some? :: events[i].stored.value in stored
  }

  ghost predicate KnownConfig(c: Option<Config>, stored: set<Config>) { c.Some? ==> c.value in stored }

  ghost predicate KnownFrame(f: Frame, stored: set<Config>) { f.Holding? ==> KnownConfig(f.cfg, stored) }

  ghost predicate Knows(st: State, stored: set<Config>) {
    KnownConfig(st.bridgeConfig, stored) && (forall f | f in st.frames :: KnownFrame(st.frames[f], stored)) && !st.threw
  }

  ghost predicate AllParse(stored: set<Config>, w: World) {
    forall c | c in stored && Usable(Some(c)) :: w.urlOk(c.port)
  }

  lemma {:induction false} ConnectKnows(st: State, stored: set<Config>)
    requires Knows(st, stored)
    ensures Knows(Connect(st), stored)
  {
  }

  lemma {:induction false} HeldKnows(st: State, frame: nat, nonce: Units, stored: set<Config>, w: World)
    requires Knows(st, stored) && AllParse(stored, w) && frame in st.frames && st.frames[frame].Holding?
    ensures Knows(UseConfig(st, frame, nonce, w), stored)
  {
    assert KnownFrame(st.frames[frame], stored);
    var next := UseConfig(st, frame, nonce, w);
    assert next.bridgeConfig == st.bridgeConfig && !next.threw;
    forall f | f in next.frames
      ensures KnownFrame(next.frames[f], stored)
    {
      assert KnownFrame(st.frames[f], stored);
    }
  }

  lemma {:induction false} ReadKnows(st: State, frame: nat, answer: Option<Config>, stored: set<Config>)
    requires Knows(st, stored) && KnownConfig(answer, stored) && frame in st.frames && st.frames[frame].Reading?
    ensures Knows(ReadConfig(st, frame, answer), stored)
  {
  }

  lemma {:induction false} ReconnectKnows(st: State, refresh: bool, stored: set<Config>)
    requires Knows(st, stored)
    ensures Knows(Reconnect(st, refresh), stored)
  {
    var idle := Idle(st, refresh);
    assert idle.frames == st.frames && !idle.threw && (idle.bridgeConfig == st.bridgeConfig || idle.bridgeConfig == None);
    ConnectKnows(idle, stored);
  }

  predicate SameConfigs(a: State, b: State) {
    a.bridgeConfig == b.bridgeConfig && a.frames == b.frames && a.threw == b.threw
  }

  lemma {:induction false} CheckKeepsConfigs(st: State, s: SockId, w: World)
    requires s in st.socks && st.socks[s].proving.Checking?
    ensures SameConfigs(CheckProof(st, s, w), st)
  {
    var sock := st.socks[s].(proving := Settled(st.socks[s].proving.claim));
    var marked := SetSock(SetSock(st, s, sock), s, sock.(proven := true, deadline := false));
    var reset := ResetRetries(marked);
    assert SameConfigs(reset, st);
    assert SameConfigs(Trusting(reset), st);
  }

  lemma {:induction false} CloseKeepsConfigs(st: State, s: SockId, code: int)
    requires s in st.socks
    ensures SameConfigs(OnClose(st, s, code), st)
  {
    var gone := SetSock(st, s, st.socks[s].(ready := Closed, deadline := false));
    var lost := gone.(ws := None, hostProven := false, keepalive := false);
    assert SameConfigs(lost, st);
    assert SameConfigs(ScheduleRetry(lost.(status := Disconnected)), st);
  }

  lemma {:induction false} MessagesKeepConfigs(st: State, s: SockId, msg: Message)
    requires s in st.socks
    ensures SameConfigs(OnMessage(st, s, msg).st, st)
  {
  }

  lemma {:induction false} ProofsKeepConfigs(st: State, task: nat)
    requires task in st.tasks && st.tasks[task].AwaitingProof?
    ensures SameConfigs(AfterProof(st, task).st, st)
  {
  }

  lemma {:induction false} StepKnows(st: State, e: Event, stored: set<Config>, w: World)
    requires Knows(st, stored) && AllParse(stored, w) && Enabled(st, e)
    requires e.ConfigRead? ==> KnownConfig(e.stored, stored)
    ensures Knows(Step(st, e, w).st, stored)
  {
    match e {
      case ConnectCall => ConnectKnows(st, stored);
      case KeeperBeat => ConnectKnows(st, stored);
      case Wake => ReconnectKnows(st, false, stored);
      case ReconnectCall => ReconnectKnows(st, true, stored);
      case ConfigRead(frame, answer) => ReadKnows(st, frame, answer, stored);
      case ConfigHeld(frame, nonce) => HeldKnows(st, frame, nonce, stored, w);
      case RetryFires(timer) => ConnectKnows(st.(retryTimer := None, timers := st.timers - {timer}), stored);
      case ProofChecked(s) => CheckKeepsConfigs(st, s, w);
      case Closes(s, code) => CloseKeepsConfigs(st, s, code);
      case Arrives(s, msg) => MessagesKeepConfigs(st, s, msg);
      case ProofAwaited(task) => ProofsKeepConfigs(st, task);
      case _ => assert SameConfigs(Step(st, e, w).st, st);
    }
  }

  lemma {:induction false} RunKnows(st: State, events: seq<Event>, stored: set<Config>, w: World)
    requires Knows(st, stored) && AllParse(stored, w) && Possible(st, events, w) && ReadsFrom(events, stored)
    ensures Knows(Run(st, events, w), stored)
    decreases |events|
  {
    if events != [] {
      StepKnows(st, events[0], stored, w);
      assert forall i | 0 <= i < |events[1..]| :: events[1..][i] == events[i + 1];
      RunKnows(Step(st, events[0], w).st, events[1..], stored, w);
    }
  }

  /** A usable config whose port makes no URL: the connect after a reconnect throws, and nothing is left running. */
  lemma {:induction false} BadPortStrands(c: Config, w: World) returns (events: seq<Event>)
    requires Usable(Some(c)) && !w.urlOk(c.port)
    ensures ReadsFrom(events, {c}) && Possible(START, events, w) && !Covered(Run(START, events, w))
  {
    events := [ReconnectCall, ConfigRead(0, Some(c)), ConfigHeld(0, [])];
    var a := Step(START, events[0], w).st;
    assert Idle(START, true) == START.(status := Disconnected, configVersion := 1);
    assert a == START.(status := Disconnected, configVersion := 1, frames := map[0 := Reading(1)], nextId := 1);
    var b := Step(a, events[1], w).st;
    assert b == a.(bridgeConfig := Some(c), frames := map[0 := Holding(Some(c))]);
    var d := Step(b, events[2], w).st;
    assert d == b.(frames := map[], threw := true);
    assert events[1..] == [events[1], events[2]] && events[1..][1..] == [events[2]] && events[1..][1..][1..] == [];
    assert Run(d, [], w) == d;
    assert Run(b, [events[2]], w) == Run(d, [], w) by { assert [events[2]][1..] == []; }
  }

  /**
   * Never silently stuck, exactly: in every reachable state a socket or its
   * close, a connect or a retry timer is at work, or the status says no-config,
   * bad-token or standby, if and only if every usable stored config makes a URL.
   */
  lemma {:induction false} NeverStuckExactly(stored: set<Config>, w: World)
    ensures (forall events | Possible(START, events, w) && ReadsFrom(events, stored) :: Covered(Run(START, events, w)))
       <==> AllParse(stored, w)
  {
    if AllParse(stored, w) {
      forall events | Possible(START, events, w) && ReadsFrom(events, stored)
        ensures Covered(Run(START, events, w))
      {
        StartInv(w);
        RunInv(START, events, w);
        RunKnows(START, events, stored, w);
      }
    } else {
      var c :| c in stored && Usable(Some(c)) && !w.urlOk(c.port);
      var events := BadPortStrands(c, w);
      assert ReadsFrom(events, stored);
    }
  }

  /** An alarm with nothing in between: the connect begins, storage is read unless a config is at hand, and it is used. */
  function AlarmEvents(st: State, stored: Option<Config>, nonce: Units): seq<Event> {
    [ConnectCall] + (if st.bridgeConfig.Some? then [] else [ConfigRead(st.nextId, stored)]) + [ConfigHeld(st.nextId, nonce)]
  }

  /** The config at hand, else the stored one. */
  function ConfigUsed(st: State, stored: Option<Config>): Option<Config> {
    if st.bridgeConfig.Some? then st.bridgeConfig else stored
  }

  lemma {:induction false} UsedOpensExactly(st: State, frame: nat, nonce: Units, w: World)
    requires frame in st.frames && st.frames[frame].Holding? && !Live(st)
    ensures var cfg := st.frames[frame].cfg;
            Live(UseConfig(st, frame, nonce, w)) <==> Usable(cfg) && w.urlOk(cfg.value.port)
  {
    var rest, cfg := Drop(st, frame), st.frames[frame].cfg;
    assert Ready?(rest, rest.ws) == Ready?(st, st.ws);
    if Usable(cfg) && w.urlOk(cfg.value.port) {
      var next := OpenSocket(rest, cfg.value, nonce);
      assert next.ws == Some(st.nextId) && next.socks[st.nextId].ready == Connecting;
    } else {
      var next := UseConfig(st, frame, nonce, w);
      assert next.ws == st.ws && next.socks == st.socks;
    }
  }

  /**
   * However the worker fell silent, an alarm brings it a live socket if and
   * only if the config it goes by is usable and makes a URL. A bad port at hand
   * makes every alarm throw again, until a reconnect has storage read anew.
   */
  lemma {:induction false} AlarmOpensExactly(st: State, stored: Option<Config>, nonce: Units, w: World)
    requires !Live(st)
    ensures var events, cfg := AlarmEvents(st, stored, nonce), ConfigUsed(st, stored);
            Possible(st, events, w) &&
            (Live(Run(st, events, w)) <==> Usable(cfg) && w.urlOk(cfg.value.port))
  {
    var frame, events := st.nextId, AlarmEvents(st, stored, nonce);
    var asked := Step(st, ConnectCall, w).st;
    assert asked == st.(frames := st.frames[frame := AskConfig(st)], nextId := frame + 1);
    assert !Live(asked);
    if st.bridgeConfig.Some? {
      UsedOpensExactly(asked, frame, nonce, w);
      assert events == [ConnectCall, ConfigHeld(frame, nonce)];
      RunTwo(st, ConnectCall, ConfigHeld(frame, nonce), w);
    } else {
      var read := Step(asked, ConfigRead(frame, stored), w).st;
      assert read == asked.(bridgeConfig := stored, frames := asked.frames[frame := Holding(stored)]);
      assert !Live(read);
      UsedOpensExactly(read, frame, nonce, w);
      assert events == [ConnectCall] + [ConfigRead(frame, stored), ConfigHeld(frame, nonce)];
      RunTwo(asked, ConfigRead(frame, stored), ConfigHeld(frame, nonce), w);
      assert events[1..] == [ConfigRead(frame, stored), ConfigHeld(frame, nonce)];
    }
  }

  lemma {:induction false} RunTwo(st: State, a: Event, b: Event, w: World)
    requires Enabled(st, a) && Enabled(Step(st, a, w).st, b)
    ensures Possible(st, [a, b], w) && Run(st, [a, b], w) == Step(Step(st, a, w).st, b, w).st
  {
    var next := Step(st, a, w).st;
    assert [a, b][1..] == [b] && [b][1..] == [];
    assert Possible(Step(next, b, w).st, [], w);
    assert Possible(next, [b], w) && Run(next, [b], w) == Run(Step(next, b, w).st, [], w);
  }
}
