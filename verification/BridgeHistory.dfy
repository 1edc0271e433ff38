/**
 * What the bridge worker shows and trusts, said of the history of a run: the
 * sockets it opened, the welcomes it got, the proofs it checked, the closes
 * with their codes, and the restarts.
 */
module BridgeHistory {
  import opened Wrappers
  import opened Bridge
  import opened BridgeRuns

  /**
   * What an event was, for the worker: no config was stored, a socket was
   * opened, the current socket was welcomed, its proof was right or wrong, it
   * closed, the worker started over, a retry timer ran out.
   */
  datatype Mark =
    | Unpaired
    | Dialled(s: SockId, cfg: Config, nonce: Units)
    | Welcomed(s: SockId, proof: Option<Units>)
    | Proved(s: SockId)
    | Refuted(s: SockId)
    | Lost(s: SockId, code: int)
    | Restarted
    | Retried

  function MarkOf(st: State, e: Event, w: World): seq<Mark>
    requires Enabled(st, e)
  {
    match e
    case ConfigHeld(frame, nonce) =>
      var cfg := st.frames[frame].cfg;
      if !Usable(cfg) then [Unpaired]
      else if Live(st) || !w.urlOk(cfg.value.port) then []
      else [Dialled(st.nextId, cfg.value, nonce)]
    case Arrives(s, msg) => if st.ws == Some(s) && msg.Welcome? then [Welcomed(s, msg.proof)] else []
    case ProofChecked(s) =>
      var sock := st.socks[s];
      if st.ws != Some(s) || sock.ready != Open then []
      else if sock.proving.claim == Some(w.hmac(sock.cfg.token, sock.nonce)) then [Proved(s)]
      else [Refuted(s)]
    case Closes(s, code) => if st.ws == Some(s) then [Lost(s, code)] else []
    case Wake => if st.hostProven && Ready?(st, st.ws) == Open then [] else [Restarted]
    case ReconnectCall => [Restarted]
    case RetryFires(_) => [Retried]
    case _ => []
  }

  function Marks(st: State, events: seq<Event>, w: World): seq<Mark>
    requires Possible(st, events, w)
    decreases |events|
  {
    if events == [] then [] else MarkOf(st, events[0], w) + Marks(Step(st, events[0], w).st, events[1..], w)
  }

  // What marks say

  /** A mark that begins it, and after it none that ends it. */
  ghost predicate Stands(marks: seq<Mark>, begins: Mark -> bool, keeps: Mark -> bool) {
    exists i :: 0 <= i < |marks| && begins(marks[i]) && AllAfter(marks, i, keeps)
  }

  ghost predicate AllAfter(marks: seq<Mark>, i: int, keeps: Mark -> bool) {
    forall k | 0 <= k < |marks| && i < k :: keeps(marks[k])
  }

  lemma {:induction false} StandsPush(marks: seq<Mark>, m: Mark, begins: Mark -> bool, keeps: Mark -> bool)
    ensures Stands(marks + [m], begins, keeps) <==> begins(m) || (Stands(marks, begins, keeps) && keeps(m))
  {
    var more := marks + [m];
    assert more[|marks|] == m && forall k | 0 <= k < |marks| :: more[k] == marks[k];
    if begins(m) {
      assert AllAfter(more, |marks|, keeps);
    }
    if Stands(marks, begins, keeps) && keeps(m) {
      var i :| 0 <= i < |marks| && begins(marks[i]) && AllAfter(marks, i, keeps);
      assert AllAfter(more, i, keeps) && begins(more[i]);
    }
    if Stands(more, begins, keeps) && !begins(m) {
      var i :| 0 <= i < |more| && begins(more[i]) && AllAfter(more, i, keeps);
      assert begins(marks[i]) && AllAfter(marks, i, keeps);
    }
  }

  /** Marks that no status depends on. */
  predicate Aside(m: Mark) { m.Welcomed? || m.Retried? }

  predicate Rejects(m: Mark) { m.Refuted? || (m.Lost? && m.code == 4401) }

  predicate KeepsRejection(m: Mark) { Aside(m) || m.Dialled? || m.Lost? }

  /** The token was refused, by a wrong proof or a close with 4401, and nothing but attempts and losses came after. */
  ghost predicate Rejected(marks: seq<Mark>) { Stands(marks, Rejects, KeepsRejection) }

  predicate StepsAside(m: Mark) { m.Lost? && m.code == 4409 }

  predicate KeepsStandby(m: Mark) { Aside(m) || m.Dialled? }

  /** The last socket was lost to another profile, and nothing but attempts came after. */
  ghost predicate OnStandby(marks: seq<Mark>) { Stands(marks, StepsAside, KeepsStandby) && !Rejected(marks) }

  predicate IsProved(m: Mark) { m.Proved? }

  predicate IsUnpaired(m: Mark) { m.Unpaired? }

  predicate IsDialled(m: Mark) { m.Dialled? }

  /** A restart, or a loss that is neither a refused token nor a standby. */
  predicate Downs(m: Mark) { m.Restarted? || (m.Lost? && m.code != 4401 && m.code != 4409) }

  /** Each status is shown exactly when the history says so. */
  ghost predicate StatusFits(status: Status, marks: seq<Mark>) {
    (status == BadToken <==> Rejected(marks)) &&
    (status == Standby <==> OnStandby(marks)) &&
    (status == Disconnected <==> Stands(marks, Downs, Aside) && !Rejected(marks)) &&
    (status == ConnectingNow <==> Stands(marks, IsDialled, Aside) && !Rejected(marks) && !OnStandby(marks)) &&
    (status == Connected <==> Stands(marks, IsProved, Aside)) &&
    (status == NoConfig <==> Stands(marks, IsUnpaired, Aside) || AllAfter(marks, -1, Aside))
  }

  predicate KeepsTrust(m: Mark) { Aside(m) || m.Unpaired? }

  predicate KeepsAwake(m: Mark) { Aside(m) || m.Unpaired? || m.Dialled? || m.Refuted? }

  /** The socket opened last, unless it was lost or let go since. */
  function CurrentSocket(marks: seq<Mark>): Option<SockId> {
    if marks == [] then None
    else
      match Last(marks)
      case Dialled(s, _, _) => Some(s)
      case Lost(_, _) => None
      case Restarted => None
      case _ => CurrentSocket(Butlast(marks))
  }

  /** A loss to be retried: neither a refused token nor a standby, and no refused token from before on show. */
  ghost predicate Retriable(marks: seq<Mark>, i: int)
    requires 0 <= i < |marks|
  {
    marks[i].Lost? && marks[i].code != 4401 && marks[i].code != 4409 && !Rejected(marks[..i])
  }

  predicate Disarms(m: Mark) { m.Proved? || m.Restarted? || m.Retried? }

  /** A loss to be retried, and since then no retry, no proof and no restart. */
  ghost predicate Armed(marks: seq<Mark>) {
    exists i :: 0 <= i < |marks| && Retriable(marks, i) && forall k | i < k < |marks| :: !Disarms(marks[k])
  }

  /** How often the timer was armed since the last proof or restart. */
  ghost function Tries(marks: seq<Mark>): nat {
    if marks == [] then 0
    else
      var before := Butlast(marks);
      match Last(marks)
      case Proved(_) => 0
      case Restarted => 0
      case _ => Tries(before) + (if Armed(marks) && !Armed(before) then 1 else 0)
  }

  lemma {:induction false} ArmedPush(marks: seq<Mark>, m: Mark)
    ensures Armed(marks + [m]) <==>
            (m.Lost? && m.code != 4401 && m.code != 4409 && !Rejected(marks)) || (Armed(marks) && !Disarms(m))
  {
    var more := marks + [m];
    assert more[|marks|] == m && more[..|marks|] == marks;
    forall i | 0 <= i < |marks|
      ensures more[i] == marks[i] && (Retriable(more, i) <==> Retriable(marks, i))
    {
      assert more[..i] == marks[..i];
    }
    if Armed(marks) && !Disarms(m) {
      var i :| 0 <= i < |marks| && Retriable(marks, i) && forall k | i < k < |marks| :: !Disarms(marks[k]);
      assert Retriable(more, i);
    }
    if m.Lost? && m.code != 4401 && m.code != 4409 && !Rejected(marks) {
      assert Retriable(more, |marks|);
    }
    if Armed(more) {
      var i :| 0 <= i < |more| && Retriable(more, i) && forall k | i < k < |more| :: !Disarms(more[k]);
      if i < |marks| {
        assert !Disarms(more[|marks|]);
        assert Retriable(marks, i) && forall k | i < k < |marks| :: !Disarms(more[k]);
      }
    }
  }

  // The worker's own fields

  /** What the worker goes by, besides its sockets. */
  datatype Face = Face(ws: Option<SockId>, status: Status, hostProven: bool, keepalive: bool, armed: bool, retries: nat)

  function FaceOf(st: State): Face {
    Face(st.ws, st.status, st.hostProven, st.keepalive, st.retryTimer.Some?, st.retries)
  }

  ghost predicate FaceFits(f: Face, marks: seq<Mark>) {
    StatusFits(f.status, marks) && f.ws == CurrentSocket(marks) &&
    (f.hostProven <==> Stands(marks, IsProved, KeepsTrust)) &&
    (f.keepalive <==> Stands(marks, IsProved, KeepsAwake)) &&
    (f.armed <==> Armed(marks)) && f.retries == Tries(marks)
  }

  /** How the worker's fields move with a mark. */
  function Moved(f: Face, m: Mark): Face {
    match m
    case Unpaired => f.(status := NoConfig)
    case Dialled(s, _, _) =>
      f.(ws := Some(s), hostProven := false,
         status := if f.status == BadToken || f.status == Standby then f.status else ConnectingNow)
    case Welcomed(_, _) => f
    case Proved(_) => f.(status := Connected, hostProven := true, keepalive := true, armed := false, retries := 0)
    case Refuted(_) => f.(status := BadToken)
    case Lost(_, code) =>
      var down := f.(ws := None, hostProven := false, keepalive := false);
      if f.status == BadToken || code == 4401 then down.(status := BadToken)
      else if code == 4409 then down.(status := Standby)
      else down.(status := Disconnected, armed := true, retries := if f.armed then f.retries else f.retries + 1)
    case Restarted => Face(None, Disconnected, false, false, false, 0)
    case Retried => f.(armed := false)
  }

  lemma {:induction false} MovedStatus(f: Face, marks: seq<Mark>, m: Mark)
    requires StatusFits(f.status, marks)
    ensures StatusFits(Moved(f, m).status, marks + [m])
  {
    StandsPush(marks, m, Rejects, KeepsRejection);
    StandsPush(marks, m, StepsAside, KeepsStandby);
    StandsPush(marks, m, Downs, Aside);
    StandsPush(marks, m, IsDialled, Aside);
    StandsPush(marks, m, IsProved, Aside);
    StandsPush(marks, m, IsUnpaired, Aside);
    AllPush(marks, m);
  }

  lemma {:induction false} AllPush(marks: seq<Mark>, m: Mark)
    ensures AllAfter(marks + [m], -1, Aside) <==> AllAfter(marks, -1, Aside) && Aside(m)
  {
    var more := marks + [m];
    assert more[|marks|] == m && forall k | 0 <= k < |marks| :: more[k] == marks[k];
  }

  lemma {:induction false} MovedTrust(f: Face, marks: seq<Mark>, m: Mark)
    requires f.hostProven <==> Stands(marks, IsProved, KeepsTrust)
    requires f.hostProven ==> !m.Refuted?
    ensures Moved(f, m).hostProven <==> Stands(marks + [m], IsProved, KeepsTrust)
  {
    StandsPush(marks, m, IsProved, KeepsTrust);
  }

  lemma {:induction false} MovedAwake(f: Face, marks: seq<Mark>, m: Mark)
    requires f.keepalive <==> Stands(marks, IsProved, KeepsAwake)
    ensures Moved(f, m).keepalive <==> Stands(marks + [m], IsProved, KeepsAwake)
  {
    StandsPush(marks, m, IsProved, KeepsAwake);
  }

  lemma {:induction false} MovedCurrent(f: Face, marks: seq<Mark>, m: Mark)
    requires f.ws == CurrentSocket(marks)
    ensures Moved(f, m).ws == CurrentSocket(marks + [m])
  {
    assert Butlast(marks + [m]) == marks;
  }

  lemma {:induction false} MovedLadder(f: Face, marks: seq<Mark>, m: Mark)
    requires (f.armed <==> Armed(marks)) && f.retries == Tries(marks) && (f.status == BadToken <==> Rejected(marks))
    ensures var g := Moved(f, m); (g.armed <==> Armed(marks + [m])) && g.retries == Tries(marks + [m])
  {
    assert Butlast(marks + [m]) == marks;
    ArmedPush(marks, m);
  }

  /** Each step moves the worker's fields as its mark says, and leaves them alone without one. */
  lemma {:induction false} StepMoves(st: State, e: Event, w: World)
    requires Inv(st, w) && Enabled(st, e)
    ensures var marks, after := MarkOf(st, e, w), FaceOf(Step(st, e, w).st);
            |marks| <= 1 && after == (if marks == [] then FaceOf(st) else Moved(FaceOf(st), marks[0]))
  {
    match e {
      case ConfigHeld(frame, nonce) => UseMoves(st, frame, nonce, w);
      case ProofChecked(s) => CheckMoves(st, s, w);
      case Closes(s, code) => CloseMoves(st, s, code);
      case Wake => RestartMoves(st, false);
      case ReconnectCall => RestartMoves(st, true);
      case RetryFires(timer) => assert FaceOf(Step(st, e, w).st) == FaceOf(st).(armed := false);
      case Arrives(s, msg) => MessageMoves(st, s, msg);
      case ProofAwaited(task) => AwaitedMoves(st, task);
      case _ => OtherMoves(st, e, w);
    }
  }

  lemma {:induction false} UseMoves(st: State, frame: nat, nonce: Units, w: World)
    requires frame in st.frames && st.frames[frame].Holding?
    ensures var marks := MarkOf(st, ConfigHeld(frame, nonce), w);
            FaceOf(UseConfig(st, frame, nonce, w)) == (if marks == [] then FaceOf(st) else Moved(FaceOf(st), marks[0]))
  {
    var rest, cfg := Drop(st, frame), st.frames[frame].cfg;
    assert FaceOf(rest) == FaceOf(st) && rest.nextId == st.nextId && Live(rest) == Live(st);
    if Usable(cfg) {
      DialMoves(rest, cfg.value, nonce);
    }
  }

  lemma {:induction false} DialMoves(st: State, cfg: Config, nonce: Units)
    ensures FaceOf(OpenSocket(st, cfg, nonce)) == Moved(FaceOf(st), Dialled(st.nextId, cfg, nonce))
  {
  }

  lemma {:induction false} MessageMoves(st: State, s: SockId, msg: Message)
    requires s in st.socks
    ensures FaceOf(OnMessage(st, s, msg).st) == FaceOf(st)
  {
    DispatchMoves(st, s, msg);
  }

  lemma {:induction false} DispatchMoves(st: State, s: SockId, msg: Message)
    ensures FaceOf(Dispatch(st, s, msg).st) == FaceOf(st)
  {
  }

  lemma {:induction false} AwaitedMoves(st: State, task: nat)
    requires task in st.tasks && st.tasks[task].AwaitingProof?
    ensures FaceOf(AfterProof(st, task).st) == FaceOf(st)
  {
    assert FaceOf(FinishTask(st, task)) == FaceOf(st);
    DispatchMoves(FinishTask(st, task), st.tasks[task].s, st.tasks[task].msg);
  }

  lemma {:induction false} OtherMoves(st: State, e: Event, w: World)
    requires Enabled(st, e) && BridgeRuns.Aside(e)
    ensures FaceOf(Step(st, e, w).st) == FaceOf(st)
  {
    match e {
      case ConnectCall => ConnectMoves(st);
      case KeeperBeat => ConnectMoves(st);
      case ConfigRead(frame, stored) => ReadMoves(st, frame, stored);
      case _ =>
    }
  }

  lemma {:induction false} ConnectMoves(st: State)
    ensures FaceOf(Connect(st)) == FaceOf(st)
  {
  }

  lemma {:induction false} ReadMoves(st: State, frame: nat, stored: Option<Config>)
    requires frame in st.frames && st.frames[frame].Reading?
    ensures FaceOf(ReadConfig(st, frame, stored)) == FaceOf(st)
  {
    if st.frames[frame].version != st.configVersion {
      var again := st.(frames := st.frames[frame := AskConfig(st)]);
      assert ReadConfig(st, frame, stored) == again;
    } else {
      var read := st.(bridgeConfig := stored, frames := st.frames[frame := Holding(stored)]);
      assert ReadConfig(st, frame, stored) == read;
    }
  }

  lemma {:induction false} CheckMoves(st: State, s: SockId, w: World)
    requires s in st.socks && st.socks[s].proving.Checking?
    ensures var marks := MarkOf(st, ProofChecked(s), w);
            FaceOf(CheckProof(st, s, w)) == (if marks == [] then FaceOf(st) else Moved(FaceOf(st), marks[0]))
  {
    var sock := st.socks[s].(proving := Settled(st.socks[s].proving.claim));
    var settled := SetSock(st, s, sock);
    var accepted := SetSock(settled, s, sock.(proven := true, deadline := false));
    assert FaceOf(settled) == FaceOf(st) && FaceOf(accepted) == FaceOf(st);
    ResetMoves(accepted);
    if MarkOf(st, ProofChecked(s), w) == [Proved(s)] {
      assert CheckProof(st, s, w) == Trusting(ResetRetries(accepted));
    }
  }

  lemma {:induction false} ResetMoves(st: State)
    ensures FaceOf(ResetRetries(st)) == FaceOf(st).(armed := false, retries := 0)
  {
  }

  lemma {:induction false} CloseMoves(st: State, s: SockId, code: int)
    requires s in st.socks
    ensures FaceOf(OnClose(st, s, code)) == (if st.ws == Some(s) then Moved(FaceOf(st), Lost(s, code)) else FaceOf(st))
  {
    var gone := SetSock(st, s, st.socks[s].(ready := Closed, deadline := false));
    assert FaceOf(gone) == FaceOf(st);
    if st.ws == Some(s) {
      var lost := gone.(ws := None, hostProven := false, keepalive := false);
      assert FaceOf(lost) == FaceOf(st).(ws := None, hostProven := false, keepalive := false);
      LossMoves(lost, code);
    }
  }

  lemma {:induction false} LossMoves(lost: State, code: int)
    ensures FaceOf(AfterLoss(lost, code)) ==
            (if lost.status == BadToken || code == 4401 then FaceOf(lost).(status := BadToken)
             else if code == 4409 then FaceOf(lost).(status := Standby)
             else FaceOf(lost).(status := Disconnected, armed := true,
                                retries := if lost.retryTimer.Some? then lost.retries else lost.retries + 1))
  {
    var down := lost.(status := Disconnected);
    assert FaceOf(down) == FaceOf(lost).(status := Disconnected);
    ScheduleMoves(down);
  }

  lemma {:induction false} ScheduleMoves(st: State)
    ensures FaceOf(ScheduleRetry(st)) ==
            FaceOf(st).(armed := true, retries := if st.retryTimer.Some? then st.retries else st.retries + 1)
  {
  }

  lemma {:induction false} RestartMoves(st: State, refresh: bool)
    ensures FaceOf(Reconnect(st, refresh)) == Moved(FaceOf(st), Restarted)
  {
    var reset := ResetRetries(LetGo(st));
    assert FaceOf(reset) == Face(None, st.status, false, false, false, 0);
    var idle := Idle(st, refresh);
    assert FaceOf(idle) == Face(None, Disconnected, false, false, false, 0);
    assert FaceOf(Connect(idle)) == FaceOf(idle);
  }

  lemma {:induction false} StepFits(st: State, e: Event, w: World, marks: seq<Mark>)
    requires Inv(st, w) && Enabled(st, e) && FaceFits(FaceOf(st), marks)
    ensures FaceFits(FaceOf(Step(st, e, w).st), marks + MarkOf(st, e, w))
  {
    StepMoves(st, e, w);
    var now := MarkOf(st, e, w);
    if now == [] {
      assert marks + now == marks;
    } else {
      assert now == [now[0]];
      if e.ProofChecked? {
        assert ProvedRight(st.socks[e.s], w);
      }
      MovedStatus(FaceOf(st), marks, now[0]);
      MovedTrust(FaceOf(st), marks, now[0]);
      MovedAwake(FaceOf(st), marks, now[0]);
      MovedCurrent(FaceOf(st), marks, now[0]);
      MovedLadder(FaceOf(st), marks, now[0]);
    }
  }

  lemma {:induction false} RunFits(st: State, events: seq<Event>, w: World, marks: seq<Mark>)
    requires Inv(st, w) && Possible(st, events, w) && FaceFits(FaceOf(st), marks)
    ensures FaceFits(FaceOf(Run(st, events, w)), marks + Marks(st, events, w))
    decreases |events|
  {
    if events == [] {
      assert marks + [] == marks;
    } else {
      var now, next := MarkOf(st, events[0], w), Step(st, events[0], w).st;
      StepInv(st, events[0], w);
      StepFits(st, events[0], w, marks);
      RunFits(next, events[1..], w, marks + now);
      Regroup(marks, now, Marks(next, events[1..], w));
    }
  }

  lemma {:induction false} StartFits(events: seq<Event>, w: World)
    requires Possible(START, events, w)
    ensures FaceFits(FaceOf(Run(START, events, w)), Marks(START, events, w))
  {
    StartInv(w);
    RunFits(START, events, w, []);
    assert [] + Marks(START, events, w) == Marks(START, events, w);
  }

  /**
   * In every run the status is what the history of sockets, proofs and close
   * codes says: bad-token after a wrong proof or a loss with 4401, until a proof,
   * a restart or a missing config; standby after a loss with 4409; disconnected
   * after a restart or any other loss; and so on, for each status if and only if.
   */
  lemma {:induction false} StatusIsHistory(events: seq<Event>, w: World)
    requires Possible(START, events, w)
    ensures StatusFits(Run(START, events, w).status, Marks(START, events, w))
  {
    StartFits(events, w);
  }

  /**
   * In every run a retry is armed if and only if the current socket was lost
   * with neither 4401 nor 4409 while no refused token was on show, and no retry,
   * proof or restart came since; it waits the ladder's time for how often that
   * happened since the last proof or restart.
   */
  lemma {:induction false} RetriesAreHistory(events: seq<Event>, w: World)
    requires Possible(START, events, w)
    ensures LadderIs(Run(START, events, w), Marks(START, events, w))
  {
    StartFits(events, w);
    OnlyTimer(events, w);
    LadderFits(Run(START, events, w), Marks(START, events, w));
  }

  /** One timer at most, and it waits the time that the history asks for. */
  ghost predicate LadderIs(st: State, marks: seq<Mark>) {
    (st.retryTimer.Some? <==> Armed(marks)) &&
    (st.retryTimer.Some? ==> Tries(marks) >= 1 && st.timers == map[st.retryTimer.value := Rung(Tries(marks) - 1)])
  }

  predicate OnLadder(st: State) {
    st.retryTimer.Some? ==> st.retries >= 1 && st.timers == map[st.retryTimer.value := Rung(st.retries - 1)]
  }

  lemma {:induction false} LadderFits(st: State, marks: seq<Mark>)
    requires FaceFits(FaceOf(st), marks)
    requires OnLadder(st)
    ensures LadderIs(st, marks)
  {
  }

  lemma {:induction false} OnlyTimer(events: seq<Event>, w: World)
    requires Possible(START, events, w)
    ensures OnLadder(Run(START, events, w))
  {
    StartInv(w);
    RunInv(START, events, w);
    RetriesComeSoon(events, w);
    var st := Run(START, events, w);
    if st.retryTimer.Some? {
      var only := map[st.retryTimer.value := Rung(st.retries - 1)];
      assert st.timers.Keys == only.Keys;
    }
  }

  /**
   * In every run the current socket is the one opened last, unless it was lost
   * or let go; the host is trusted if and only if it proved itself and no socket
   * was opened, lost or let go since; and the keepalive runs from a proof to the
   * next loss or restart.
   */
  lemma {:induction false} TrustIsHistory(events: seq<Event>, w: World)
    requires Possible(START, events, w)
    ensures var st, marks := Run(START, events, w), Marks(START, events, w);
            st.ws == CurrentSocket(marks) &&
            (st.hostProven <==> Stands(marks, IsProved, KeepsTrust)) &&
            (st.keepalive <==> Stands(marks, IsProved, KeepsAwake))
  {
    StartFits(events, w);
  }

  /** The close that lost the current socket, with what the worker then shows and whether it retries by itself. */
  lemma {:induction false} LossShows(events: seq<Event>, s: SockId, code: int, w: World)
    requires Possible(START, events, w) && Enabled(Run(START, events, w), Closes(s, code)) && Run(START, events, w).ws == Some(s)
    ensures var st := Run(START, events, w); var after := Step(st, Closes(s, code), w).st;
            var wasRejected := Rejected(Marks(START, events, w));
            after.ws == None && !after.hostProven && !after.keepalive &&
            (after.status == BadToken <==> wasRejected || code == 4401) &&
            (after.status == Standby <==> !wasRejected && code == 4409) &&
            (after.status == Disconnected <==> !wasRejected && code != 4401 && code != 4409) &&
            (after.status == Disconnected ==> after.retryTimer.Some?) &&
            (after.status != Disconnected ==> after.retryTimer == st.retryTimer && after.timers == st.timers)
  {
    StartFits(events, w);
    var st := Run(START, events, w);
    CloseMoves(st, s, code);
    LossLeavesTimers(st, s, code);
  }

  lemma {:induction false} LossLeavesTimers(st: State, s: SockId, code: int)
    requires s in st.socks && st.ws == Some(s)
    ensures st.status == BadToken || code == 4401 || code == 4409 ==>
              OnClose(st, s, code).retryTimer == st.retryTimer && OnClose(st, s, code).timers == st.timers
  {
  }
}
