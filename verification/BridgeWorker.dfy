/**
 * The worker as it runs: module variables updated in place by handlers. Each
 * handler is proved to be the step of the state machine it stands for.
 */
module BridgeWorker {
  import opened Wrappers
  import opened Bridge

  /** One unit's difference folded into all before it. */
  function Folded(diff: bv16, x: bv16, y: bv16): bv16 { diff | (x ^ y) }

  /** A unit that differs is never folded away. */
  lemma {:induction false} FoldIn(diff: bv16, x: bv16, y: bv16)
    ensures Folded(diff, x, y) == 0 <==> diff == 0 && x == y
  {
    assert x ^ y == 0 <==> x == y;
  }

  predicate SameUpTo(a: Units, b: Units, n: nat)
    requires |a| == |b| && n <= |b|
  {
    a[..n] == b[..n]
  }

  lemma {:induction false} SameUpToNext(a: Units, b: Units, n: nat)
    requires |a| == |b| && n < |b|
    ensures SameUpTo(a, b, n + 1) <==> SameUpTo(a, b, n) && a[n] == b[n]
  {
    assert a[..n + 1] == a[..n] + [a[n]] && b[..n + 1] == b[..n] + [b[n]];
  }

  lemma {:induction false} SameUpToAll(a: Units, b: Units)
    requires |a| == |b|
    ensures SameUpTo(a, b, |b|) <==> a == b
  {
    assert a[..|b|] == a && b[..|b|] == b;
  }

  /** Every code unit is folded in before the answer is looked at. */
  method SameUnits(a: Units, b: Units) returns (same: bool)
    requires |a| == |b|
    ensures same <==> a == b
  {
    var diff: bv16 := 0;
    for i := 0 to |b|
      invariant diff == 0 <==> SameUpTo(a, b, i)
    {
      FoldIn(diff, a[i], b[i]);
      SameUpToNext(a, b, i);
      diff := Folded(diff, a[i], b[i]);
    }
    SameUpToAll(a, b);
    return diff == 0;
  }

  /** Constant-time equality of strings of one length. */
  method SameHex(a: Option<Units>, b: Units) returns (same: bool)
    ensures same <==> a == Some(b)
  {
    if a.None? || |a.value| != |b| {
      return false;
    }
    same := SameUnits(a.value, b);
  }

  class Worker {
    var ws: Option<SockId>
    var hostProven: bool
    var status: Status
    var retries: nat
    var retryTimer: Option<nat>
    var timers: map<nat, nat>
    var keepalive: bool
    var bridgeConfig: Option<Config>
    var configVersion: nat
    var socks: map<SockId, Sock>
    var helloDue: set<SockId>
    var frames: map<nat, Frame>
    var tasks: map<nat, Task>
    var nextId: nat
    var threw: bool

    ghost function Now(): State
      reads this
    {
      State(ws, hostProven, status, retries, retryTimer, timers, keepalive, bridgeConfig, configVersion,
            socks, helloDue, frames, tasks, nextId, threw)
    }

    constructor ()
      ensures Now() == START
    {
      ws, hostProven, status, retries, retryTimer, timers := None, false, NoConfig, 0, None, map[];
      keepalive, bridgeConfig, configVersion, socks, helloDue := false, None, 0, map[], {};
      frames, tasks, nextId, threw := map[], map[], 0, false;
    }

    predicate IsLive()
      reads this
    {
      ws.Some? && ws.value in socks && (socks[ws.value].ready == Open || socks[ws.value].ready == Connecting)
    }

    method SendMessage(msg: Sent) returns (acts: seq<Act>)
      ensures acts == SendNow(Now(), msg)
    {
      if !hostProven && !msg.Hello? {
        return [];
      }
      if ws.Some? && ws.value in socks && socks[ws.value].ready == Open {
        return [Send(ws.value, msg)];
      }
      return [];
    }

    method ScheduleRetry()
      modifies this`retries, this`retryTimer, this`timers, this`nextId
      ensures Now() == Bridge.ScheduleRetry(old(Now()))
    {
      if retryTimer.Some? {
        return;
      }
      var delay := RETRY_MS[Min(retries, 2)];
      retries := retries + 1;
      retryTimer := Some(nextId);
      timers := timers[nextId := delay];
      nextId := nextId + 1;
    }

    method ResetRetries()
      modifies this`retries, this`retryTimer, this`timers
      ensures Now() == Bridge.ResetRetries(old(Now()))
    {
      if retryTimer.Some? {
        timers := timers - {retryTimer.value};
      }
      retryTimer := None;
      retries := 0;
    }

    /** `connect`, up to the await on the config. */
    method Connect()
      modifies this`frames, this`nextId
      ensures Now() == Bridge.Connect(old(Now()))
    {
      if IsLive() {
        return;
      }
      frames := frames[nextId := if bridgeConfig.Some? then Holding(bridgeConfig) else Reading(configVersion)];
      nextId := nextId + 1;
    }

    /** `connect` from the config on. */
    method UseConfig(frame: nat, nonce: Units, w: World)
      requires frame in frames && frames[frame].Holding?
      modifies this`frames, this`nextId, this`status, this`ws, this`hostProven, this`socks, this`threw
      ensures Now() == Bridge.UseConfig(old(Now()), frame, nonce, w)
    {
      var cfg := frames[frame].cfg;
      frames := frames - {frame};
      if cfg.None? || cfg.value.token == [] || cfg.value.port == "" {
        status := NoConfig;
        return;
      }
      if IsLive() {
        return;
      }
      if !w.urlOk(cfg.value.port) {
        threw := true;
        return;
      }
      OpenSocket(cfg.value, nonce);
    }

    method OpenSocket(cfg: Config, nonce: Units)
      modifies this`nextId, this`status, this`ws, this`hostProven, this`socks
      ensures Now() == Bridge.OpenSocket(old(Now()), cfg, nonce)
    {
      socks := socks[nextId := Sock(Connecting, cfg, nonce, false, NotAsked, true)];
      ws := Some(nextId);
      nextId := nextId + 1;
      if status != BadToken && status != Standby {
        status := ConnectingNow;
      }
      hostProven := false;
    }

    method Close(s: SockId)
      requires s in socks
      modifies this`socks
      ensures socks == old(socks)[s := CloseSock(old(socks[s]))]
    {
      if socks[s].ready == Open || socks[s].ready == Connecting {
        socks := socks[s := socks[s].(ready := Closing)];
      }
      assert socks == old(socks)[s := CloseSock(old(socks[s]))];
    }

    /** The proof check from its HMAC on. */
    method CheckProof(s: SockId, w: World)
      requires s in socks && socks[s].proving.Checking?
      modifies this
      ensures Now() == Bridge.CheckProof(old(Now()), s, w)
    {
      var claim := socks[s].proving.claim;
      var valid := SameHex(claim, w.hmac(socks[s].cfg.token, socks[s].nonce));
      socks := socks[s := socks[s].(proving := Settled(claim))];
      if ws != Some(s) || socks[s].ready != Open {
        return;
      }
      if valid {
        Accept(s);
      } else {
        Close(s);
        assert socks == old(socks)[s := socks[s]];
        status := BadToken;
      }
    }

    method Accept(s: SockId)
      requires s in socks
      modifies this
      ensures Now() == Bridge.Accept(old(Now()), s)
    {
      socks := socks[s := socks[s].(proven := true, deadline := false)];
      hostProven := true;
      ResetRetries();
      keepalive := true;
      status := Connected;
    }

    method OnDeadline(s: SockId)
      requires s in socks
      modifies this`socks
      ensures Now() == Bridge.OnDeadline(old(Now()), s)
    {
      socks := socks[s := socks[s].(deadline := false)];
      if socks[s].proven || ws != Some(s) {
        return;
      }
      Close(s);
      assert socks == old(socks)[s := socks[s]];
    }

    method OnClose(s: SockId, code: int)
      requires s in socks
      modifies this
      ensures Now() == Bridge.OnClose(old(Now()), s, code)
    {
      socks := socks[s := socks[s].(ready := Closed, deadline := false)];
      if ws != Some(s) {
        return;
      }
      ws := None;
      hostProven := false;
      keepalive := false;
      if status == BadToken {
        return;
      }
      if code == 4401 {
        status := BadToken;
      } else if code == 4409 {
        status := Standby;
      } else {
        status := Disconnected;
        ScheduleRetry();
      }
    }

    method Reconnect(refresh: bool)
      modifies this
      ensures Now() == Bridge.Reconnect(old(Now()), refresh)
    {
      LetGo();
      ResetRetries();
      assert Now() == Bridge.ResetRetries(Bridge.LetGo(old(Now())));
      status := Disconnected;
      if refresh {
        bridgeConfig := None;
        configVersion := configVersion + 1;
      }
      assert Now() == Idle(old(Now()), refresh);
      Connect();
    }

    method LetGo()
      modifies this`socks, this`ws, this`hostProven, this`keepalive
      ensures Now() == Bridge.LetGo(old(Now()))
    {
      if ws.Some? && ws.value in socks {
        Close(ws.value);
      }
      ws := None;
      hostProven := false;
      keepalive := false;
    }

    /** `onmessage`, up to whatever it awaits. */
    method OnMessage(s: SockId, msg: Message) returns (acts: seq<Act>)
      requires s in socks
      modifies this`socks, this`tasks, this`nextId
      ensures Out(Now(), acts) == Bridge.OnMessage(old(Now()), s, msg)
    {
      if ws != Some(s) || msg.Garbage? {
        return [];
      }
      if !socks[s].proven {
        if msg.Welcome? {
          if socks[s].proving.NotAsked? {
            socks := socks[s := socks[s].(proving := Checking(msg.proof))];
          }
          return [];
        }
        if socks[s].proving.NotAsked? {
          return [];
        }
        tasks := tasks[nextId := AwaitingProof(s, msg)];
        nextId := nextId + 1;
        return [];
      }
      acts := DispatchMessage(s, msg);
    }

    method DispatchMessage(s: SockId, msg: Message) returns (acts: seq<Act>)
      modifies this`tasks, this`nextId
      ensures Out(Now(), acts) == Dispatch(old(Now()), s, msg)
    {
      match msg {
        case Ping =>
          acts := SendMessage(PongOut);
        case Op(id) =>
          tasks := tasks[nextId := AwaitingOp(s, id)];
          nextId := nextId + 1;
          acts := [RunOp(s, id)];
        case _ =>
          acts := [];
      }
    }
  }
}
