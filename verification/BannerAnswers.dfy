/** What each banner request is answered in a whole run, said of the run's own history. */
module BannerAnswers {
  import opened Wrappers
  import opened RecentKeys
  import opened BannerGate
  import opened BannerRuns

  // The duplicate memory

  /** What a request puts in the duplicate memory: its key, unless it was dropped as already in view or as a duplicate. */
  function Entry(c: Clocked, e: Event, r: Rules): Seen {
    if !e.Ask? then []
    else
      var reply := Admit(c.gate, e.onScreen, e.payload, c.now, r).1;
      if reply == Answered(Dropped(FocusedActive)) || reply == Answered(Dropped(Duplicate)) then []
      else [(e.payload.key, c.now)]
  }

  /** The keys let through in a run, each with the time it was asked. */
  function LetThrough(c: Clocked, events: seq<Event>, r: Rules): Seen
    requires Possible(c, events, r)
    decreases |events|
  {
    if events == [] then [] else Entry(c, events[0], r) + LetThrough(Step(c, events[0], r), events[1..], r)
  }

  /** The key was let through within the last minute. */
  ghost predicate Lately(log: Seen, key: string, now: int) {
    exists i :: 0 <= i < |log| && log[i].0 == key && now - log[i].1 <= RECENT_TTL_MS
  }

  /** The memory holds nothing but keys let through, and every one of the last minute. */
  ghost predicate Recalls(recent: Seen, log: Seen, now: int) {
    (forall e | e in recent :: e in log) && (forall e | e in log && now - e.1 <= RECENT_TTL_MS :: e in recent)
  }

  lemma {:induction false} PurgeRecalls(recent: Seen, log: Seen, now: int)
    requires Recalls(recent, log, now)
    ensures Recalls(Purge(recent, now, RECENT_TTL_MS), log, now)
  {
    PurgeKeeps(recent, now, RECENT_TTL_MS);
    var kept := Purge(recent, now, RECENT_TTL_MS);
    forall e | e in kept
      ensures e in log
    {
      var i :| 0 <= i < |kept| && kept[i] == e;
      assert kept[i] in recent;
    }
  }

  lemma {:induction false} AskRecalls(c: Clocked, e: Event, r: Rules, log: Seen)
    requires Sound(c.gate, r) && e.Ask? && Recalls(c.gate.recent, log, c.now)
    ensures Recalls(Step(c, e, r).gate.recent, log + Entry(c, e, r), c.now)
  {
    var p := e.payload;
    var (unseen, recent) := Claim(c.gate.recent, p.key, c.now, RECENT_TTL_MS);
    PurgeRecalls(c.gate.recent, log, c.now);
    ClaimFailsWhileCooling(c.gate.recent, p.key, c.now, RECENT_TTL_MS);
    AdmitExactly(c.gate, e.onScreen, p, c.now, r);
    AdmitChangesOnly(c.gate, e.onScreen, p, c.now, r);
    assert log + [] == log;
  }

  lemma {:induction false} RunRecalls(c: Clocked, events: seq<Event>, r: Rules, log: Seen)
    requires Sound(c.gate, r) && Possible(c, events, r) && Forward(c.now, events) && Recalls(c.gate.recent, log, c.now)
    ensures var end := Run(c, events, r); Recalls(end.gate.recent, log + LetThrough(c, events, r), end.now)
    decreases |events|
  {
    if events == [] {
      assert log + [] == log;
    } else {
      var e, next := events[0], Step(c, events[0], r);
      StepSound(c, e, r);
      if e.Ask? {
        AskRecalls(c, e, r, log);
      } else {
        assert log + Entry(c, e, r) == log;
        if e.GraceEnds? {
          RunOutExactly(c.gate, e.hold, c.now, r);
          RunOutForgetsNothing(c.gate, e.hold, c.now, r);
        }
      }
      RunRecalls(next, events[1..], r, log + Entry(c, e, r));
      Regroup(log, Entry(c, e, r), LetThrough(next, events[1..], r));
    }
  }

  lemma {:induction false} RunOutForgetsNothing(g: Gate, hold: nat, now: int, r: Rules)
    requires Sound(g, r) && hold in g.timers
    ensures RunOut(g, hold, now, r).recent == g.recent
  {
    var t := g.timers[hold];
    FireExactly(g.(held := g.held - {t.key}, timers := g.timers - {hold}), t.payload, Some(t.key), now, r);
  }

  lemma {:induction false} RecallsLately(recent: Seen, log: Seen, key: string, now: int)
    requires Distinct(recent) && Recalls(recent, log, now)
    ensures Cooling(recent, key, now, RECENT_TTL_MS) <==> Lately(log, key, now)
  {
    FindMeans(recent, key);
    if Cooling(recent, key, now, RECENT_TTL_MS) {
      var e := (key, Find(recent, key).value);
      assert e in recent;
      var k :| 0 <= k < |log| && log[k] == e;
      assert log[k].0 == key;
    }
    if Lately(log, key, now) {
      var i :| 0 <= i < |log| && log[i].0 == key && now - log[i].1 <= RECENT_TTL_MS;
      var k :| 0 <= k < |recent| && recent[k] == log[i];
      var m :| 0 <= m < |recent| && recent[m] == (key, Find(recent, key).value);
      assert k == m;
    }
  }

  /** With a clock that does not go back, the memory knows a key if and only if it was let through within the last minute. */
  lemma {:induction false} KnownExactly(start: int, events: seq<Event>, p: Payload, r: Rules)
    requires Possible(Clocked(START, start), events, r) && Forward(start, events)
    ensures var c, end := Clocked(START, start), Run(Clocked(START, start), events, r);
            Known(end.gate, p, end.now) <==> Lately(LetThrough(c, events, r), p.key, end.now)
  {
    var c, end := Clocked(START, start), Run(Clocked(START, start), events, r);
    var log, recent := LetThrough(c, events, r), end.gate.recent;
    StartInv(start, r);
    RunRecalls(c, events, r, []);
    assert [] + log == log;
    EveryStateIsSound(start, events, r);
    RecallsLately(recent, log, p.key, end.now);
  }

  // Answers

  /**
   * In every run, clock set back or not, a ring is answered Shown and put up at
   * once if and only if its key is not cooling in the duplicate memory, else
   * Duplicate: whatever is on screen, held or cooling, and leaving all of that
   * alone.
   */
  lemma {:induction false} RingsAreShownExactly(start: int, events: seq<Event>, onScreen: bool, p: Payload, r: Rules)
    requires Possible(Clocked(START, start), events, r) && p.force
    ensures var end := Run(Clocked(START, start), events, r);
            var (after, reply) := Admit(end.gate, onScreen, p, end.now, r);
            var known := Cooling(end.gate.recent, p.key, end.now, 60_000);
            reply == Answered(if known then Dropped(Duplicate) else Shown) &&
            after.delivered == end.gate.delivered + (if known then [] else [Delivery(p, None, end.now)]) &&
            after.held == end.gate.held && after.timers == end.gate.timers && after.cooldown == end.gate.cooldown &&
            after.resolved == end.gate.resolved
  {
    var end := Run(Clocked(START, start), events, r);
    EveryStateIsSound(start, events, r);
    AdmitExactly(end.gate, onScreen, p, end.now, r);
    AdmitChangesOnly(end.gate, onScreen, p, end.now, r);
  }

  /** With a clock that does not go back, that is if and only if no request with its key was let through within the last minute. */
  lemma {:induction false} RingsAreShownOnceAMinute(start: int, events: seq<Event>, onScreen: bool, p: Payload, r: Rules)
    requires Possible(Clocked(START, start), events, r) && Forward(start, events) && p.force
    ensures var c, end := Clocked(START, start), Run(Clocked(START, start), events, r);
            Admit(end.gate, onScreen, p, end.now, r).1 == Answered(Shown) <==>
            !Lately(LetThrough(c, events, r), p.key, end.now)
  {
    RingsAreShownExactly(start, events, onScreen, p, r);
    KnownExactly(start, events, p, r);
  }

  /**
   * In every run a request is answered FocusedActive if and only if it is no
   * ring and a focused window shows what it is about; that leaves no trace but
   * the answer, so the same request is let through once it is out of view.
   */
  lemma {:induction false} InViewExactly(start: int, events: seq<Event>, onScreen: bool, p: Payload, r: Rules)
    requires Possible(Clocked(START, start), events, r)
    ensures var end := Run(Clocked(START, start), events, r);
            var (after, reply) := Admit(end.gate, onScreen, p, end.now, r);
            (reply == Answered(Dropped(FocusedActive)) <==> !p.force && onScreen) &&
            (reply == Answered(Dropped(FocusedActive)) ==>
               after == end.gate.(answers := end.gate.answers + [Dropped(FocusedActive)]))
  {
    var end := Run(Clocked(START, start), events, r);
    EveryStateIsSound(start, events, r);
    AdmitExactly(end.gate, onScreen, p, end.now, r);
  }

  /** With a clock that does not go back, a request is a duplicate if and only if it is not dropped as in view and its key was let through within the last minute. */
  lemma {:induction false} DuplicatesExactly(start: int, events: seq<Event>, onScreen: bool, p: Payload, r: Rules)
    requires Possible(Clocked(START, start), events, r) && Forward(start, events)
    ensures var c, end := Clocked(START, start), Run(Clocked(START, start), events, r);
            Admit(end.gate, onScreen, p, end.now, r).1 == Answered(Dropped(Duplicate)) <==>
            (p.force || !onScreen) && Lately(LetThrough(c, events, r), p.key, end.now)
  {
    var end := Run(Clocked(START, start), events, r);
    EveryStateIsSound(start, events, r);
    AdmitExactly(end.gate, onScreen, p, end.now, r);
    KnownExactly(start, events, p, r);
  }

  /**
   * In every run: an unforced request off the screen and no duplicate, of a
   * conversation neither held nor cooling, is promised an answer; so exactly is
   * no other. The rest are dropped for the conversation's hold or its cooldown,
   * or, completions and banners without a conversation, put up at once.
   */
  lemma {:induction false} HeldExactly(start: int, events: seq<Event>, onScreen: bool, p: Payload, r: Rules)
    requires Possible(Clocked(START, start), events, r)
    ensures var end := Run(Clocked(START, start), events, r);
            var reply := Admit(end.gate, onScreen, p, end.now, r).1;
            var novel := (p.force || !onScreen) && !Cooling(end.gate.recent, p.key, end.now, 60_000);
            match Episode(p)
            case None => novel <==> reply == Answered(Shown)
            case Some(key) =>
              var cooling, held := Cooling(end.gate.cooldown, key, end.now, r.cooldownMs), key in end.gate.held;
              (reply.Promised? <==> novel && !p.completion && !held && !cooling) &&
              (reply == Answered(Dropped(Burst)) <==> novel && !p.completion && held) &&
              (reply == Answered(Dropped(InCooldown)) <==> novel && cooling && (p.completion || !held)) &&
              (reply == Answered(Shown) <==> novel && p.completion && !cooling)
  {
    var end := Run(Clocked(START, start), events, r);
    EveryStateIsSound(start, events, r);
    AdmitExactly(end.gate, onScreen, p, end.now, r);
    if Episode(p).Some? {
      assert Unseen(onScreen, p) && !Known(end.gate, p, end.now) ==> Enters(end.gate, onScreen, p, Episode(p).value, end.now);
    }
  }

  // Promises

  lemma {:induction false} ResolvedStays(g: Gate, after: Gate, hold: nat)
    requires IsResolved(g.resolved, hold) && g.resolved <= after.resolved
    ensures IsResolved(after.resolved, hold)
  {
    var i :| 0 <= i < |g.resolved| && g.resolved[i].0 == hold;
    assert after.resolved[i].0 == hold;
  }

  /** A step leaves a hold's timer as it is or settles its promise, and takes no promise back. */
  lemma {:induction false} StepWaits(c: Clocked, e: Event, r: Rules, hold: nat)
    requires Sound(c.gate, r) && Enabled(c, e) && hold < c.gate.nextHold
    ensures var next := Step(c, e, r).gate;
            hold < next.nextHold && c.gate.resolved <= next.resolved &&
            (hold in next.timers ==> hold in c.gate.timers && next.timers[hold] == c.gate.timers[hold])
  {
    match e {
      case Reads(_) =>
      case Ask(onScreen, p) =>
        AdmitChangesOnly(c.gate, onScreen, p, c.now, r);
      case GraceEnds(h) =>
        var t := c.gate.timers[h];
        FireExactly(c.gate.(held := c.gate.held - {t.key}, timers := c.gate.timers - {h}), t.payload, Some(t.key), c.now, r);
    }
  }

  lemma {:induction false} HoldWaits(c: Clocked, events: seq<Event>, r: Rules, hold: nat)
    requires Sound(c.gate, r) && Possible(c, events, r) && hold < c.gate.nextHold
    ensures var end := Run(c, events, r).gate;
            c.gate.resolved <= end.resolved && hold < end.nextHold &&
            (hold in end.timers ==> hold in c.gate.timers && end.timers[hold] == c.gate.timers[hold])
    decreases |events|
  {
    if events != [] {
      StepWaits(c, events[0], r, hold);
      StepSound(c, events[0], r);
      HoldWaits(Step(c, events[0], r), events[1..], r, hold);
    }
  }

  /**
   * In every run a request that was promised an answer waits with a timer set
   * for graceMs after it was asked, under its own conversation and with its own
   * banner, until it is answered; whatever else is asked meanwhile.
   */
  lemma {:induction false} PromiseIsKept(start: int, before: seq<Event>, onScreen: bool, p: Payload, after: seq<Event>, r: Rules)
    requires Possible(Clocked(START, start), before, r)
    requires var mid := Run(Clocked(START, start), before, r);
             Admit(mid.gate, onScreen, p, mid.now, r).1.Promised? && Possible(Step(mid, Ask(onScreen, p), r), after, r)
    ensures var mid := Run(Clocked(START, start), before, r);
            var hold := Admit(mid.gate, onScreen, p, mid.now, r).1.hold;
            var end := Run(Step(mid, Ask(onScreen, p), r), after, r).gate;
            p.conversation.Some? &&
            (IsResolved(end.resolved, hold) <==> hold !in end.timers) &&
            (hold in end.timers ==> end.timers[hold] == Timer(mid.now + r.graceMs, p.conversation.value, p))
  {
    var mid := Run(Clocked(START, start), before, r);
    var e := Ask(onScreen, p);
    EveryStateIsSound(start, before, r);
    AdmitChangesOnly(mid.gate, onScreen, p, mid.now, r);
    AdmitExactly(mid.gate, onScreen, p, mid.now, r);
    StepSound(mid, e, r);
    var hold := Admit(mid.gate, onScreen, p, mid.now, r).1.hold;
    HoldWaits(Step(mid, e, r), after, r, hold);
    RunSound(Step(mid, e, r), after, r);
  }
}
