/** The replay's clock: between the replay's own time and the recorder's offsets, both clamped. Times are in milliseconds. */
module ReplayClock {
  import opened Wrappers

  /** A recording's start, the replay's zero, the recording's length and the length the replay's row gives, if any. */
  datatype Clock = Clock(t0: real, row: Option<real>, startTime: real, totalTime: real) {
    function Lead(): real { startTime - t0 }

    function CaptureEnd(): real { RMax(0.0, totalTime + Lead()) }

    function Duration(): real {
      if row.Some? && row.value > 0.0 then row.value else CaptureEnd()
    }

    function ToOffset(t: real): real { Clamp(Clamp(t, 0.0, Duration()) - Lead(), 0.0, totalTime) }

    function ToClock(offset: real): real { Clamp(offset + Lead(), 0.0, Duration()) }

    function EndOffset(): real { ToOffset(Duration()) }

    /** The recorded time nearest to a replay time, which may lie outside the replay when the two do not overlap. */
    function Nearest(t: real): real { Clamp(Clamp(t, 0.0, Duration()), Lead(), Lead() + RMax(0.0, totalTime)) }

    /** The replay time lies in the replay and was recorded. */
    predicate Recorded(t: real) { 0.0 <= t <= Duration() && Lead() <= t <= Lead() + RMax(0.0, totalTime) }
  }

  function RMax(x: real, y: real): real { if x < y then y else x }

  function RMin(x: real, y: real): real { if y < x then y else x }

  /** An upper bound below the lower one counts as the lower one. */
  function Clamp(x: real, lo: real, hi: real): real { RMin(RMax(x, lo), RMax(lo, hi)) }

  lemma {:induction false} ClampIsTheNearest(x: real, lo: real, hi: real, y: real)
    ensures var c := Clamp(x, lo, hi);
            lo <= c <= RMax(lo, hi) && (lo <= x <= RMax(lo, hi) <==> c == x) &&
            (lo <= y <= RMax(lo, hi) ==> (if x < c then c <= y else if c < x then y <= c else true))
  {
  }

  /** The replay is as long as its row says, if that says anything, else it ends with the recording. */
  lemma {:induction false} LengthIs(c: Clock)
    ensures c.row.Some? && c.row.value > 0.0 ==> c.Duration() == c.row.value
    ensures c.row.None? || c.row.value <= 0.0 ==> c.t0 + c.Duration() == RMax(c.t0, c.startTime + c.totalTime)
    ensures c.Duration() >= 0.0
  {
  }

  /** A recorded moment of the replay is the same moment on both clocks. */
  lemma {:induction false} SameMoment(c: Clock, offset: real)
    requires c.t0 <= c.startTime + offset <= c.t0 + c.Duration()
    ensures c.t0 + c.ToClock(offset) == c.startTime + offset
    ensures 0.0 <= offset <= c.totalTime ==> c.ToOffset(c.startTime + offset - c.t0) == offset
  {
  }

  /** Both maps stay in range and keep order. */
  lemma {:induction false} MapsAreMonotone(c: Clock, x: real, y: real)
    requires x <= y
    ensures 0.0 <= c.ToOffset(x) <= c.ToOffset(y) <= c.EndOffset() <= RMax(0.0, c.totalTime)
    ensures 0.0 <= c.ToClock(x) <= c.ToClock(y) <= c.Duration()
  {
  }

  /** An offset is where its time's nearest recorded time lies, and a time in the replay was recorded exactly if it is its own. */
  lemma {:induction false} OffsetIsTheNearest(c: Clock, t: real)
    ensures c.ToOffset(t) == c.Nearest(t) - c.Lead()
    ensures 0.0 <= t <= c.Duration() ==> (c.Recorded(t) <==> c.Nearest(t) == t)
  {
  }

  /** Going to an offset, back, and to an offset again stays where it was, for every time. */
  lemma {:induction false} OffsetsAreStable(c: Clock, t: real)
    ensures c.ToOffset(c.ToClock(c.ToOffset(t))) == c.ToOffset(t)
  {
  }

  /**
   * A replay time comes back as itself if and only if it was recorded, or is the
   * replay's end before the recording began, or its start after the recording ended.
   */
  lemma {:induction false} TimeComesBack(c: Clock, t: real)
    ensures c.ToClock(c.ToOffset(t)) == t <==>
            c.Recorded(t) || (t == c.Duration() && t < c.Lead()) || (t == 0.0 && c.Lead() + RMax(0.0, c.totalTime) < 0.0)
  {
  }

  /** Where playback stops reads as the nearer of the replay's end and the recording's. */
  lemma {:induction false} EndReadsAsTheNearerEnd(c: Clock)
    requires c.totalTime >= 0.0
    ensures c.ToClock(c.EndOffset()) == RMin(c.Duration(), c.CaptureEnd())
  {
  }
}

/** The player's controls: what each posts, and where each leaves the recorder's replayer. */
module Player {
  import opened Wrappers
  import opened ReplayClock

  datatype Post = State(playing: bool, speed: real) | Time(t: real, playing: bool)

  /** `at`: the replayer's current offset, which moves on while playing and stands while not. */
  datatype Player = Player(playing: bool, speed: real, at: real, posted: seq<Post>)

  datatype Event =
    | Elapse(to: real)
    | Toggle
    | Scrub(t: real)
    | HostSeek(t: real, play: Option<bool>)
    | HostPlay
    | HostPause
    | Speed(speed: real)
    | ReplayerFinished
    | Tick

  /** The recorder draws what came before an offset, so a place is drawn one millisecond on to show its own events too. */
  function DrawAt(offset: real): real { offset + 1.0 }

  /** Ready, paused at its start, which is the first time it posts. */
  function Opened(c: Clock, start: Option<real>): Player {
    var at := DrawAt(c.ToOffset(start.GetOr(0.0)));
    Player(false, 1.0, at, [Time(c.ToClock(at), false)])
  }

  function Report(c: Clock, p: Player): Player {
    p.(posted := p.posted + [State(p.playing, p.speed), Time(c.ToClock(p.at), p.playing)])
  }

  /** Played from its end the replay starts again; a place paused at is drawn past itself. */
  function SetPlaying(c: Clock, p: Player, on: bool, at: Option<real>): Player {
    var offset := if at.None? then p.at else c.ToOffset(at.value);
    Report(c, p.(playing := on,
                 at := if on then (if offset >= c.EndOffset() then c.ToOffset(0.0) else offset)
                       else if at.None? then offset else DrawAt(offset)))
  }

  function Finish(c: Clock, p: Player): Player { Report(c, p.(playing := false)) }

  function OnTick(c: Clock, p: Player): Player {
    if !p.playing then p
    else if p.at >= c.EndOffset() then Finish(c, p.(at := DrawAt(c.EndOffset())))
    else p.(posted := p.posted + [Time(c.ToClock(p.at), true)])
  }

  predicate Enabled(p: Player, ev: Event) { ev.Elapse? ==> p.playing && p.at <= ev.to }

  function Step(c: Clock, p: Player, ev: Event): Player
    requires Enabled(p, ev)
  {
    match ev
    case Elapse(to) => p.(at := to)
    case Toggle => SetPlaying(c, p, !p.playing, None)
    case Scrub(t) => SetPlaying(c, p, false, Some(t))
    case HostSeek(t, play) => SetPlaying(c, p, play.GetOr(p.playing), Some(t))
    case HostPlay => SetPlaying(c, p, true, None)
    case HostPause => SetPlaying(c, p, false, None)
    case Speed(speed) => p.(speed := speed, posted := p.posted + [State(p.playing, speed)])
    case ReplayerFinished => Finish(c, p)
    case Tick => OnTick(c, p)
  }

  predicate Possible(c: Clock, p: Player, events: seq<Event>)
    decreases |events|
  {
    events == [] || (Enabled(p, events[0]) && Possible(c, Step(c, p, events[0]), events[1..]))
  }

  function Run(c: Clock, p: Player, events: seq<Event>): Player
    requires Possible(c, p, events)
    decreases |events|
  {
    if events == [] then p else Run(c, Step(c, p, events[0]), events[1..])
  }

  // ---------------------------------------------------------------- what the host is told

  /** The state the host believes: the last one posted, or the one a player opens in. */
  function Believed(posted: seq<Post>): Post {
    if posted == [] then State(false, 1.0)
    else if Last(posted).State? then Last(posted)
    else Believed(Butlast(posted))
  }

  /** The last time posted, and whether it said the replay was playing. */
  function LastReport(posted: seq<Post>): Option<Post> {
    if posted == [] then None
    else if Last(posted).Time? then Some(Last(posted))
    else LastReport(Butlast(posted))
  }

  /** The last time posted says whether the replay plays, and while it does not, where it stands. */
  ghost predicate Reported(c: Clock, p: Player) {
    var report := LastReport(p.posted);
    report.Some? && report.value.Time? && report.value.playing == p.playing &&
    (!p.playing ==> report.value.t == c.ToClock(p.at))
  }

  ghost predicate TimesInRange(c: Clock, posted: seq<Post>) {
    forall i :: 0 <= i < |posted| && posted[i].Time? ==> 0.0 <= posted[i].t <= c.Duration()
  }

  ghost predicate Inv(c: Clock, p: Player) {
    TimesInRange(c, p.posted) && Believed(p.posted) == State(p.playing, p.speed) && Reported(c, p)
  }

  lemma {:induction false} BelievedAfter(posted: seq<Post>, post: Post)
    ensures Believed(posted + [post]) == if post.State? then post else Believed(posted)
    ensures LastReport(posted + [post]) == if post.Time? then Some(post) else LastReport(posted)
  {
    assert Butlast(posted + [post]) == posted;
  }

  lemma {:induction false} ReportTellsTheTruth(c: Clock, p: Player)
    requires TimesInRange(c, p.posted)
    ensures Inv(c, Report(c, p))
  {
    var state, time := State(p.playing, p.speed), Time(c.ToClock(p.at), p.playing);
    BelievedAfter(p.posted, state);
    BelievedAfter(p.posted + [state], time);
    assert Report(c, p).posted == p.posted + [state] + [time];
    MapsAreMonotone(c, p.at, p.at);
  }

  lemma {:induction false} StepInv(c: Clock, p: Player, ev: Event)
    requires Inv(c, p) && Enabled(p, ev)
    ensures Inv(c, Step(c, p, ev))
  {
    match ev {
      case Elapse(_) =>
      case Speed(speed) => BelievedAfter(p.posted, State(p.playing, speed));
      case Tick =>
        if p.playing && p.at >= c.EndOffset() {
          ReportTellsTheTruth(c, p.(at := DrawAt(c.EndOffset()), playing := false));
        } else {
          BelievedAfter(p.posted, Time(c.ToClock(p.at), true));
          MapsAreMonotone(c, p.at, p.at);
        }
      case ReplayerFinished => ReportTellsTheTruth(c, p.(playing := false));
      case Toggle => SetPlayingInv(c, p, !p.playing, None);
      case Scrub(t) => SetPlayingInv(c, p, false, Some(t));
      case HostSeek(t, play) => SetPlayingInv(c, p, play.GetOr(p.playing), Some(t));
      case HostPlay => SetPlayingInv(c, p, true, None);
      case HostPause => SetPlayingInv(c, p, false, None);
    }
  }

  lemma {:induction false} SetPlayingInv(c: Clock, p: Player, on: bool, at: Option<real>)
    requires TimesInRange(c, p.posted)
    ensures Inv(c, SetPlaying(c, p, on, at))
  {
    var offset := if at.None? then p.at else c.ToOffset(at.value);
    ReportTellsTheTruth(c, p.(playing := on,
                              at := if on then (if offset >= c.EndOffset() then c.ToOffset(0.0) else offset)
                                    else if at.None? then offset else DrawAt(offset)));
  }

  lemma {:induction false} RunInv(c: Clock, p: Player, events: seq<Event>)
    requires Inv(c, p) && Possible(c, p, events)
    ensures Inv(c, Run(c, p, events))
    decreases |events|
  {
    if events != [] {
      StepInv(c, p, events[0]);
      RunInv(c, Step(c, p, events[0]), events[1..]);
    }
  }

  /**
   * In every run every posted time is on the replay's clock, the last posted
   * state is the player's own, and the last posted time says whether it plays
   * and, while it does not, where it stands.
   */
  lemma {:induction false} HostIsToldTheTruth(c: Clock, start: Option<real>, events: seq<Event>)
    requires Possible(c, Opened(c, start), events)
    ensures var p := Run(c, Opened(c, start), events);
            TimesInRange(c, p.posted) && Believed(p.posted) == State(p.playing, p.speed) && Reported(c, p)
  {
    var p := Opened(c, start);
    BelievedAfter([], p.posted[0]);
    assert [] + [p.posted[0]] == p.posted;
    MapsAreMonotone(c, p.at, p.at);
    RunInv(c, p, events);
  }

  // ---------------------------------------------------------------- where playing ends

  predicate Leaves(ev: Event) { ev.Elapse? || ev.Tick? || ev.Speed? }

  /** How many of the events are ticks. */
  function Ticks(events: seq<Event>): nat {
    if events == [] then 0 else (if events[0].Tick? then 1 else 0) + Ticks(events[1..])
  }

  /**
   * A player left alone past its end plays on until the first tick and no
   * longer: then it stands drawn at the end, and stays there.
   */
  lemma {:induction false} PlayingEndsAtTheFirstTick(c: Clock, p: Player, events: seq<Event>)
    requires p.playing && p.at >= c.EndOffset() && Possible(c, p, events)
    requires forall i :: 0 <= i < |events| ==> Leaves(events[i])
    ensures var q := Run(c, p, events);
            q.playing == (Ticks(events) == 0) && (!q.playing ==> q.at == DrawAt(c.EndOffset()))
    decreases |events|
  {
    if events != [] {
      if events[0].Tick? {
        StandsStill(c, Step(c, p, events[0]), events[1..]);
      } else {
        PlayingEndsAtTheFirstTick(c, Step(c, p, events[0]), events[1..]);
      }
    }
  }

  lemma {:induction false} StandsStill(c: Clock, p: Player, events: seq<Event>)
    requires !p.playing && Possible(c, p, events)
    requires forall i :: 0 <= i < |events| ==> Leaves(events[i])
    ensures !Run(c, p, events).playing && Run(c, p, events).at == p.at
    decreases |events|
  {
    if events != [] {
      StandsStill(c, Step(c, p, events[0]), events[1..]);
    }
  }

  /** Before its end no tick stops it, however often it looks. */
  lemma {:induction false} PlaysUpToItsEnd(c: Clock, p: Player, events: seq<Event>)
    requires p.playing && p.at < c.EndOffset() && Possible(c, p, events)
    requires forall i :: 0 <= i < |events| ==> Leaves(events[i]) && (events[i].Elapse? ==> events[i].to < c.EndOffset())
    ensures Run(c, p, events).playing
    decreases |events|
  {
    if events != [] {
      PlaysUpToItsEnd(c, Step(c, p, events[0]), events[1..]);
    }
  }

  /**
   * Asked to play at its end, or anywhere past it, the replay starts again; it
   * survives the next tick if and only if it has anything to play at all.
   */
  lemma {:induction false} PlayAtTheEndStartsAgain(c: Clock, p: Player)
    requires p.at >= c.EndOffset()
    ensures var q := Step(c, p, HostPlay);
            q.playing && q.at == c.ToOffset(0.0) && (Step(c, q, Tick).playing <==> c.ToOffset(0.0) < c.EndOffset())
  {
  }

  // ---------------------------------------------------------------- where a seek lands

  function LastTime(p: Player): real
    requires p.posted != [] && Last(p.posted).Time?
  {
    Last(p.posted).t
  }

  /**
   * A seek to any time goes to the nearest recorded one. While playing it
   * reports that (from the end, the start); while paused a millisecond more,
   * because the millisecond the drawing adds is read back; either way no
   * further than the ends of the replay.
   */
  lemma {:induction false} SeekReports(c: Clock, p: Player, t: real, play: bool)
    ensures var q := Step(c, p, HostSeek(t, Some(play)));
            var shown := if !play then c.Nearest(t) + 1.0
                         else if c.Nearest(t) < c.Nearest(c.Duration()) then c.Nearest(t)
                         else c.Nearest(0.0);
            LastTime(q) == Clamp(shown, 0.0, c.Duration())
  {
    OffsetIsTheNearest(c, t);
    OffsetIsTheNearest(c, c.Duration());
    OffsetIsTheNearest(c, 0.0);
  }

  /**
   * So the time a paused seek reports is the time asked for if and only if that
   * is the replay's end and the recording ends no more than a millisecond
   * before it, or the millisecond after the recording's end, or the replay's
   * start when the recording ends at least a millisecond before it.
   */
  lemma {:induction false} PausedSeekIsExact(c: Clock, p: Player, t: real)
    ensures var past := c.Lead() + RMax(0.0, c.totalTime) + 1.0;
            LastTime(Step(c, p, Scrub(t))) == t <==>
            (t == c.Duration() && t <= past) || (0.0 <= t <= c.Duration() && t == past) || (t == 0.0 && past <= 0.0)
  {
  }

  // ---------------------------------------------------------------- what each control does

  /** Where the replayer is put for a time: the nearest recorded one, a millisecond on while paused; the start, asked to play at the end. */
  function Landing(c: Clock, t: real, play: bool): real {
    if !play then c.Nearest(t) - c.Lead() + 1.0
    else if c.Nearest(t) < c.Nearest(c.Duration()) then c.Nearest(t) - c.Lead()
    else c.Nearest(0.0) - c.Lead()
  }

  /** A seek keeps playing or paused what it does not ask to change, and scrubbing pauses; both land where the nearest recorded time lies. */
  lemma {:induction false} SeeksLand(c: Clock, p: Player, t: real, play: Option<bool>)
    ensures var q := Step(c, p, HostSeek(t, play));
            q.playing == (if play == None then p.playing else play == Some(true)) && q.speed == p.speed &&
            q.at == Landing(c, t, q.playing)
    ensures Step(c, p, Scrub(t)) == Step(c, p, HostSeek(t, Some(false)))
  {
    OffsetIsTheNearest(c, t);
    OffsetIsTheNearest(c, c.Duration());
    OffsetIsTheNearest(c, 0.0);
  }

  /** Pausing stands still, playing goes on from there unless it is the end, the button does whichever the player is not doing, and speed is all a change of speed changes. */
  lemma {:induction false} PlayAndPauseStay(c: Clock, p: Player)
    ensures var paused := Step(c, p, HostPause); !paused.playing && paused.at == p.at && paused.speed == p.speed
    ensures var played := Step(c, p, HostPlay);
            played.playing && played.speed == p.speed && (p.at < c.EndOffset() ==> played.at == p.at)
    ensures Step(c, p, Toggle) == Step(c, p, if p.playing then HostPause else HostPlay)
    ensures forall speed ::
              var q := Step(c, p, Speed(speed));
              q.playing == p.playing && q.at == p.at && q.speed == speed && Believed(q.posted) == State(p.playing, speed)
  {
  }

  /** While it plays each tick tells the host the time; when paused none says anything. */
  lemma {:induction false} TicksReport(c: Clock, p: Player)
    ensures var q := Step(c, p, Tick);
            (!p.playing ==> q == p) &&
            (p.playing ==> LastReport(q.posted) == Some(Time(
               if p.at < c.EndOffset() then c.ToClock(p.at) else c.ToClock(c.EndOffset() + 1.0), p.at < c.EndOffset())))
  {
    if p.playing {
      if p.at < c.EndOffset() {
        BelievedAfter(p.posted, Time(c.ToClock(p.at), true));
      } else {
        var state, time := State(false, p.speed), Time(c.ToClock(DrawAt(c.EndOffset())), false);
        BelievedAfter(p.posted + [state], time);
        assert p.posted + [state, time] == p.posted + [state] + [time];
      }
    }
  }

  /** A player opens paused where it was asked to start, or at the replay's zero, and says so first of all. */
  lemma {:induction false} OpensAtItsStart(c: Clock, start: Option<real>)
    ensures var p := Opened(c, start);
            !p.playing && p.at == Landing(c, start.GetOr(0.0), false) && p.posted == [Time(c.ToClock(p.at), false)]
  {
    OffsetIsTheNearest(c, start.GetOr(0.0));
  }

  // ---------------------------------------------------------------- the player, in place

  class Controls {
    const clock: Clock
    var playing: bool
    var speed: real
    var at: real
    var posted: seq<Post>

    ghost function State(): Player
      reads this
    {
      Player.Player(playing, speed, at, posted)
    }

    constructor (clock: Clock, start: Option<real>)
      ensures State() == Opened(clock, start) && this.clock == clock
    {
      this.clock := clock;
      playing, speed := false, 1.0;
      var offset := DrawAt(clock.ToOffset(start.GetOr(0.0)));
      at := offset;
      posted := [Time(clock.ToClock(offset), false)];
    }

    method SendState()
      modifies this`posted
      ensures State() == Report(clock, old(State()))
    {
      posted := posted + [Post.State(playing, speed)];
      posted := posted + [Time(clock.ToClock(at), playing)];
      assert posted == old(posted) + [Post.State(playing, speed), Time(clock.ToClock(at), playing)];
    }

    method Set(on: bool, target: Option<real>)
      modifies this`playing, this`at, this`posted
      ensures State() == SetPlaying(clock, old(State()), on, target)
    {
      var offset := if target.None? then at else clock.ToOffset(target.value);
      if on {
        at := if offset >= clock.EndOffset() then clock.ToOffset(0.0) else offset;
      } else {
        at := if target.None? then offset else DrawAt(offset);
      }
      playing := on;
      SendState();
    }

    method OnFinish()
      modifies this`playing, this`posted
      ensures State() == Finish(clock, old(State()))
    {
      playing := false;
      SendState();
    }

    method OnInterval()
      modifies this`playing, this`at, this`posted
      ensures State() == OnTick(clock, old(State()))
    {
      if !playing {
        return;
      }
      if at >= clock.EndOffset() {
        at := DrawAt(clock.EndOffset());
        OnFinish();
        return;
      }
      posted := posted + [Time(clock.ToClock(at), true)];
    }
  }
}
