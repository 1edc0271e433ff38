/** Teammates' cursors on the sharer's own screen: where a share is, and the one glass window that draws over it. */
module ShareCursors {
  import opened Wrappers
  import opened Text

  const MAX_CURSORS := 24
  const MAX_NAME := 80

  // ---------------------------------------------------------------- what a renderer sends

  /** A field is None when it is missing or not of its type (a number that is not finite is not a number here). */
  datatype Raw = Junk | Raw(id: Option<string>, name: Option<string>, nx: Option<real>, ny: Option<real>)

  datatype Cursor = Cursor(id: string, name: string, nx: real, ny: real)

  function Clamp01(v: real): real {
    if v < 0.0 then 0.0 else if 1.0 < v then 1.0 else v
  }

  predicate Drawable(c: Raw) { c.Raw? && c.id.Some? && c.id.value != "" && c.nx.Some? && c.ny.Some? }

  function Cut<T>(s: seq<T>, n: nat): seq<T> { if |s| <= n then s else s[..n] }

  function Cleaned(c: Raw): Cursor
    requires Drawable(c)
  {
    Cursor(c.id.value, Cut(c.name.GetOr(""), MAX_NAME), Clamp01(c.nx.value), Clamp01(c.ny.value))
  }

  /** The drawable ones of a list, in order, cleaned. */
  function DrawableOf(list: seq<Raw>): seq<Cursor> {
    if list == [] then []
    else DrawableOf(Butlast(list)) + if Drawable(Last(list)) then [Cleaned(Last(list))] else []
  }

  /** What is not a list has none. */
  method SanitizeCursors(list: Option<seq<Raw>>) returns (cursors: seq<Cursor>)
    ensures cursors == Sanitized(list)
  {
    if list.None? {
      return [];
    }
    var first := Cut(list.value, MAX_CURSORS);
    cursors := [];
    for i := 0 to |first|
      invariant cursors == DrawableOf(first[..i])
    {
      assert Butlast(first[..i + 1]) == first[..i];
      var c := first[i];
      if !Drawable(c) {
        continue;
      }
      cursors := cursors + [Cleaned(c)];
    }
    assert first[..|first|] == first;
  }

  function Sanitized(list: Option<seq<Raw>>): seq<Cursor> {
    if list.None? then [] else DrawableOf(Cut(list.value, MAX_CURSORS))
  }

  predicate Neat(c: Cursor) {
    c.id != "" && |c.name| <= MAX_NAME && 0.0 <= c.nx <= 1.0 && 0.0 <= c.ny <= 1.0
  }

  lemma {:induction false} DrawablesAreNeat(list: seq<Raw>)
    ensures |DrawableOf(list)| <= |list| && forall c :: c in DrawableOf(list) ==> Neat(c)
    ensures DrawableOf(list) == [] <==> forall i :: 0 <= i < |list| ==> !Drawable(list[i])
  {
    if list != [] {
      DrawablesAreNeat(Butlast(list));
      if !Drawable(Last(list)) && DrawableOf(list) == [] {
        forall i | 0 <= i < |list| ensures !Drawable(list[i]) {
          assert i < |list| - 1 ==> list[i] == Butlast(list)[i];
        }
      }
    }
  }

  /** What the glass is given: no more than it draws, each named and inside the frame; nothing only if nothing drawable came first. */
  lemma {:induction false} SanitizedIsNeat(list: Option<seq<Raw>>)
    ensures |Sanitized(list)| <= MAX_CURSORS && forall c :: c in Sanitized(list) ==> Neat(c)
    ensures Sanitized(list) == [] <==>
            list.None? || forall i :: 0 <= i < |list.value| && i < MAX_CURSORS ==> !Drawable(list.value[i])
  {
    if list.Some? {
      DrawablesAreNeat(Cut(list.value, MAX_CURSORS));
    }
  }

  /** The cursor of a drawable one: its id, its name up to the longest drawn, and the point nearest to its own inside the frame. */
  predicate CleansTo(c: Raw, to: Cursor) {
    Drawable(c) && to.id == c.id.value &&
    (if c.name.Some? then to.name <= c.name.value && |to.name| == Min(MAX_NAME, |c.name.value|) else to.name == "") &&
    NearestInside(c.nx.value, to.nx) && NearestInside(c.ny.value, to.ny)
  }

  predicate NearestInside(v: real, to: real) {
    0.0 <= to <= 1.0 && (0.0 <= v <= 1.0 ==> to == v) && (v < 0.0 ==> to == 0.0) && (v > 1.0 ==> to == 1.0)
  }

  /** Each drawable one among the first is given, cleaned, after those before it; there are no others. */
  lemma {:induction false} DrawablesInOrder(list: seq<Raw>, k: nat)
    requires k < |list|
    ensures var at := |DrawableOf(list[..k])|;
            |DrawableOf(list[..k + 1])| == at + (if Drawable(list[k]) then 1 else 0) <= |DrawableOf(list)| &&
            (Drawable(list[k]) ==> CleansTo(list[k], DrawableOf(list)[at]))
    decreases |list|
  {
    var less := Butlast(list);
    if k == |list| - 1 {
      assert list[..k] == less && list[..k + 1] == list;
    } else {
      DrawablesInOrder(less, k);
      assert less[..k] == list[..k] && less[..k + 1] == list[..k + 1] && less[k] == list[k];
    }
  }

  lemma {:induction false} SanitizedInOrder(list: seq<Raw>, k: nat)
    requires k < |list| && k < MAX_CURSORS
    ensures var at := |DrawableOf(list[..k])|;
            |DrawableOf(list[..k + 1])| == at + (if Drawable(list[k]) then 1 else 0) <= |Sanitized(Some(list))| &&
            (Drawable(list[k]) ==> CleansTo(list[k], Sanitized(Some(list))[at]))
  {
    var first := Cut(list, MAX_CURSORS);
    assert first[..k] == list[..k] && first[..k + 1] == list[..k + 1] && first[k] == list[k];
    DrawablesInOrder(first, k);
  }

  // ---------------------------------------------------------------- where a share is

  datatype Rect = Rect(x: int, y: int, width: int, height: int)

  datatype Display = Display(id: string, bounds: Rect)

  datatype Frame = Frame(x: real, y: real, width: real, height: real, onscreen: bool)

  /** The displays, and the frames of the windows the window system knows. */
  datatype World = World(displays: seq<Display>, frames: map<nat, Frame>)

  /** An empty display id stands for none. */
  datatype Source = Source(id: string, displayId: string)

  const SCREEN := "screen:"
  const WINDOW := "window:"

  predicate IsWindow(s: Source) { StartsWith(s.id, WINDOW) }

  /** Math.round. */
  function Round(x: real): int { (x + 0.5).Floor }

  function UpTo(s: string, stop: char): string {
    if s == "" || s[0] == stop then "" else [s[0]] + UpTo(s[1..], stop)
  }

  function DisplayBounds(displays: seq<Display>, id: string): Option<Rect> {
    if displays == [] then None
    else if displays[0].id == id then Some(displays[0].bounds)
    else DisplayBounds(displays[1..], id)
  }

  /** The number between "window:" and the next colon. */
  function WindowNumber(id: string): Option<nat>
    requires StartsWith(id, WINDOW)
  {
    match TakeNat(id[|WINDOW|..])
    case Some((n, rest)) => if StartsWith(rest, ":") then Some(n) else None
    case None => None
  }

  function SourceRect(s: Source, w: World): Option<Rect> {
    if StartsWith(s.id, SCREEN) then
      DisplayBounds(w.displays, if s.displayId != "" then s.displayId else UpTo(s.id[|SCREEN|..], ':'))
    else if IsWindow(s) && WindowNumber(s.id).Some? && WindowNumber(s.id).value in w.frames then
      var f := w.frames[WindowNumber(s.id).value];
      if f.onscreen && f.width > 0.0 && f.height > 0.0 then
        Some(Rect(Round(f.x), Round(f.y), Round(f.width), Round(f.height)))
      else None
    else None
  }

  lemma {:induction false} DisplayIsFound(displays: seq<Display>, id: string)
    ensures DisplayBounds(displays, id) == None <==> forall d | d in displays :: d.id != id
    ensures DisplayBounds(displays, id).Some? ==> Display(id, DisplayBounds(displays, id).value) in displays
  {
    if displays != [] {
      DisplayIsFound(displays[1..], id);
      assert forall d | d in displays :: d == displays[0] || d in displays[1..];
    }
  }

  lemma {:induction false} UpToIs(name: string, stop: char, rest: string)
    requires stop !in name
    ensures UpTo(name + [stop] + rest, stop) == name
  {
    if name != "" {
      assert name[0] in name && (name + [stop] + rest)[1..] == name[1..] + [stop] + rest;
      UpToIs(name[1..], stop, rest);
    }
  }

  /** A screen is where the display of its id is, the id being the one that came with it or else the one it is named by. */
  lemma {:induction false} ScreenIsItsDisplay(name: string, rest: string, displayId: string, w: World)
    requires ':' !in name
    ensures var s, id := Source(SCREEN + (name + ":" + rest), displayId), if displayId != "" then displayId else name;
            (SourceRect(s, w) == None <==> forall d | d in w.displays :: d.id != id) &&
            (SourceRect(s, w).Some? ==> Display(id, SourceRect(s, w).value) in w.displays)
  {
    var s := Source(SCREEN + (name + ":" + rest), displayId);
    assert s.id[|SCREEN|..] == name + [':'] + rest;
    UpToIs(name, ':', rest);
    DisplayIsFound(w.displays, if displayId != "" then displayId else name);
  }

  /** The whole number nearest to x, the higher of two. */
  predicate Rounds(x: real, n: int) { n as real - 0.5 <= x < n as real + 0.5 }

  predicate RoundsFrame(f: Frame, r: Rect) {
    Rounds(f.x, r.x) && Rounds(f.y, r.y) && Rounds(f.width, r.width) && Rounds(f.height, r.height)
  }

  /** A window is where the window system has the frame of its number, rounded, exactly while that is on screen and not empty. */
  lemma {:induction false} WindowIsItsFrame(n: nat, rest: string, displayId: string, w: World)
    ensures var r := SourceRect(Source(WINDOW + (Decimal(n) + (":" + rest)), displayId), w);
            (r.Some? <==> n in w.frames && w.frames[n].onscreen && w.frames[n].width > 0.0 && w.frames[n].height > 0.0) &&
            (r.Some? ==> RoundsFrame(w.frames[n], r.value))
  {
    var s := Source(WINDOW + (Decimal(n) + (":" + rest)), displayId);
    assert s.id[0] == 'w';
    assert s.id[|WINDOW|..] == Decimal(n) + (":" + rest);
    TakeDecimal(n, ":" + rest);
  }

  // ---------------------------------------------------------------- the machine

  type Wc = nat

  /** A new glass is invisible, wherever the window system put it. */
  datatype Glass = Glass(visible: bool, bounds: Option<Rect>, drawn: seq<Cursor>)

  const NEW_GLASS := Glass(false, None, [])

  /** `glass` is None while there is none or it has been destroyed; `poll`: the timer that follows a shared window. */
  datatype State = State(sources: map<Wc, Source>, owner: Option<Wc>, cursors: seq<Cursor>, rect: Option<Rect>, poll: bool, glass: Option<Glass>)

  const START := State(map[], None, [], None, false, None)

  function Owned(s: State): Option<Source> {
    if s.owner.Some? && s.owner.value in s.sources then Some(s.sources[s.owner.value]) else None
  }

  function Now(source: Option<Source>, w: World): Option<Rect> {
    if source.None? then None else SourceRect(source.value, w)
  }

  function GlassHidden(g: Option<Glass>): Option<Glass> {
    if g.Some? && g.value.visible then Some(g.value.(visible := false)) else g
  }

  function Hide(s: State): State { s.(poll := false, rect := None, glass := GlassHidden(s.glass)) }

  /** Covers the share with the glass and draws; with nothing to draw, or nowhere to draw it, hides it. */
  function Place(s: State, w: World): State {
    var next := if s.cursors == [] then None else Now(Owned(s), w);
    if next.None? then s.(rect := None, glass := GlassHidden(s.glass), poll := s.poll && s.cursors != [])
    else
      var bounds := if s.rect == next then s.glass.GetOr(NEW_GLASS).bounds else next;
      s.(rect := next, glass := Some(Glass(true, bounds, s.cursors)))
  }

  function EnsurePoll(s: State): State {
    s.(poll := s.poll || (Owned(s).Some? && IsWindow(Owned(s).value)))
  }

  function SetSource(s: State, wc: Wc, source: Source, w: World): State {
    var known := s.(sources := s.sources[wc := source]);
    if s.owner != Some(wc) then known
    else
      var placed := Place(known.(poll := false, rect := None), w);
      if placed.cursors != [] then EnsurePoll(placed) else placed
  }

  function Forget(s: State, wc: Wc): State {
    var rest := s.(sources := s.sources - {wc});
    if s.owner == Some(wc) then Hide(rest.(owner := None, cursors := [])) else rest
  }

  function Update(s: State, wc: Wc, list: Option<seq<Raw>>, w: World): State {
    var next := Sanitized(list);
    if next == [] then (if s.owner == Some(wc) then Hide(s.(cursors := [])) else s)
    else if wc !in s.sources then s
    else
      var mine := if s.owner == Some(wc) then s else s.(poll := false, rect := None, owner := Some(wc));
      EnsurePoll(Place(mine.(cursors := next), w))
  }

  /** The poll timer's callback: places again when the share is not where it was. */
  function OnPoll(s: State, w: World): State {
    if s.cursors == [] then s.(poll := false)
    else
      var next := Now(Owned(s), w);
      if s.rect.Some? && s.rect == next then s else Place(s, w)
  }

  datatype Event =
    | Picked(wc: Wc, source: Source, w: World)
    | Destroyed(wc: Wc)
    | Cursors(wc: Wc, list: Option<seq<Raw>>, w: World)
    | PollFires(w: World)
    | GlassDestroyed

  predicate Enabled(s: State, ev: Event) { ev.PollFires? ==> s.poll }

  function Step(s: State, ev: Event): State
    requires Enabled(s, ev)
  {
    match ev
    case Picked(wc, source, w) => SetSource(s, wc, source, w)
    case Destroyed(wc) => Forget(s, wc)
    case Cursors(wc, list, w) => Update(s, wc, list, w)
    case PollFires(w) => OnPoll(s, w)
    case GlassDestroyed => s.(glass := None)
  }

  predicate Possible(s: State, events: seq<Event>)
    decreases |events|
  {
    events == [] || (Enabled(s, events[0]) && Possible(Step(s, events[0]), events[1..]))
  }

  function Run(s: State, events: seq<Event>): State
    requires Possible(s, events)
    decreases |events|
  {
    if events == [] then s else Run(Step(s, events[0]), events[1..])
  }

  // ---------------------------------------------------------------- what every reachable state keeps

  predicate Visible(s: State) { s.glass.Some? && s.glass.value.visible }

  /**
   * The poll runs exactly while cursors point at a shared window; cursors have
   * an owner who is sharing; the glass is up exactly while there is a place for
   * it, which is only while there are cursors, and it draws those.
   */
  predicate Inv(s: State) {
    (s.owner.Some? ==> s.owner.value in s.sources) &&
    (s.cursors != [] ==> s.owner.Some?) &&
    (s.poll <==> s.cursors != [] && Owned(s).Some? && IsWindow(Owned(s).value)) &&
    (s.rect.Some? ==> s.cursors != []) &&
    (s.glass.Some? ==> (s.glass.value.visible <==> s.rect.Some?)) &&
    (Visible(s) ==> s.glass.value.drawn == s.cursors)
  }

  /** Placing changes the rectangle, the poll and the glass only, and leaves the glass up exactly if there is a rectangle. */
  lemma {:induction false} PlaceSettles(s: State, w: World)
    requires s.cursors != [] ==> s.owner.Some?
    ensures var p := Place(s, w);
            p.cursors == s.cursors && p.owner == s.owner && p.sources == s.sources && p.poll == (s.poll && s.cursors != []) &&
            (p.rect.Some? ==> p.cursors != [] && p.glass.Some? && p.glass.value.drawn == s.cursors) &&
            (p.glass.Some? ==> (p.glass.value.visible <==> p.rect.Some?))
  {
  }

  lemma {:induction false} SetSourceInv(s: State, wc: Wc, source: Source, w: World)
    requires Inv(s)
    ensures Inv(SetSource(s, wc, source, w))
  {
    var known := s.(sources := s.sources[wc := source]);
    if s.owner == Some(wc) {
      PlaceSettles(known.(poll := false, rect := None), w);
    }
  }

  lemma {:induction false} UpdateInv(s: State, wc: Wc, list: Option<seq<Raw>>, w: World)
    requires Inv(s)
    ensures Inv(Update(s, wc, list, w))
  {
    var next := Sanitized(list);
    if next != [] && wc in s.sources {
      var mine := if s.owner == Some(wc) then s else s.(poll := false, rect := None, owner := Some(wc));
      PlaceSettles(mine.(cursors := next), w);
    }
  }

  lemma {:induction false} StepInv(s: State, ev: Event)
    requires Inv(s) && Enabled(s, ev)
    ensures Inv(Step(s, ev))
  {
    match ev {
      case Picked(wc, source, w) => SetSourceInv(s, wc, source, w);
      case Cursors(wc, list, w) => UpdateInv(s, wc, list, w);
      case PollFires(w) => PlaceSettles(s, w);
      case Destroyed(_) =>
      case GlassDestroyed =>
    }
  }

  lemma {:induction false} RunInv(s: State, events: seq<Event>)
    requires Inv(s) && Possible(s, events)
    ensures Inv(Run(s, events))
    decreases |events|
  {
    if events != [] {
      StepInv(s, events[0]);
      RunInv(Step(s, events[0]), events[1..]);
    }
  }

  lemma {:induction false} EveryStateIsSound(events: seq<Event>)
    requires Possible(START, events)
    ensures var s := Run(START, events);
            (s.poll <==> s.cursors != [] && Owned(s).Some? && IsWindow(Owned(s).value)) &&
            (s.cursors != [] ==> Owned(s).Some?) &&
            (Visible(s) ==> s.cursors != [] && s.rect.Some? && s.glass.value.drawn == s.cursors)
  {
    RunInv(START, events);
  }

  /** The glass was destroyed over a share that has not moved since it was placed. */
  predicate Bereft(s: State, w: World) { s.glass.None? && s.rect.Some? && s.rect == Now(Owned(s), w) }

  /**
   * After each poll the place is the shared window's frame of that moment, and
   * the glass is up exactly if the window is on screen: if and only if it was
   * not destroyed over an unmoved window, which no poll brings back.
   */
  lemma {:induction false} PollFollowsTheWindow(events: seq<Event>, w: World)
    requires Possible(START, events) && Run(START, events).poll
    ensures var s := Run(START, events); var next := OnPoll(s, w);
            next.rect == Now(Owned(s), w) && ((Visible(next) <==> Now(Owned(s), w).Some?) <==> !Bereft(s, w))
  {
    RunInv(START, events);
  }

  /** However often it polls: while the window stays, a destroyed glass stays gone. */
  lemma {:induction false} PollsBringNothingBack(s: State, events: seq<Event>, w: World)
    requires Inv(s) && Bereft(s, w) && Possible(s, events)
    requires forall i :: 0 <= i < |events| ==> events[i] == PollFires(w)
    ensures Run(s, events) == s && !Visible(s)
    decreases |events|
  {
    if events != [] {
      assert Step(s, events[0]) == s;
      PollsBringNothingBack(s, events[1..], w);
    }
  }

  // ---------------------------------------------------------------- where the glass is

  /** The glass lies over the share's rectangle. */
  predicate Covers(s: State) { s.glass.Some? && s.rect.Some? ==> s.glass.value.bounds == s.rect }

  /** The owner points again at a share that has not moved, after its glass was destroyed. */
  predicate Replaces(s: State, ev: Event) {
    ev.Cursors? && Sanitized(ev.list) != [] && s.owner == Some(ev.wc) && s.glass.None? && s.rect.Some? &&
    s.rect == Now(Owned(s), ev.w)
  }

  lemma {:induction false} CoveringStep(s: State, ev: Event)
    requires Inv(s) && Covers(s) && Enabled(s, ev)
    ensures Covers(Step(s, ev)) <==> !Replaces(s, ev)
  {
  }

  /**
   * In every run a step leaves the glass over the share if and only if it does
   * not replace a destroyed glass at the same place: a new glass is moved only
   * when the rectangle changes, so then it shows wherever it was made.
   */
  lemma {:induction false} StepCovers(events: seq<Event>, ev: Event)
    requires Possible(START, events) && Enabled(Run(START, events), ev) && Covers(Run(START, events))
    ensures Covers(Step(Run(START, events), ev)) <==> !Replaces(Run(START, events), ev)
  {
    RunInv(START, events);
    CoveringStep(Run(START, events), ev);
  }

  lemma {:induction false} RunCovers(s: State, events: seq<Event>)
    requires Inv(s) && Covers(s) && (s.glass.Some? || s.rect.None?) && Possible(s, events)
    requires forall i :: 0 <= i < |events| ==> !events[i].GlassDestroyed?
    ensures Covers(Run(s, events))
    decreases |events|
  {
    if events != [] {
      StepInv(s, events[0]);
      CoveringStep(s, events[0]);
      RunCovers(Step(s, events[0]), events[1..]);
    }
  }

  /** So in every run in which no glass is destroyed, the glass is over the share whenever it is up. */
  lemma {:induction false} GlassCoversTheShare(events: seq<Event>)
    requires Possible(START, events) && forall i :: 0 <= i < |events| ==> !events[i].GlassDestroyed?
    ensures var s := Run(START, events); Visible(s) ==> s.rect.Some? && s.glass.value.bounds == s.rect
  {
    RunInv(START, events);
    RunCovers(START, events);
  }

  /** A replaced glass lies elsewhere until the share moves or another takes over: two runs of cursors are enough. */
  lemma {:induction false} ReplacedGlassIsElsewhere()
    ensures var w := World([Display("4", Rect(0, 0, 1512, 982))], map[]);
            var point := Cursors(0, Some([Raw(Some("a"), None, Some(0.5), Some(0.5))]), w);
            var events := [Picked(0, Source("screen:4:0", "4"), w), point, GlassDestroyed, point];
            Possible(START, events) && Visible(Run(START, events)) && !Covers(Run(START, events))
  {
    var w := World([Display("4", Rect(0, 0, 1512, 982))], map[]);
    var list := [Raw(Some("a"), None, Some(0.5), Some(0.5))];
    var point := Cursors(0, Some(list), w);
    var source := Source("screen:4:0", "4");
    assert Sanitized(Some(list)) == [Cursor("a", "", 0.5, 0.5)] by {
      assert Butlast(list) == [];
    }
    assert SourceRect(source, w) == Some(Rect(0, 0, 1512, 982)) by {
      assert SCREEN == source.id[..|SCREEN|];
    }
    var a := Step(START, Picked(0, source, w));
    var b := Step(a, point);
    var c := Step(b, GlassDestroyed);
    var d := Step(c, point);
    assert Owned(a.(owner := Some(0))) == Some(source);
    assert Replaces(c, point);
    var last := [point];
    var late := [GlassDestroyed, point];
    var most := [point, GlassDestroyed, point];
    var all := [Picked(0, source, w), point, GlassDestroyed, point];
    assert all[1..] == most && most[1..] == late && late[1..] == last && last[1..] == [];
    assert Run(c, last) == d;
    assert Run(b, late) == d;
    assert Run(a, most) == d;
  }

  // ---------------------------------------------------------------- who points, and where

  /** The source a renderer shares: the last one picked for it, until it is gone. */
  function SharedBy(events: seq<Event>, wc: Wc): Option<Source>
    decreases |events|
  {
    if events == [] then None
    else
      var ev := Last(events);
      if ev.Picked? && ev.wc == wc then Some(ev.source)
      else if ev.Destroyed? && ev.wc == wc then None
      else SharedBy(Butlast(events), wc)
  }

  /** Whose cursors are shown, and which: of the renderer that last had any over a share of its own, until it sends none or is gone. */
  function Pointing(events: seq<Event>): Option<(Wc, seq<Cursor>)>
    decreases |events|
  {
    if events == [] then None
    else
      var ev, before := Last(events), Pointing(Butlast(events));
      var mine := before.Some? && (ev.Cursors? || ev.Destroyed?) && before.value.0 == ev.wc;
      if ev.Destroyed? && mine then None
      else if !ev.Cursors? then before
      else if Sanitized(ev.list) == [] then (if mine then None else before)
      else if SharedBy(Butlast(events), ev.wc).Some? then Some((ev.wc, Sanitized(ev.list)))
      else before
  }

  ghost predicate HistoryFits(s: State, events: seq<Event>) {
    (forall wc: Wc :: (wc in s.sources <==> SharedBy(events, wc).Some?) &&
                      (wc in s.sources ==> SharedBy(events, wc) == Some(s.sources[wc]))) &&
    (if s.cursors == [] then Pointing(events) == None else s.owner.Some? && Pointing(events) == Some((s.owner.value, s.cursors)))
  }

  lemma {:induction false} StepFitsHistory(s: State, ev: Event, events: seq<Event>)
    requires Inv(s) && Enabled(s, ev) && HistoryFits(s, events)
    ensures HistoryFits(Step(s, ev), events + [ev])
  {
    var next := Step(s, ev);
    assert Butlast(events + [ev]) == events && Last(events + [ev]) == ev;
    StepKeepsWho(s, ev);
    forall wc: Wc
      ensures wc in next.sources <==> SharedBy(events + [ev], wc).Some?
      ensures wc in next.sources ==> SharedBy(events + [ev], wc) == Some(next.sources[wc])
    {
      assert wc in s.sources <==> SharedBy(events, wc).Some?;
    }
    if ev.Cursors? {
      assert ev.wc in s.sources <==> SharedBy(events, ev.wc).Some?;
    }
  }

  /** What a step does to the sources, the owner and the cursors. */
  lemma {:induction false} StepKeepsWho(s: State, ev: Event)
    requires Inv(s) && Enabled(s, ev)
    ensures var next := Step(s, ev);
            match ev
            case Picked(wc, source, _) =>
              next.sources == s.sources[wc := source] && next.owner == s.owner && next.cursors == s.cursors
            case Destroyed(wc) =>
              next.sources == s.sources - {wc} && next.cursors == (if s.owner == Some(wc) then [] else s.cursors) &&
              (s.owner != Some(wc) ==> next.owner == s.owner)
            case Cursors(wc, list, _) =>
              next.sources == s.sources &&
              (if Sanitized(list) == [] then
                 next.owner == s.owner && next.cursors == (if s.owner == Some(wc) then [] else s.cursors)
               else if wc in s.sources then next.owner == Some(wc) && next.cursors == Sanitized(list)
               else next == s)
            case _ => next.sources == s.sources && next.owner == s.owner && next.cursors == s.cursors
  {
    match ev {
      case Picked(wc, source, w) =>
        var known := s.(sources := s.sources[wc := source]);
        PlaceSettles(known.(poll := false, rect := None), w);
      case Cursors(wc, list, w) =>
        var mine := if s.owner == Some(wc) then s else s.(poll := false, rect := None, owner := Some(wc));
        PlaceSettles(mine.(cursors := Sanitized(list)), w);
      case PollFires(w) => PlaceSettles(s, w);
      case _ =>
    }
  }

  lemma {:induction false} RunFitsHistory(s: State, events: seq<Event>, before: seq<Event>)
    requires Inv(s) && Possible(s, events) && HistoryFits(s, before)
    ensures HistoryFits(Run(s, events), before + events)
    decreases |events|
  {
    if events == [] {
      assert before + events == before;
    } else {
      StepInv(s, events[0]);
      StepFitsHistory(s, events[0], before);
      RunFitsHistory(Step(s, events[0]), events[1..], before + [events[0]]);
      assert before + events == before + [events[0]] + events[1..];
    }
  }

  /**
   * In every run the cursors drawn are those of the renderer that last pointed
   * at a share of its own, as it last sent them; there are none once it sent
   * none or is gone; and each renderer's share is the one last picked for it.
   */
  lemma {:induction false} CursorsAreTheLastSent(events: seq<Event>)
    requires Possible(START, events)
    ensures var s := Run(START, events);
            (if s.cursors == [] then Pointing(events) == None
             else s.owner.Some? && Pointing(events) == Some((s.owner.value, s.cursors))) &&
            Owned(s) == (if s.owner.Some? then SharedBy(events, s.owner.value) else None)
  {
    RunFitsHistory(START, events, []);
    assert [] + events == events;
  }

  /** Its cursors or its share just changed, so the glass is placed. */
  predicate Places(s: State, ev: Event) {
    (ev.Cursors? && Sanitized(ev.list) != [] && ev.wc in s.sources) || (ev.Picked? && s.owner == Some(ev.wc) && s.cursors != [])
  }

  /**
   * In every run, whenever a renderer points at its share, or the pointing
   * renderer picks another one, the place is where that share is at that moment,
   * and the glass is up exactly if it is anywhere.
   */
  lemma {:induction false} PlacedWhereTheShareIs(events: seq<Event>, ev: Event)
    requires Possible(START, events) && Enabled(Run(START, events), ev) && Places(Run(START, events), ev)
    ensures var next := Step(Run(START, events), ev);
            next.owner == Some(ev.wc) && Owned(next).Some? && next.rect == SourceRect(Owned(next).value, ev.w) &&
            (Visible(next) <==> next.rect.Some?)
  {
    RunInv(START, events);
    PlacingStep(Run(START, events), ev);
  }

  lemma {:induction false} PlacingStep(s: State, ev: Event)
    requires Inv(s) && Enabled(s, ev) && Places(s, ev)
    ensures var next := Step(s, ev);
            next.owner == Some(ev.wc) && Owned(next).Some? && next.rect == SourceRect(Owned(next).value, ev.w) &&
            (Visible(next) <==> next.rect.Some?)
  {
  }
}
