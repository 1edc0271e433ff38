/** The palette policy and its page, step by step. */
module PaletteRuns {
  import opened Wrappers
  import opened PaletteFace

  /** A document listens, is on its way out, or is booting and not yet listening. */
  datatype Life = Listening | Unloading | Booting

  /**
   * `goal` is the face the page should come to rest on while the palette is
   * wanted; `sent` and `shownTimes` record everything the shell ever did.
   */
  datatype World = World(
    policy: Policy, visible: bool, toPage: seq<Face>, toShell: seq<Face>, life: Life, mode: Face,
    goal: Option<Face>, sent: seq<Face>, shownTimes: nat)

  const START := World(NEWBORN, false, [], [], Listening, Search, None, [], 0)

  datatype Event =
    | Shows(face: Face)
    | Hides
    | FallbackFires
    | PageTakes
    | ShellTakes
    | ReloadStarts
    | DocumentReplaced
    | Mounts
    | PageSwitches(face: Face)

  predicate Enabled(w: World, e: Event) {
    match e
    case FallbackFires => w.policy.fallback
    case PageTakes => w.toPage != []
    case ShellTakes => w.toShell != []
    case Mounts => w.life == Booting
    case PageSwitches(_) => w.life == Listening
    case _ => true
  }

  predicate Quiet(w: World) { w.life == Listening && w.toPage == [] && w.toShell == [] }

  /** The face a document replaced now would come back to. */
  function Belief(p: Policy): Face { p.wanted.GetOr(p.painted) }

  function Act(w: World, out: Out): World {
    w.(policy := out.policy, toPage := w.toPage + out.sent, visible := w.visible || out.revealed,
       sent := w.sent + out.sent, shownTimes := w.shownTimes + (if out.revealed then 1 else 0))
  }

  function Step(w: World, e: Event): World
    requires Enabled(w, e)
  {
    match e
    case Shows(face) => Act(w, Show(w.policy, face)).(goal := Some(face))
    case Hides => w.(policy := Hide(w.policy), visible := false, goal := None)
    case FallbackFires => Act(w, OnFallback(w.policy))
    case PageTakes =>
      if w.life == Listening then
        w.(mode := w.toPage[0], toShell := w.toShell + [w.toPage[0]], toPage := w.toPage[1..])
      else w.(toPage := w.toPage[1..])
    case ShellTakes => Act(w.(toShell := w.toShell[1..]), Confirm(w.policy, Some(w.toShell[0])))
    case ReloadStarts => w.(life := if w.life == Listening then Unloading else w.life)
    case DocumentReplaced =>
      w.(policy := NewDocument(w.policy, w.visible), toPage := [], toShell := [], life := Booting, mode := Search,
         goal := if w.policy.revealing || w.visible then Some(Belief(w.policy)) else None)
    case Mounts => w.(life := Listening, toShell := w.toShell + [Search])
    case PageSwitches(face) =>
      w.(mode := face, toShell := w.toShell + [face], goal := if w.goal.Some? && Quiet(w) then Some(face) else None)
  }

  predicate Possible(w: World, events: seq<Event>)
    decreases |events|
  {
    events == [] || (Enabled(w, events[0]) && Possible(Step(w, events[0]), events[1..]))
  }

  function Run(w: World, events: seq<Event>): World
    requires Possible(w, events)
    decreases |events|
  {
    if events == [] then w else Run(Step(w, events[0]), events[1..])
  }

  // Invariants

  /** A reveal is pending exactly while its fallback is armed, and always for some face. */
  predicate FallbackGuards(p: Policy) {
    (p.revealing <==> p.fallback) && (p.revealing ==> p.wanted.Some?)
  }

  /** What the page painted last is on its way to the shell, or the shell knows it. */
  predicate InStep(w: World) {
    w.life == Listening && w.toPage == [] ==>
      if w.toShell == [] then w.policy.wanted == None && w.policy.painted == w.mode else Last(w.toShell) == w.mode
  }

  /** The page has the face, or will have it once it has taken every request. */
  predicate Delivered(w: World, f: Face) {
    if w.toPage == [] then w.mode == f else Last(w.toPage) == f
  }

  /** The next confirmation is of another face, so the shell will ask again. */
  predicate AskedAgain(w: World, f: Face) {
    w.policy.wanted == Some(f) && w.policy.painted != f && w.toShell != [] && w.toShell[0] != f
  }

  /** A booting document has said nothing and is on search. */
  predicate BornBlank(w: World) {
    w.life == Booting ==> w.toShell == [] && w.mode == Search && w.policy.painted == Search
  }

  /** A booting document will be asked for the face, or is born on it. */
  predicate Restorable(w: World, f: Face) {
    (w.policy.wanted == Some(f) || f == Search) && (w.toPage == [] || Last(w.toPage) == f)
  }

  predicate OnCourse(w: World) {
    w.goal.Some? ==>
      var f := w.goal.value;
      (w.policy.revealing || w.visible) &&
      (w.policy.wanted == None || w.policy.wanted == Some(f)) &&
      match w.life
      case Listening => Delivered(w, f) || AskedAgain(w, f)
      case Unloading => true
      case Booting => Restorable(w, f)
  }

  predicate Inv(w: World) { FallbackGuards(w.policy) && InStep(w) && BornBlank(w) && OnCourse(w) }

  lemma {:induction false} StepInv(w: World, e: Event)
    requires Inv(w) && Enabled(w, e)
    ensures Inv(Step(w, e))
  {
    match e {
      case PageTakes => PageTakesInv(w);
      case ShellTakes => ShellTakesInv(w);
      case _ =>
    }
  }

  lemma {:induction false} PageTakesInv(w: World)
    requires Inv(w) && w.toPage != []
    ensures Inv(Step(w, PageTakes))
  {
    var next := Step(w, PageTakes);
    assert next.toPage != [] ==> Last(next.toPage) == Last(w.toPage);
  }

  lemma {:induction false} ShellTakesInv(w: World)
    requires Inv(w) && w.toShell != []
    ensures Inv(Step(w, ShellTakes))
  {
    var next := Step(w, ShellTakes);
    assert next.toShell != [] ==> Last(next.toShell) == Last(w.toShell);
    assert w.toPage + [] == w.toPage;
  }

  lemma {:induction false} RunInv(w: World, events: seq<Event>)
    requires Inv(w) && Possible(w, events)
    ensures Inv(Run(w, events))
    decreases |events|
  {
    if events != [] {
      StepInv(w, events[0]);
      RunInv(Step(w, events[0]), events[1..]);
    }
  }

  /** In every run a reveal is pending exactly while its fallback is armed, and always for some wanted face. */
  lemma {:induction false} RevealsAreGuarded(events: seq<Event>)
    requires Possible(START, events)
    ensures FallbackGuards(Run(START, events).policy)
  {
    RunInv(START, events);
  }

  // What reveals the window

  /** The face of the last show, as long as the window was neither revealed nor hidden since. */
  function Waiting(events: seq<Event>): Option<Face>
    requires Possible(START, events)
    decreases |events|
  {
    if events == [] then None
    else
      var before := Butlast(events);
      ButLastIsPossible(START, events);
      match Last(events)
      case Shows(face) => Some(face)
      case Hides => None
      case _ => if Run(START, events).shownTimes > Run(START, before).shownTimes then None else Waiting(before)
  }

  lemma {:induction false} ButLastIsPossible(w: World, events: seq<Event>)
    requires events != [] && Possible(w, events)
    ensures Possible(w, Butlast(events)) && Enabled(Run(w, Butlast(events)), Last(events))
    ensures Run(w, events) == Step(Run(w, Butlast(events)), Last(events))
  {
    var end := [Last(events)];
    assert events == Butlast(events) + end && end[1..] == [];
    RunJoin(w, Butlast(events), end);
    assert Possible(Run(w, Butlast(events)), end);
  }

  lemma {:induction false} RunAwaits(events: seq<Event>)
    requires Possible(START, events)
    ensures Awaits(Run(START, events).policy, Waiting(events))
    decreases |events|
  {
    if events != [] {
      ButLastIsPossible(START, events);
      RunAwaits(Butlast(events));
    }
  }

  /**
   * In every run: a confirmation the shell takes reveals the window if and only
   * if the last show still waits and the confirmed face is that show's; the
   * fallback does if and only if a show still waits; no other step ever does.
   */
  lemma {:induction false} ShownExactly(events: seq<Event>, e: Event)
    requires Possible(START, events) && Enabled(Run(START, events), e)
    ensures var w, next := Run(START, events), Step(Run(START, events), e);
            var up := Waiting(events).Some? && (e.FallbackFires? || (e.ShellTakes? && Waiting(events) == Some(w.toShell[0])));
            next.shownTimes == w.shownTimes + (if up then 1 else 0) && (up ==> next.visible)
  {
    RunAwaits(events);
  }

  // Convergence

  /** Anything but a new wish: no show, no hide, no replaced document, no switch by the person. */
  predicate Undisturbed(events: seq<Event>) {
    forall e | e in events :: !e.Shows? && !e.Hides? && !e.DocumentReplaced? && !e.PageSwitches?
  }

  lemma {:induction false} GoalStands(w: World, events: seq<Event>)
    requires Possible(w, events) && Undisturbed(events)
    ensures Run(w, events).goal == w.goal
    decreases |events|
  {
    if events != [] {
      assert events[0] in events;
      GoalStands(Step(w, events[0]), events[1..]);
    }
  }

  lemma {:induction false} RunJoin(w: World, a: seq<Event>, b: seq<Event>)
    requires Possible(w, a + b)
    ensures Possible(w, a) && Possible(Run(w, a), b) && Run(w, a + b) == Run(Run(w, a), b)
    decreases |a|
  {
    if a == [] {
      assert a + b == b;
    } else {
      assert (a + b)[1..] == a[1..] + b;
      RunJoin(Step(w, a[0]), a[1..], b);
    }
  }

  /** After any history: a shown face is what the page paints once both channels are empty. */
  lemma {:induction false} LastShownIsPainted(before: seq<Event>, face: Face, after: seq<Event>)
    requires Possible(START, before + ([Shows(face)] + after)) && Undisturbed(after)
    ensures var end := Run(START, before + ([Shows(face)] + after));
            Quiet(end) ==> end.mode == face && end.policy.painted == face && end.policy.wanted == None && end.visible
  {
    RunJoin(START, before, [Shows(face)] + after);
    var mid := Run(START, before);
    RunInv(START, before);
    assert ([Shows(face)] + after)[1..] == after;
    StepInv(mid, Shows(face));
    RunInv(Step(mid, Shows(face)), after);
    GoalStands(Step(mid, Shows(face)), after);
  }

  /**
   * After any history: a document replaced while the palette is up comes to
   * rest on what the shell believed at that moment, so it comes back to a given
   * face if and only if the shell believed that face.
   */
  lemma {:induction false} ReplacedDocumentComesBack(before: seq<Event>, after: seq<Event>, face: Face)
    requires Possible(START, before + ([DocumentReplaced] + after)) && Undisturbed(after)
    requires Possible(START, before)
    requires Run(START, before).policy.revealing || Run(START, before).visible
    ensures var end := Run(START, before + ([DocumentReplaced] + after));
            Quiet(end) ==> (end.mode == face <==> Belief(Run(START, before).policy) == face)
  {
    RunJoin(START, before, [DocumentReplaced] + after);
    var mid := Run(START, before);
    RunInv(START, before);
    assert ([DocumentReplaced] + after)[1..] == after;
    StepInv(mid, DocumentReplaced);
    RunInv(Step(mid, DocumentReplaced), after);
    GoalStands(Step(mid, DocumentReplaced), after);
  }

  /** With empty channels the shell believes exactly what the page paints. */
  lemma {:induction false} QuietBeliefIsTrue(events: seq<Event>)
    requires Possible(START, events) && Quiet(Run(START, events))
    ensures Belief(Run(START, events).policy) == Run(START, events).mode
  {
    RunInv(START, events);
  }

  const STALE := [Shows(Compose), PageTakes, Hides, Shows(Search), FallbackFires, ShellTakes]

  const RELOAD := [DocumentReplaced, Mounts, ShellTakes, PageTakes, ShellTakes]

  const MISLED :=
    World(Policy(None, false, Compose, false), true, [Search], [], Listening, Compose, Some(Search), [Compose, Search], 1)

  const HALFWAY := World(NEWBORN, false, [], [Compose], Listening, Compose, None, [Compose], 0)

  lemma {:induction false} HalfwayIsReached()
    ensures var events := [Shows(Compose), PageTakes, Hides];
            Possible(START, events) && Run(START, events) == HALFWAY
  {
    var w1 := Step(START, Shows(Compose));
    assert w1.toPage == [Compose] && w1.sent == [Compose];
    var w2 := Step(w1, PageTakes);
    assert w2.toShell == [Compose];
    Unroll(w2, [Hides]);
    Unroll(w1, [PageTakes, Hides]);
    Unroll(START, [Shows(Compose), PageTakes, Hides]);
  }

  lemma {:induction false} MisledIsReached()
    ensures var events := [Shows(Search), FallbackFires, ShellTakes];
            Possible(HALFWAY, events) && Run(HALFWAY, events) == MISLED
  {
    var w4 := Step(HALFWAY, Shows(Search));
    assert w4.toPage == [Search] && w4.sent == [Compose, Search];
    var w5 := Step(w4, FallbackFires);
    assert w5.policy == Policy(None, false, Search, false);
    Unroll(w5, [ShellTakes]);
    Unroll(w4, [FallbackFires, ShellTakes]);
    Unroll(HALFWAY, [Shows(Search), FallbackFires, ShellTakes]);
  }

  lemma {:induction false} StaleIsReached()
    ensures Possible(START, STALE) && Run(START, STALE) == MISLED
  {
    var a, b := [Shows(Compose), PageTakes, Hides], [Shows(Search), FallbackFires, ShellTakes];
    HalfwayIsReached();
    MisledIsReached();
    assert STALE == a + b;
    RunOn(START, a, b);
  }

  lemma {:induction false} RunOn(w: World, a: seq<Event>, b: seq<Event>)
    requires Possible(w, a) && Possible(Run(w, a), b)
    ensures Possible(w, a + b) && Run(w, a + b) == Run(Run(w, a), b)
    decreases |a|
  {
    if a == [] {
      assert a + b == b;
    } else {
      assert (a + b)[1..] == a[1..] + b;
      RunOn(Step(w, a[0]), a[1..], b);
    }
  }

  const REBORN :=
    World(Policy(Some(Compose), false, Search, false), true, [], [Search], Listening, Search, Some(Compose), [Compose, Search], 1)

  lemma {:induction false} RebornIsReached()
    ensures Possible(MISLED, [DocumentReplaced, Mounts]) && Run(MISLED, [DocumentReplaced, Mounts]) == REBORN
  {
    var w7 := Step(MISLED, DocumentReplaced);
    assert Step(w7, Mounts) == REBORN;
    Unroll(w7, [Mounts]);
    Unroll(MISLED, [DocumentReplaced, Mounts]);
  }

  lemma {:induction false} RebornComesBack()
    ensures var events := [ShellTakes, PageTakes, ShellTakes];
            Possible(REBORN, events) && Quiet(Run(REBORN, events)) && Run(REBORN, events).mode == Compose
  {
    var w9 := Step(REBORN, ShellTakes);
    assert w9.toPage == [Compose] && w9.toShell == [];
    var w10 := Step(w9, PageTakes);
    assert w10.toShell == [Compose];
    Unroll(w10, [ShellTakes]);
    Unroll(w9, [PageTakes, ShellTakes]);
    Unroll(REBORN, [ShellTakes, PageTakes, ShellTakes]);
  }

  /** With a confirmation of an older face still under way it need not: here a reload loses the last shown face. */
  lemma {:induction false} StaleBelief()
    ensures Possible(START, STALE) && Possible(Run(START, STALE), RELOAD)
    ensures var shown, end := Run(START, STALE), Run(Run(START, STALE), RELOAD);
            shown.goal == Some(Search) && shown.visible && Quiet(end) && end.mode == Compose
  {
    StaleIsReached();
    RebornIsReached();
    RebornComesBack();
    var a, b := [DocumentReplaced, Mounts], [ShellTakes, PageTakes, ShellTakes];
    assert RELOAD == a + b;
    RunOn(MISLED, a, b);
  }

  lemma {:induction false} Unroll(w: World, events: seq<Event>)
    requires events != [] && Enabled(w, events[0]) && Possible(Step(w, events[0]), events[1..])
    ensures Possible(w, events) && Run(w, events) == Run(Step(w, events[0]), events[1..])
  {
  }

  // After hide

  predicate Dismissed(w: World) {
    w.policy.wanted == None && !w.policy.revealing && !w.policy.fallback && !w.visible
  }

  lemma {:induction false} DismissedStaysSilent(w: World, events: seq<Event>)
    requires Dismissed(w) && Possible(w, events) && forall e | e in events :: !e.Shows?
    ensures var end := Run(w, events); Dismissed(end) && end.sent == w.sent && end.shownTimes == w.shownTimes
    decreases |events|
  {
    if events != [] {
      assert events[0] in events;
      var next := Step(w, events[0]);
      assert w.sent + [] == w.sent;
      assert Dismissed(next) && next.sent == w.sent && next.shownTimes == w.shownTimes;
      DismissedStaysSilent(next, events[1..]);
    }
  }

  /** After any history: from a hide to the next show nothing is sent and nothing is revealed, whatever arrives. */
  lemma {:induction false} HiddenStaysSilent(before: seq<Event>, after: seq<Event>)
    requires Possible(START, before + ([Hides] + after)) && Possible(START, before)
    requires forall e | e in after :: !e.Shows?
    ensures var mid, end := Run(START, before), Run(START, before + ([Hides] + after));
            Dismissed(end) && end.sent == mid.sent && end.shownTimes == mid.shownTimes
  {
    RunJoin(START, before, [Hides] + after);
    var mid := Run(START, before);
    assert ([Hides] + after)[1..] == after;
    DismissedStaysSilent(Step(mid, Hides), after);
  }

  // Re-asks end

  predicate Stale(wanted: Option<Face>, f: Face) { wanted.Some? && wanted.value != f }

  function Weight(faces: seq<Face>, wanted: Option<Face>, each: nat): nat {
    if faces == [] then 0
    else each + (if Stale(wanted, faces[0]) then 2 else 0) + Weight(faces[1..], wanted, each)
  }

  /** Requests weigh two, confirmations one, and either two more while it is of a face not wanted. */
  function Work(w: World): nat {
    Weight(w.toPage, w.policy.wanted, 2) + Weight(w.toShell, w.policy.wanted, 1)
  }

  lemma {:induction false} WeightPush(faces: seq<Face>, f: Face, wanted: Option<Face>, each: nat)
    ensures Weight(faces + [f], wanted, each) == Weight(faces, wanted, each) + each + (if Stale(wanted, f) then 2 else 0)
  {
    if faces == [] {
      assert [] + [f] == [f] && [f][1..] == [];
    } else {
      assert (faces + [f])[1..] == faces[1..] + [f];
      WeightPush(faces[1..], f, wanted, each);
    }
  }

  lemma {:induction false} SettledWeighsLess(faces: seq<Face>, wanted: Option<Face>, each: nat)
    ensures Weight(faces, None, each) <= Weight(faces, wanted, each)
  {
    if faces != [] {
      SettledWeighsLess(faces[1..], wanted, each);
    }
  }

  /** Every message taken off a channel leaves less work, re-asks included. */
  lemma {:induction false} TakingIsProgress(w: World, e: Event)
    requires Enabled(w, e) && (e.PageTakes? || e.ShellTakes?)
    ensures Work(Step(w, e)) < Work(w)
  {
    var next := Step(w, e);
    if e.PageTakes? {
      WeightPush(w.toShell, w.toPage[0], w.policy.wanted, 1);
    } else {
      var f := w.toShell[0];
      assert w.toPage + [] == w.toPage;
      if Stale(w.policy.wanted, f) {
        WeightPush(w.toPage, w.policy.wanted.value, w.policy.wanted, 2);
      } else {
        SettledWeighsLess(w.toPage, w.policy.wanted, 2);
        SettledWeighsLess(w.toShell[1..], w.policy.wanted, 1);
        assert next.policy.wanted == None;
      }
    }
  }

  /** So the two channels drain: no run of takings is longer than the work there was. */
  lemma {:induction false} ChannelsDrain(w: World, events: seq<Event>)
    requires Possible(w, events) && forall e | e in events :: e.PageTakes? || e.ShellTakes?
    ensures |events| + Work(Run(w, events)) <= Work(w)
    decreases |events|
  {
    if events != [] {
      assert events[0] in events;
      TakingIsProgress(w, events[0]);
      ChannelsDrain(Step(w, events[0]), events[1..]);
    }
  }
}
