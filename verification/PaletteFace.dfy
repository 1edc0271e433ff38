/**
 * Which face the palette paints: the shell's policy, and the policy against a
 * page that confirms every request, over two FIFO channels, with reloads.
 */
module PaletteFace {
  import opened Wrappers

  datatype Face = Search | Compose

  /** `wanted`: asked for, not yet confirmed. `fallback`: the reveal timer is armed. */
  datatype Policy = Policy(wanted: Option<Face>, revealing: bool, painted: Face, fallback: bool)

  const NEWBORN := Policy(None, false, Search, false)

  /** A handler's new state, what it sends the page, and whether it reveals the window. */
  datatype Out = Out(policy: Policy, sent: seq<Face>, revealed: bool)

  /** The window is shown; a repeat ask of the painted face needs no confirmation. */
  function FinishReveal(p: Policy): Policy {
    Policy(if p.wanted == Some(p.painted) then None else p.wanted, false, p.painted, false)
  }

  function Show(p: Policy, face: Face): Out {
    Out(p.(wanted := Some(face), revealing := true, fallback := true), [face], false)
  }

  /** A confirmation; older pages do not name the face. */
  function Confirm(p: Policy, face: Option<Face>): Out {
    if face.Some? && p.wanted.Some? && face != p.wanted then Out(p, [p.wanted.value], false)
    else
      var settled := p.(painted := face.GetOr(p.wanted.GetOr(p.painted)), wanted := None);
      if p.revealing then Out(FinishReveal(settled), [], true) else Out(settled, [], false)
  }

  function NewDocument(p: Policy, visible: bool): Policy {
    p.(wanted := if p.revealing || visible then Some(p.wanted.GetOr(p.painted)) else p.wanted, painted := Search)
  }

  function Hide(p: Policy): Policy { p.(wanted := None, revealing := false, fallback := false) }

  function OnFallback(p: Policy): Out {
    if p.revealing then Out(FinishReveal(p), [], true) else Out(p.(fallback := false), [], false)
  }

  // What reveals the window, whatever page confirms

  /** What happens to the policy, and what it did then. */
  datatype Input = Asked(face: Face) | Confirmed(named: Option<Face>) | Replaced(visible: bool) | Dismissed | Elapsed

  datatype Deed = Deed(input: Input, sent: seq<Face>, revealed: bool)

  function Handle(p: Policy, i: Input): Out {
    match i
    case Asked(face) => Show(p, face)
    case Confirmed(named) => Confirm(p, named)
    case Replaced(visible) => Out(NewDocument(p, visible), [], false)
    case Dismissed => Out(Hide(p), [], false)
    case Elapsed => OnFallback(p)
  }

  function After(inputs: seq<Input>): Policy
    decreases |inputs|
  {
    if inputs == [] then NEWBORN else Handle(After(Butlast(inputs)), Last(inputs)).policy
  }

  function Deeds(inputs: seq<Input>): seq<Deed>
    decreases |inputs|
  {
    if inputs == [] then []
    else
      var out := Handle(After(Butlast(inputs)), Last(inputs));
      Deeds(Butlast(inputs)) + [Deed(Last(inputs), out.sent, out.revealed)]
  }

  /** The face of the last show, as long as the window was neither revealed nor hidden since. */
  function Awaited(deeds: seq<Deed>): Option<Face>
    decreases |deeds|
  {
    if deeds == [] then None
    else
      var d := Last(deeds);
      match d.input
      case Asked(face) => Some(face)
      case Dismissed => None
      case _ => if d.revealed then None else Awaited(Butlast(deeds))
  }

  predicate Awaits(p: Policy, face: Option<Face>) {
    (p.revealing <==> face.Some?) && (p.revealing <==> p.fallback) && (face.Some? ==> p.wanted == face)
  }

  lemma {:induction false} AfterAwaits(inputs: seq<Input>)
    ensures Awaits(After(inputs), Awaited(Deeds(inputs)))
    decreases |inputs|
  {
    if inputs != [] {
      AfterAwaits(Butlast(inputs));
      assert Butlast(Deeds(inputs)) == Deeds(Butlast(inputs));
    }
  }

  /**
   * After any history and with any page: a confirmation reveals the window if
   * and only if a show still waits for it and the face confirmed is the face of
   * that show, or none is named; the fallback reveals it if and only if a show
   * still waits; nothing else ever does. So a show reveals the window once.
   */
  lemma {:induction false} RevealsExactly(inputs: seq<Input>, i: Input)
    ensures Last(Deeds(inputs + [i])).revealed <==>
            Awaited(Deeds(inputs)).Some? &&
            (i.Elapsed? || (i.Confirmed? && (i.named.None? || i.named == Awaited(Deeds(inputs)))))
  {
    AfterAwaits(inputs);
    assert Butlast(inputs + [i]) == inputs;
  }

  /** While a show waits, each confirmation of another face makes the shell ask for its face again, and changes nothing else. */
  lemma {:induction false} OtherFacesAreAskedAgain(inputs: seq<Input>, f: Face, g: Face)
    requires Awaited(Deeds(inputs)) == Some(f) && f != g
    ensures Handle(After(inputs), Confirmed(Some(g))) == Out(After(inputs), [f], false)
  {
    AfterAwaits(inputs);
  }

  /** A page that does not name the face is taken to have painted what was asked of it, or what it painted before. */
  lemma {:induction false} UnnamedIsTrusted(p: Policy)
    ensures Confirm(p, None) == Confirm(p, Some(p.wanted.GetOr(p.painted)))
    ensures Confirm(p, None).policy.painted == p.wanted.GetOr(p.painted) && Confirm(p, None).sent == []
  {
  }

  /**
   * A show the page never confirmed, revealed by the fallback: a face the page
   * confirms later is left standing if and only if it is the face shown, or the
   * page had painted that face before and so kept silent.
   */
  lemma {:induction false} SilentRepeatSettles(p: Policy, f: Face, g: Face)
    ensures var shown := OnFallback(Show(p, f).policy);
            shown.revealed && shown.sent == [] &&
            (Confirm(shown.policy, Some(g)).sent == [] <==> f == g || p.painted == f) &&
            (f != g && p.painted != f ==> Confirm(shown.policy, Some(g)).sent == [f])
  {
  }

  /** The policy object as the shell holds it. */
  class Shell {
    var wanted: Option<Face>
    var revealing: bool
    var painted: Face
    var fallback: bool

    ghost function State(): Policy
      reads this
    {
      Policy(wanted, revealing, painted, fallback)
    }

    constructor ()
      ensures State() == NEWBORN
    {
      wanted, revealing, painted, fallback := None, false, Search, false;
    }

    method Finish() returns (revealed: bool)
      modifies this`wanted, this`revealing, this`fallback
      ensures State() == FinishReveal(old(State())) && revealed
    {
      if wanted == Some(painted) { wanted := None; }
      revealing := false;
      fallback := false;
      return true;
    }

    method ShowFace(face: Face) returns (sent: seq<Face>)
      modifies this`wanted, this`revealing, this`fallback
      ensures Out(State(), sent, false) == Show(old(State()), face)
    {
      wanted := Some(face);
      revealing := true;
      fallback := true;
      return [face];
    }

    method Ready(face: Option<Face>) returns (sent: seq<Face>, revealed: bool)
      modifies this
      ensures Out(State(), sent, revealed) == Confirm(old(State()), face)
    {
      if face.Some? && wanted.Some? && face != wanted {
        return [wanted.value], false;
      }
      painted := face.GetOr(wanted.GetOr(painted));
      wanted := None;
      sent, revealed := [], false;
      if revealing {
        revealed := Finish();
      }
    }

    method OnNewDocument(visible: bool)
      modifies this`wanted, this`painted
      ensures State() == NewDocument(old(State()), visible)
    {
      if revealing || visible {
        wanted := Some(wanted.GetOr(painted));
      }
      painted := Search;
    }

    method Dismiss()
      modifies this`wanted, this`revealing, this`fallback
      ensures State() == Hide(old(State()))
    {
      wanted := None;
      revealing := false;
      fallback := false;
    }

    method FallbackFires() returns (revealed: bool)
      modifies this`wanted, this`revealing, this`fallback
      ensures Out(State(), [], revealed) == OnFallback(old(State()))
    {
      revealed := false;
      fallback := false;
      if revealing {
        revealed := Finish();
      }
    }
  }
}
