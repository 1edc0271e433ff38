/** Share cursors as the shell runs them: an object updated in place by the calls of renderers and a timer. */
module ShareShell {
  import opened Wrappers
  import opened ShareCursors

  class Shell {
    var sources: map<Wc, Source>
    var owner: Option<Wc>
    var cursors: seq<Cursor>
    var rect: Option<Rect>
    var poll: bool
    var glass: Option<Glass>

    ghost function State(): ShareCursors.State
      reads this
    {
      ShareCursors.State(sources, owner, cursors, rect, poll, glass)
    }

    constructor ()
      ensures State() == START
    {
      sources, owner, cursors, rect, poll, glass := map[], None, [], None, false, None;
    }

    method HideGlass()
      modifies this`glass
      ensures glass == GlassHidden(old(glass))
    {
      if glass.Some? && glass.value.visible {
        glass := Some(glass.value.(visible := false));
      }
    }

    method HideAll()
      modifies this`poll, this`rect, this`glass
      ensures State() == Hide(old(State()))
    {
      poll := false;
      rect := None;
      HideGlass();
    }

    method PlaceGlass(w: World)
      modifies this`poll, this`rect, this`glass
      ensures State() == Place(old(State()), w)
    {
      var next: Option<Rect> := None;
      if cursors != [] && owner.Some? && owner.value in sources {
        next := SourceRect(sources[owner.value], w);
      }
      if next.None? {
        HideGlass();
        rect := None;
        if cursors == [] {
          poll := false;
        }
        return;
      }
      if glass.None? {
        glass := Some(NEW_GLASS);
      }
      if rect != next {
        rect := next;
        glass := Some(glass.value.(bounds := next));
      }
      glass := Some(glass.value.(drawn := cursors));
      if !glass.value.visible {
        glass := Some(glass.value.(visible := true));
      }
    }

    method StartPoll()
      modifies this`poll
      ensures State() == EnsurePoll(old(State()))
    {
      if poll || owner.None? || owner.value !in sources || !IsWindow(sources[owner.value]) {
        return;
      }
      poll := true;
    }

    method Pick(wc: Wc, source: Source, w: World)
      modifies this
      ensures State() == SetSource(old(State()), wc, source, w)
    {
      sources := sources[wc := source];
      if owner == Some(wc) {
        poll := false;
        rect := None;
        PlaceGlass(w);
        if cursors != [] {
          StartPoll();
        }
      }
    }

    method Drop(wc: Wc)
      modifies this
      ensures State() == Forget(old(State()), wc)
    {
      sources := sources - {wc};
      if owner == Some(wc) {
        owner := None;
        cursors := [];
        HideAll();
      }
    }

    method Point(wc: Wc, list: Option<seq<Raw>>, w: World)
      modifies this
      ensures State() == Update(old(State()), wc, list, w)
    {
      var next := SanitizeCursors(list);
      if next == [] {
        if owner == Some(wc) {
          cursors := [];
          HideAll();
        }
        return;
      }
      if wc !in sources {
        return;
      }
      if owner != Some(wc) {
        poll := false;
        rect := None;
        owner := Some(wc);
      }
      cursors := next;
      PlaceGlass(w);
      StartPoll();
    }

    method PollCallback(w: World)
      modifies this`poll, this`rect, this`glass
      ensures State() == OnPoll(old(State()), w)
    {
      if cursors == [] {
        poll := false;
        return;
      }
      var next: Option<Rect> := None;
      if owner.Some? && owner.value in sources {
        next := SourceRect(sources[owner.value], w);
      }
      if !(rect.Some? && rect == next) {
        PlaceGlass(w);
      }
    }
  }
}
