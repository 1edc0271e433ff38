/**
 * The decision kit's row grouper: a hunk as runs of unchanged lines and
 * changes, every line under its number on its own side. The before/after view
 * feeds it the differ's script over whole texts.
 */
module HunkRuns {
  import opened Wrappers
  import opened EditScripts
  import opened Text
  import SeqDiff

  datatype Line = Line(no: nat, s: string)

  datatype SameLine = SameLine(s: string, oldNo: nat, newNo: nat)

  datatype Run =
    | SameRun(rows: seq<SameLine>)
    | ChangeRun(del: seq<Line>, ins: seq<Line>, oldNo: nat, newNo: nat)

  /** Lines numbered from a start. */
  function Numbered(start: nat, lines: seq<string>): (r: seq<Line>)
    ensures |r| == |lines| && forall i | 0 <= i < |r| :: r[i] == Line(start + i, lines[i])
  {
    seq(|lines|, i requires 0 <= i < |lines| => Line(start + i, lines[i]))
  }

  /** A run's lines on one side, numbers as shown. */
  function RunLines(run: Run, skip: Tag): seq<Line> {
    match run
    case SameRun(rows) =>
      seq(|rows|, i requires 0 <= i < |rows| => Line(if skip == Ins then rows[i].oldNo else rows[i].newNo, rows[i].s))
    case ChangeRun(del, ins, _, _) => if skip == Ins then del else ins
  }

  function AllLines(runs: seq<Run>, skip: Tag): seq<Line> {
    if runs == [] then [] else AllLines(Butlast(runs), skip) + RunLines(Last(runs), skip)
  }

  /** The texts of the unchanged rows. */
  function SameTexts(runs: seq<Run>): seq<string> {
    if runs == [] then [] else SameTexts(Butlast(runs)) + RunTexts(Last(runs))
  }

  function RunTexts(run: Run): seq<string> {
    match run
    case SameRun(rows) => seq(|rows|, i requires 0 <= i < |rows| => rows[i].s)
    case ChangeRun(_, _, _, _) => []
  }

  /** Runs hold something, kinds take turns, and a change opens at the next number of either side. */
  ghost predicate WellGrouped(runs: seq<Run>, oldStart: nat, newStart: nat) {
    runs != [] ==>
      WellGrouped(Butlast(runs), oldStart, newStart) &&
      (|runs| > 1 ==> Last(runs).SameRun? != Last(Butlast(runs)).SameRun?) &&
      match Last(runs)
      case SameRun(rows) => rows != []
      case ChangeRun(del, ins, oldNo, newNo) =>
        del + ins != [] &&
        oldNo == oldStart + |AllLines(Butlast(runs), Ins)| &&
        newNo == newStart + |AllLines(Butlast(runs), Del)|
  }

  /** One row into the runs: it joins the last run of its kind or opens one. */
  function Opened(runs: seq<Run>, o: Op, oldNo: nat, newNo: nat): seq<Run> {
    if o.tag == Same then
      if runs != [] && Last(runs).SameRun? then runs else runs + [SameRun([])]
    else
      if runs != [] && Last(runs).ChangeRun? then runs else runs + [ChangeRun([], [], oldNo, newNo)]
  }

  function Added(run: Run, o: Op, oldNo: nat, newNo: nat): Run
    requires run.SameRun? <==> o.tag == Same
  {
    match run
    case SameRun(rows) => SameRun(rows + [SameLine(o.s, oldNo, newNo)])
    case ChangeRun(del, ins, a, b) =>
      if o.tag == Del then ChangeRun(del + [Line(oldNo, o.s)], ins, a, b)
      else ChangeRun(del, ins + [Line(newNo, o.s)], a, b)
  }

  function RunOne(runs: seq<Run>, o: Op, oldNo: nat, newNo: nat): seq<Run> {
    var current := Opened(runs, o, oldNo, newNo);
    Butlast(current) + [Added(Last(current), o, oldNo, newNo)]
  }

  /** The lines are one side of the rows so far, numbered from start. */
  ghost predicate Shows(lines: seq<Line>, done: seq<Op>, start: nat, skip: Tag) {
    lines == Numbered(start, Side(done, skip))
  }

  lemma {:induction false} AddedLines(run: Run, o: Op, oldNo: nat, newNo: nat, skip: Tag)
    requires run.SameRun? <==> o.tag == Same
    requires skip != Same
    ensures RunLines(Added(run, o, oldNo, newNo), skip)
         == RunLines(run, skip) + (if o.tag == skip then [] else [Line(if skip == Ins then oldNo else newNo, o.s)])
  {
  }

  /** A run just opened shows nothing yet. */
  lemma {:induction false} OpenedIs(runs: seq<Run>, o: Op, oldNo: nat, newNo: nat)
    ensures var current := Opened(runs, o, oldNo, newNo);
            current == runs || (Butlast(current) == runs && Last(current) in {SameRun([]), ChangeRun([], [], oldNo, newNo)})
  {
  }

  lemma {:induction false} OpenedLines(runs: seq<Run>, o: Op, oldNo: nat, newNo: nat, skip: Tag)
    ensures var current := Opened(runs, o, oldNo, newNo);
            AllLines(Butlast(current), skip) + RunLines(Last(current), skip) == AllLines(runs, skip)
  {
    var current := Opened(runs, o, oldNo, newNo);
    OpenedIs(runs, o, oldNo, newNo);
    if current != runs {
      assert RunLines(Last(current), skip) == [];
      assert AllLines(runs, skip) + [] == AllLines(runs, skip);
    }
  }

  lemma {:induction false} OpenedTexts(runs: seq<Run>, o: Op, oldNo: nat, newNo: nat)
    ensures var current := Opened(runs, o, oldNo, newNo);
            SameTexts(Butlast(current)) + RunTexts(Last(current)) == SameTexts(runs)
  {
    var current := Opened(runs, o, oldNo, newNo);
    OpenedIs(runs, o, oldNo, newNo);
    if current != runs {
      assert RunTexts(Last(current)) == [];
      assert SameTexts(runs) + [] == SameTexts(runs);
    }
  }

  lemma {:induction false} RunOneLines(runs: seq<Run>, o: Op, oldNo: nat, newNo: nat, skip: Tag)
    requires skip != Same
    ensures AllLines(RunOne(runs, o, oldNo, newNo), skip)
         == AllLines(runs, skip) + (if o.tag == skip then [] else [Line(if skip == Ins then oldNo else newNo, o.s)])
  {
    var current, r := Opened(runs, o, oldNo, newNo), RunOne(runs, o, oldNo, newNo);
    assert Butlast(r) == Butlast(current) && Last(r) == Added(Last(current), o, oldNo, newNo);
    AddedLines(Last(current), o, oldNo, newNo, skip);
    OpenedLines(runs, o, oldNo, newNo, skip);
    Regroup(AllLines(Butlast(current), skip), RunLines(Last(current), skip),
            if o.tag == skip then [] else [Line(if skip == Ins then oldNo else newNo, o.s)]);
  }

  lemma {:induction false} ShowsPush(lines: seq<Line>, done: seq<Op>, o: Op, start: nat, skip: Tag)
    requires Shows(lines, done, start, skip)
    ensures Shows(lines + (if o.tag == skip then [] else [Line(start + |lines|, o.s)]), done + [o], start, skip)
  {
    SidePush(done, o, skip);
  }

  lemma {:induction false} AddedTexts(run: Run, o: Op, oldNo: nat, newNo: nat)
    requires run.SameRun? <==> o.tag == Same
    ensures RunTexts(Added(run, o, oldNo, newNo)) == RunTexts(run) + (if o.tag == Same then [o.s] else [])
  {
  }

  lemma {:induction false} RunOneSame(runs: seq<Run>, o: Op, oldNo: nat, newNo: nat)
    ensures SameTexts(RunOne(runs, o, oldNo, newNo))
         == SameTexts(runs) + (if o.tag == Same then [o.s] else [])
  {
    var current, r := Opened(runs, o, oldNo, newNo), RunOne(runs, o, oldNo, newNo);
    assert Butlast(r) == Butlast(current) && Last(r) == Added(Last(current), o, oldNo, newNo);
    AddedTexts(Last(current), o, oldNo, newNo);
    OpenedTexts(runs, o, oldNo, newNo);
    Regroup(SameTexts(Butlast(current)), RunTexts(Last(current)), if o.tag == Same then [o.s] else []);
  }

  lemma {:induction false} RunOneGrouped(runs: seq<Run>, o: Op, oldStart: nat, newStart: nat, oldNo: nat, newNo: nat)
    requires WellGrouped(runs, oldStart, newStart)
    requires oldNo == oldStart + |AllLines(runs, Ins)| && newNo == newStart + |AllLines(runs, Del)|
    ensures WellGrouped(RunOne(runs, o, oldNo, newNo), oldStart, newStart)
  {
    var current, r := Opened(runs, o, oldNo, newNo), RunOne(runs, o, oldNo, newNo);
    assert Butlast(r) == Butlast(current) && Last(r) == Added(Last(current), o, oldNo, newNo);
    if current != runs {
      assert Butlast(current) == runs;
      assert WellGrouped(Butlast(r), oldStart, newStart);
    } else {
      assert WellGrouped(Butlast(r), oldStart, newStart);
    }
  }

  lemma {:induction false} KeptAppend(ops: seq<Op>, o: Op)
    ensures Kept(ops + [o]) == Kept(ops) + (if o.tag == Same then [o.s] else [])
  {
    var more := if o.tag == Same then [o.s] else [];
    if ops == [] {
      assert [] + [o] == [o] && [o][1..] == [] && more + [] == more;
    } else {
      var all, rest := ops + [o], ops[1..];
      var first := if ops[0].tag == Same then [ops[0].s] else [];
      assert all[1..] == rest + [o] && all[0] == ops[0];
      KeptAppend(rest, o);
      Regroup(first, Kept(rest), more);
    }
  }

  /** The runs, and the next number of one side, after some rows. */
  ghost predicate SideDone(out: seq<Run>, done: seq<Op>, start: nat, no: nat, skip: Tag) {
    Shows(AllLines(out, skip), done, start, skip) && no == start + |AllLines(out, skip)|
  }

  lemma {:induction false} SideStep(out: seq<Run>, done: seq<Op>, o: Op, start: nat, oldNo: nat, newNo: nat, skip: Tag)
    requires skip != Same && SideDone(out, done, start, if skip == Ins then oldNo else newNo, skip)
    ensures SideDone(RunOne(out, o, oldNo, newNo), done + [o], start,
                     (if skip == Ins then oldNo else newNo) + (if o.tag == skip then 0 else 1), skip)
  {
    var no := if skip == Ins then oldNo else newNo;
    var more := if o.tag == skip then [] else [Line(no, o.s)];
    RunOneLines(out, o, oldNo, newNo, skip);
    SideGrows(AllLines(out, skip), more, done, o, start, no, skip);
  }

  lemma {:induction false} SideGrows(lines: seq<Line>, more: seq<Line>, done: seq<Op>, o: Op, start: nat, no: nat, skip: Tag)
    requires Shows(lines, done, start, skip) && no == start + |lines|
    requires more == if o.tag == skip then [] else [Line(no, o.s)]
    ensures Shows(lines + more, done + [o], start, skip)
    ensures |lines + more| == |lines| + if o.tag == skip then 0 else 1
  {
    ShowsPush(lines, done, o, start, skip);
  }

  ghost predicate Done(out: seq<Run>, done: seq<Op>, oldStart: nat, newStart: nat, oldNo: nat, newNo: nat) {
    SideDone(out, done, oldStart, oldNo, Ins) && SideDone(out, done, newStart, newNo, Del) &&
    SameTexts(out) == Kept(done) && WellGrouped(out, oldStart, newStart)
  }

  lemma {:induction false} RunStep(out: seq<Run>, done: seq<Op>, o: Op, oldStart: nat, newStart: nat, oldNo: nat, newNo: nat)
    requires Done(out, done, oldStart, newStart, oldNo, newNo)
    ensures Done(RunOne(out, o, oldNo, newNo), done + [o], oldStart, newStart,
                 oldNo + (if o.tag == Ins then 0 else 1), newNo + (if o.tag == Del then 0 else 1))
  {
    KeptAppend(done, o);
    RunOneSame(out, o, oldNo, newNo);
    SideStep(out, done, o, oldStart, oldNo, newNo, Ins);
    SideStep(out, done, o, newStart, oldNo, newNo, Del);
    RunOneGrouped(out, o, oldStart, newStart, oldNo, newNo);
  }

  /**
   * Whatever the rows, each side reads as its lines in order under consecutive
   * numbers from the hunk's start, and unchanged rows are exactly the script's.
   */
  method Runs(rows: seq<Op>, oldStart: nat, newStart: nat) returns (out: seq<Run>)
    ensures AllLines(out, Ins) == Numbered(oldStart, OldSide(rows))
    ensures AllLines(out, Del) == Numbered(newStart, NewSide(rows))
    ensures SameTexts(out) == Kept(rows)
    ensures WellGrouped(out, oldStart, newStart)
  {
    out := [];
    var oldNo, newNo := oldStart, newStart;
    for k := 0 to |rows|
      invariant Done(out, rows[..k], oldStart, newStart, oldNo, newNo)
    {
      var r := rows[k];
      assert rows[..k + 1] == rows[..k] + [r];
      RunStep(out, rows[..k], r, oldStart, newStart, oldNo, newNo);
      out := RunOne(out, r, oldNo, newNo);
      oldNo := oldNo + if r.tag == Ins then 0 else 1;
      newNo := newNo + if r.tag == Del then 0 else 1;
    }
    assert rows[..|rows|] == rows;
  }

  // The before/after view

  function DropNewlines(s: string): string {
    if s != "" && s[0] == '\n' then DropNewlines(s[1..]) else s
  }

  /** A template's text as lines: leading newlines and trailing whitespace gone. */
  function TemplateLines(s: string): seq<string> { Lines(TrimRight(DropNewlines(s))) }

  /** What the template's text is, besides leading newlines and trailing whitespace. */
  predicate IsCore(core: string) { core == "" || (core[0] != '\n' && !IsSpace(Last(core))) }

  lemma {:induction false} NewlinesDrop(lead: string, rest: string)
    requires (forall c | c in lead :: c == '\n') && (rest == "" || rest[0] != '\n')
    ensures DropNewlines(lead + rest) == rest
  {
    if lead == "" {
      assert lead + rest == rest;
    } else {
      assert lead[0] in lead && (lead + rest)[1..] == lead[1..] + rest;
      assert forall c | c in lead[1..] :: c in lead;
      NewlinesDrop(lead[1..], rest);
    }
  }

  lemma {:induction false} SpacesTrim(core: string, tail: string)
    requires IsCore(core) && forall c | c in tail :: IsSpace(c)
    ensures TrimRight(core + tail) == core
  {
    if tail == "" {
      assert core + tail == core;
    } else {
      assert Last(tail) in tail && Butlast(core + tail) == core + Butlast(tail);
      SpacesTrim(core, Butlast(tail));
    }
  }

  /** However a text is a core between leading newlines and trailing whitespace, its lines are the core's. */
  lemma {:induction false} TemplateLinesAreTheCores(lead: string, core: string, tail: string)
    requires (forall c | c in lead :: c == '\n') && IsCore(core) && forall c | c in tail :: IsSpace(c)
    requires core == "" && tail != "" ==> tail[0] != '\n'
    ensures TemplateLines(lead + (core + tail)) == Lines(core)
    ensures Joined(TemplateLines(lead + (core + tail))) == core && forall l | l in TemplateLines(lead + (core + tail)) :: '\n' !in l
  {
    assert core + tail != "" ==> (core + tail)[0] == if core != "" then core[0] else tail[0];
    NewlinesDrop(lead, core + tail);
    SpacesTrim(core, tail);
    LinesAreTheCut(core);
  }

  /** And every text is one. */
  lemma {:induction false} TemplateParts(s: string) returns (lead: string, core: string, tail: string)
    ensures s == lead + (core + tail) && (forall c | c in lead :: c == '\n') && IsCore(core) && forall c | c in tail :: IsSpace(c)
    ensures core == "" && tail != "" ==> tail[0] != '\n'
  {
    var rest;
    lead, rest := LeadingNewlines(s);
    core, tail := TrailingSpaces(rest);
    assert core != "" ==> rest[0] == core[0];
  }

  lemma {:induction false} LeadingNewlines(s: string) returns (lead: string, rest: string)
    ensures s == lead + rest && (forall c | c in lead :: c == '\n') && (rest == "" || rest[0] != '\n')
  {
    if s != "" && s[0] == '\n' {
      lead, rest := LeadingNewlines(s[1..]);
      lead := ['\n'] + lead;
    } else {
      lead, rest := "", s;
    }
  }

  lemma {:induction false} TrailingSpaces(s: string) returns (core: string, tail: string)
    ensures s == core + tail && (core == "" || !IsSpace(Last(core))) && forall c | c in tail :: IsSpace(c)
  {
    if s != "" && IsSpace(Last(s)) {
      core, tail := TrailingSpaces(Butlast(s));
      tail := tail + [Last(s)];
    } else {
      core, tail := s, "";
    }
  }

  function AllOf(tag: Tag, lines: seq<string>): seq<Op> {
    if lines == [] then [] else [Op(tag, lines[0])] + AllOf(tag, lines[1..])
  }

  lemma {:induction false} AllOfSides(tag: Tag, lines: seq<string>, skip: Tag)
    ensures Side(AllOf(tag, lines), skip) == if tag == skip then [] else lines
  {
    if lines != [] {
      AllOfSides(tag, lines[1..], skip);
      assert AllOf(tag, lines)[1..] == AllOf(tag, lines[1..]);
    }
  }

  /** The script, or everything out and everything in when the texts are too long to compare. */
  method BeforeAfterRows(a: seq<string>, b: seq<string>) returns (rows: seq<Op>)
    ensures Turns(rows, a, b)
    ensures !SeqDiff.TooLarge(a, b) ==> forall ops | Turns(ops, a, b) :: Edits(rows) <= Edits(ops)
    ensures SeqDiff.TooLarge(a, b) ==> Kept(rows) == []
  {
    var script := SeqDiff.Diff(a, b, false);
    if script.Some? {
      SeqDiff.ScriptIsOptimal(a, b);
      return script.value;
    }
    rows := AllOf(Del, a) + AllOf(Ins, b);
    SideAppend(AllOf(Del, a), AllOf(Ins, b), Ins);
    SideAppend(AllOf(Del, a), AllOf(Ins, b), Del);
    AllOfSides(Del, a, Ins);
    AllOfSides(Del, a, Del);
    AllOfSides(Ins, b, Ins);
    AllOfSides(Ins, b, Del);
    KeptIsCommon(rows);
    EditsAppend(AllOf(Del, a), AllOf(Ins, b));
    AllOfEdits(Del, a);
    AllOfEdits(Ins, b);
  }

  lemma {:induction false} EditsAppend(x: seq<Op>, y: seq<Op>)
    ensures Edits(x + y) == Edits(x) + Edits(y)
  {
    if x == [] {
      assert x + y == y;
    } else {
      assert (x + y)[1..] == x[1..] + y;
      EditsAppend(x[1..], y);
    }
  }

  lemma {:induction false} AllOfEdits(tag: Tag, lines: seq<string>)
    requires tag != Same
    ensures Edits(AllOf(tag, lines)) == |lines|
  {
    if lines != [] {
      AllOfEdits(tag, lines[1..]);
      assert AllOf(tag, lines)[1..] == AllOf(tag, lines[1..]);
    }
  }

  /** What a shortest script leaves unchanged is a longest common subsequence. */
  lemma {:induction false} ShortestKeepsMost(rows: seq<Op>, a: seq<string>, b: seq<string>, c: seq<string>)
    requires Turns(rows, a, b) && forall ops | Turns(ops, a, b) :: Edits(rows) <= Edits(ops)
    requires Subsequence(c, a) && Subsequence(c, b)
    ensures |c| <= |Kept(rows)|
  {
    var w := SeqDiff.Walk(a, b, 0, 0);
    SeqDiff.WalkIsOptimal(a, b);
    KeptIsCommon(rows);
    KeptIsCommon(w);
  }

  /** Old lines 1..n in order on the one side, new lines 1..m in order on the other, and as many shown unchanged as can be. */
  method BeforeAfter(before: string, after: string) returns (runs: seq<Run>)
    ensures AllLines(runs, Ins) == Numbered(1, TemplateLines(before))
    ensures AllLines(runs, Del) == Numbered(1, TemplateLines(after))
    ensures WellGrouped(runs, 1, 1)
    ensures var a, b, kept := TemplateLines(before), TemplateLines(after), SameTexts(runs);
            Subsequence(kept, a) && Subsequence(kept, b) &&
            if |a| * |b| > 6_000_000 then kept == []
            else forall c | Subsequence(c, a) && Subsequence(c, b) :: |c| <= |kept|
  {
    var a, b := TemplateLines(before), TemplateLines(after);
    var rows := BeforeAfterRows(a, b);
    runs := Runs(rows, 1, 1);
    KeptIsCommon(rows);
    if !SeqDiff.TooLarge(a, b) {
      forall c | Subsequence(c, a) && Subsequence(c, b)
        ensures |c| <= |SameTexts(runs)|
      {
        ShortestKeepsMost(rows, a, b, c);
      }
    }
  }
}
