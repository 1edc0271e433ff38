/** The decision kit's reader of unified diffs. */
module UnifiedDiff {
  import opened Wrappers
  import opened Text
  import opened EditScripts
  import opened DiffLines

  datatype Hunk = Hunk(oldStart: nat, newStart: nat, context: string, rows: seq<Op>)

  datatype File = File(name: string, hunks: seq<Hunk>, added: int, removed: int)

  /** How many old and new lines the open hunk still expects; trimmed diffs may overdraw one side. */
  datatype Left = Left(before: int, after: int)

  /** The files so far, the last of them open; a hunk is open when `left` says so, and is the last one's last. */
  datatype State = State(files: seq<File>, left: Option<Left>)

  const START := State([], None)

  function At(lines: seq<string>, i: nat): string { if i < |lines| then lines[i] else "" }

  /** Ends an open hunk, whatever it still expects: the line opens a file or a hunk. */
  predicate IsHeader(l: string, next: string, afterNext: string) {
    StartsWith(l, "diff --git ") || StartsWith(l, "@@ ") ||
    (StartsWith(l, "--- ") && StartsWith(next, "+++ ") && StartsWith(afterNext, "@@ "))
  }

  predicate RowShape(l: string) { l == "" || l[0] == ' ' || l[0] == '+' || l[0] == '-' || l[0] == '\\' }

  /** What the lazy `(.+?) b\/(.+)` leaves for its second group, trying the separator at k and on. */
  function AfterSeparator(s: string, k: nat): Option<string>
    decreases |s| - k
  {
    if k + 3 >= |s| then None
    else if s[k..k + 3] == " b/" then Some(s[k + 3..])
    else AfterSeparator(s, k + 1)
  }

  function ReadGitLine(l: string): Option<string> {
    match Skip(l, "diff --git a/")
    case None => None
    case Some(rest) => if OneLine(rest) then AfterSeparator(rest, 1) else None
  }

  /** `(?:<side>)?(.+)$` */
  function ReadPath(rest: string, side: string): Option<string>
    requires |side| == 2
  {
    if rest == "" || !OneLine(rest) then None
    else if StartsWith(rest, side) && |rest| > 2 then Some(rest[2..])
    else Some(rest)
  }

  function ReadPlusLine(l: string): Option<string> {
    match Skip(l, "+++ ")
    case None => None
    case Some(rest) => ReadPath(rest, "b/")
  }

  function ReadMinusLine(l: string): Option<string> {
    match Skip(l, "--- ")
    case None => None
    case Some(rest) => ReadPath(rest, "a/")
  }

  function ReadHunkLine(l: string): Option<HunkHead> {
    match ReadHunkHead(l)
    case None => None
    case Some(h) => if OneLine(h.tail) then Some(h) else None
  }

  /** ` ?(.*)`: the context without the one space before it. */
  function Context(tail: string): string { if StartsWith(tail, " ") then tail[1..] else tail }

  function Open(files: seq<File>, name: string): State { State(files + [File(name, [], 0, 0)], None) }

  /** The state a path line works on: a fresh file unless the open one has no hunk yet. */
  function Receiving(st: State): (r: State)
    ensures r.files != []
  {
    if st.files == [] || Last(st.files).hunks != [] then Open(st.files, "") else st
  }

  function Named(st: State, name: string): State
    requires st.files != []
  {
    st.(files := Butlast(st.files) + [Last(st.files).(name := name)])
  }

  predicate InHunk(st: State) {
    st.left.Some? && st.files != [] && Last(st.files).hunks != []
  }

  function PutRow(st: State, o: Op): State
    requires InHunk(st)
  {
    var f := Last(st.files);
    var h := Last(f.hunks);
    State(
      Butlast(st.files) +
        [File(f.name, Butlast(f.hunks) + [h.(rows := h.rows + [o])],
              f.added + (if o.tag == Ins then 1 else 0), f.removed + (if o.tag == Del then 1 else 0))],
      Some(Left(st.left.value.before - (if o.tag == Ins then 0 else 1),
                st.left.value.after - (if o.tag == Del then 0 else 1))))
  }

  function RowOf(l: string): Op {
    if l == "" then Op(Same, "")
    else Op(if l[0] == '+' then Ins else if l[0] == '-' then Del else Same, l[1..])
  }

  predicate TakesRow(st: State, l: string, next: string, afterNext: string) {
    InHunk(st) && !IsHeader(l, next, afterNext) &&
    (st.left.value.before > 0 || st.left.value.after > 0) && RowShape(l)
  }

  function OpenHunk(st: State, h: HunkHead): State {
    var s := if st.files == [] then Open(st.files, "") else st;
    var f := Last(s.files);
    State(Butlast(s.files) + [f.(hunks := f.hunks + [Hunk(h.pre.start, h.post.start, Context(h.tail), [])])],
          Some(Left(h.pre.count, h.post.count)))
  }

  /** One line that is not a row of the open hunk. */
  function HeaderStep(st: State, l: string): State {
    var git, plus, minus, head := ReadGitLine(l), ReadPlusLine(l), ReadMinusLine(l), ReadHunkLine(l);
    if git.Some? then Open(st.files, git.value)
    else if plus.Some? then
      var s := Receiving(st);
      if plus.value != "/dev/null" then Named(s, Trim(plus.value)) else s
    else if minus.Some? then
      var s := Receiving(st);
      if minus.value != "/dev/null" && Last(s.files).name == "" then Named(s, Trim(minus.value)) else s
    else if head.Some? then OpenHunk(st, head.value)
    else st
  }

  /** One line, with the two after it in view. */
  function Step(st: State, l: string, next: string, afterNext: string): State {
    if TakesRow(st, l, next, afterNext) then
      if l != "" && l[0] == '\\' then st else PutRow(st, RowOf(l))
    else HeaderStep(st, l)
  }

  function ReadLines(st: State, lines: seq<string>): State
    decreases |lines|
  {
    if lines == [] then st
    else ReadLines(Step(st, lines[0], At(lines, 1), At(lines, 2)), lines[1..])
  }

  function WithHunks(files: seq<File>): seq<File> {
    if files == [] then [] else (if files[0].hunks != [] then [files[0]] else []) + WithHunks(files[1..])
  }

  function ParseUnified(text: string): seq<File> {
    WithHunks(ReadLines(START, Lines(Unixed(text))).files)
  }

  /** A row into the open hunk: the counters of its sides fall, its file's totals rise. */
  method TakeRow(files: seq<File>, before: int, after: int, o: Op) returns (files': seq<File>, before': int, after': int)
    requires files != [] && Last(files).hunks != []
    ensures State(files', Some(Left(before', after'))) == PutRow(State(files, Some(Left(before, after))), o)
  {
    var f := Last(files);
    var h := Last(f.hunks);
    f := f.(hunks := Butlast(f.hunks) + [h.(rows := h.rows + [o])]);
    before', after' := before, after;
    if o.tag != Ins { before' := before' - 1; }
    if o.tag != Del { after' := after' - 1; }
    if o.tag == Ins { f := f.(added := f.added + 1); }
    if o.tag == Del { f := f.(removed := f.removed + 1); }
    files' := Butlast(files) + [f];
  }

  /** The reader as the page runs it: a loop over the lines that updates the open file and hunk. */
  method Parse(text: string) returns (files: seq<File>)
    ensures files == ParseUnified(text)
  {
    var lines := Lines(Unixed(text));
    files := [];
    var hunk, before, after := false, 0, 0;
    var i := 0;
    while i < |lines|
      invariant i <= |lines|
      invariant hunk ==> files != [] && Last(files).hunks != []
      invariant ReadLines(State(files, if hunk then Some(Left(before, after)) else None), lines[i..])
             == ReadLines(START, lines)
    {
      var l, next, afterNext := lines[i], At(lines, i + 1), At(lines, i + 2);
      ghost var st := State(files, if hunk then Some(Left(before, after)) else None);
      assert lines[i..][0] == l && At(lines[i..], 1) == next && At(lines[i..], 2) == afterNext;
      assert lines[i..][1..] == lines[i + 1..];
      i := i + 1;
      if hunk && !IsHeader(l, next, afterNext) && (before > 0 || after > 0) && RowShape(l) {
        if l != "" && l[0] == '\\' { continue; }
        files, before, after := TakeRow(files, before, after, RowOf(l));
        continue;
      }
      var moved := HeaderStep(State(files, if hunk then Some(Left(before, after)) else None), l);
      files := moved.files;
      HeaderStepKeepsShape(st, l);
      hunk := moved.left.Some?;
      if hunk { before, after := moved.left.value.before, moved.left.value.after; }
    }
    assert lines[i..] == [] && lines[0..] == lines;
    return WithHunks(files);
  }

  ghost predicate Shaped(st: State) { st.left.Some? ==> InHunk(st) }

  /** An open hunk is always the last hunk of the last file. */
  lemma {:induction false} HeaderStepKeepsShape(st: State, l: string)
    requires Shaped(st)
    ensures Shaped(HeaderStep(st, l))
  {
  }
}
