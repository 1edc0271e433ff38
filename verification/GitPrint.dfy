/**
 * Git's printer of unified diffs, and what the decision kit's reader makes of
 * its output: everything, unless a name, a carriage return or the last two rows
 * of a hunk mislead it.
 */
module GitPrint {
  import opened Wrappers
  import opened Text
  import opened EditScripts
  import opened DiffLines
  import opened UnifiedDiff

  datatype Change = Modified | Created | Deleted

  /**
   * How a file is introduced: git's own way, by `---` and `+++` lines alone, with
   * the `a/` and `b/` before the paths or without, or not at all, as when hunks
   * are pasted.
   */
  datatype Style = Git | Paths(prefixed: bool) | Bare

  /**
   * A changed file as git sees it; `extra` are the extended header lines (index,
   * mode, similarity), `unended` the rows of its last hunk that end a side
   * without a newline.
   */
  datatype GitFile = GitFile(style: Style, oldName: string, newName: string, change: Change, extra: seq<string>,
                             hunks: seq<Hunk>, unended: seq<bool>)

  function TagChar(t: Tag): char { match t case Same => ' ' case Del => '-' case Ins => '+' }

  function RowLine(o: Op): string { [TagChar(o.tag)] + o.s }

  function RowLines(rows: seq<Op>): (r: seq<string>)
    ensures |r| == |rows| && forall i | 0 <= i < |r| :: r[i] == RowLine(rows[i])
  {
    if rows == [] then [] else [RowLine(rows[0])] + RowLines(rows[1..])
  }

  function HeadOf(h: Hunk): HunkHead {
    HunkHead(Range(h.oldStart, |OldSide(h.rows)|), Range(h.newStart, |NewSide(h.rows)|),
             if h.context == "" then "" else " " + h.context)
  }

  function Mark(unended: seq<bool>): seq<string> { if unended != [] && unended[0] then [MARKER] else [] }

  function Later(unended: seq<bool>): seq<bool> { if unended == [] then [] else unended[1..] }

  /** The last hunk's rows, each that ends a side without a newline marked so. */
  function MarkedLines(rows: seq<Op>, unended: seq<bool>): seq<string>
    decreases |rows|
  {
    if rows == [] then [] else [RowLine(rows[0])] + (Mark(unended) + MarkedLines(rows[1..], Later(unended)))
  }

  function HunkLines(hunks: seq<Hunk>, unended: seq<bool>): seq<string> {
    if hunks == [] then []
    else
      [PrintHunkHead(HeadOf(hunks[0]))] +
      (if |hunks| == 1 then MarkedLines(hunks[0].rows, unended) else RowLines(hunks[0].rows)) +
      HunkLines(hunks[1..], unended)
  }

  function GitLine(f: GitFile): string { "diff --git a/" + (f.oldName + " b/" + f.newName) }

  /** A path as a file's path line shows it. */
  function SideText(style: Style, side: string, name: string, gone: bool): string {
    if gone then "/dev/null" else if style == Paths(false) then Shown(name) else side + Shown(name)
  }

  function MinusLine(f: GitFile): string { "--- " + SideText(f.style, "a/", f.oldName, f.change == Created) }

  function PlusLine(f: GitFile): string { "+++ " + SideText(f.style, "b/", f.newName, f.change == Deleted) }

  /** The path lines, unless the hunks are bare. */
  function Paired(f: GitFile): seq<string> { if f.style == Bare then [] else [MinusLine(f), PlusLine(f)] }

  /** A file without hunks (a pure rename, a mode change) prints no path lines. */
  function PathLines(f: GitFile): seq<string> {
    if f.hunks == [] then [] else Paired(f) + HunkLines(f.hunks, f.unended)
  }

  function Opening(f: GitFile): seq<string> { if f.style == Git then [GitLine(f)] else [] }

  function FileLines(f: GitFile): seq<string> { Opening(f) + f.extra + PathLines(f) }

  function DiffOf(fs: seq<GitFile>): seq<string> {
    if fs == [] then [] else FileLines(fs[0]) + DiffOf(fs[1..])
  }

  function Print(fs: seq<GitFile>): string { Unlines(DiffOf(fs)) }

  // What git itself guarantees

  predicate Meaningless(l: string) {
    '\n' !in l && !StartsWith(l, "diff --git ") && !StartsWith(l, "@@ ") && !StartsWith(l, "--- ") && !StartsWith(l, "+++ ")
  }

  predicate PrintableHunk(h: Hunk) { '\n' !in h.context && forall o | o in h.rows :: '\n' !in o.s }

  predicate Named?(name: string) { name != "" && OneLine(name) }

  /** A path inside a tree: relative, and with no empty part. */
  predicate InTree(name: string) {
    Named?(name) && name[0] != '/' && forall i | 0 <= i < |name| - 1 :: !(name[i] == '/' && name[i + 1] == '/')
  }

  predicate NamesPrintable(f: GitFile) {
    match f.style
    case Git => Named?(f.oldName) && Named?(f.newName)
    case Paths(_) => InTree(f.oldName) && InTree(f.newName)
    case Bare => true
  }

  predicate Printable(f: GitFile) {
    NamesPrintable(f) && (f.style != Git ==> f.hunks != []) &&
    (forall l | l in f.extra :: Meaningless(l)) &&
    (forall h | h in f.hunks :: PrintableHunk(h))
  }

  /** Bare hunks come first if at all, and path lines alone begin a file only after one with hunks. */
  predicate CanFollow(f: GitFile, before: seq<GitFile>) {
    match f.style
    case Git => true
    case Paths(_) => before == [] || Last(before).hunks != []
    case Bare => before == []
  }

  ghost predicate Sequence(fs: seq<GitFile>) { forall i | 0 <= i < |fs| :: CanFollow(fs[i], fs[..i]) }

  // What the reader's patterns take besides

  /** The context holds no character that `.` does not match. */
  predicate ReadableHunk(h: Hunk) { OneLine(h.context) && PrintableHunk(h) }

  predicate Readable(f: GitFile) { Printable(f) && forall h | h in f.hunks :: ReadableHunk(h) }

  // What a reader should answer

  function CountTag(rows: seq<Op>, t: Tag): nat {
    if rows == [] then 0 else (if rows[0].tag == t then 1 else 0) + CountTag(rows[1..], t)
  }

  function AddHunk(f: File, h: Hunk): File {
    File(f.name, f.hunks + [h], f.added + CountTag(h.rows, Ins), f.removed + CountTag(h.rows, Del))
  }

  function AddHunks(f: File, hunks: seq<Hunk>): File
    decreases |hunks|
  {
    if hunks == [] then f else AddHunks(AddHunk(f, hunks[0]), hunks[1..])
  }

  function Blank(name: string): File { File(name, [], 0, 0) }

  /** A file's new name; without a `diff --git` line, the old one of a deleted file; none for bare hunks. */
  function NameMeant(f: GitFile): string {
    match f.style
    case Git => f.newName
    case Paths(_) => if f.change == Deleted then f.oldName else f.newName
    case Bare => ""
  }

  function MeantFile(f: GitFile): seq<File> {
    if f.hunks == [] then [] else [AddHunks(Blank(NameMeant(f)), f.hunks)]
  }

  /** The files with hunks, each under its name, with its hunks and its totals. */
  function Meant(fs: seq<GitFile>): seq<File> {
    if fs == [] then [] else MeantFile(fs[0]) + Meant(fs[1..])
  }

  // What the reader answers

  /** A removed and an added row that print as a path header. */
  predicate LooksLikePaths(d: Op, p: Op) {
    d.tag == Del && StartsWith(d.s, "-- ") && p.tag == Ins && StartsWith(p.s, "++ ")
  }

  /** The reader takes the last two rows for a path header when a hunk header follows. */
  predicate BadEnd(rows: seq<Op>) {
    |rows| >= 2 && LooksLikePaths(rows[|rows| - 2], rows[|rows| - 1])
  }

  /** The name the removed row's line gives, if it reads as a path. */
  function MinusName(d: Op): Option<string> {
    match ReadMinusLine(RowLine(d))
    case None => None
    case Some(m) => Some(if m == "/dev/null" then "" else Trim(m))
  }

  /** The name once the added row's line is read as well. */
  function PlusName(name: string, p: Op): string {
    match ReadPlusLine(RowLine(p))
    case None => name
    case Some(m) => if m == "/dev/null" then name else Trim(m)
  }

  /** The hunk with its removed row lost, or with both rows lost. */
  function Without(h: Hunk, both: bool): Hunk
    requires |h.rows| >= 2
  {
    var cut := h.rows[..|h.rows| - 2];
    h.(rows := if both then cut else cut + [Last(h.rows)])
  }

  /** The files one file's hunks turn into. */
  function ReadHunks(cur: File, hunks: seq<Hunk>): seq<File>
    decreases |hunks|
  {
    if hunks == [] then [cur]
    else
      var h, n := hunks[0], |hunks[0].rows|;
      if |hunks| == 1 || !BadEnd(h.rows) then ReadHunks(AddHunk(cur, h), hunks[1..])
      else match MinusName(h.rows[n - 2])
        case None => ReadHunks(AddHunk(cur, Without(h, false)), hunks[1..])
        case Some(name) =>
          [AddHunk(cur, Without(h, true))] + ReadHunks(Blank(PlusName(name, h.rows[n - 1])), hunks[1..])
  }

  /** The name off the `diff --git` line. */
  function GitName(f: GitFile): string {
    AfterSeparator(f.oldName + " b/" + f.newName, 1).GetOr("")
  }

  /** A path without what looks like a side's prefix and is not. */
  function Stripped(style: Style, side: string, name: string): string
    requires |side| == 2
  {
    if style == Paths(false) && StartsWith(name, side) && |name| > 2 then name[2..] else name
  }

  /** The name once the path lines are read. */
  function NameRead(f: GitFile): string {
    match f.style
    case Git => if f.change == Deleted || f.newName == "/dev/null" then GitName(f) else Trim(f.newName)
    case Paths(_) =>
      if f.change == Deleted then Trim(Stripped(f.style, "a/", f.oldName)) else Trim(Stripped(f.style, "b/", f.newName))
    case Bare => ""
  }

  function ReadFile(f: GitFile): seq<File> {
    if f.hunks == [] then [Blank(GitName(f))] else ReadHunks(Blank(NameRead(f)), f.hunks)
  }

  function ReadAll(fs: seq<GitFile>): seq<File> {
    if fs == [] then [] else ReadFile(fs[0]) + ReadAll(fs[1..])
  }

  // Simulating the reader on printed lines

  lemma {:induction false} ReadCons(st: State, l: string, rest: seq<string>)
    ensures ReadLines(st, [l] + rest) == ReadLines(Step(st, l, At(rest, 0), At(rest, 1)), rest)
  {
    var all := [l] + rest;
    assert all[1..] == rest && At(all, 1) == At(rest, 0) && At(all, 2) == At(rest, 1);
  }

  function PutRows(st: State, rows: seq<Op>): State
    requires InHunk(st)
    decreases |rows|
  {
    if rows == [] then st else PutRows(PutRow(st, rows[0]), rows[1..])
  }

  lemma {:induction false} RowPrefixes(o: Op)
    ensures !StartsWith(RowLine(o), "diff --git ") && !StartsWith(RowLine(o), "@@ ")
    ensures StartsWith(RowLine(o), "--- ") <==> o.tag == Del && StartsWith(o.s, "-- ")
    ensures StartsWith(RowLine(o), "+++ ") <==> o.tag == Ins && StartsWith(o.s, "++ ")
  {
    var l := RowLine(o);
    assert l[1..] == o.s;
    NotPrefix(l, "diff --git ");
    NotPrefix(l, "@@ ");
    assert "--- " == "-" + "-- " && "+++ " == "+" + "++ ";
    PrefixTail(l, "--- ");
    PrefixTail(l, "+++ ");
  }

  lemma {:induction false} PrefixTail(l: string, prefix: string)
    requires l != "" && prefix != ""
    ensures StartsWith(l, prefix) <==> l[0] == prefix[0] && StartsWith(l[1..], prefix[1..])
  {
    assert l == [l[0]] + l[1..] && prefix == [prefix[0]] + prefix[1..];
  }

  lemma {:induction false} RowIsNoHeader(rows: seq<Op>, rest: seq<string>)
    requires rows != []
    requires !StartsWith(At(rest, 0), "+++ ")
    requires BadEnd(rows) ==> !StartsWith(At(rest, 0), "@@ ")
    ensures var after := RowLines(rows[1..]) + rest;
            !IsHeader(RowLine(rows[0]), At(after, 0), At(after, 1))
  {
    var after := RowLines(rows[1..]) + rest;
    RowPrefixes(rows[0]);
    if StartsWith(RowLine(rows[0]), "--- ") && StartsWith(At(after, 0), "+++ ") {
      assert |rows| >= 2 && At(after, 0) == RowLine(rows[1]);
      RowPrefixes(rows[1]);
      if |rows| == 2 {
        assert At(after, 1) == At(rest, 0);
      } else {
        assert At(after, 1) == RowLine(rows[2]);
        RowPrefixes(rows[2]);
      }
    }
  }

  lemma {:induction false} RowStep(st: State, o: Op, next: string, afterNext: string)
    requires InHunk(st) && !IsHeader(RowLine(o), next, afterNext)
    requires st.left.value.before > 0 || st.left.value.after > 0
    ensures Step(st, RowLine(o), next, afterNext) == PutRow(st, o)
  {
    assert RowLine(o)[1..] == o.s;
  }

  /** Rows read back as rows, as long as no header hides in them. */
  lemma {:induction false} RowsRead(st: State, rows: seq<Op>, rest: seq<string>)
    requires InHunk(st)
    requires st.left.value.before >= |OldSide(rows)| && st.left.value.after >= |NewSide(rows)|
    requires !StartsWith(At(rest, 0), "+++ ")
    requires BadEnd(rows) ==> !StartsWith(At(rest, 0), "@@ ")
    ensures ReadLines(st, RowLines(rows) + rest) == ReadLines(PutRows(st, rows), rest)
    decreases |rows|
  {
    if rows == [] {
      assert RowLines(rows) + rest == rest;
    } else {
      var o, after := rows[0], RowLines(rows[1..]) + rest;
      assert RowLines(rows) + rest == [RowLine(o)] + after;
      ReadCons(st, RowLine(o), after);
      RowIsNoHeader(rows, rest);
      RowStep(st, o, At(after, 0), At(after, 1));
      RowsRead(PutRow(st, o), rows[1..], rest);
    }
  }

  /** Whatever its state the reader passes over a marker. */
  lemma {:induction false} MarkerStep(st: State, next: string, afterNext: string)
    ensures Step(st, MARKER, next, afterNext) == st
  {
    NotPrefix(MARKER, "diff --git a/");
    NotPrefix(MARKER, "+++ ");
    NotPrefix(MARKER, "--- ");
    NotPrefix(MARKER, "@@ -");
  }

  lemma {:induction false} MarkRead(st: State, unended: seq<bool>, rest: seq<string>)
    ensures ReadLines(st, Mark(unended) + rest) == ReadLines(st, rest)
  {
    if Mark(unended) == [] {
      assert Mark(unended) + rest == rest;
    } else {
      ReadCons(st, MARKER, rest);
      MarkerStep(st, At(rest, 0), At(rest, 1));
    }
  }

  /** Marked rows: none of their lines opens a hunk, and a marker is no path line. */
  lemma {:induction false} MarkedStarts(rows: seq<Op>, unended: seq<bool>, rest: seq<string>)
    requires !StartsWith(At(rest, 0), "+++ ") && !StartsWith(At(rest, 0), "@@ ")
    ensures var lines := Mark(unended) + (MarkedLines(rows, Later(unended)) + rest);
            !StartsWith(At(lines, 0), "@@ ") &&
            (StartsWith(At(lines, 0), "+++ ") ==> Mark(unended) == [] && rows != [] && At(lines, 0) == RowLine(rows[0]))
  {
    var marked := MarkedLines(rows, Later(unended)) + rest;
    if Mark(unended) != [] {
      assert At(Mark(unended) + marked, 0) == MARKER;
      NotPrefix(MARKER, "@@ ");
      NotPrefix(MARKER, "+++ ");
    } else {
      assert Mark(unended) + marked == marked;
      if rows != [] {
        RowPrefixes(rows[0]);
      } else {
        assert marked == rest;
      }
    }
  }

  lemma {:induction false} MarkedIsNoHeader(rows: seq<Op>, unended: seq<bool>, rest: seq<string>)
    requires rows != []
    requires !StartsWith(At(rest, 0), "+++ ") && !StartsWith(At(rest, 0), "@@ ")
    ensures var after := Mark(unended) + (MarkedLines(rows[1..], Later(unended)) + rest);
            !IsHeader(RowLine(rows[0]), At(after, 0), At(after, 1))
  {
    var tail := rows[1..];
    var after := Mark(unended) + (MarkedLines(tail, Later(unended)) + rest);
    RowPrefixes(rows[0]);
    MarkedStarts(tail, unended, rest);
    if StartsWith(At(after, 0), "+++ ") {
      MarkedSecond(tail, Later(unended), rest);
      assert after == MarkedLines(tail, Later(unended)) + rest;
    }
  }

  /** The line after a last hunk's row opens no hunk. */
  lemma {:induction false} MarkedSecond(rows: seq<Op>, unended: seq<bool>, rest: seq<string>)
    requires rows != []
    requires !StartsWith(At(rest, 0), "+++ ") && !StartsWith(At(rest, 0), "@@ ")
    ensures !StartsWith(At(MarkedLines(rows, unended) + rest, 1), "@@ ")
  {
    var more := Mark(unended) + (MarkedLines(rows[1..], Later(unended)) + rest);
    MarkedStarts(rows[1..], unended, rest);
    assert MarkedLines(rows, unended) + rest == [RowLine(rows[0])] + more;
    assert At([RowLine(rows[0])] + more, 1) == At(more, 0);
  }

  lemma {:induction false} MarkedSplit(rows: seq<Op>, unended: seq<bool>, rest: seq<string>)
    requires rows != []
    ensures MarkedLines(rows, unended) + rest
         == [RowLine(rows[0])] + (Mark(unended) + (MarkedLines(rows[1..], Later(unended)) + rest))
  {
    Regroup(Mark(unended), MarkedLines(rows[1..], Later(unended)), rest);
    Regroup([RowLine(rows[0])], Mark(unended) + MarkedLines(rows[1..], Later(unended)), rest);
  }

  /** A last hunk's rows read back whatever they hold, and markers leave no trace. */
  lemma {:induction false} MarkedRead(st: State, rows: seq<Op>, unended: seq<bool>, rest: seq<string>)
    requires InHunk(st)
    requires st.left.value.before >= |OldSide(rows)| && st.left.value.after >= |NewSide(rows)|
    requires !StartsWith(At(rest, 0), "+++ ") && !StartsWith(At(rest, 0), "@@ ")
    ensures ReadLines(st, MarkedLines(rows, unended) + rest) == ReadLines(PutRows(st, rows), rest)
    decreases |rows|
  {
    if rows == [] {
      assert MarkedLines(rows, unended) + rest == rest;
    } else {
      var o, more := rows[0], MarkedLines(rows[1..], Later(unended)) + rest;
      var after := Mark(unended) + more;
      MarkedSplit(rows, unended, rest);
      ReadCons(st, RowLine(o), after);
      MarkedIsNoHeader(rows, unended, rest);
      RowStep(st, o, At(after, 0), At(after, 1));
      MarkRead(PutRow(st, o), unended, more);
      MarkedRead(PutRow(st, o), rows[1..], Later(unended), rest);
    }
  }

  function WithRows(f: File, h: Hunk): File
    requires f.hunks != []
  {
    File(f.name, Butlast(f.hunks) + [Last(f.hunks).(rows := Last(f.hunks).rows + h.rows)],
         f.added + CountTag(h.rows, Ins), f.removed + CountTag(h.rows, Del))
  }

  lemma {:induction false} PutRowsIs(done: seq<File>, f: File, left: Left, h: Hunk)
    requires f.hunks != []
    ensures PutRows(State(done + [f], Some(left)), h.rows)
         == State(done + [WithRows(f, h)],
                  Some(Left(left.before - |OldSide(h.rows)|, left.after - |NewSide(h.rows)|)))
    decreases |h.rows|
  {
    var st := State(done + [f], Some(left));
    if h.rows == [] {
      assert Last(f.hunks).rows + [] == Last(f.hunks).rows;
      assert f.hunks == Butlast(f.hunks) + [Last(f.hunks)];
    } else {
      var o := h.rows[0];
      var one := PutRow(st, o);
      var g := Last(one.files);
      assert Butlast(st.files) == done && one.files == done + [g];
      var tail := h.(rows := h.rows[1..]);
      PutRowsIs(done, g, one.left.value, tail);
      assert Butlast(g.hunks) == Butlast(f.hunks);
      assert Last(f.hunks).rows + [o] + tail.rows == Last(f.hunks).rows + h.rows;
    }
  }

  lemma {:induction false} HeadLineStarts(h: Hunk)
    ensures StartsWith(PrintHunkHead(HeadOf(h)), "@@ ")
  {
    HunkHeadLine(HeadOf(h));
  }

  lemma {:induction false} HunkLineIsNoPath(l: string)
    requires StartsWith(l, "@@ ")
    ensures ReadGitLine(l) == None && ReadPlusLine(l) == None && ReadMinusLine(l) == None
  {
    NotPrefix(l, "diff --git a/");
    NotPrefix(l, "+++ ");
    NotPrefix(l, "--- ");
  }

  lemma {:induction false} HunkLineReads(h: Hunk)
    requires OneLine(h.context)
    ensures ReadHunkLine(PrintHunkHead(HeadOf(h))) == Some(HeadOf(h)) && Context(HeadOf(h).tail) == h.context
  {
    ReadPrintedHunkHead(HeadOf(h));
    TailReads(h);
  }

  lemma {:induction false} TailReads(h: Hunk)
    requires OneLine(h.context)
    ensures OneLine(HeadOf(h).tail) && Context(HeadOf(h).tail) == h.context
  {
    assert h.context != "" ==> (" " + h.context)[1..] == h.context;
  }

  lemma {:induction false} HunkLineStep(done: seq<File>, cur: File, left: Option<Left>, h: Hunk, next: string, afterNext: string)
    requires OneLine(h.context)
    ensures Step(State(done + [cur], left), PrintHunkHead(HeadOf(h)), next, afterNext)
         == State(done + [cur.(hunks := cur.hunks + [h.(rows := [])])],
                  Some(Left(|OldSide(h.rows)|, |NewSide(h.rows)|)))
  {
    var l, st := PrintHunkHead(HeadOf(h)), State(done + [cur], left);
    HeadLineStarts(h);
    HunkLineIsNoPath(l);
    HunkLineReads(h);
    assert IsHeader(l, next, afterNext);
    assert Step(st, l, next, afterNext) == HeaderStep(st, l) == OpenHunk(st, HeadOf(h));
    assert Butlast(done + [cur]) == done;
  }

  /** The file once a hunk's header is read. */
  function Begun(cur: File, h: Hunk): File { cur.(hunks := cur.hunks + [h.(rows := [])]) }

  function Full(h: Hunk): Left { Left(|OldSide(h.rows)|, |NewSide(h.rows)|) }

  lemma {:induction false} HeadRead(done: seq<File>, cur: File, left: Option<Left>, h: Hunk, lines: seq<string>, rest: seq<string>)
    requires OneLine(h.context)
    ensures ReadLines(State(done + [cur], left), [PrintHunkHead(HeadOf(h))] + lines + rest)
         == ReadLines(State(done + [Begun(cur, h)], Some(Full(h))), lines + rest)
  {
    var after := lines + rest;
    Regroup([PrintHunkHead(HeadOf(h))], lines, rest);
    ReadCons(State(done + [cur], left), PrintHunkHead(HeadOf(h)), after);
    HunkLineStep(done, cur, left, h, At(after, 0), At(after, 1));
  }

  /** All its rows fill a hunk just begun and leave nothing to read. */
  lemma {:induction false} RowsFill(done: seq<File>, cur: File, h: Hunk)
    ensures var begun := State(done + [Begun(cur, h)], Some(Full(h)));
            InHunk(begun) && PutRows(begun, h.rows) == State(done + [AddHunk(cur, h)], Some(Left(0, 0)))
  {
    PutRowsIs(done, Begun(cur, h), Full(h), h);
    CutFile(cur, h, h.rows);
    assert h.(rows := h.rows) == h;
  }

  /** The last hunk of a file is read as it was printed. */
  lemma {:induction false} LastHunkRead(done: seq<File>, cur: File, left: Option<Left>, h: Hunk, unended: seq<bool>, rest: seq<string>)
    requires ReadableHunk(h)
    requires !StartsWith(At(rest, 0), "+++ ") && !StartsWith(At(rest, 0), "@@ ")
    ensures ReadLines(State(done + [cur], left), [PrintHunkHead(HeadOf(h))] + MarkedLines(h.rows, unended) + rest)
         == ReadLines(State(done + [AddHunk(cur, h)], Some(Left(0, 0))), rest)
  {
    HeadRead(done, cur, left, h, MarkedLines(h.rows, unended), rest);
    RowsFill(done, cur, h);
    MarkedRead(State(done + [Begun(cur, h)], Some(Full(h))), h.rows, unended, rest);
  }

  /** An earlier hunk that ends cleanly is read as it was printed. */
  lemma {:induction false} HunkRead(done: seq<File>, cur: File, left: Option<Left>, h: Hunk, rest: seq<string>)
    requires ReadableHunk(h)
    requires !StartsWith(At(rest, 0), "+++ ")
    requires BadEnd(h.rows) ==> !StartsWith(At(rest, 0), "@@ ")
    ensures ReadLines(State(done + [cur], left), [PrintHunkHead(HeadOf(h))] + RowLines(h.rows) + rest)
         == ReadLines(State(done + [AddHunk(cur, h)], Some(Left(0, 0))), rest)
  {
    HeadRead(done, cur, left, h, RowLines(h.rows), rest);
    RowsFill(done, cur, h);
    RowsRead(State(done + [Begun(cur, h)], Some(Full(h))), h.rows, rest);
  }

  lemma {:induction false} CountTagPush(rows: seq<Op>, o: Op, t: Tag)
    ensures CountTag(rows + [o], t) == CountTag(rows, t) + (if o.tag == t then 1 else 0)
  {
    if rows == [] {
      assert [] + [o] == [o] && [o][1..] == [];
    } else {
      var all, rest := rows + [o], rows[1..];
      assert all[1..] == rest + [o] && all[0] == rows[0];
      CountTagPush(rest, o, t);
    }
  }

  lemma {:induction false} MinusLineStep(done: seq<File>, f: File, d: Op, p: Op, next: string)
    requires LooksLikePaths(d, p) && f.hunks != [] && StartsWith(next, "@@ ")
    ensures var st := State(done + [f], Some(Left(1, 1)));
            Step(st, RowLine(d), RowLine(p), next) ==
            match MinusName(d)
            case None => st
            case Some(name) => State(done + [f] + [Blank(name)], None)
  {
    var st, l := State(done + [f], Some(Left(1, 1))), RowLine(d);
    RowPrefixes(d);
    RowPrefixes(p);
    NotPrefix(l, "+++ ");
    NotPrefix(l, "diff --git a/");
    NotPrefix(l, "@@ -");
    assert Step(st, l, RowLine(p), next) == HeaderStep(st, l);
    assert Receiving(st) == Open(done + [f], "");
    assert Butlast(done + [f] + [Blank("")]) == done + [f];
  }

  lemma {:induction false} PlusLineStep(done: seq<File>, name: string, p: Op, next: string, afterNext: string)
    requires p.tag == Ins
    ensures Step(State(done + [Blank(name)], None), RowLine(p), next, afterNext)
         == State(done + [Blank(PlusName(name, p))], None)
  {
    var st, l := State(done + [Blank(name)], None), RowLine(p);
    NotPrefix(l, "diff --git a/");
    NotPrefix(l, "--- ");
    NotPrefix(l, "@@ -");
    assert Step(st, l, next, afterNext) == HeaderStep(st, l);
    assert Receiving(st) == st && Butlast(st.files) == done;
  }

  lemma {:induction false} LastRowStep(done: seq<File>, cur: File, h: Hunk, cut: seq<Op>, p: Op, next: string, afterNext: string)
    requires p.tag == Ins
    ensures Step(State(done + [AddHunk(cur, h.(rows := cut))], Some(Left(1, 1))), RowLine(p), next, afterNext)
         == State(done + [AddHunk(cur, h.(rows := cut + [p]))], Some(Left(1, 0)))
  {
    var g := AddHunk(cur, h.(rows := cut));
    var st := State(done + [g], Some(Left(1, 1)));
    RowPrefixes(p);
    NotPrefix(RowLine(p), "--- ");
    RowStep(st, p, next, afterNext);
    CountTagPush(cut, p, Ins);
    CountTagPush(cut, p, Del);
    assert Butlast(st.files) == done && Butlast(g.hunks) == cur.hunks;
  }

  /** The hunk's header and all rows but the last two. */
  lemma {:induction false} CutRead(done: seq<File>, cur: File, left: Option<Left>, h: Hunk, cut: seq<Op>, d: Op, p: Op, rest: seq<string>)
    requires ReadableHunk(h) && h.rows == cut + [d] + [p] && LooksLikePaths(d, p)
    ensures ReadLines(State(done + [cur], left), [PrintHunkHead(HeadOf(h))] + RowLines(h.rows) + rest)
         == ReadLines(State(done + [AddHunk(cur, h.(rows := cut))], Some(Left(1, 1))),
                      [RowLine(d)] + ([RowLine(p)] + rest))
  {
    var tail := [RowLine(d)] + ([RowLine(p)] + rest);
    var begun := State(done + [Begun(cur, h)], Some(Full(h)));
    HeadRead(done, cur, left, h, RowLines(h.rows), rest);
    RowLinesCut(cut, d, p, rest);
    CutSides(cut, d, p);
    RowPrefixes(d);
    RowsRead(begun, cut, tail);
    PutRowsIs(done, Begun(cur, h), Full(h), h.(rows := cut));
    CutFile(cur, h, cut);
  }

  lemma {:induction false} RowLinesCut(cut: seq<Op>, d: Op, p: Op, rest: seq<string>)
    ensures RowLines(cut + [d] + [p]) + rest == RowLines(cut) + ([RowLine(d)] + ([RowLine(p)] + rest))
  {
    assert RowLines(cut + [d] + [p]) == RowLines(cut) + [RowLine(d)] + [RowLine(p)];
  }

  lemma {:induction false} CutFile(cur: File, h: Hunk, cut: seq<Op>)
    ensures WithRows(Begun(cur, h), h.(rows := cut)) == AddHunk(cur, h.(rows := cut))
  {
    assert Butlast(Begun(cur, h).hunks) == cur.hunks && [] + cut == cut;
  }

  lemma {:induction false} CutSides(cut: seq<Op>, d: Op, p: Op)
    requires d.tag == Del && p.tag == Ins
    ensures |OldSide(cut + [d] + [p])| == |OldSide(cut)| + 1 && |NewSide(cut + [d] + [p])| == |NewSide(cut)| + 1
  {
    SidePush(cut, d, Ins);
    SidePush(cut, d, Del);
    SidePush(cut + [d], p, Ins);
    SidePush(cut + [d], p, Del);
  }

  /** What a hunk before the last one leaves behind: files it closed, the file still open, and what is left to read. */
  function Closed(cur: File, h: Hunk): seq<File> {
    if BadEnd(h.rows) && MinusName(h.rows[|h.rows| - 2]).Some? then [AddHunk(cur, Without(h, true))] else []
  }

  function StillOpen(cur: File, h: Hunk): File {
    if !BadEnd(h.rows) then AddHunk(cur, h)
    else match MinusName(h.rows[|h.rows| - 2])
      case None => AddHunk(cur, Without(h, false))
      case Some(name) => Blank(PlusName(name, Last(h.rows)))
  }

  function LeftOf(h: Hunk): Option<Left> {
    if !BadEnd(h.rows) then Some(Left(0, 0))
    else if MinusName(h.rows[|h.rows| - 2]).None? then Some(Left(1, 0))
    else None
  }

  /** The hunk's last two rows when the removed one reads as no path: it is lost, the added one stays. */
  lemma {:induction false} RowLost(done: seq<File>, cur: File, h: Hunk, cut: seq<Op>, d: Op, p: Op, rest: seq<string>)
    requires LooksLikePaths(d, p) && StartsWith(At(rest, 0), "@@ ") && MinusName(d) == None
    ensures ReadLines(State(done + [AddHunk(cur, h.(rows := cut))], Some(Left(1, 1))), [RowLine(d)] + ([RowLine(p)] + rest))
         == ReadLines(State(done + [AddHunk(cur, h.(rows := cut + [p]))], Some(Left(1, 0))), rest)
  {
    var g := AddHunk(cur, h.(rows := cut));
    var st := State(done + [g], Some(Left(1, 1)));
    ReadCons(st, RowLine(d), [RowLine(p)] + rest);
    MinusLineStep(done, g, d, p, At(rest, 0));
    ReadCons(st, RowLine(p), rest);
    LastRowStep(done, cur, h, cut, p, At(rest, 0), At(rest, 1));
  }

  /** When it does: both are lost, and a new file is begun under what they say. */
  lemma {:induction false} RowsLost(done: seq<File>, g: File, d: Op, p: Op, rest: seq<string>)
    requires LooksLikePaths(d, p) && g.hunks != [] && StartsWith(At(rest, 0), "@@ ") && MinusName(d).Some?
    ensures ReadLines(State(done + [g], Some(Left(1, 1))), [RowLine(d)] + ([RowLine(p)] + rest))
         == ReadLines(State(done + [g] + [Blank(PlusName(MinusName(d).value, p))], None), rest)
  {
    var st, name := State(done + [g], Some(Left(1, 1))), MinusName(d).value;
    ReadCons(st, RowLine(d), [RowLine(p)] + rest);
    MinusLineStep(done, g, d, p, At(rest, 0));
    ReadCons(State(done + [g] + [Blank(name)], None), RowLine(p), rest);
    PlusLineStep(done + [g], name, p, At(rest, 0), At(rest, 1));
  }

  /** What such a hunk leaves behind, in terms of its rows. */
  lemma {:induction false} LeftBehind(cur: File, h: Hunk, cut: seq<Op>, d: Op, p: Op)
    requires h.rows == cut + [d] + [p] && LooksLikePaths(d, p)
    ensures MinusName(d) == None ==>
              Closed(cur, h) == [] && StillOpen(cur, h) == AddHunk(cur, h.(rows := cut + [p])) && LeftOf(h) == Some(Left(1, 0))
    ensures MinusName(d).Some? ==>
              Closed(cur, h) == [AddHunk(cur, h.(rows := cut))] && LeftOf(h) == None &&
              StillOpen(cur, h) == Blank(PlusName(MinusName(d).value, p))
  {
    var n := |h.rows|;
    assert h.rows[n - 2] == d && Last(h.rows) == p && h.rows[..n - 2] == cut;
  }

  /** A hunk that ends badly loses its removed row, or both rows and the file with them. */
  lemma {:induction false} BadHunkRead(done: seq<File>, cur: File, left: Option<Left>, h: Hunk, rest: seq<string>)
    requires ReadableHunk(h) && BadEnd(h.rows) && StartsWith(At(rest, 0), "@@ ")
    ensures ReadLines(State(done + [cur], left), [PrintHunkHead(HeadOf(h))] + RowLines(h.rows) + rest)
         == ReadLines(State(done + Closed(cur, h) + [StillOpen(cur, h)], LeftOf(h)), rest)
  {
    var n := |h.rows|;
    var cut, d, p := h.rows[..n - 2], h.rows[n - 2], h.rows[n - 1];
    assert h.rows == cut + [d] + [p];
    LeftBehind(cur, h, cut, d, p);
    BadEndRead(done, cur, left, h, cut, d, p, rest);
    assert done + [] == done;
  }

  lemma {:induction false} BadEndRead(done: seq<File>, cur: File, left: Option<Left>, h: Hunk, cut: seq<Op>, d: Op, p: Op,
                                      rest: seq<string>)
    requires ReadableHunk(h) && h.rows == cut + [d] + [p] && LooksLikePaths(d, p) && StartsWith(At(rest, 0), "@@ ")
    ensures var start := ReadLines(State(done + [cur], left), [PrintHunkHead(HeadOf(h))] + RowLines(h.rows) + rest);
            match MinusName(d)
            case None => start == ReadLines(State(done + [AddHunk(cur, h.(rows := cut + [p]))], Some(Left(1, 0))), rest)
            case Some(name) =>
              start == ReadLines(State(done + [AddHunk(cur, h.(rows := cut))] + [Blank(PlusName(name, p))], None), rest)
  {
    CutRead(done, cur, left, h, cut, d, p, rest);
    if MinusName(d) == None {
      RowLost(done, cur, h, cut, d, p, rest);
    } else {
      RowsLost(done, AddHunk(cur, h.(rows := cut)), d, p, rest);
    }
  }

  lemma {:induction false} ReadHunksCons(done: seq<File>, cur: File, hunks: seq<Hunk>)
    requires |hunks| > 1
    ensures done + Closed(cur, hunks[0]) + ReadHunks(StillOpen(cur, hunks[0]), hunks[1..]) == done + ReadHunks(cur, hunks)
  {
    assert ReadHunks(cur, hunks) == Closed(cur, hunks[0]) + ReadHunks(StillOpen(cur, hunks[0]), hunks[1..]);
    Regroup(done, Closed(cur, hunks[0]), ReadHunks(StillOpen(cur, hunks[0]), hunks[1..]));
  }

  /** The first hunk of several, whatever its end. */
  lemma {:induction false} FirstHunkRead(done: seq<File>, cur: File, left: Option<Left>, h: Hunk, next: Hunk, rest: seq<string>)
    requires ReadableHunk(h) && ReadableHunk(next) && At(rest, 0) == PrintHunkHead(HeadOf(next))
    ensures ReadLines(State(done + [cur], left), [PrintHunkHead(HeadOf(h))] + RowLines(h.rows) + rest)
         == ReadLines(State(done + Closed(cur, h) + [StillOpen(cur, h)], LeftOf(h)), rest)
  {
    HeadLineStarts(next);
    NotPrefix(At(rest, 0), "+++ ");
    if BadEnd(h.rows) {
      BadHunkRead(done, cur, left, h, rest);
    } else {
      HunkRead(done, cur, left, h, rest);
      assert done + [] == done;
    }
  }

  lemma {:induction false} HunkLinesSplit(hunks: seq<Hunk>, unended: seq<bool>, rest: seq<string>)
    requires hunks != []
    ensures var head, rows := [PrintHunkHead(HeadOf(hunks[0]))], hunks[0].rows;
            HunkLines(hunks, unended) + rest ==
            if |hunks| == 1 then head + MarkedLines(rows, unended) + rest
            else head + RowLines(rows) + (HunkLines(hunks[1..], unended) + rest)
  {
    assert |hunks| == 1 ==> HunkLines(hunks[1..], unended) == [];
  }

  lemma {:induction false} OneHunkRead(done: seq<File>, cur: File, left: Option<Left>, hunks: seq<Hunk>, unended: seq<bool>, rest: seq<string>)
    requires |hunks| == 1 && ReadableHunk(hunks[0])
    requires !StartsWith(At(rest, 0), "+++ ") && !StartsWith(At(rest, 0), "@@ ")
    ensures ReadLines(State(done + [cur], left), HunkLines(hunks, unended) + rest)
         == ReadLines(State(done + ReadHunks(cur, hunks), Some(Left(0, 0))), rest)
  {
    HunkLinesSplit(hunks, unended, rest);
    LastHunkRead(done, cur, left, hunks[0], unended, rest);
    assert hunks[1..] == [] && ReadHunks(cur, hunks) == [AddHunk(cur, hunks[0])];
  }

  lemma {:induction false} MoreHunksRead(done: seq<File>, cur: File, left: Option<Left>, hunks: seq<Hunk>, unended: seq<bool>, rest: seq<string>)
    requires |hunks| > 1 && ReadableHunk(hunks[0]) && ReadableHunk(hunks[1])
    ensures ReadLines(State(done + [cur], left), HunkLines(hunks, unended) + rest)
         == ReadLines(State(done + Closed(cur, hunks[0]) + [StillOpen(cur, hunks[0])], LeftOf(hunks[0])),
                      HunkLines(hunks[1..], unended) + rest)
  {
    var after := HunkLines(hunks[1..], unended) + rest;
    HunkLinesSplit(hunks, unended, rest);
    assert hunks[1..][0] == hunks[1] && At(after, 0) == PrintHunkHead(HeadOf(hunks[1]));
    FirstHunkRead(done, cur, left, hunks[0], hunks[1], after);
  }

  lemma {:induction false} HunksRead(done: seq<File>, cur: File, left: Option<Left>, hunks: seq<Hunk>, unended: seq<bool>,
                                     rest: seq<string>)
    requires hunks != [] && forall h | h in hunks :: ReadableHunk(h)
    requires !StartsWith(At(rest, 0), "+++ ") && !StartsWith(At(rest, 0), "@@ ")
    ensures ReadLines(State(done + [cur], left), HunkLines(hunks, unended) + rest)
         == ReadLines(State(done + ReadHunks(cur, hunks), Some(Left(0, 0))), rest)
    decreases |hunks|
  {
    assert ReadableHunk(hunks[0]);
    if |hunks| == 1 {
      OneHunkRead(done, cur, left, hunks, unended, rest);
    } else {
      assert ReadableHunk(hunks[1]);
      MoreHunksRead(done, cur, left, hunks, unended, rest);
      HunksRead(done + Closed(cur, hunks[0]), StillOpen(cur, hunks[0]), LeftOf(hunks[0]), hunks[1..], unended, rest);
      ReadHunksCons(done, cur, hunks);
    }
  }
}
