/** What the reader makes of diffs that were edited before they were pasted: cut hunks, and blank lines without their space. */
module GitTrimmed {
  import opened Wrappers
  import opened Text
  import opened EditScripts
  import opened DiffLines
  import opened UnifiedDiff
  import opened GitPrint

  // Cut hunks

  /** The header of this hunk, but for its counts. */
  predicate HeadsHunk(head: HunkHead, h: Hunk) {
    head.pre.start == h.oldStart && head.post.start == h.newStart && head.tail == HeadOf(h).tail
  }

  lemma {:induction false} AnyHeadReads(head: HunkHead, h: Hunk)
    requires OneLine(h.context) && HeadsHunk(head, h)
    ensures ReadHunkLine(PrintHunkHead(head)) == Some(head) && Context(head.tail) == h.context
    ensures StartsWith(PrintHunkHead(head), "@@ ")
  {
    HunkHeadLine(head);
    TailReads(h);
  }

  lemma {:induction false} AnyHeadStep(done: seq<File>, cur: File, left: Option<Left>, head: HunkHead, h: Hunk, next: string,
                                       afterNext: string)
    requires OneLine(h.context) && HeadsHunk(head, h)
    ensures Step(State(done + [cur], left), PrintHunkHead(head), next, afterNext)
         == State(done + [Begun(cur, h)], Some(Left(head.pre.count, head.post.count)))
  {
    var st, l := State(done + [cur], left), PrintHunkHead(head);
    AnyHeadReads(head, h);
    HunkLineIsNoPath(l);
    assert IsHeader(l, next, afterNext);
    assert Step(st, l, next, afterNext) == HeaderStep(st, l) == OpenHunk(st, head);
    assert Butlast(done + [cur]) == done;
  }

  /** The header of a hunk that had at least these rows before it was cut. */
  predicate Covers(head: HunkHead, h: Hunk) {
    HeadsHunk(head, h) && head.pre.count >= |OldSide(h.rows)| && head.post.count >= |NewSide(h.rows)|
  }

  /** What such a hunk still expects once its rows are read. */
  function Missing(head: HunkHead, h: Hunk): Left {
    Left(head.pre.count - |OldSide(h.rows)|, head.post.count - |NewSide(h.rows)|)
  }

  lemma {:induction false} CutHeadRead(done: seq<File>, cur: File, left: Option<Left>, head: HunkHead, h: Hunk, rest: seq<string>)
    requires OneLine(h.context) && HeadsHunk(head, h)
    ensures ReadLines(State(done + [cur], left), [PrintHunkHead(head)] + rest)
         == ReadLines(State(done + [Begun(cur, h)], Some(Left(head.pre.count, head.post.count))), rest)
  {
    ReadCons(State(done + [cur], left), PrintHunkHead(head), rest);
    AnyHeadStep(done, cur, left, head, h, At(rest, 0), At(rest, 1));
  }

  /** All its rows fill a cut hunk just begun up to what was cut. */
  lemma {:induction false} CutRowsFill(done: seq<File>, cur: File, head: HunkHead, h: Hunk)
    ensures var begun := State(done + [Begun(cur, h)], Some(Left(head.pre.count, head.post.count)));
            InHunk(begun) && PutRows(begun, h.rows) == State(done + [AddHunk(cur, h)], Some(Missing(head, h)))
  {
    PutRowsIs(done, Begun(cur, h), Left(head.pre.count, head.post.count), h);
    CutFile(cur, h, h.rows);
    assert h.(rows := h.rows) == h;
  }

  /** The rows that are left are read, and the hunk still expects the others. */
  lemma {:induction false} CutHunkRead(done: seq<File>, cur: File, left: Option<Left>, head: HunkHead, h: Hunk, rest: seq<string>)
    requires OneLine(h.context) && Covers(head, h)
    requires !StartsWith(At(rest, 0), "+++ ") && (BadEnd(h.rows) ==> !StartsWith(At(rest, 0), "@@ "))
    ensures ReadLines(State(done + [cur], left), [PrintHunkHead(head)] + (RowLines(h.rows) + rest))
         == ReadLines(State(done + [AddHunk(cur, h)], Some(Missing(head, h))), rest)
  {
    CutHeadRead(done, cur, left, head, h, RowLines(h.rows) + rest);
    CutRowsFill(done, cur, head, h);
    RowsRead(State(done + [Begun(cur, h)], Some(Left(head.pre.count, head.post.count))), h.rows, rest);
  }

  /** A header ends the open hunk, whatever that still expects. */
  lemma {:induction false} HeaderEndsHunk(done: seq<File>, cur: File, left: Option<Left>, left': Option<Left>, next: Hunk, rest: seq<string>)
    requires OneLine(next.context) && rest != [] && rest[0] == PrintHunkHead(HeadOf(next))
    ensures ReadLines(State(done + [cur], left), rest) == ReadLines(State(done + [cur], left'), rest)
  {
    var more := rest[1..];
    assert rest == [PrintHunkHead(HeadOf(next))] + more;
    CutHeadRead(done, cur, left, HeadOf(next), next, more);
    CutHeadRead(done, cur, left', HeadOf(next), next, more);
  }

  /** So a cut hunk before another reads as if its counts were right. */
  lemma {:induction false} CutHunkBeforeAnother(done: seq<File>, cur: File, left: Option<Left>, head: HunkHead, h: Hunk, next: Hunk,
                                                more: seq<string>)
    requires OneLine(h.context) && Covers(head, h) && !BadEnd(h.rows) && OneLine(next.context)
    requires more != [] && more[0] == PrintHunkHead(HeadOf(next))
    ensures ReadLines(State(done + [cur], left), [PrintHunkHead(head)] + (RowLines(h.rows) + more))
         == ReadLines(State(done + [cur], left), [PrintHunkHead(HeadOf(h))] + (RowLines(h.rows) + more))
  {
    HeadLineStarts(next);
    NotPrefix(more[0], "+++ ");
    CutHunkRead(done, cur, left, head, h, more);
    CutHunkRead(done, cur, left, HeadOf(h), h, more);
    HeaderEndsHunk(done, AddHunk(cur, h), Some(Missing(head, h)), Some(Missing(HeadOf(h), h)), next, more);
  }

  /** The empty line after a last hunk's newline is one more context row exactly while the hunk still expects rows. */
  lemma {:induction false} CutHunkAtTheEnd(done: seq<File>, cur: File, left: Option<Left>, head: HunkHead, h: Hunk)
    requires OneLine(h.context) && Covers(head, h)
    ensures var end := ReadLines(State(done + [cur], left), [PrintHunkHead(head)] + (RowLines(h.rows) + [""]));
            var cut := head.pre.count > |OldSide(h.rows)| || head.post.count > |NewSide(h.rows)|;
            end.files == done + [AddHunk(cur, h.(rows := h.rows + if cut then [Op(Same, "")] else []))]
  {
    NotPrefix("", "+++ ");
    NotPrefix("", "@@ ");
    CutHunkRead(done, cur, left, head, h, [""]);
    assert [""] == [""] + [];
    ReadCons(State(done + [AddHunk(cur, h)], Some(Missing(head, h))), "", []);
    EndLine(done, cur, h, Missing(head, h));
  }

  lemma {:induction false} EndLine(done: seq<File>, cur: File, h: Hunk, left: Left)
    ensures Step(State(done + [AddHunk(cur, h)], Some(left)), "", "", "").files ==
            done + [AddHunk(cur, h.(rows := h.rows + if left.before > 0 || left.after > 0 then [Op(Same, "")] else []))]
  {
    var st := State(done + [AddHunk(cur, h)], Some(left));
    if left.before > 0 || left.after > 0 {
      assert TakesRow(st, "", "", "") && Step(st, "", "", "") == PutRow(st, Op(Same, ""));
      BlankRowAdded(done, cur, h, left);
    } else {
      BlankStep(st, "");
      assert h.rows + [] == h.rows && h.(rows := h.rows) == h;
    }
  }

  lemma {:induction false} BlankRowAdded(done: seq<File>, cur: File, h: Hunk, left: Left)
    ensures PutRow(State(done + [AddHunk(cur, h)], Some(left)), Op(Same, "")).files ==
            done + [AddHunk(cur, h.(rows := h.rows + [Op(Same, "")]))]
  {
    var g := AddHunk(cur, h);
    CountTagPush(h.rows, Op(Same, ""), Ins);
    CountTagPush(h.rows, Op(Same, ""), Del);
    assert Butlast(done + [g]) == done && Butlast(g.hunks) == cur.hunks;
  }

  // Blank context lines

  /** Editors strip the space that makes an unchanged empty line. */
  function Strip(l: string): string { if l == " " then "" else l }

  function StripAll(lines: seq<string>): (r: seq<string>)
    ensures |r| == |lines| && forall i | 0 <= i < |r| :: r[i] == Strip(lines[i])
  {
    if lines == [] then [] else [Strip(lines[0])] + StripAll(lines[1..])
  }

  lemma {:induction false} StrippedStep(st: State, l: string, next: string, afterNext: string)
    ensures Step(st, Strip(l), Strip(next), Strip(afterNext)) == Step(st, l, next, afterNext)
  {
    NotPrefix(" ", "+++ ");
    NotPrefix(" ", "@@ ");
    assert IsHeader(l, Strip(next), Strip(afterNext)) == IsHeader(l, next, afterNext);
    if l == " " {
      assert RowOf(" ") == Op(Same, "") == RowOf("");
      BlankStep(st, " ");
      BlankStep(st, "");
      assert !IsHeader(" ", next, afterNext) && !IsHeader("", next, afterNext);
    }
  }

  lemma {:induction false} BlankStep(st: State, l: string)
    requires l == "" || l == " "
    ensures HeaderStep(st, l) == st
  {
    NotPrefix(l, "diff --git a/");
    NotPrefix(l, "+++ ");
    NotPrefix(l, "--- ");
    NotPrefix(l, "@@ -");
  }

  /** Whatever the lines, stripping their blanks changes nothing in what is read. */
  lemma {:induction false} StrippedLinesRead(st: State, lines: seq<string>)
    ensures ReadLines(st, StripAll(lines)) == ReadLines(st, lines)
    decreases |lines|
  {
    if lines != [] {
      var l, next, afterNext := lines[0], At(lines, 1), At(lines, 2);
      StrippedStep(st, l, next, afterNext);
      StrippedLinesRead(Step(st, l, next, afterNext), lines[1..]);
      var all := StripAll(lines);
      assert all[1..] == StripAll(lines[1..]) && At(all, 1) == Strip(next) && At(all, 2) == Strip(afterNext);
    }
  }

  /** So a text and the same text with its blank lines stripped read as the same files. */
  lemma {:induction false} StrippedTextReadsTheSame(text: string, stripped: string)
    requires Lines(Unixed(stripped)) == StripAll(Lines(Unixed(text)))
    ensures ParseUnified(stripped) == ParseUnified(text)
  {
    StrippedLinesRead(START, Lines(Unixed(text)));
  }
}
