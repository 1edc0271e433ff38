/**
 * Reading undoes printing: what the decision kit's reader answers on any diff
 * git prints, and exactly when that is what was printed.
 */
module GitRoundTrip {
  import opened Wrappers
  import opened Text
  import opened EditScripts
  import opened DiffLines
  import opened UnifiedDiff
  import opened GitPrint

  // One file

  predicate Spent(left: Option<Left>) {
    left.None? || (left.value.before <= 0 && left.value.after <= 0)
  }

  predicate SeparatorAt(s: string, i: nat)
    requires i + 3 <= |s|
  {
    s[i..i + 3] == " b/"
  }

  /** A separator inside the old name, where the lazy match stops early. */
  predicate HidesSeparator(name: string, from: nat) {
    exists i | from <= i <= |name| - 3 :: SeparatorAt(name, i)
  }

  lemma {:induction false} SeparatorFound(a: string, b: string, k: nat)
    requires k <= |a| && b != ""
    ensures var r := AfterSeparator(a + " b/" + b, k);
            r.Some? && r.value != "" && (r.value == b <==> !HidesSeparator(a, k)) && (r.value == b || |r.value| > |b|)
    decreases |a| - k
  {
    var s := a + " b/" + b;
    if k == |a| {
      assert s[k..k + 3] == " b/" && s[k + 3..] == b;
    } else if SeparatorAt(s, k) {
      assert s[k..k + 3][1] == s[k + 1] && s[k..k + 3][2] == s[k + 2];
      assert k <= |a| - 3;
      assert a[k..k + 3] == s[k..k + 3];
      assert SeparatorAt(a, k);
    } else {
      SeparatorFound(a, b, k + 1);
      if k <= |a| - 3 {
        assert a[k..k + 3] == s[k..k + 3];
        assert !SeparatorAt(a, k);
      }
    }
  }

  lemma {:induction false} OneLineJoin(a: string, b: string)
    requires OneLine(a) && OneLine(b)
    ensures OneLine(a + b)
  {
  }

  lemma {:induction false} GitLineStep(st: State, f: GitFile)
    requires Readable(f) && f.style == Git
    ensures HeaderStep(st, GitLine(f)) == Open(st.files, GitName(f)) && GitName(f) != ""
  {
    var rest := f.oldName + " b/" + f.newName;
    OneLineJoin(f.oldName, " b/");
    OneLineJoin(f.oldName + " b/", f.newName);
    assert GitLine(f) == "diff --git a/" + rest;
    SkipPrefix("diff --git a/", rest);
    SeparatorFound(f.oldName, f.newName, 1);
  }

  lemma {:induction false} MeaninglessStep(st: State, l: string)
    requires Meaningless(l)
    ensures HeaderStep(st, l) == st
  {
    assert "diff --git a/" == "diff --git " + "a/" && "@@ -" == "@@ " + "-";
  }

  lemma {:induction false} ExtraRead(st: State, extra: seq<string>, rest: seq<string>)
    requires Spent(st.left) && forall l | l in extra :: Meaningless(l)
    ensures ReadLines(st, extra + rest) == ReadLines(st, rest)
    decreases |extra|
  {
    if extra == [] {
      assert extra + rest == rest;
    } else {
      var more := extra[1..] + rest;
      assert extra + rest == [extra[0]] + more;
      ReadCons(st, extra[0], more);
      MeaninglessStep(st, extra[0]);
      ExtraRead(st, extra[1..], rest);
    }
  }

  lemma {:induction false} MinusLineIsKnown(st: State, f: GitFile)
    requires Readable(f) && f.style == Git && st.files != [] && Last(st.files).hunks == [] && Last(st.files).name != ""
    ensures HeaderStep(st, MinusLine(f)) == st
  {
    var l := MinusLine(f);
    NotPrefix(l, "diff --git a/");
    NotPrefix(l, "+++ ");
    NotPrefix(l, "@@ -");
    MinusLineReads(f);
  }

  lemma {:induction false} ShownIsOneLine(path: string)
    requires OneLine(path)
    ensures OneLine(Shown(path)) && (Shown(path) == "/dev/null" <==> path == "/dev/null")
  {
  }

  /** The path that a path line gives. */
  function Given(style: Style, side: string, name: string, gone: bool): string
    requires |side| == 2
  {
    if gone then "/dev/null" else Stripped(style, side, Shown(name))
  }

  lemma {:induction false} SideReads(style: Style, side: string, name: string, gone: bool)
    requires Named?(name) && |side| == 2 && OneLine(side) && side[0] != '/'
    ensures ReadPath(SideText(style, side, name, gone), side) == Some(Given(style, side, name, gone))
  {
    if gone {
      assert OneLine("/dev/null") && "/dev/null"[0] == '/';
    } else {
      ShownIsOneLine(name);
      if style != Paths(false) {
        var rest := side + Shown(name);
        OneLineJoin(side, Shown(name));
        assert rest[2..] == Shown(name);
      }
    }
  }

  lemma {:induction false} MinusLineReads(f: GitFile)
    requires Readable(f) && f.style != Bare
    ensures ReadMinusLine(MinusLine(f)) == Some(Given(f.style, "a/", f.oldName, f.change == Created))
  {
    SideReads(f.style, "a/", f.oldName, f.change == Created);
    SkipPrefix("--- ", SideText(f.style, "a/", f.oldName, f.change == Created));
  }

  lemma {:induction false} PlusLineReads(f: GitFile)
    requires Readable(f) && f.style != Bare
    ensures ReadPlusLine(PlusLine(f)) == Some(Given(f.style, "b/", f.newName, f.change == Deleted))
  {
    SideReads(f.style, "b/", f.newName, f.change == Deleted);
    SkipPrefix("+++ ", SideText(f.style, "b/", f.newName, f.change == Deleted));
  }

  lemma {:induction false} PrefixInside(side: string, name: string)
    requires |side| == 2 && side[1] == '/' && side[0] != ' ' && StartsWith(Shown(name), side) && |Shown(name)| > 2
    ensures |name| > 2 && StartsWith(name, side) && Shown(name)[2] == name[2]
  {
    var shown := Shown(name);
    assert shown[0] == side[0] && shown[1] == side[1];
    assert |name| <= 2 ==> ' ' in name;
    assert forall i | 0 <= i < |name| :: shown[i] == name[i];
  }

  /** A path inside a tree is never taken for /dev/null, and a tab after it is trimmed away. */
  lemma {:induction false} GivenNames(style: Style, side: string, name: string)
    requires |side| == 2 && side[1] == '/' && side[0] != ' '
    ensures style != Paths(false) ==> Given(style, side, name, false) == Shown(name)
    ensures InTree(name) ==> Given(style, side, name, false) != "/dev/null"
    ensures Trim(Given(style, side, name, false)) == Trim(Stripped(style, side, name))
  {
    var shown := Shown(name);
    TrimShown(name);
    if style == Paths(false) && StartsWith(shown, side) && |shown| > 2 {
      PrefixInside(side, name);
      if ' ' in name {
        assert shown[2..] == name[2..] + "\t";
        TrimTab(name[2..]);
      }
      assert shown[2..][0] == name[2];
    } else if InTree(name) {
      assert shown[0] == name[0];
    }
  }

  lemma {:induction false} PlusLineStep(done: seq<File>, name: string, f: GitFile)
    requires Readable(f) && f.style != Bare
    ensures var plus := Given(f.style, "b/", f.newName, f.change == Deleted);
            HeaderStep(State(done + [Blank(name)], None), PlusLine(f)) ==
            State(done + [Blank(if plus == "/dev/null" then name else Trim(plus))], None)
  {
    var st, l := State(done + [Blank(name)], None), PlusLine(f);
    NotPrefix(l, "diff --git a/");
    PlusLineReads(f);
    assert Receiving(st) == st && Butlast(st.files) == done;
  }

  lemma {:induction false} GitNameAfterPlus(f: GitFile)
    requires Readable(f) && f.style == Git
    ensures var plus := Given(f.style, "b/", f.newName, f.change == Deleted);
            NameRead(f) == if plus == "/dev/null" then GitName(f) else Trim(plus)
  {
    GivenNames(f.style, "b/", f.newName);
    ShownIsOneLine(f.newName);
  }

  function LeftAfter(f: GitFile): Option<Left> { if f.hunks == [] then None else Some(Left(0, 0)) }

  /** The path lines of a file whose `diff --git` line is read. */
  lemma {:induction false} GitPathsRead(done: seq<File>, f: GitFile, tail: seq<string>)
    requires Readable(f) && f.style == Git && GitName(f) != ""
    ensures ReadLines(State(done + [Blank(GitName(f))], None), Paired(f) + tail)
         == ReadLines(State(done + [Blank(NameRead(f))], None), tail)
  {
    var st := State(done + [Blank(GitName(f))], None);
    PairedSplit(f, tail);
    ReadCons(st, MinusLine(f), [PlusLine(f)] + tail);
    MinusLineIsKnown(st, f);
    ReadCons(st, PlusLine(f), tail);
    PlusLineStep(done, GitName(f), f);
    GitNameAfterPlus(f);
  }

  lemma {:induction false} PairedSplit(f: GitFile, tail: seq<string>)
    requires f.style != Bare
    ensures Paired(f) + tail == [MinusLine(f)] + ([PlusLine(f)] + tail)
  {
    assert Paired(f) == [MinusLine(f)] + [PlusLine(f)];
  }

  /** Files read so far after which path lines alone begin another. */
  predicate Ready(done: seq<File>, f: GitFile) {
    match f.style
    case Git => true
    case Paths(_) => done == [] || Last(done).hunks != []
    case Bare => done == []
  }

  /** Path lines alone open a file; the first names it for want of a better name. */
  lemma {:induction false} MinusLineOpens(done: seq<File>, left: Option<Left>, f: GitFile)
    requires Readable(f) && f.style.Paths? && Ready(done, f)
    ensures HeaderStep(State(done, left), MinusLine(f)) ==
            State(done + [Blank(if f.change == Created then "" else Trim(Stripped(f.style, "a/", f.oldName)))], None)
  {
    MinusLineReads(f);
    GivenNames(f.style, "a/", f.oldName);
    NotPrefix(MinusLine(f), "diff --git a/");
    NotPrefix(MinusLine(f), "+++ ");
    MinusOpens(done, left, MinusLine(f), Given(f.style, "a/", f.oldName, f.change == Created));
  }

  lemma {:induction false} MinusOpens(done: seq<File>, left: Option<Left>, l: string, path: string)
    requires ReadGitLine(l) == None && ReadPlusLine(l) == None && ReadMinusLine(l) == Some(path)
    requires done == [] || Last(done).hunks != []
    ensures HeaderStep(State(done, left), l) == State(done + [Blank(if path == "/dev/null" then "" else Trim(path))], None)
  {
    var st := State(done, left);
    assert Receiving(st) == Open(done, "");
    assert Butlast(done + [Blank("")]) == done && Last(done + [Blank("")]) == Blank("");
  }

  lemma {:induction false} PathsOpen(done: seq<File>, left: Option<Left>, f: GitFile, tail: seq<string>)
    requires Readable(f) && f.style.Paths? && Ready(done, f) && Spent(left)
    ensures ReadLines(State(done, left), Paired(f) + tail) == ReadLines(State(done + [Blank(NameRead(f))], None), tail)
  {
    var name := if f.change == Created then "" else Trim(Stripped(f.style, "a/", f.oldName));
    PairedSplit(f, tail);
    ReadCons(State(done, left), MinusLine(f), [PlusLine(f)] + tail);
    MinusLineOpens(done, left, f);
    ReadCons(State(done + [Blank(name)], None), PlusLine(f), tail);
    PlusLineStep(done, name, f);
    GivenNames(f.style, "b/", f.newName);
  }

  /** A hunk that no file line precedes opens a file without a name. */
  lemma {:induction false} BareOpens(left: Option<Left>, h: Hunk, lines: seq<string>, rest: seq<string>)
    requires OneLine(h.context) && Spent(left)
    ensures ReadLines(State([], left), [PrintHunkHead(HeadOf(h))] + lines + rest)
         == ReadLines(State([Blank("")], None), [PrintHunkHead(HeadOf(h))] + lines + rest)
  {
    var l, after := PrintHunkHead(HeadOf(h)), lines + rest;
    Regroup([l], lines, rest);
    ReadCons(State([], left), l, after);
    ReadCons(State([Blank("")], None), l, after);
    HunkLineIsNoPathOf(h);
    assert [] + [Blank("")] == [Blank("")];
    assert HeaderStep(State([], left), l) == HeaderStep(State([Blank("")], None), l);
  }

  lemma {:induction false} HunkLineIsNoPathOf(h: Hunk)
    requires OneLine(h.context)
    ensures var l := PrintHunkHead(HeadOf(h));
            ReadGitLine(l) == None && ReadPlusLine(l) == None && ReadMinusLine(l) == None && ReadHunkLine(l).Some?
  {
    HeadLineStarts(h);
    HunkLineIsNoPath(PrintHunkHead(HeadOf(h)));
    HunkLineReads(h);
  }

  lemma {:induction false} BareHunksOpen(left: Option<Left>, hunks: seq<Hunk>, unended: seq<bool>, rest: seq<string>)
    requires hunks != [] && OneLine(hunks[0].context) && Spent(left)
    ensures ReadLines(State([], left), HunkLines(hunks, unended) + rest)
         == ReadLines(State([Blank("")], None), HunkLines(hunks, unended) + rest)
  {
    var rows := hunks[0].rows;
    HunkLinesSplit(hunks, unended, rest);
    if |hunks| == 1 {
      BareOpens(left, hunks[0], MarkedLines(rows, unended), rest);
    } else {
      BareOpens(left, hunks[0], RowLines(rows), HunkLines(hunks[1..], unended) + rest);
    }
  }

  /** The lines after a file's first ones, when they are read into the file they name. */
  lemma {:induction false} PathsRead(done: seq<File>, left: Option<Left>, f: GitFile, rest: seq<string>)
    requires Readable(f) && f.hunks != [] && f.style != Git && Ready(done, f) && Spent(left)
    requires !StartsWith(At(rest, 0), "+++ ") && !StartsWith(At(rest, 0), "@@ ")
    ensures ReadLines(State(done, left), PathLines(f) + rest) == ReadLines(State(done + ReadFile(f), LeftAfter(f)), rest)
  {
    var hunks := HunkLines(f.hunks, f.unended);
    Regroup(Paired(f), hunks, rest);
    if f.style == Bare {
      assert ReadableHunk(f.hunks[0]);
      BareHunksOpen(left, f.hunks, f.unended, rest);
      assert [] + [Blank("")] == [Blank("")] && Paired(f) + (hunks + rest) == hunks + rest;
    } else {
      PathsOpen(done, left, f, hunks + rest);
    }
    HunksRead(done, Blank(NameRead(f)), None, f.hunks, f.unended, rest);
  }

  lemma {:induction false} GitFileRead(done: seq<File>, f: GitFile, rest: seq<string>)
    requires Readable(f) && f.hunks != [] && f.style == Git && GitName(f) != ""
    requires !StartsWith(At(rest, 0), "+++ ") && !StartsWith(At(rest, 0), "@@ ")
    ensures ReadLines(State(done + [Blank(GitName(f))], None), PathLines(f) + rest)
         == ReadLines(State(done + ReadFile(f), LeftAfter(f)), rest)
  {
    var hunks := HunkLines(f.hunks, f.unended);
    Regroup(Paired(f), hunks, rest);
    GitPathsRead(done, f, hunks + rest);
    HunksRead(done, Blank(NameRead(f)), None, f.hunks, f.unended, rest);
  }

  lemma {:induction false} FileLinesSplit(f: GitFile, rest: seq<string>)
    ensures FileLines(f) + rest == Opening(f) + (f.extra + (PathLines(f) + rest))
  {
    Regroup(Opening(f) + f.extra, PathLines(f), rest);
    Regroup(Opening(f), f.extra, PathLines(f) + rest);
  }

  lemma {:induction false} FileRead(done: seq<File>, left: Option<Left>, f: GitFile, rest: seq<string>)
    requires Readable(f) && Spent(left) && Ready(done, f)
    requires !StartsWith(At(rest, 0), "+++ ") && !StartsWith(At(rest, 0), "@@ ")
    ensures ReadLines(State(done, left), FileLines(f) + rest)
         == ReadLines(State(done + ReadFile(f), LeftAfter(f)), rest)
  {
    var paths := PathLines(f);
    var tail := f.extra + (paths + rest);
    FileLinesSplit(f, rest);
    if f.style == Git {
      ReadCons(State(done, left), GitLine(f), tail);
      GitLineStep(State(done, left), f);
      ExtraRead(State(done + [Blank(GitName(f))], None), f.extra, paths + rest);
      if f.hunks == [] {
        assert paths + rest == rest;
      } else {
        GitFileRead(done, f, rest);
      }
    } else {
      assert [] + tail == tail;
      ExtraRead(State(done, left), f.extra, paths + rest);
      PathsRead(done, left, f, rest);
    }
  }

  /** A file read with hunks leaves an open file with hunks. */
  lemma {:induction false} ReadHunksLast(cur: File, hunks: seq<Hunk>)
    requires hunks != [] || cur.hunks != []
    ensures ReadHunks(cur, hunks) != [] && Last(ReadHunks(cur, hunks)).hunks != []
    decreases |hunks|
  {
    if hunks != [] {
      if |hunks| > 1 {
        ReadHunksLast(StillOpen(cur, hunks[0]), hunks[1..]);
        assert ReadHunks(cur, hunks) == Closed(cur, hunks[0]) + ReadHunks(StillOpen(cur, hunks[0]), hunks[1..]);
      } else {
        assert hunks[1..] == [];
      }
    }
  }

  /** What follows a file is the next file's first line, or nothing. */
  lemma {:induction false} DiffStarts(fs: seq<GitFile>)
    requires fs != [] ==> fs[0].style != Bare && Readable(fs[0])
    ensures var rest := DiffOf(fs) + [""]; !StartsWith(At(rest, 0), "+++ ") && !StartsWith(At(rest, 0), "@@ ")
  {
    var rest := DiffOf(fs) + [""];
    if fs != [] && fs[0].style != Git && fs[0].extra != [] {
      assert At(rest, 0) == fs[0].extra[0] && fs[0].extra[0] in fs[0].extra;
    } else {
      assert At(rest, 0) == if fs == [] then "" else if fs[0].style == Git then GitLine(fs[0]) else MinusLine(fs[0]);
      NotPrefix(At(rest, 0), "+++ ");
      NotPrefix(At(rest, 0), "@@ ");
    }
  }

  lemma {:induction false} NothingLeftRead(done: seq<File>, left: Option<Left>)
    requires Spent(left)
    ensures ReadLines(State(done, left), [""]).files == done
  {
    assert [""] == [""] + [];
    ReadCons(State(done, left), "", []);
    assert HeaderStep(State(done, left), "") == State(done, left);
  }

  /** Each file can follow what was read before it. */
  predicate Follows(done: seq<File>, fs: seq<GitFile>)
    decreases |fs|
  {
    fs == [] ||
    (Ready(done, fs[0]) && (|fs| > 1 ==> fs[1].style != Bare && (fs[1].style.Paths? ==> fs[0].hunks != [])) &&
     Follows(done + ReadFile(fs[0]), fs[1..]))
  }

  lemma {:induction false} SequenceFollows(before: seq<GitFile>, fs: seq<GitFile>, done: seq<File>)
    requires Sequence(before + fs) && (fs != [] ==> Ready(done, fs[0])) && (before == [] ==> done == [])
    ensures Follows(done, fs)
    decreases |fs|
  {
    if fs != [] {
      var f := fs[0];
      assert before + fs == before + [f] + fs[1..];
      if |fs| > 1 {
        var all := before + fs;
        assert all[|before| + 1] == fs[1] && all[..|before| + 1] == before + [f];
        assert CanFollow(all[|before| + 1], all[..|before| + 1]);
        if fs[1].style.Paths? {
          ReadHunksLast(Blank(NameRead(f)), f.hunks);
          assert Last(done + ReadFile(f)) == Last(ReadFile(f));
        }
      }
      SequenceFollows(before + [f], fs[1..], done + ReadFile(f));
    }
  }

  lemma {:induction false} DiffRead(done: seq<File>, left: Option<Left>, fs: seq<GitFile>)
    requires Spent(left) && Follows(done, fs) && forall f | f in fs :: Readable(f)
    ensures ReadLines(State(done, left), DiffOf(fs) + [""]).files == done + ReadAll(fs)
    decreases |fs|
  {
    if fs == [] {
      assert DiffOf(fs) + [""] == [""];
      NothingLeftRead(done, left);
    } else {
      var rest := DiffOf(fs[1..]) + [""];
      DiffStarts(fs[1..]);
      Regroup(FileLines(fs[0]), DiffOf(fs[1..]), [""]);
      FileRead(done, left, fs[0], rest);
      DiffRead(done + ReadFile(fs[0]), LeftAfter(fs[0]), fs[1..]);
      Regroup(done, ReadFile(fs[0]), ReadAll(fs[1..]));
    }
  }

  // Carriage returns

  function ChompRows(rows: seq<Op>): (r: seq<Op>)
    ensures |r| == |rows| && forall i | 0 <= i < |r| :: r[i] == Op(rows[i].tag, Chomp(rows[i].s))
  {
    if rows == [] then [] else [Op(rows[0].tag, Chomp(rows[0].s))] + ChompRows(rows[1..])
  }

  function ChompHunks(hunks: seq<Hunk>): (r: seq<Hunk>)
    ensures |r| == |hunks| && forall i | 0 <= i < |r| :: r[i] == hunks[i].(rows := ChompRows(hunks[i].rows))
  {
    if hunks == [] then [] else [hunks[0].(rows := ChompRows(hunks[0].rows))] + ChompHunks(hunks[1..])
  }

  /** The file as it looks once CRLF is read as LF. */
  function ChompFile(f: GitFile): GitFile { f.(extra := ChompAll(f.extra), hunks := ChompHunks(f.hunks)) }

  function ChompFiles(fs: seq<GitFile>): (r: seq<GitFile>)
    ensures |r| == |fs| && forall i | 0 <= i < |r| :: r[i] == ChompFile(fs[i])
  {
    if fs == [] then [] else [ChompFile(fs[0])] + ChompFiles(fs[1..])
  }

  lemma {:induction false} ChompIs(l: string)
    ensures OneLine(l) ==> Chomp(l) == l
    ensures '\n' !in l ==> '\n' !in Chomp(l)
    ensures forall p | StartsWith(Chomp(l), p) :: StartsWith(l, p)
  {
  }

  lemma {:induction false} ChompRowLine(o: Op)
    ensures Chomp(RowLine(o)) == RowLine(Op(o.tag, Chomp(o.s)))
  {
  }

  lemma {:induction false} ChompedRowLines(rows: seq<Op>)
    ensures ChompAll(RowLines(rows)) == RowLines(ChompRows(rows))
  {
    forall i | 0 <= i < |rows|
      ensures Chomp(RowLine(rows[i])) == RowLine(ChompRows(rows)[i])
    {
      ChompRowLine(rows[i]);
    }
  }

  lemma {:induction false} ChompedSides(rows: seq<Op>, skip: Tag)
    ensures |Side(ChompRows(rows), skip)| == |Side(rows, skip)|
  {
    if rows != [] {
      ChompedSides(rows[1..], skip);
    }
  }

  lemma {:induction false} ChompedHeader(h: Hunk)
    requires ReadableHunk(h)
    ensures Chomp(PrintHunkHead(HeadOf(h))) == PrintHunkHead(HeadOf(h.(rows := ChompRows(h.rows))))
  {
    ChompedSides(h.rows, Ins);
    ChompedSides(h.rows, Del);
    var head := HeadOf(h);
    var l := PrintHunkHead(head);
    assert Last(l) == Last(" @@" + head.tail);
    assert Last(" @@" + head.tail) == if h.context == "" then '@' else Last(h.context);
  }

  lemma {:induction false} ChompedMarkedLines(rows: seq<Op>, unended: seq<bool>)
    ensures ChompAll(MarkedLines(rows, unended)) == MarkedLines(ChompRows(rows), unended)
    decreases |rows|
  {
    if rows != [] {
      var tail := MarkedLines(rows[1..], Later(unended));
      ChompRowLine(rows[0]);
      ChompedMarkedLines(rows[1..], Later(unended));
      ChompConcat(Mark(unended), tail);
      assert ChompAll(Mark(unended)) == Mark(unended);
      assert ChompRows(rows)[1..] == ChompRows(rows[1..]);
    }
  }

  lemma {:induction false} ChompedHunkLines(hunks: seq<Hunk>, unended: seq<bool>)
    requires forall h | h in hunks :: ReadableHunk(h)
    ensures ChompAll(HunkLines(hunks, unended)) == HunkLines(ChompHunks(hunks), unended)
  {
    if hunks != [] {
      var h, more := hunks[0], hunks[1..];
      var head, rows := [PrintHunkHead(HeadOf(h))], if more == [] then MarkedLines(h.rows, unended) else RowLines(h.rows);
      ChompedHunkLines(more, unended);
      ChompedHeader(h);
      ChompedRowLines(h.rows);
      ChompedMarkedLines(h.rows, unended);
      ChompConcat(head + rows, HunkLines(more, unended));
      ChompConcat(head, rows);
      assert ChompHunks(hunks)[1..] == ChompHunks(more);
    }
  }

  lemma {:induction false} ChompedFileLines(f: GitFile)
    requires Readable(f)
    ensures ChompAll(FileLines(f)) == FileLines(ChompFile(f))
  {
    ChompedHunkLines(f.hunks, f.unended);
    HeadersHaveNoReturn(f);
    ChompConcat(Paired(f), HunkLines(f.hunks, f.unended));
    ChompConcat(Opening(f), f.extra);
    ChompConcat(Opening(f) + f.extra, PathLines(f));
  }

  lemma {:induction false} LastOfJoin(a: string, b: string)
    requires b != ""
    ensures Last(a + b) == Last(b)
  {
  }

  lemma {:induction false} SideHasNoReturn(style: Style, side: string, name: string, gone: bool)
    requires Named?(name)
    ensures var t := SideText(style, side, name, gone); t != "" && Last(t) != '\r'
  {
    LastOfJoin(side, Shown(name));
    ShownIsOneLine(name);
  }

  lemma {:induction false} HeadersHaveNoReturn(f: GitFile)
    requires Readable(f)
    ensures ChompAll(Opening(f)) == Opening(f) && ChompAll(Paired(f)) == Paired(f)
  {
    if f.style == Git {
      LastOfJoin("diff --git a/", f.oldName + " b/" + f.newName);
      LastOfJoin(f.oldName + " b/", f.newName);
      assert Chomp(GitLine(f)) == GitLine(f);
    }
    if f.style != Bare {
      SideHasNoReturn(f.style, "a/", f.oldName, f.change == Created);
      SideHasNoReturn(f.style, "b/", f.newName, f.change == Deleted);
      LastOfJoin("--- ", SideText(f.style, "a/", f.oldName, f.change == Created));
      LastOfJoin("+++ ", SideText(f.style, "b/", f.newName, f.change == Deleted));
      assert Chomp(MinusLine(f)) == MinusLine(f) && Chomp(PlusLine(f)) == PlusLine(f);
    }
  }

  lemma {:induction false} ChompedDiff(fs: seq<GitFile>)
    requires forall f | f in fs :: Readable(f)
    ensures ChompAll(DiffOf(fs)) == DiffOf(ChompFiles(fs))
  {
    if fs != [] {
      ChompedDiff(fs[1..]);
      ChompedFileLines(fs[0]);
      ChompConcat(FileLines(fs[0]), DiffOf(fs[1..]));
      assert ChompFiles(fs)[1..] == ChompFiles(fs[1..]);
    }
  }

  lemma {:induction false} ChompedIsPrintable(f: GitFile)
    requires Readable(f)
    ensures Readable(ChompFile(f))
  {
    var g := ChompFile(f);
    forall l | l in g.extra
      ensures Meaningless(l)
    {
      var i :| 0 <= i < |g.extra| && g.extra[i] == l;
      ChompIs(f.extra[i]);
      assert f.extra[i] in f.extra;
    }
    forall h | h in g.hunks
      ensures ReadableHunk(h)
    {
      var i :| 0 <= i < |g.hunks| && g.hunks[i] == h;
      assert f.hunks[i] in f.hunks;
      forall o | o in h.rows
        ensures '\n' !in o.s
      {
        var j :| 0 <= j < |h.rows| && h.rows[j] == o;
        assert f.hunks[i].rows[j] in f.hunks[i].rows;
        ChompIs(f.hunks[i].rows[j].s);
      }
    }
  }

  // What the reader answers on any printed diff

  /** The exact answer, misread names, lost returns and hidden headers included. */
  lemma {:induction false} ParsePrinted(fs: seq<GitFile>)
    requires Sequence(fs) && forall f | f in fs :: Readable(f)
    ensures ParseUnified(Print(fs)) == WithHunks(ReadAll(ChompFiles(fs)))
  {
    UnbrokenDiff(fs);
    ReadBack(DiffOf(fs));
    ChompedDiff(fs);
    var gs := ChompFiles(fs);
    forall g | g in gs
      ensures Readable(g)
    {
      var i :| 0 <= i < |gs| && gs[i] == g;
      assert fs[i] in fs;
      ChompedIsPrintable(fs[i]);
    }
    ChompedSequence(fs);
    assert [] + gs == gs;
    SequenceFollows([], gs, []);
    DiffRead([], None, gs);
    assert [] + ReadAll(gs) == ReadAll(gs);
  }

  lemma {:induction false} ChompedSequence(fs: seq<GitFile>)
    requires Sequence(fs)
    ensures Sequence(ChompFiles(fs))
  {
    var gs := ChompFiles(fs);
    forall i | 0 <= i < |gs|
      ensures CanFollow(gs[i], gs[..i])
    {
      assert CanFollow(fs[i], fs[..i]);
      if i > 0 {
        assert Last(gs[..i]) == gs[i - 1] == ChompFile(fs[i - 1]) && Last(fs[..i]) == fs[i - 1];
      }
    }
  }

  ghost predicate Unbroken(lines: seq<string>) {
    forall i | 0 <= i < |lines| :: '\n' !in lines[i]
  }

  lemma {:induction false} UnbrokenRows(rows: seq<Op>)
    requires forall o | o in rows :: '\n' !in o.s
    ensures Unbroken(RowLines(rows))
  {
    forall i | 0 <= i < |rows|
      ensures '\n' !in RowLine(rows[i])
    {
      assert rows[i] in rows;
    }
  }

  lemma {:induction false} UnbrokenMarked(rows: seq<Op>, unended: seq<bool>)
    requires forall o | o in rows :: '\n' !in o.s
    ensures Unbroken(MarkedLines(rows, unended))
    decreases |rows|
  {
    if rows != [] {
      UnbrokenMarked(rows[1..], Later(unended));
      assert rows[0] in rows && '\n' !in RowLine(rows[0]) && '\n' !in MARKER;
    }
  }

  lemma {:induction false} UnbrokenHead(h: Hunk)
    requires OneLine(h.context)
    ensures Unbroken([PrintHunkHead(HeadOf(h))])
  {
    NoBreakJoin(" ", h.context);
    HeadHasNoBreak(HeadOf(h));
  }

  lemma {:induction false} UnbrokenHunks(hunks: seq<Hunk>, unended: seq<bool>)
    requires forall h | h in hunks :: ReadableHunk(h)
    ensures Unbroken(HunkLines(hunks, unended))
  {
    if hunks != [] {
      var h := hunks[0];
      assert ReadableHunk(h);
      UnbrokenHunks(hunks[1..], unended);
      UnbrokenRows(h.rows);
      UnbrokenMarked(h.rows, unended);
      UnbrokenHead(h);
      var head, rows := [PrintHunkHead(HeadOf(h))], if |hunks| == 1 then MarkedLines(h.rows, unended) else RowLines(h.rows);
      UnbrokenJoin(head, rows);
      UnbrokenJoin(head + rows, HunkLines(hunks[1..], unended));
    }
  }

  lemma {:induction false} UnbrokenPaths(f: GitFile)
    requires Readable(f)
    ensures Unbroken(Opening(f)) && Unbroken(Paired(f))
  {
    if f.style != Bare {
      ShownIsOneLine(f.oldName);
      ShownIsOneLine(f.newName);
    }
  }

  lemma {:induction false} UnbrokenFile(f: GitFile)
    requires Readable(f)
    ensures Unbroken(FileLines(f))
  {
    UnbrokenPaths(f);
    UnbrokenHunks(f.hunks, f.unended);
    assert forall i | 0 <= i < |f.extra| :: f.extra[i] in f.extra;
    UnbrokenJoin(Paired(f), HunkLines(f.hunks, f.unended));
    UnbrokenJoin(Opening(f), f.extra);
    UnbrokenJoin(Opening(f) + f.extra, PathLines(f));
  }

  lemma {:induction false} UnbrokenDiff(fs: seq<GitFile>)
    requires forall f | f in fs :: Readable(f)
    ensures Unbroken(DiffOf(fs))
  {
    if fs != [] {
      UnbrokenDiff(fs[1..]);
      assert fs[0] in fs;
      UnbrokenFile(fs[0]);
      UnbrokenJoin(FileLines(fs[0]), DiffOf(fs[1..]));
    }
  }

  lemma {:induction false} UnbrokenJoin(a: seq<string>, b: seq<string>)
    requires Unbroken(a) && Unbroken(b)
    ensures Unbroken(a + b)
  {
  }

  // When that is what was printed

  /** No whitespace edges the path, and where the prefixes were left out it does not begin like one. */
  predicate PathSafe(style: Style, side: string, name: string) {
    Trimmed(name) && (style == Paths(false) ==> !StartsWith(name, side) || |name| == 2)
  }

  /** The name survives: no separator hides in the old one where only the `diff --git` line has the new one, else its path does. */
  predicate NameSafe(f: GitFile) {
    match f.style
    case Git =>
      if f.change == Deleted || f.newName == "/dev/null" then !HidesSeparator(f.oldName, 1) else Trimmed(f.newName)
    case Paths(_) =>
      if f.change == Deleted then PathSafe(f.style, "a/", f.oldName) else PathSafe(f.style, "b/", f.newName)
    case Bare => true
  }

  /** Only a file's last hunk may end in two rows that look like a path header. */
  predicate EndsSafe(hunks: seq<Hunk>) {
    forall i | 0 <= i < |hunks| - 1 :: !BadEnd(hunks[i].rows)
  }

  predicate NoReturn(rows: seq<Op>) {
    forall i | 0 <= i < |rows| :: rows[i].s == "" || Last(rows[i].s) != '\r'
  }

  predicate OneLineHunks(hunks: seq<Hunk>) { forall i | 0 <= i < |hunks| :: OneLine(hunks[i].context) }

  predicate Faithful(f: GitFile) {
    f.hunks != [] ==>
      NameSafe(f) && EndsSafe(f.hunks) && OneLineHunks(f.hunks) && forall i | 0 <= i < |f.hunks| :: NoReturn(f.hunks[i].rows)
  }

  lemma {:induction false} PathSafeIs(style: Style, side: string, name: string)
    requires |side| == 2
    ensures Trim(Stripped(style, side, name)) == name <==> PathSafe(style, side, name)
  {
    TrimIsIdentity(name);
    if Stripped(style, side, name) != name {
      TrimLeftShortens(name[2..]);
      TrimRightShortens(TrimLeft(name[2..]));
    }
  }

  lemma {:induction false} NameSafeIs(f: GitFile)
    requires NamesPrintable(f)
    ensures NameRead(f) == NameMeant(f) <==> NameSafe(f)
  {
    match f.style {
      case Git =>
        SeparatorFound(f.oldName, f.newName, 1);
        TrimIsIdentity(f.newName);
      case Paths(_) =>
        PathSafeIs(f.style, "a/", f.oldName);
        PathSafeIs(f.style, "b/", f.newName);
      case Bare =>
    }
  }

  function HunkRows(hunks: seq<Hunk>): nat {
    if hunks == [] then 0 else |hunks[0].rows| + HunkRows(hunks[1..])
  }

  function RowCount(files: seq<File>): nat {
    if files == [] then 0 else HunkRows(files[0].hunks) + RowCount(files[1..])
  }

  lemma {:induction false} HunkRowsPush(hunks: seq<Hunk>, h: Hunk)
    ensures HunkRows(hunks + [h]) == HunkRows(hunks) + |h.rows|
  {
    if hunks == [] {
      assert [] + [h] == [h];
    } else {
      assert (hunks + [h])[1..] == hunks[1..] + [h];
      HunkRowsPush(hunks[1..], h);
    }
  }

  lemma {:induction false} RowCountAppend(a: seq<File>, b: seq<File>)
    ensures RowCount(a + b) == RowCount(a) + RowCount(b)
  {
    if a == [] {
      assert a + b == b;
    } else {
      assert (a + b)[1..] == a[1..] + b;
      RowCountAppend(a[1..], b);
    }
  }

  lemma {:induction false} RowCountWithHunks(files: seq<File>)
    ensures RowCount(WithHunks(files)) == RowCount(files)
  {
    if files != [] {
      RowCountWithHunks(files[1..]);
      var kept := if files[0].hunks != [] then [files[0]] else [];
      RowCountAppend(kept, WithHunks(files[1..]));
      assert RowCount(kept) == HunkRows(files[0].hunks) by { assert RowCount([files[0]][1..]) == 0; }
    }
  }

  /** A bad end before the last hunk always costs a row; clean hunks cost nothing and stay one file. */
  lemma {:induction false} ReadHunksRows(cur: File, hunks: seq<Hunk>)
    ensures RowCount(ReadHunks(cur, hunks)) <= HunkRows(cur.hunks) + HunkRows(hunks)
    ensures RowCount(ReadHunks(cur, hunks)) == HunkRows(cur.hunks) + HunkRows(hunks) ==> EndsSafe(hunks)
    ensures EndsSafe(hunks) ==> ReadHunks(cur, hunks) == [AddHunks(cur, hunks)]
    decreases |hunks|
  {
    if hunks == [] {
      assert RowCount([cur][1..]) == 0;
    } else {
      var h, more := hunks[0], hunks[1..];
      if |hunks| == 1 || !BadEnd(h.rows) {
        HunkRowsPush(cur.hunks, h);
        ReadHunksRows(AddHunk(cur, h), more);
        EndsSafeCons(hunks);
      } else {
        match MinusName(h.rows[|h.rows| - 2]) {
          case None =>
            HunkRowsPush(cur.hunks, Without(h, false));
            ReadHunksRows(AddHunk(cur, Without(h, false)), more);
          case Some(name) =>
            var lost := AddHunk(cur, Without(h, true));
            HunkRowsPush(cur.hunks, Without(h, true));
            ReadHunksRows(Blank(PlusName(name, Last(h.rows))), more);
            RowCountAppend([lost], ReadHunks(Blank(PlusName(name, Last(h.rows))), more));
            assert RowCount([lost][1..]) == 0;
        }
      }
    }
  }

  lemma {:induction false} EndsSafeCons(hunks: seq<Hunk>)
    requires hunks != []
    ensures EndsSafe(hunks) <==> (|hunks| == 1 || !BadEnd(hunks[0].rows)) && EndsSafe(hunks[1..])
  {
    var more := hunks[1..];
    assert forall i | 0 <= i < |more| :: more[i] == hunks[i + 1];
    if EndsSafe(more) && (|hunks| == 1 || !BadEnd(hunks[0].rows)) {
      forall i | 0 <= i < |hunks| - 1
        ensures !BadEnd(hunks[i].rows)
      {
        if i > 0 { assert hunks[i] == more[i - 1]; }
      }
    }
  }

  lemma {:induction false} ChompedEnds(rows: seq<Op>)
    ensures BadEnd(ChompRows(rows)) <==> BadEnd(rows)
    ensures ChompRows(rows) == rows <==> NoReturn(rows)
  {
    if |rows| >= 2 {
      ChompKeepsPrefix(rows[|rows| - 2].s, "-- ");
      ChompKeepsPrefix(rows[|rows| - 1].s, "++ ");
    }
    if ChompRows(rows) == rows {
      forall i | 0 <= i < |rows|
        ensures rows[i].s == "" || Last(rows[i].s) != '\r'
      {
        assert ChompRows(rows)[i] == rows[i];
      }
    }
  }

  lemma {:induction false} ChompKeepsPrefix(s: string, prefix: string)
    requires prefix != "" && Last(prefix) != '\r'
    ensures StartsWith(Chomp(s), prefix) <==> StartsWith(s, prefix)
  {
  }

  lemma {:induction false} ChompedEndsSafe(hunks: seq<Hunk>)
    ensures EndsSafe(ChompHunks(hunks)) <==> EndsSafe(hunks)
  {
    var cs := ChompHunks(hunks);
    forall i | 0 <= i < |hunks|
      ensures BadEnd(cs[i].rows) <==> BadEnd(hunks[i].rows)
    {
      ChompedEnds(hunks[i].rows);
    }
  }

  lemma {:induction false} ChompedSame(hunks: seq<Hunk>)
    ensures ChompHunks(hunks) == hunks <==> forall i | 0 <= i < |hunks| :: NoReturn(hunks[i].rows)
  {
    var cs := ChompHunks(hunks);
    forall i | 0 <= i < |hunks|
      ensures cs[i] == hunks[i] <==> NoReturn(hunks[i].rows)
    {
      ChompedEnds(hunks[i].rows);
    }
  }

  lemma {:induction false} ChompedRowCount(hunks: seq<Hunk>)
    ensures HunkRows(ChompHunks(hunks)) == HunkRows(hunks)
  {
    if hunks != [] {
      ChompedRowCount(hunks[1..]);
      assert ChompHunks(hunks)[1..] == ChompHunks(hunks[1..]);
    }
  }

  lemma {:induction false} AddHunksKeeps(f: File, hunks: seq<Hunk>)
    ensures AddHunks(f, hunks).hunks == f.hunks + hunks && AddHunks(f, hunks).name == f.name
    decreases |hunks|
  {
    if hunks != [] {
      AddHunksKeeps(AddHunk(f, hunks[0]), hunks[1..]);
    }
  }

  function AsReadFile(f: GitFile): seq<File> {
    if f.hunks == [] then [] else [AddHunks(Blank(NameRead(f)), ChompHunks(f.hunks))]
  }

  /** The answer when every end is safe: one file each, under the name read, returns gone. */
  function AsRead(fs: seq<GitFile>): seq<File> {
    if fs == [] then [] else AsReadFile(fs[0]) + AsRead(fs[1..])
  }

  lemma {:induction false} OneFileRows(f: File)
    ensures RowCount([f]) == HunkRows(f.hunks)
  {
    assert RowCount([f][1..]) == 0;
  }

  lemma {:induction false} FileRows(f: GitFile)
    ensures RowCount(ReadFile(ChompFile(f))) <= RowCount(MeantFile(f))
    ensures RowCount(ReadFile(ChompFile(f))) == RowCount(MeantFile(f)) ==> EndsSafe(f.hunks)
  {
    var g := ChompFile(f);
    if f.hunks == [] {
      OneFileRows(Blank(GitName(g)));
    } else {
      ReadHunksRows(Blank(NameRead(g)), g.hunks);
      ChompedRowCount(f.hunks);
      ChompedEndsSafe(f.hunks);
      AddHunksKeeps(Blank(NameMeant(f)), f.hunks);
      OneFileRows(AddHunks(Blank(NameMeant(f)), f.hunks));
      assert [] + f.hunks == f.hunks;
    }
  }

  predicate AllEndSafe(fs: seq<GitFile>) { forall i | 0 <= i < |fs| :: EndsSafe(fs[i].hunks) }

  lemma {:induction false} AllEndSafeCons(fs: seq<GitFile>)
    requires fs != [] && EndsSafe(fs[0].hunks) && AllEndSafe(fs[1..])
    ensures AllEndSafe(fs)
  {
    assert forall i | 0 < i < |fs| :: fs[i] == fs[1..][i - 1];
  }

  function RowsLeft(fs: seq<GitFile>): nat { RowCount(ReadAll(ChompFiles(fs))) }

  function RowsMeant(fs: seq<GitFile>): nat { RowCount(Meant(fs)) }

  lemma {:induction false} RowsSplit(fs: seq<GitFile>)
    requires fs != []
    ensures RowsLeft(fs) == RowCount(ReadFile(ChompFile(fs[0]))) + RowsLeft(fs[1..])
    ensures RowsMeant(fs) == RowCount(MeantFile(fs[0])) + RowsMeant(fs[1..])
  {
    assert ChompFiles(fs)[1..] == ChompFiles(fs[1..]);
    RowCountAppend(ReadFile(ChompFile(fs[0])), ReadAll(ChompFiles(fs[1..])));
    RowCountAppend(MeantFile(fs[0]), Meant(fs[1..]));
  }

  /** One file's part: no row gained, and none lost only with safe ends. */
  lemma {:induction false} RowsOfFirst(fs: seq<GitFile>)
    requires fs != [] && RowsLeft(fs[1..]) <= RowsMeant(fs[1..])
    ensures RowsLeft(fs) <= RowsMeant(fs)
    ensures RowsLeft(fs) == RowsMeant(fs) ==> EndsSafe(fs[0].hunks) && RowsLeft(fs[1..]) == RowsMeant(fs[1..])
  {
    FileRows(fs[0]);
    RowsSplit(fs);
  }

  /** Rows are only ever lost, and a reader that lost none met only safe ends. */
  lemma {:induction false} RowsOnlyLost(fs: seq<GitFile>)
    ensures RowsLeft(fs) <= RowsMeant(fs)
    ensures RowsLeft(fs) == RowsMeant(fs) ==> AllEndSafe(fs)
  {
    if fs != [] {
      RowsOnlyLost(fs[1..]);
      RowsOfFirst(fs);
      if RowsLeft(fs) == RowsMeant(fs) {
        AllEndSafeCons(fs);
      }
    }
  }

  lemma {:induction false} SafeFileRead(f: GitFile, rest: seq<File>)
    requires EndsSafe(f.hunks)
    ensures WithHunks(ReadFile(ChompFile(f)) + rest) == AsReadFile(f) + WithHunks(rest)
  {
    var g := ChompFile(f);
    ChompedEndsSafe(f.hunks);
    ReadHunksRows(Blank(NameRead(g)), g.hunks);
    AddHunksKeeps(Blank(NameRead(g)), g.hunks);
    var all := ReadFile(g) + rest;
    assert ReadFile(g) == [all[0]] && all[1..] == rest;
  }

  lemma {:induction false} SafeEndsRead(fs: seq<GitFile>)
    requires AllEndSafe(fs)
    ensures WithHunks(ReadAll(ChompFiles(fs))) == AsRead(fs)
  {
    if fs != [] {
      SafeEndsRead(fs[1..]);
      assert ChompFiles(fs)[1..] == ChompFiles(fs[1..]);
      SafeFileRead(fs[0], ReadAll(ChompFiles(fs[1..])));
    }
  }

  lemma {:induction false} ReadableIsOneLine(f: GitFile)
    requires Readable(f)
    ensures OneLineHunks(f.hunks)
  {
    forall i | 0 <= i < |f.hunks|
      ensures OneLine(f.hunks[i].context)
    {
      assert ReadableHunk(f.hunks[i]);
    }
  }

  lemma {:induction false} FilesOfOne(x: File, y: File)
    ensures [x] == [y] <==> x == y
  {
    assert [x][0] == x && [y][0] == y;
  }

  /** The read and the meant file differ in the name and the rows at most. */
  lemma {:induction false} SameFileExactly(f: GitFile)
    ensures AddHunks(Blank(NameRead(f)), ChompHunks(f.hunks)) == AddHunks(Blank(NameMeant(f)), f.hunks)
       <==> NameRead(f) == NameMeant(f) && ChompHunks(f.hunks) == f.hunks
  {
    BlankFilled(NameRead(f), ChompHunks(f.hunks));
    BlankFilled(NameMeant(f), f.hunks);
  }

  lemma {:induction false} BlankFilled(name: string, hunks: seq<Hunk>)
    ensures AddHunks(Blank(name), hunks).name == name && AddHunks(Blank(name), hunks).hunks == hunks
  {
    AddHunksKeeps(Blank(name), hunks);
    assert [] + hunks == hunks;
  }

  lemma {:induction false} FaithfulFile(f: GitFile)
    requires Readable(f) && EndsSafe(f.hunks)
    ensures |AsReadFile(f)| == |MeantFile(f)|
    ensures AsReadFile(f) == MeantFile(f) <==> Faithful(f)
  {
    if f.hunks != [] {
      NameSafeIs(f);
      ChompedSame(f.hunks);
      ReadableIsOneLine(f);
      SameFileExactly(f);
      FilesOfOne(AddHunks(Blank(NameRead(f)), ChompHunks(f.hunks)), AddHunks(Blank(NameMeant(f)), f.hunks));
    }
  }

  lemma {:induction false} JoinedEqual<T>(a: seq<T>, b: seq<T>, c: seq<T>, d: seq<T>)
    requires |a| == |c|
    ensures a + b == c + d <==> a == c && b == d
  {
    if a + b == c + d {
      assert a == (a + b)[..|a|] && c == (c + d)[..|a|] && b == (a + b)[|a|..] && d == (c + d)[|a|..];
    }
  }

  ghost predicate AllFaithful(fs: seq<GitFile>) { forall f | f in fs :: Faithful(f) }

  lemma {:induction false} AllFaithfulCons(fs: seq<GitFile>)
    requires fs != []
    ensures AllFaithful(fs) <==> Faithful(fs[0]) && AllFaithful(fs[1..])
  {
    assert fs == [fs[0]] + fs[1..];
  }

  lemma {:induction false} AsReadIsMeant(fs: seq<GitFile>)
    requires (forall f | f in fs :: Readable(f)) && AllEndSafe(fs)
    ensures AsRead(fs) == Meant(fs) <==> AllFaithful(fs)
  {
    if fs != [] {
      assert fs[0] in fs && Readable(fs[0]) && EndsSafe(fs[0].hunks);
      AsReadIsMeant(fs[1..]);
      FaithfulFile(fs[0]);
      JoinedEqual(AsReadFile(fs[0]), AsRead(fs[1..]), MeantFile(fs[0]), Meant(fs[1..]));
      AllFaithfulCons(fs);
    }
  }

  // No context the reader gives holds a line terminator

  predicate OneLineFiles(files: seq<File>) { forall i | 0 <= i < |files| :: OneLineHunks(files[i].hunks) }

  lemma {:induction false} PutRowKeepsContexts(st: State, o: Op)
    requires InHunk(st) && OneLineFiles(st.files)
    ensures OneLineFiles(PutRow(st, o).files)
  {
    var f, g := Last(st.files), Last(PutRow(st, o).files);
    assert OneLineHunks(f.hunks);
    forall i | 0 <= i < |g.hunks|
      ensures OneLine(g.hunks[i].context)
    {
      assert g.hunks[i].context == f.hunks[i].context;
    }
  }

  lemma {:induction false} OpenHunkKeepsContexts(st: State, h: HunkHead)
    requires OneLineFiles(st.files) && OneLine(h.tail)
    ensures OneLineFiles(OpenHunk(st, h).files)
  {
    var start := if st.files == [] then Open(st.files, "") else st;
    assert OneLineHunks(Last(start.files).hunks);
    assert OneLine(Context(h.tail));
  }

  lemma {:induction false} OpenKeepsContexts(files: seq<File>, name: string)
    requires OneLineFiles(files)
    ensures OneLineFiles(Open(files, name).files)
  {
  }

  lemma {:induction false} NamedKeepsContexts(st: State, name: string)
    requires st.files != [] && OneLineFiles(st.files)
    ensures OneLineFiles(Named(st, name).files)
  {
    assert OneLineHunks(Last(st.files).hunks);
  }

  lemma {:induction false} ReceivingKeepsContexts(st: State)
    requires OneLineFiles(st.files)
    ensures OneLineFiles(Receiving(st).files)
  {
    OpenKeepsContexts(st.files, "");
  }

  /** The file a path line works on, named or not. */
  lemma {:induction false} PathKeepsContexts(st: State, name: string)
    requires OneLineFiles(st.files)
    ensures OneLineFiles(Receiving(st).files) && OneLineFiles(Named(Receiving(st), name).files)
  {
    ReceivingKeepsContexts(st);
    NamedKeepsContexts(Receiving(st), name);
  }

  lemma {:induction false} HeaderKeepsContexts(st: State, l: string)
    requires OneLineFiles(st.files)
    ensures OneLineFiles(HeaderStep(st, l).files)
  {
    var next := HeaderStep(st, l);
    var git, plus, minus, head := ReadGitLine(l), ReadPlusLine(l), ReadMinusLine(l), ReadHunkLine(l);
    if git.Some? {
      OpenKeepsContexts(st.files, git.value);
    } else if plus.Some? {
      PathKeepsContexts(st, Trim(plus.value));
      assert next == Receiving(st) || next == Named(Receiving(st), Trim(plus.value));
    } else if minus.Some? {
      PathKeepsContexts(st, Trim(minus.value));
      assert next == Receiving(st) || next == Named(Receiving(st), Trim(minus.value));
    } else if head.Some? {
      HeadIsOneLine(l);
      OpenHunkKeepsContexts(st, head.value);
    }
  }

  lemma {:induction false} HeadIsOneLine(l: string)
    ensures ReadHunkLine(l).Some? ==> OneLine(ReadHunkLine(l).value.tail)
  {
  }

  lemma {:induction false} ReadingKeepsContexts(st: State, lines: seq<string>)
    requires OneLineFiles(st.files)
    ensures OneLineFiles(ReadLines(st, lines).files)
    decreases |lines|
  {
    if lines != [] {
      var l := lines[0];
      if TakesRow(st, l, At(lines, 1), At(lines, 2)) {
        PutRowKeepsContexts(st, RowOf(l));
      } else {
        HeaderKeepsContexts(st, l);
      }
      ReadingKeepsContexts(Step(st, l, At(lines, 1), At(lines, 2)), lines[1..]);
    }
  }

  lemma {:induction false} WithHunksKeepsContexts(files: seq<File>)
    requires OneLineFiles(files)
    ensures OneLineFiles(WithHunks(files))
  {
    if files != [] {
      assert OneLineHunks(files[0].hunks);
      WithHunksKeepsContexts(files[1..]);
    }
  }

  /** Whatever the text, no context read off it holds a character that ends a line for `.`. */
  lemma {:induction false} ContextsReadAreOneLine(text: string)
    ensures OneLineFiles(ParseUnified(text))
  {
    ReadingKeepsContexts(START, Lines(Unixed(text)));
    WithHunksKeepsContexts(ReadLines(START, Lines(Unixed(text))).files);
  }

  lemma {:induction false} MeantContexts(fs: seq<GitFile>)
    requires OneLineFiles(Meant(fs))
    ensures forall i | 0 <= i < |fs| :: OneLineHunks(fs[i].hunks)
  {
    if fs != [] {
      var first, rest := MeantFile(fs[0]), Meant(fs[1..]);
      assert forall i | 0 <= i < |rest| :: rest[i] == (first + rest)[|first| + i];
      MeantContexts(fs[1..]);
      if fs[0].hunks != [] {
        AddHunksKeeps(Blank(NameMeant(fs[0])), fs[0].hunks);
        assert [] + fs[0].hunks == fs[0].hunks;
        assert OneLineHunks((first + rest)[0].hunks);
      }
    }
  }

  lemma {:induction false} ReadableIfOneLine(f: GitFile)
    requires Printable(f) && OneLineHunks(f.hunks)
    ensures Readable(f)
  {
  }

  /** The round trip among files whose contexts the reader's patterns take. */
  lemma {:induction false} ReadableRoundTrip(fs: seq<GitFile>)
    requires Sequence(fs) && forall f | f in fs :: Readable(f)
    ensures ParseUnified(Print(fs)) == Meant(fs) <==> AllFaithful(fs)
  {
    ParsePrinted(fs);
    if AllEndSafe(fs) {
      SafeEndsRead(fs);
      AsReadIsMeant(fs);
    } else {
      RowCountWithHunks(ReadAll(ChompFiles(fs)));
      RowsOnlyLost(fs);
      var i :| 0 <= i < |fs| && !EndsSafe(fs[i].hunks);
      assert fs[i] in fs && !Faithful(fs[i]);
    }
  }

  /**
   * The round trip, both ways, for git's own diffs, for files under `---` and
   * `+++` lines alone, and for bare hunks: reading gives back the files, hunks,
   * rows and totals if and only if every file's name is safe, no context holds a
   * line terminator, no row ends in a carriage return, and only last hunks end
   * in two header-like rows.
   */
  lemma {:induction false} RoundTrip(fs: seq<GitFile>)
    requires Sequence(fs) && forall f | f in fs :: Printable(f)
    ensures ParseUnified(Print(fs)) == Meant(fs) <==> AllFaithful(fs)
  {
    if forall i | 0 <= i < |fs| :: OneLineHunks(fs[i].hunks) {
      forall f | f in fs
        ensures Readable(f)
      {
        var i :| 0 <= i < |fs| && fs[i] == f;
        ReadableIfOneLine(f);
      }
      ReadableRoundTrip(fs);
    } else {
      var i :| 0 <= i < |fs| && !OneLineHunks(fs[i].hunks);
      assert fs[i] in fs && !Faithful(fs[i]);
      ContextsReadAreOneLine(Print(fs));
      if OneLineFiles(Meant(fs)) {
        MeantContexts(fs);
      }
    }
  }

  /**
   * Hunks pasted without any file line read as one file without a name, holding
   * exactly those hunks and their totals, if and only if only the last ends in
   * two header-like rows, no context holds a line terminator, and no row ends in
   * a carriage return.
   */
  lemma {:induction false} BareHunksRead(hunks: seq<Hunk>, unended: seq<bool>)
    requires hunks != [] && forall h | h in hunks :: PrintableHunk(h)
    ensures ParseUnified(Unlines(HunkLines(hunks, unended))) == [AddHunks(Blank(""), hunks)]
       <==> EndsSafe(hunks) && OneLineHunks(hunks) && forall i | 0 <= i < |hunks| :: NoReturn(hunks[i].rows)
  {
    var f := GitFile(Bare, "", "", Modified, [], hunks, unended);
    OneFileRead(f);
    assert [] + [] + HunkLines(hunks, unended) == HunkLines(hunks, unended);
    assert FileLines(f) == HunkLines(hunks, unended);
  }

  lemma {:induction false} OneFileRead(f: GitFile)
    requires Printable(f)
    ensures ParseUnified(Unlines(FileLines(f))) == MeantFile(f) <==> Faithful(f)
  {
    var fs := [f];
    assert CanFollow(f, fs[..0]);
    RoundTrip(fs);
    assert fs[1..] == [] && DiffOf(fs) == FileLines(f);
    assert Meant(fs) == MeantFile(f);
    assert AllFaithful(fs) <==> Faithful(f);
  }

  /**
   * A file under `---` and `+++` lines alone reads as one file under its new
   * path, or its old one when it was deleted, if and only if besides all that
   * the path has no whitespace at its edges and, printed without a prefix, does
   * not begin like one.
   */
  lemma {:induction false} PathFileRead(f: GitFile)
    requires Printable(f) && f.style.Paths?
    ensures var path, side := if f.change == Deleted then f.oldName else f.newName, if f.change == Deleted then "a/" else "b/";
            ParseUnified(Unlines(f.extra + ([MinusLine(f), PlusLine(f)] + HunkLines(f.hunks, f.unended)))) ==
              [AddHunks(Blank(path), f.hunks)]
            <==> PathSafe(f.style, side, path) && EndsSafe(f.hunks) && OneLineHunks(f.hunks) &&
                 forall i | 0 <= i < |f.hunks| :: NoReturn(f.hunks[i].rows)
  {
    OneFileRead(f);
    PathFileLines(f);
  }

  lemma {:induction false} PathFileLines(f: GitFile)
    requires f.style.Paths? && f.hunks != []
    ensures FileLines(f) == f.extra + ([MinusLine(f), PlusLine(f)] + HunkLines(f.hunks, f.unended))
  {
    assert [] + f.extra == f.extra;
  }
}
