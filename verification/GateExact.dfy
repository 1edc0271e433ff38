/**
 * The gate against the truth: git's zero-context print of edit scripts, and
 * what the gate then says of every line of the new files.
 */
module GateExact {
  import opened Wrappers
  import opened Text
  import opened EditScripts
  import opened DiffLines
  import opened ChangedLines

  /** What each line of the new file is, in order. */
  function NewTags(rows: seq<Op>): seq<Tag> {
    if rows == [] then []
    else (if rows[0].tag == Del then [] else [rows[0].tag]) + NewTags(rows[1..])
  }

  /** The script inserted this 1-based line of the new file. */
  predicate Inserted(rows: seq<Op>, line: int) {
    1 <= line <= |NewTags(rows)| && NewTags(rows)[line - 1] == Ins
  }

  /** A change with no unchanged line in it: how many lines of either side precede it, and what it does. */
  datatype ZeroHunk = ZeroHunk(oldBefore: nat, newBefore: nat, del: seq<string>, ins: seq<string>)

  /** How many changed rows the script opens with. */
  function ChangeRun(rows: seq<Op>): (n: nat)
    ensures n <= |rows| && (n < |rows| ==> rows[n].tag == Same)
    ensures forall i | 0 <= i < n :: rows[i].tag != Same
  {
    if rows != [] && rows[0].tag != Same then 1 + ChangeRun(rows[1..]) else 0
  }

  function TextsOf(rows: seq<Op>, t: Tag): seq<string> {
    if rows == [] then [] else (if rows[0].tag == t then [rows[0].s] else []) + TextsOf(rows[1..], t)
  }

  /** The hunks of a zero-context diff: one per maximal run of changes. */
  function ZeroHunks(rows: seq<Op>, oldBefore: nat, newBefore: nat): seq<ZeroHunk>
    decreases |rows|
  {
    if rows == [] then []
    else if rows[0].tag == Same then ZeroHunks(rows[1..], oldBefore + 1, newBefore + 1)
    else
      var n := ChangeRun(rows);
      var del, ins := TextsOf(rows[..n], Del), TextsOf(rows[..n], Ins);
      [ZeroHunk(oldBefore, newBefore, del, ins)] + ZeroHunks(rows[n..], oldBefore + |del|, newBefore + |ins|)
  }

  /** Git numbers an empty range by the line before it. */
  function RangeAfter(before: nat, count: nat): Range {
    Range(if count == 0 then before else before + 1, count)
  }

  function Prefixed(c: char, lines: seq<string>): (r: seq<string>)
    ensures |r| == |lines| && forall i | 0 <= i < |r| :: r[i] == [c] + lines[i]
  {
    if lines == [] then [] else [[c] + lines[0]] + Prefixed(c, lines[1..])
  }

  /** What git adds to a hunk: a tail after the second `@@`, and a marker where a side ends without a newline. */
  datatype Trimming = Trimming(tail: string, oldUnended: bool, newUnended: bool)

  function Mark(unended: bool): seq<string> { if unended then [MARKER] else [] }

  function HunkLines(h: ZeroHunk, t: Trimming): seq<string> {
    [PrintHunkHead(HeadOf(h, t.tail))] + (Prefixed('-', h.del) + Mark(t.oldUnended)) + (Prefixed('+', h.ins) + Mark(t.newUnended))
  }

  function TrimAt(trims: seq<Trimming>): Trimming { if trims == [] then Trimming("", false, false) else trims[0] }

  function TrimsAfter(trims: seq<Trimming>): seq<Trimming> { if trims == [] then [] else trims[1..] }

  function HunksLines(hunks: seq<ZeroHunk>, trims: seq<Trimming>): seq<string>
    decreases |hunks|
  {
    if hunks == [] then [] else HunkLines(hunks[0], TrimAt(trims)) + HunksLines(hunks[1..], TrimsAfter(trims))
  }

  /** A file of the diff: the lines before its `+++ ` line, what that line names, and its edit script. */
  datatype GateFile = GateFile(extra: seq<string>, target: string, rows: seq<Op>, trims: seq<Trimming>)

  function HunksOf(f: GateFile): seq<ZeroHunk> { ZeroHunks(f.rows, 0, 0) }

  /** A file without changed lines (a pure rename) prints no path line. */
  function FileLines(f: GateFile): seq<string> {
    f.extra + if HunksOf(f) == [] then [] else ["+++ " + f.target] + HunksLines(HunksOf(f), f.trims)
  }

  function DiffLinesOf(fs: seq<GateFile>): seq<string> {
    if fs == [] then [] else FileLines(fs[0]) + DiffLinesOf(fs[1..])
  }

  function PathOf(f: GateFile, json: JsonParse): Option<string> { ReadTarget(Chomp(f.target), json) }

  predicate Quiet(l: string) { '\n' !in l && !StartsWith(l, "+++ ") && !StartsWith(l, "@@") }

  predicate Printable(f: GateFile) {
    (forall l | l in f.extra :: Quiet(l)) && '\n' !in f.target &&
    (forall o | o in f.rows :: '\n' !in o.s) && (forall t | t in f.trims :: '\n' !in t.tail)
  }

  // The ranges of a script are its inserted lines

  /** The range a hunk adds, if it adds any line. */
  function AddedRange(h: ZeroHunk): seq<LineRange> {
    if h.ins == [] then [] else [LineRange(h.newBefore + 1, h.newBefore + |h.ins|)]
  }

  function AddedRanges(hunks: seq<ZeroHunk>): seq<LineRange> {
    if hunks == [] then [] else AddedRange(hunks[0]) + AddedRanges(hunks[1..])
  }

  lemma {:induction false} NewTagsAppend(a: seq<Op>, b: seq<Op>)
    ensures NewTags(a + b) == NewTags(a) + NewTags(b)
  {
    if a == [] {
      assert a + b == b;
    } else {
      assert (a + b)[1..] == a[1..] + b;
      NewTagsAppend(a[1..], b);
    }
  }

  lemma {:induction false} RunTags(rows: seq<Op>)
    requires forall i | 0 <= i < |rows| :: rows[i].tag != Same
    ensures |NewTags(rows)| == |TextsOf(rows, Ins)|
    ensures forall i | 0 <= i < |NewTags(rows)| :: NewTags(rows)[i] == Ins
  {
    if rows != [] {
      RunTags(rows[1..]);
    }
  }

  /** Line `line` of the new file, counted from before, is an inserted one. */
  predicate InsertedFrom(rows: seq<Op>, before: nat, line: int) { InsAt(NewTags(rows), before, line) }

  predicate Covers(ranges: seq<LineRange>, line: int) { IsAddedLine(line, ranges) }

  /** Ascending, disjoint, and never touching: an unchanged line stands between any two. */
  ghost predicate Ascending(ranges: seq<LineRange>, after: int) {
    (forall i | 0 <= i < |ranges| :: after < ranges[i].start <= ranges[i].end) &&
    (forall i, j | 0 <= i < j < |ranges| :: ranges[i].end + 1 < ranges[j].start)
  }

  lemma {:induction false} CoversCons(r: seq<LineRange>, rest: seq<LineRange>, line: int)
    ensures Covers(r + rest, line) <==> Covers(r, line) || Covers(rest, line)
  {
    if Covers(r, line) {
      var i :| 0 <= i < |r| && r[i].start <= line <= r[i].end;
      assert (r + rest)[i] == r[i];
    }
    if Covers(rest, line) {
      var i :| 0 <= i < |rest| && rest[i].start <= line <= rest[i].end;
      assert (r + rest)[|r| + i] == rest[i];
    }
  }

  /** The tag at a line, counted from before, is an insertion. */
  predicate InsAt(tags: seq<Tag>, before: nat, line: int) {
    before < line <= before + |tags| && tags[line - before - 1] == Ins
  }

  lemma {:induction false} InsAtJoin(run: seq<Tag>, rest: seq<Tag>, before: nat, line: int)
    requires forall i | 0 <= i < |run| :: run[i] == Ins
    ensures InsAt(run + rest, before, line) <==> before < line <= before + |run| || InsAt(rest, before + |run|, line)
  {
  }

  lemma {:induction false} RunInsertions(run: seq<Op>, rest: seq<Op>, before: nat, line: int)
    requires forall i | 0 <= i < |run| :: run[i].tag != Same
    ensures InsertedFrom(run + rest, before, line) <==>
      before < line <= before + |TextsOf(run, Ins)| || InsertedFrom(rest, before + |TextsOf(run, Ins)|, line)
  {
    NewTagsAppend(run, rest);
    RunTags(run);
    InsAtJoin(NewTags(run), NewTags(rest), before, line);
  }

  lemma {:induction false} SameInsertions(rows: seq<Op>, before: nat, line: int)
    requires rows != [] && rows[0].tag == Same
    ensures InsertedFrom(rows, before, line) <==> InsertedFrom(rows[1..], before + 1, line)
  {
    assert NewTags(rows)[1..] == NewTags(rows[1..]);
  }

  lemma {:induction false} HunkCovers(h: ZeroHunk, rest: seq<ZeroHunk>, line: int)
    ensures Covers(AddedRanges([h] + rest), line)
       <==> h.newBefore < line <= h.newBefore + |h.ins| || Covers(AddedRanges(rest), line)
  {
    assert ([h] + rest)[1..] == rest;
    CoversCons(AddedRange(h), AddedRanges(rest), line);
    if h.newBefore < line <= h.newBefore + |h.ins| {
      assert AddedRange(h)[0].start <= line <= AddedRange(h)[0].end;
    }
  }

  lemma {:induction false} RangesAreInsertions(rows: seq<Op>, oldBefore: nat, newBefore: nat, line: int)
    ensures Covers(AddedRanges(ZeroHunks(rows, oldBefore, newBefore)), line) <==> InsertedFrom(rows, newBefore, line)
    decreases |rows|
  {
    if rows != [] {
      if rows[0].tag == Same {
        RangesAreInsertions(rows[1..], oldBefore + 1, newBefore + 1, line);
        SameInsertions(rows, newBefore, line);
      } else {
        var n := ChangeRun(rows);
        var run, rest := rows[..n], rows[n..];
        var del, ins := TextsOf(run, Del), TextsOf(run, Ins);
        RangesAreInsertions(rest, oldBefore + |del|, newBefore + |ins|, line);
        assert rows == run + rest;
        RunInsertions(run, rest, newBefore, line);
        var h, more := ZeroHunk(oldBefore, newBefore, del, ins), ZeroHunks(rest, oldBefore + |del|, newBefore + |ins|);
        assert ZeroHunks(rows, oldBefore, newBefore) == [h] + more;
        HunkCovers(h, more, line);
      }
    }
  }

  lemma {:induction false} AscendingCons(r: LineRange, rest: seq<LineRange>, after: int)
    requires after < r.start <= r.end && Ascending(rest, r.end + 1)
    ensures Ascending([r] + rest, after)
  {
    var all := [r] + rest;
    forall i | 0 <= i < |all|
      ensures after < all[i].start <= all[i].end
    {
      assert i > 0 ==> all[i] == rest[i - 1];
    }
    forall i, j | 0 <= i < j < |all|
      ensures all[i].end + 1 < all[j].start
    {
      assert all[j] == rest[j - 1];
      assert i > 0 ==> all[i] == rest[i - 1];
    }
  }

  lemma {:induction false} AscendingFrom(ranges: seq<LineRange>, after: int, earlier: int)
    requires Ascending(ranges, after) && earlier <= after
    ensures Ascending(ranges, earlier)
  {
  }

  lemma {:induction false} AddedCons(h: ZeroHunk, rest: seq<ZeroHunk>)
    ensures AddedRanges([h] + rest) == AddedRange(h) + AddedRanges(rest)
  {
    assert ([h] + rest)[1..] == rest;
  }

  /** What a hunk adds comes before what follows an unchanged line. */
  lemma {:induction false} HunkAscends(h: ZeroHunk, rest: seq<ZeroHunk>)
    requires Ascending(AddedRanges(rest), h.newBefore + |h.ins| + 1)
    ensures Ascending(AddedRanges([h] + rest), h.newBefore)
  {
    var ranges := AddedRanges(rest);
    AddedCons(h, rest);
    if h.ins == [] {
      assert [] + ranges == ranges;
      AscendingFrom(ranges, h.newBefore + 1, h.newBefore);
    } else {
      AscendingCons(LineRange(h.newBefore + 1, h.newBefore + |h.ins|), ranges, h.newBefore);
    }
  }

  lemma {:induction false} NoHunksAscend(oldBefore: nat, newBefore: nat, after: int)
    ensures Ascending(AddedRanges(ZeroHunks([], oldBefore, newBefore)), after)
  {
  }

  function FirstFree(rows: seq<Op>, newBefore: nat): nat {
    if rows != [] && rows[0].tag == Same then newBefore + 1 else newBefore
  }

  /** After a run of changes an unchanged line comes first, or nothing. */
  lemma {:induction false} AfterRun(tail: seq<Op>, oldBefore: nat, newBefore: nat)
    requires tail != [] ==> tail[0].tag == Same
    requires Ascending(AddedRanges(ZeroHunks(tail, oldBefore, newBefore)), FirstFree(tail, newBefore))
    ensures Ascending(AddedRanges(ZeroHunks(tail, oldBefore, newBefore)), newBefore + 1)
  {
    if tail == [] {
      NoHunksAscend(oldBefore, newBefore, newBefore + 1);
    }
  }

  lemma {:induction false} RangesAscend(rows: seq<Op>, oldBefore: nat, newBefore: nat)
    ensures Ascending(AddedRanges(ZeroHunks(rows, oldBefore, newBefore)), FirstFree(rows, newBefore))
    decreases |rows|
  {
    if rows == [] {
      NoHunksAscend(oldBefore, newBefore, newBefore);
    } else if rows[0].tag == Same {
      var tail := rows[1..];
      RangesAscend(tail, oldBefore + 1, newBefore + 1);
      AscendingFrom(AddedRanges(ZeroHunks(tail, oldBefore + 1, newBefore + 1)), FirstFree(tail, newBefore + 1), newBefore + 1);
    } else {
      var n := ChangeRun(rows);
      RangesAscend(rows[n..], oldBefore + |TextsOf(rows[..n], Del)|, newBefore + |TextsOf(rows[..n], Ins)|);
      RunAscends(rows, n, oldBefore, newBefore);
    }
  }

  lemma {:induction false} ZeroHunksOfRun(rows: seq<Op>, n: nat, oldBefore: nat, newBefore: nat)
    requires rows != [] && rows[0].tag != Same && n == ChangeRun(rows)
    ensures var del, ins := TextsOf(rows[..n], Del), TextsOf(rows[..n], Ins);
            ZeroHunks(rows, oldBefore, newBefore) ==
            [ZeroHunk(oldBefore, newBefore, del, ins)] + ZeroHunks(rows[n..], oldBefore + |del|, newBefore + |ins|)
  {
  }

  lemma {:induction false} RunAscends(rows: seq<Op>, n: nat, oldBefore: nat, newBefore: nat)
    requires rows != [] && rows[0].tag != Same && n == ChangeRun(rows)
    requires var o, m := oldBefore + |TextsOf(rows[..n], Del)|, newBefore + |TextsOf(rows[..n], Ins)|;
             Ascending(AddedRanges(ZeroHunks(rows[n..], o, m)), FirstFree(rows[n..], m))
    ensures Ascending(AddedRanges(ZeroHunks(rows, oldBefore, newBefore)), newBefore)
  {
    var del, ins := TextsOf(rows[..n], Del), TextsOf(rows[..n], Ins);
    TailOpensSame(rows, n);
    AfterRun(rows[n..], oldBefore + |del|, newBefore + |ins|);
    HunkAscends(ZeroHunk(oldBefore, newBefore, del, ins), ZeroHunks(rows[n..], oldBefore + |del|, newBefore + |ins|));
    ZeroHunksOfRun(rows, n, oldBefore, newBefore);
  }

  lemma {:induction false} TailOpensSame(rows: seq<Op>, n: nat)
    requires n == ChangeRun(rows)
    ensures rows[n..] != [] ==> rows[n..][0].tag == Same
  {
    assert n < |rows| ==> rows[n..][0] == rows[n];
  }

  // Simulating the gate on printed lines

  lemma {:induction false} ReadAppend(st: State, a: seq<string>, b: seq<string>, json: JsonParse)
    ensures Read(st, a + b, json) == Read(Read(st, a, json), b, json)
    decreases |a|
  {
    if a == [] {
      assert a + b == b;
    } else {
      assert (a + b)[1..] == a[1..] + b;
      ReadAppend(Step(st, a[0], json), a[1..], b, json);
    }
  }

  lemma {:induction false} ReadJoined(st: State, a: seq<string>, b: seq<string>, json: JsonParse)
    ensures Read(st, ChompAll(a + b), json) == Read(Read(st, ChompAll(a), json), ChompAll(b), json)
  {
    ChompConcat(a, b);
    ReadAppend(st, ChompAll(a), ChompAll(b), json);
  }

  lemma {:induction false} ReadOne(st: State, l: string, json: JsonParse)
    ensures Read(st, ChompAll([l]), json) == Step(st, Chomp(l), json)
  {
    assert ChompAll([l]) == [Chomp(l)] && [Chomp(l)][1..] == [];
  }

  lemma {:induction false} QuietRead(st: State, lines: seq<string>, json: JsonParse)
    requires forall i | 0 <= i < |lines| :: !StartsWith(lines[i], "+++ ") && !StartsWith(lines[i], "@@")
    ensures Read(st, lines, json) == st
    decreases |lines|
  {
    if lines != [] {
      QuietRead(Step(st, lines[0], json), lines[1..], json);
    }
  }

  /** The file in force after a hunk's added rows: one that begins with "++ " prints as a path line. */
  function FileAfter(file: Option<string>, ins: seq<string>, json: JsonParse): Option<string>
    decreases |ins|
  {
    if ins == [] then file
    else
      FileAfter(if StartsWith(ins[0], "++ ") then ReadTarget(Chomp(ins[0])[3..], json) else file, ins[1..], json)
  }

  lemma {:induction false} ChompTail(c: char, s: string)
    requires c != '\r'
    ensures Chomp([c] + s) == [c] + Chomp(s)
  {
  }

  lemma {:induction false} AddedRowStep(st: State, s: string, json: JsonParse)
    ensures StartsWith(s, "++ ") ==> StartsWith(Chomp(s), "++ ")
    ensures Step(st, Chomp("+" + s), json)
         == if StartsWith(s, "++ ") then st.(file := ReadTarget(Chomp(s)[3..], json)) else st
  {
    ChompTail('+', s);
    var l, c := Chomp("+" + s), Chomp(s);
    assert l == "+" + c && l[1..] == c;
    NotPrefix(l, "@@");
    assert StartsWith(l, "+++ ") <==> StartsWith(c, "++ ") by {
      assert "+++ " == "+" + "++ ";
      assert "+++ "[1..] == "++ ";
      if StartsWith(l, "+++ ") { assert l[1..][..3] == l[1..4] == "++ "; }
    }
    if StartsWith(c, "++ ") {
      assert l[4..] == c[3..];
    }
  }

  lemma {:induction false} AddedRowsRead(st: State, ins: seq<string>, json: JsonParse)
    ensures Read(st, ChompAll(Prefixed('+', ins)), json) == st.(file := FileAfter(st.file, ins, json))
    decreases |ins|
  {
    if ins != [] {
      var lines := ChompAll(Prefixed('+', ins));
      assert lines[0] == Chomp("+" + ins[0]) && lines[1..] == ChompAll(Prefixed('+', ins[1..]));
      AddedRowStep(st, ins[0], json);
      AddedRowsRead(Step(st, lines[0], json), ins[1..], json);
    }
  }

  lemma {:induction false} MarkIsQuiet(unended: bool)
    ensures ChompAll(Mark(unended)) == Mark(unended)
    ensures forall i | 0 <= i < |Mark(unended)| :: !StartsWith(Mark(unended)[i], "+++ ") && !StartsWith(Mark(unended)[i], "@@")
  {
    NotPrefix(MARKER, "+++ ");
    NotPrefix(MARKER, "@@");
  }

  lemma {:induction false} RemovedRowsRead(st: State, del: seq<string>, unended: bool, json: JsonParse)
    ensures Read(st, ChompAll(Prefixed('-', del) + Mark(unended)), json) == st
  {
    var lines := ChompAll(Prefixed('-', del));
    forall i | 0 <= i < |lines|
      ensures !StartsWith(lines[i], "+++ ") && !StartsWith(lines[i], "@@")
    {
      ChompTail('-', del[i]);
      NotPrefix(lines[i], "+++ ");
      NotPrefix(lines[i], "@@");
    }
    ReadJoined(st, Prefixed('-', del), Mark(unended), json);
    QuietRead(st, lines, json);
    MarkIsQuiet(unended);
    QuietRead(st, Mark(unended), json);
  }

  lemma {:induction false} AddedBlockRead(st: State, ins: seq<string>, unended: bool, json: JsonParse)
    ensures Read(st, ChompAll(Prefixed('+', ins) + Mark(unended)), json) == st.(file := FileAfter(st.file, ins, json))
  {
    ReadJoined(st, Prefixed('+', ins), Mark(unended), json);
    AddedRowsRead(st, ins, json);
    MarkIsQuiet(unended);
    QuietRead(st.(file := FileAfter(st.file, ins, json)), Mark(unended), json);
  }

  function RangeOf(file: Option<string>, h: ZeroHunk): seq<(string, LineRange)> {
    if file == None || h.ins == [] then []
    else [(file.value, LineRange(h.newBefore + 1, h.newBefore + |h.ins|))]
  }

  lemma {:induction false} ChompHead(h: HunkHead)
    ensures Chomp(PrintHunkHead(h)) == PrintHunkHead(h.(tail := Chomp(h.tail)))
  {
    var front := "@@ -" + (PrintRange(h.pre) + (" +" + (PrintRange(h.post) + " @@")));
    assert PrintHunkHead(h) == front + h.tail;
    assert PrintHunkHead(h.(tail := Chomp(h.tail))) == front + Chomp(h.tail);
    assert Last(front) == '@';
    if h.tail != "" {
      assert Butlast(front + h.tail) == front + Butlast(h.tail);
    }
  }

  function HeadOf(h: ZeroHunk, tail: string): HunkHead {
    HunkHead(RangeAfter(h.oldBefore, |h.del|), RangeAfter(h.newBefore, |h.ins|), tail)
  }

  lemma {:induction false} RecordIs(st: State, h: ZeroHunk, tail: string)
    ensures Record(st, Some(HeadOf(h, tail))) == State(st.file, st.log + RangeOf(st.file, h))
  {
    if st.file == None || h.ins == [] {
      assert RangeOf(st.file, h) == [] && st.log + [] == st.log;
    }
  }

  lemma {:induction false} HeadStep(st: State, l: string, h: ZeroHunk, tail: string, json: JsonParse)
    requires StartsWith(l, "@@") && !StartsWith(l, "+++ ") && ReadHunkHead(l) == Some(HeadOf(h, tail))
    ensures Step(st, l, json) == State(st.file, st.log + RangeOf(st.file, h))
  {
    RecordIs(st, h, tail);
  }

  lemma {:induction false} HunkRead(st: State, h: ZeroHunk, t: Trimming, json: JsonParse)
    ensures Read(st, ChompAll(HunkLines(h, t)), json)
         == State(FileAfter(st.file, h.ins, json), st.log + RangeOf(st.file, h))
  {
    var l, del, ins := [PrintHunkHead(HeadOf(h, t.tail))], Prefixed('-', h.del) + Mark(t.oldUnended), Prefixed('+', h.ins) + Mark(t.newUnended);
    ReadJoined(st, l + del, ins, json);
    ReadJoined(st, l, del, json);
    ReadOne(st, l[0], json);
    ChompHead(HeadOf(h, t.tail));
    HunkHeadLine(HeadOf(h, Chomp(t.tail)));
    HeadStep(st, Chomp(l[0]), h, Chomp(t.tail), json);
    var mid := State(st.file, st.log + RangeOf(st.file, h));
    RemovedRowsRead(mid, h.del, t.oldUnended, json);
    AddedBlockRead(mid, h.ins, t.newUnended, json);
  }

  /** The log of a file's hunks, each under the file in force when it is met. */
  function Recorded(file: Option<string>, hunks: seq<ZeroHunk>, json: JsonParse): seq<(string, LineRange)>
    decreases |hunks|
  {
    if hunks == [] then []
    else RangeOf(file, hunks[0]) + Recorded(FileAfter(file, hunks[0].ins, json), hunks[1..], json)
  }

  lemma {:induction false} LogJoin(a: seq<(string, LineRange)>, b: seq<(string, LineRange)>, c: seq<(string, LineRange)>)
    ensures a + b + c == a + (b + c)
  {
  }

  lemma {:induction false} HunksRead(st: State, hunks: seq<ZeroHunk>, trims: seq<Trimming>, json: JsonParse)
    ensures Read(st, ChompAll(HunksLines(hunks, trims)), json).log == st.log + Recorded(st.file, hunks, json)
    decreases |hunks|
  {
    if hunks != [] {
      var first, rest := HunkLines(hunks[0], TrimAt(trims)), HunksLines(hunks[1..], TrimsAfter(trims));
      assert HunksLines(hunks, trims) == first + rest;
      ReadJoined(st, first, rest, json);
      var mid := Read(st, ChompAll(first), json);
      HunkRead(st, hunks[0], TrimAt(trims), json);
      HunksRead(mid, hunks[1..], TrimsAfter(trims), json);
      LogJoin(st.log, RangeOf(st.file, hunks[0]), Recorded(mid.file, hunks[1..], json));
    }
  }

  function RecordedAll(fs: seq<GateFile>, json: JsonParse): seq<(string, LineRange)> {
    if fs == [] then [] else Recorded(PathOf(fs[0], json), HunksOf(fs[0]), json) + RecordedAll(fs[1..], json)
  }

  lemma {:induction false} TargetStep(st: State, target: string, json: JsonParse)
    ensures Step(st, Chomp("+++ " + target), json) == st.(file := ReadTarget(Chomp(target), json))
  {
    if target != "" {
      assert Last("+++ " + target) == Last(target) && Butlast("+++ " + target) == "+++ " + Butlast(target);
    }
    var l := Chomp("+++ " + target);
    assert l == "+++ " + Chomp(target) && l[4..] == Chomp(target);
  }

  lemma {:induction false} ExtraRead(st: State, extra: seq<string>, json: JsonParse)
    requires forall l | l in extra :: Quiet(l)
    ensures Read(st, ChompAll(extra), json) == st
  {
    forall i | 0 <= i < |extra|
      ensures !StartsWith(Chomp(extra[i]), "+++ ") && !StartsWith(Chomp(extra[i]), "@@")
    {
      assert Quiet(extra[i]) && Chomp(extra[i]) <= extra[i];
    }
    QuietRead(st, ChompAll(extra), json);
  }

  lemma {:induction false} FileRead(st: State, f: GateFile, json: JsonParse)
    requires Printable(f)
    ensures Read(st, ChompAll(FileLines(f)), json).log
         == st.log + Recorded(PathOf(f, json), HunksOf(f), json)
  {
    ExtraRead(st, f.extra, json);
    if HunksOf(f) == [] {
      assert FileLines(f) == f.extra;
    } else {
      var head, hunks := ["+++ " + f.target], HunksLines(HunksOf(f), f.trims);
      ReadJoined(st, f.extra, head + hunks, json);
      ReadJoined(st, head, hunks, json);
      ReadOne(st, "+++ " + f.target, json);
      TargetStep(st, f.target, json);
      HunksRead(st.(file := PathOf(f, json)), HunksOf(f), f.trims, json);
    }
  }

  lemma {:induction false} FilesRead(st: State, fs: seq<GateFile>, json: JsonParse)
    requires forall f | f in fs :: Printable(f)
    ensures Read(st, ChompAll(DiffLinesOf(fs)), json).log == st.log + RecordedAll(fs, json)
    decreases |fs|
  {
    if fs != [] {
      var first, rest := FileLines(fs[0]), DiffLinesOf(fs[1..]);
      assert Printable(fs[0]);
      assert DiffLinesOf(fs) == first + rest;
      ReadJoined(st, first, rest, json);
      var mid := Read(st, ChompAll(first), json);
      FileRead(st, fs[0], json);
      FilesRead(mid, fs[1..], json);
      LogJoin(st.log, Recorded(PathOf(fs[0], json), HunksOf(fs[0]), json), RecordedAll(fs[1..], json));
    }
  }

  ghost predicate Unbroken(lines: seq<string>) {
    forall i | 0 <= i < |lines| :: '\n' !in lines[i]
  }

  lemma {:induction false} UnbrokenTexts(rows: seq<Op>, t: Tag)
    requires forall o | o in rows :: '\n' !in o.s
    ensures Unbroken(TextsOf(rows, t))
  {
    if rows != [] {
      assert rows[0] in rows;
      UnbrokenTexts(rows[1..], t);
    }
  }

  lemma {:induction false} UnbrokenJoin(a: seq<string>, b: seq<string>)
    requires Unbroken(a) && Unbroken(b)
    ensures Unbroken(a + b)
  {
  }

  lemma {:induction false} UnbrokenRows(c: char, lines: seq<string>, unended: bool)
    requires Unbroken(lines) && c != '\n'
    ensures Unbroken(Prefixed(c, lines) + Mark(unended))
  {
    assert Unbroken(Prefixed(c, lines));
    assert Unbroken(Mark(unended));
  }

  lemma {:induction false} UnbrokenHead(h: HunkHead)
    requires '\n' !in h.tail
    ensures Unbroken([PrintHunkHead(h)])
  {
    HeadHasNoBreak(h);
  }

  lemma {:induction false} UnbrokenHunk(h: ZeroHunk, t: Trimming)
    requires Unbroken(h.del) && Unbroken(h.ins) && '\n' !in t.tail
    ensures Unbroken(HunkLines(h, t))
  {
    var head, del, ins := [PrintHunkHead(HeadOf(h, t.tail))], Prefixed('-', h.del) + Mark(t.oldUnended), Prefixed('+', h.ins) + Mark(t.newUnended);
    UnbrokenHead(HeadOf(h, t.tail));
    UnbrokenRows('-', h.del, t.oldUnended);
    UnbrokenRows('+', h.ins, t.newUnended);
    UnbrokenJoin(head, del);
    UnbrokenJoin(head + del, ins);
  }

  ghost predicate AllUnbroken(hunks: seq<ZeroHunk>) {
    forall i | 0 <= i < |hunks| :: Unbroken(hunks[i].del) && Unbroken(hunks[i].ins)
  }

  lemma {:induction false} ZeroHunksUnbroken(rows: seq<Op>, oldBefore: nat, newBefore: nat)
    requires forall o | o in rows :: '\n' !in o.s
    ensures AllUnbroken(ZeroHunks(rows, oldBefore, newBefore))
    decreases |rows|
  {
    if rows != [] {
      if rows[0].tag == Same {
        ZeroHunksUnbroken(rows[1..], oldBefore + 1, newBefore + 1);
      } else {
        var n := ChangeRun(rows);
        UnbrokenTexts(rows[..n], Del);
        UnbrokenTexts(rows[..n], Ins);
        ZeroHunksUnbroken(rows[n..], oldBefore + |TextsOf(rows[..n], Del)|, newBefore + |TextsOf(rows[..n], Ins)|);
      }
    }
  }

  lemma {:induction false} UnbrokenHunks(hunks: seq<ZeroHunk>, trims: seq<Trimming>)
    requires AllUnbroken(hunks) && forall t | t in trims :: '\n' !in t.tail
    ensures Unbroken(HunksLines(hunks, trims))
    decreases |hunks|
  {
    if hunks != [] {
      var more := hunks[1..];
      assert forall i | 0 <= i < |more| :: more[i] == hunks[i + 1];
      UnbrokenHunk(hunks[0], TrimAt(trims));
      UnbrokenHunks(more, TrimsAfter(trims));
      UnbrokenJoin(HunkLines(hunks[0], TrimAt(trims)), HunksLines(more, TrimsAfter(trims)));
    }
  }

  lemma {:induction false} UnbrokenDiff(fs: seq<GateFile>)
    requires forall f | f in fs :: Printable(f)
    ensures forall l | l in DiffLinesOf(fs) :: '\n' !in l
  {
    if fs != [] {
      assert Printable(fs[0]);
      ZeroHunksUnbroken(fs[0].rows, 0, 0);
      UnbrokenHunks(HunksOf(fs[0]), fs[0].trims);
      UnbrokenDiff(fs[1..]);
    }
  }

  /** The exact log of any printed diff. */
  lemma {:induction false} LogOfPrinted(fs: seq<GateFile>, json: JsonParse)
    requires forall f | f in fs :: Printable(f)
    ensures LogOf(Unlines(DiffLinesOf(fs)), json) == RecordedAll(fs, json)
  {
    UnbrokenDiff(fs);
    ReadBack(DiffLinesOf(fs));
    var lines, st := ChompAll(DiffLinesOf(fs)), State(None, []);
    FilesRead(st, fs, json);
    ReadAppend(st, lines, [""], json);
    assert [""][1..] == [];
  }

  // When the log is the truth

  /** The file in force is the hunk's own at every hunk that inserts something. */
  predicate Steady(file: Option<string>, hunks: seq<ZeroHunk>, path: string, json: JsonParse)
    decreases |hunks|
  {
    hunks == [] ||
    ((hunks[0].ins == [] || file == Some(path)) &&
     Steady(FileAfter(file, hunks[0].ins, json), hunks[1..], path, json))
  }

  /** A deleted file inserts nothing; any other stays in force throughout its hunks. */
  predicate Truthful(f: GateFile, json: JsonParse) {
    match PathOf(f, json)
    case None => AddedRanges(HunksOf(f)) == []
    case Some(path) => Steady(Some(path), HunksOf(f), path, json)
  }

  lemma {:induction false} NothingRecorded(hunks: seq<ZeroHunk>, json: JsonParse)
    requires AddedRanges(hunks) == []
    ensures Recorded(None, hunks, json) == []
    decreases |hunks|
  {
    if hunks != [] {
      NothingRecorded(hunks[1..], json);
    }
  }

  lemma {:induction false} SteadyRecorded(file: Option<string>, hunks: seq<ZeroHunk>, path: string, p: string, json: JsonParse)
    requires Steady(file, hunks, path, json)
    ensures RangesFor(Recorded(file, hunks, json), p) == if p == path then AddedRanges(hunks) else []
    decreases |hunks|
  {
    if hunks != [] {
      var h, r := hunks[0], RangeOf(file, hunks[0]);
      var next := FileAfter(file, h.ins, json);
      SteadyRecorded(next, hunks[1..], path, p, json);
      RangesForAppend(r, Recorded(next, hunks[1..], json), p);
      assert r != [] ==> r[1..] == [];
    }
  }

  predicate Plain(lines: seq<string>) { forall i | 0 <= i < |lines| :: !StartsWith(lines[i], "++ ") }

  /** Rows that do not begin with "++ " never disturb the file in force. */
  lemma {:induction false} PlainRowsAreSteady(hunks: seq<ZeroHunk>, path: string, json: JsonParse)
    requires forall i | 0 <= i < |hunks| :: Plain(hunks[i].ins)
    ensures Steady(Some(path), hunks, path, json)
    decreases |hunks|
  {
    if hunks != [] {
      PlainRowsKeepFile(Some(path), hunks[0].ins, json);
      PlainRowsAreSteady(hunks[1..], path, json);
    }
  }

  lemma {:induction false} PlainRowsKeepFile(file: Option<string>, ins: seq<string>, json: JsonParse)
    requires Plain(ins)
    ensures FileAfter(file, ins, json) == file
    decreases |ins|
  {
    if ins != [] {
      PlainRowsKeepFile(file, ins[1..], json);
    }
  }

  predicate PlainRows(rows: seq<Op>) { forall o | o in rows :: o.tag == Ins ==> !StartsWith(o.s, "++ ") }

  lemma {:induction false} PlainTexts(rows: seq<Op>)
    requires PlainRows(rows)
    ensures Plain(TextsOf(rows, Ins))
  {
    if rows != [] {
      assert rows[0] in rows;
      PlainTexts(rows[1..]);
    }
  }

  lemma {:induction false} PlainHunks(rows: seq<Op>, oldBefore: nat, newBefore: nat)
    requires PlainRows(rows)
    ensures forall i | 0 <= i < |ZeroHunks(rows, oldBefore, newBefore)| :: Plain(ZeroHunks(rows, oldBefore, newBefore)[i].ins)
    decreases |rows|
  {
    if rows != [] {
      if rows[0].tag == Same {
        PlainHunks(rows[1..], oldBefore + 1, newBefore + 1);
      } else {
        var n := ChangeRun(rows);
        PlainTexts(rows[..n]);
        PlainHunks(rows[n..], oldBefore + |TextsOf(rows[..n], Del)|, newBefore + |TextsOf(rows[..n], Ins)|);
      }
    }
  }

  /** A file whose added lines do not begin with "++ " is truthful, unless it is said to be deleted and adds lines. */
  lemma {:induction false} PlainFilesAreTruthful(f: GateFile, json: JsonParse)
    requires PlainRows(f.rows)
    ensures PathOf(f, json).Some? ==> Truthful(f, json)
  {
    if PathOf(f, json).Some? {
      PlainHunks(f.rows, 0, 0);
      assert forall i | 0 <= i < |HunksOf(f)| :: Plain(HunksOf(f)[i].ins);
      PlainRowsAreSteady(HunksOf(f), PathOf(f, json).value, json);
    }
  }

  ghost predicate DistinctPaths(fs: seq<GateFile>, json: JsonParse) {
    forall i, j | 0 <= i < j < |fs| :: PathOf(fs[i], json) == None || PathOf(fs[i], json) != PathOf(fs[j], json)
  }

  /** The ranges one file's script adds, if the path is that file's. */
  function TrueRanges(f: GateFile, path: string, json: JsonParse): seq<LineRange> {
    if PathOf(f, json) == Some(path) then AddedRanges(HunksOf(f)) else []
  }

  lemma {:induction false} FileRanges(f: GateFile, path: string, json: JsonParse)
    requires Truthful(f, json)
    ensures RangesFor(Recorded(PathOf(f, json), HunksOf(f), json), path) == TrueRanges(f, path, json)
  {
    match PathOf(f, json) {
      case None => NothingRecorded(HunksOf(f), json);
      case Some(own) => SteadyRecorded(Some(own), HunksOf(f), own, path, json);
    }
  }

  function RangesIn(f: GateFile, path: string, json: JsonParse): seq<LineRange> {
    RangesFor(Recorded(PathOf(f, json), HunksOf(f), json), path)
  }

  /** The file records nothing under the path. */
  predicate KeepsOut(f: GateFile, path: string, json: JsonParse) { RangesIn(f, path, json) == [] }

  /** A truthful file keeps out of every path but its own. */
  lemma {:induction false} TruthfulKeepsOut(f: GateFile, path: string, json: JsonParse)
    requires Truthful(f, json) && PathOf(f, json) != Some(path)
    ensures KeepsOut(f, path, json)
  {
    FileRanges(f, path, json);
  }

  /** What each file leaves under a path. */
  function RangesByFile(fs: seq<GateFile>, path: string, json: JsonParse): seq<seq<LineRange>> {
    seq(|fs|, j requires 0 <= j < |fs| => RangesIn(fs[j], path, json))
  }

  lemma {:induction false} RangesAreByFile(fs: seq<GateFile>, path: string, json: JsonParse)
    ensures RangesFor(RecordedAll(fs, json), path) == Flatten(RangesByFile(fs, path, json))
  {
    if fs != [] {
      RangesAreByFile(fs[1..], path, json);
      RangesForAppend(Recorded(PathOf(fs[0], json), HunksOf(fs[0]), json), RecordedAll(fs[1..], json), path);
      assert RangesByFile(fs, path, json)[1..] == RangesByFile(fs[1..], path, json);
    }
  }

  lemma {:induction false} OthersAreEmpty(fs: seq<GateFile>, i: nat, path: string, json: JsonParse)
    requires i < |fs| && forall j | 0 <= j < |fs| && j != i :: KeepsOut(fs[j], path, json)
    ensures forall j | 0 <= j < |fs| && j != i :: RangesByFile(fs, path, json)[j] == []
  {
    var byFile := RangesByFile(fs, path, json);
    forall j | 0 <= j < |fs| && j != i
      ensures byFile[j] == []
    {
      assert KeepsOut(fs[j], path, json);
    }
  }

  lemma {:induction false} OneFileRanges(fs: seq<GateFile>, i: nat, path: string, json: JsonParse)
    requires (forall g | g in fs :: Printable(g)) && i < |fs|
    requires forall j | 0 <= j < |fs| && j != i :: KeepsOut(fs[j], path, json)
    ensures RangesFor(LogOf(Unlines(DiffLinesOf(fs)), json), path) == RangesIn(fs[i], path, json)
  {
    LogOfPrinted(fs, json);
    RangesAreByFile(fs, path, json);
    OthersAreEmpty(fs, i, path, json);
    FlattenOnlyOne(RangesByFile(fs, path, json), i);
  }

  lemma {:induction false} OthersKeepOut(fs: seq<GateFile>, i: nat, path: string, json: JsonParse)
    requires i < |fs| && PathOf(fs[i], json) == Some(path) && DistinctPaths(fs, json)
    requires forall j | 0 <= j < |fs| && j != i :: Truthful(fs[j], json)
    ensures forall j | 0 <= j < |fs| && j != i :: KeepsOut(fs[j], path, json)
  {
    forall j | 0 <= j < |fs| && j != i
      ensures KeepsOut(fs[j], path, json)
    {
      assert PathOf(fs[j], json) != Some(path);
      TruthfulKeepsOut(fs[j], path, json);
    }
  }

  /** What the gate records for a truthful file's path is that file's own ranges. */
  lemma {:induction false} RangesForFile(fs: seq<GateFile>, f: GateFile, path: string, json: JsonParse)
    requires forall g | g in fs :: Printable(g) && Truthful(g, json)
    requires DistinctPaths(fs, json) && f in fs && PathOf(f, json) == Some(path)
    ensures RangesFor(LogOf(Unlines(DiffLinesOf(fs)), json), path) == AddedRanges(HunksOf(f))
  {
    var i :| 0 <= i < |fs| && fs[i] == f;
    OthersKeepOut(fs, i, path, json);
    OneFileRanges(fs, i, path, json);
    FileRanges(f, path, json);
  }

  /** And nothing for a path no file has. */
  lemma {:induction false} RangesForNobody(fs: seq<GateFile>, path: string, json: JsonParse)
    requires forall g | g in fs :: Printable(g) && Truthful(g, json)
    requires forall f | f in fs :: PathOf(f, json) != Some(path)
    ensures RangesFor(LogOf(Unlines(DiffLinesOf(fs)), json), path) == []
  {
    LogOfPrinted(fs, json);
    RangesAreByFile(fs, path, json);
    var byFile := RangesByFile(fs, path, json);
    forall j | 0 <= j < |fs|
      ensures byFile[j] == []
    {
      assert fs[j] in fs;
      TruthfulKeepsOut(fs[j], path, json);
    }
    FlattenNothing(byFile);
  }

  /**
   * The gate blames exactly: on any printed diff of truthful files, a line of
   * a new file is added if and only if the script inserted it, and the ranges
   * ascend without touching.
   */
  lemma {:induction false} GateBlamesExactly(fs: seq<GateFile>, f: GateFile, path: string, line: int, json: JsonParse)
    requires forall g | g in fs :: Printable(g) && Truthful(g, json)
    requires DistinctPaths(fs, json) && f in fs && PathOf(f, json) == Some(path)
    ensures var ranges := RangesFor(LogOf(Unlines(DiffLinesOf(fs)), json), path);
            Ascending(ranges, 0) && (IsAddedLine(line, ranges) <==> Inserted(f.rows, line))
  {
    RangesForFile(fs, f, path, json);
    RangesAscend(f.rows, 0, 0);
    RangesAreInsertions(f.rows, 0, 0, line);
  }

  /** A finding the change answers for: it has no file, or sits on a line some file's script inserted. */
  ghost predicate Answerable(fs: seq<GateFile>, finding: Finding, json: JsonParse) {
    finding.file == None ||
    exists f | f in fs :: PathOf(f, json) == finding.file && Inserted(f.rows, finding.line)
  }

  ghost function AnswerableOf(fs: seq<GateFile>, findings: seq<Finding>, json: JsonParse): seq<Finding> {
    if findings == [] then []
    else (if Answerable(fs, findings[0], json) then [findings[0]] else []) + AnswerableOf(fs, findings[1..], json)
  }

  lemma {:induction false} KeptIsAnswerable(fs: seq<GateFile>, finding: Finding, added: map<string, seq<LineRange>>, json: JsonParse)
    requires forall g | g in fs :: Printable(g) && Truthful(g, json)
    requires DistinctPaths(fs, json) && Groups(added, LogOf(Unlines(DiffLinesOf(fs)), json))
    ensures KeepsFinding(finding, added) <==> Answerable(fs, finding, json)
  {
    if finding.file != None {
      var path, log := finding.file.value, LogOf(Unlines(DiffLinesOf(fs)), json);
      assert GroupsAt(added, log, path);
      if f :| f in fs && PathOf(f, json) == Some(path) {
        GateBlamesExactly(fs, f, path, finding.line, json);
        forall g | g in fs && PathOf(g, json) == Some(path)
          ensures IsAddedLine(finding.line, RangesFor(log, path)) <==> Inserted(g.rows, finding.line)
        {
          GateBlamesExactly(fs, g, path, finding.line, json);
        }
      } else {
        RangesForNobody(fs, path, json);
      }
    }
  }

  /** The gate's answer is exactly the findings the change answers for, in order. */
  lemma {:induction false} SelectionIsExact(fs: seq<GateFile>, findings: seq<Finding>, added: map<string, seq<LineRange>>, json: JsonParse)
    requires forall g | g in fs :: Printable(g) && Truthful(g, json)
    requires DistinctPaths(fs, json) && Groups(added, LogOf(Unlines(DiffLinesOf(fs)), json))
    ensures SelectNewFindings(findings, added) == AnswerableOf(fs, findings, json)
  {
    if findings != [] {
      KeptIsAnswerable(fs, findings[0], added, json);
      SelectionIsExact(fs, findings[1..], added, json);
    }
  }

  // One file: truthfulness is also necessary

  /** What the first hunk leaves under a path: its own range if the path is in force, else nothing. */
  function Left(file: Option<string>, h: ZeroHunk, path: string): seq<LineRange> {
    if file == Some(path) then AddedRange(h) else []
  }

  lemma {:induction false} RecordedCons(file: Option<string>, hunks: seq<ZeroHunk>, path: string, json: JsonParse)
    requires hunks != []
    ensures RangesFor(Recorded(file, hunks, json), path)
         == Left(file, hunks[0], path) + RangesFor(Recorded(FileAfter(file, hunks[0].ins, json), hunks[1..], json), path)
  {
    var r := RangeOf(file, hunks[0]);
    RangesForAppend(r, Recorded(FileAfter(file, hunks[0].ins, json), hunks[1..], json), path);
    assert r != [] ==> r[1..] == [];
  }

  lemma {:induction false} RecordedAreAdded(file: Option<string>, hunks: seq<ZeroHunk>, p: string, line: int, json: JsonParse)
    ensures Covers(RangesFor(Recorded(file, hunks, json), p), line) ==> Covers(AddedRanges(hunks), line)
    decreases |hunks|
  {
    if hunks != [] {
      var next := FileAfter(file, hunks[0].ins, json);
      RecordedAreAdded(next, hunks[1..], p, line, json);
      RecordedCons(file, hunks, p, json);
      CoversCons(Left(file, hunks[0], p), RangesFor(Recorded(next, hunks[1..], json), p), line);
      CoversCons(AddedRange(hunks[0]), AddedRanges(hunks[1..]), line);
    }
  }

  lemma {:induction false} AscendingTail(r: seq<LineRange>, rest: seq<LineRange>, after: int)
    requires Ascending(r + rest, after) && |r| <= 1
    ensures Ascending(rest, if r == [] then after else r[0].end)
  {
    var all := r + rest;
    assert forall i | 0 <= i < |rest| :: rest[i] == all[|r| + i];
    assert r != [] ==> r[0] == all[0];
  }

  lemma {:induction false} FirstOfOwn(own: seq<LineRange>, rest: seq<LineRange>, after: int)
    requires |own| == 1 && Ascending(own + rest, after)
    ensures after < own[0].start <= own[0].end && Covers(own, own[0].start) && Ascending(rest, own[0].end)
  {
    assert (own + rest)[0] == own[0];
    AscendingTail(own, rest, after);
  }

  /** An unsteady script has an inserted line the gate does not record for its path. */
  lemma {:induction false} MissedLine(file: Option<string>, hunks: seq<ZeroHunk>, path: string, after: int, json: JsonParse)
    returns (line: int)
    requires !Steady(file, hunks, path, json) && Ascending(AddedRanges(hunks), after)
    ensures after < line && Covers(AddedRanges(hunks), line)
    ensures !Covers(RangesFor(Recorded(file, hunks, json), path), line)
    decreases |hunks|
  {
    var h, next := hunks[0], FileAfter(file, hunks[0].ins, json);
    var own, rest := AddedRange(h), AddedRanges(hunks[1..]);
    if h.ins == [] {
      AscendingTail(own, rest, after);
      line := MissedLine(next, hunks[1..], path, after, json);
    } else {
      FirstOfOwn(own, rest, after);
      if file != Some(path) {
        line := own[0].start;
        RecordedAreAdded(next, hunks[1..], path, line, json);
        assert !Covers(rest, line);
      } else {
        line := MissedLine(next, hunks[1..], path, own[0].end, json);
        assert !Covers(own, line);
      }
    }
    RecordedCons(file, hunks, path, json);
    CoversCons(Left(file, h, path), RangesFor(Recorded(next, hunks[1..], json), path), line);
    CoversCons(own, rest, line);
  }

  /** The ranges a file's own hunks leave under its path are its insertions if and only if the file is truthful. */
  lemma {:induction false} OwnRangesExact(f: GateFile, path: string, ranges: seq<LineRange>, json: JsonParse)
    requires PathOf(f, json) == Some(path)
    requires ranges == RangesFor(Recorded(Some(path), HunksOf(f), json), path)
    ensures (forall line :: IsAddedLine(line, ranges) <==> Inserted(f.rows, line)) <==> Truthful(f, json)
  {
    if Truthful(f, json) {
      FileRanges(f, path, json);
      forall line
        ensures IsAddedLine(line, ranges) <==> Inserted(f.rows, line)
      {
        RangesAreInsertions(f.rows, 0, 0, line);
      }
    } else {
      RangesAscend(f.rows, 0, 0);
      var line := MissedLine(Some(path), HunksOf(f), path, 0, json);
      RangesAreInsertions(f.rows, 0, 0, line);
      assert !(IsAddedLine(line, ranges) <==> Inserted(f.rows, line));
    }
  }

  /**
   * In a diff of any number of files, where no other file records anything
   * under a file's path, the gate is right on every line of that file if and
   * only if the file is truthful.
   */
  lemma {:induction false} FileExact(fs: seq<GateFile>, i: nat, path: string, json: JsonParse)
    requires (forall g | g in fs :: Printable(g)) && i < |fs| && PathOf(fs[i], json) == Some(path)
    requires forall j | 0 <= j < |fs| && j != i :: KeepsOut(fs[j], path, json)
    ensures (forall line :: IsAddedLine(line, RangesFor(LogOf(Unlines(DiffLinesOf(fs)), json), path))
                        <==> Inserted(fs[i].rows, line))
       <==> Truthful(fs[i], json)
  {
    OneFileRanges(fs, i, path, json);
    OwnRangesExact(fs[i], path, RangesFor(LogOf(Unlines(DiffLinesOf(fs)), json), path), json);
  }

  /** So among truthful files of distinct paths one more is read right on every line if and only if it is truthful too. */
  lemma {:induction false} OneMoreFileExact(fs: seq<GateFile>, i: nat, path: string, json: JsonParse)
    requires (forall g | g in fs :: Printable(g)) && i < |fs| && PathOf(fs[i], json) == Some(path)
    requires DistinctPaths(fs, json) && forall j | 0 <= j < |fs| && j != i :: Truthful(fs[j], json)
    ensures (forall line :: IsAddedLine(line, RangesFor(LogOf(Unlines(DiffLinesOf(fs)), json), path))
                        <==> Inserted(fs[i].rows, line))
       <==> Truthful(fs[i], json)
  {
    OthersKeepOut(fs, i, path, json);
    FileExact(fs, i, path, json);
  }

  lemma {:induction false} TrimmedTab(full: string)
    requires full != "" && !IsSpace(full[0]) && !IsSpace(Last(full))
    ensures Trim(full + "\t") == full && Trim(full) == full
  {
    TrimIsIdentity(full);
    TrimLeftTab(full);
    TrimLeftShortens(full);
    assert TrimLeft(full) == full && Butlast(full + "\t") == full;
  }

  lemma {:induction false} PlainPathIsKept(path: string, json: JsonParse)
    requires path != "" && !IsSpace(Last(path))
    ensures ReadTarget("b/" + Shown(path), json) == Some(path)
  {
    var full := "b/" + path;
    assert Last(full) == Last(path) && full[2..] == path;
    TrimmedTab(full);
    assert "b/" + Shown(path) == if ' ' in path then full + "\t" else full;
    assert UnquotePath(full, json) == full && full != "/dev/null";
  }

  /** A path is read off git's unquoted `b/` line as it is if and only if it does not end in whitespace. */
  lemma {:induction false} PlainPathIsRead(path: string, json: JsonParse)
    requires path != ""
    ensures ReadTarget("b/" + Shown(path), json) == Some(path) <==> !IsSpace(Last(path))
  {
    if IsSpace(Last(path)) {
      SpacedPathIsMisread(path, json);
    } else {
      PlainPathIsKept(path, json);
    }
  }

  lemma {:induction false} SpacedPathIsMisread(path: string, json: JsonParse)
    requires path != "" && IsSpace(Last(path))
    ensures ReadTarget("b/" + Shown(path), json) != Some(path)
  {
    var shown := "b/" + Shown(path);
    TrimLeftShortens(shown);
    TrimRightEnds(shown);
    var target := Trim(shown);
    assert target == TrimRight(shown) && target[0] == 'b' && !IsSpace(Last(target));
    assert UnquotePath(target, json) == target;
    assert StripSide(target) != "" ==> Last(StripSide(target)) == Last(target);
  }

  /**
   * A quoted path is what JSON makes of it, without the side's prefix. Where
   * JSON does not parse it, as with git's octal escapes, it is read as it is
   * written between the quotes: as this path if and only if that is written there.
   */
  lemma {:induction false} QuotedPathIsRead(inner: string, path: string, json: JsonParse)
    ensures var shown := "\"" + inner + "\"";
            (json(shown) == Some("b/" + path) ==> ReadTarget(shown, json) == Some(path)) &&
            (json(shown) == None ==>
               (ReadTarget(shown, json) == Some(path) <==> inner == "b/" + path || (inner == path && !StartsWith(path, "b/"))))
  {
    var shown := "\"" + inner + "\"";
    assert shown[0] == '\"' && Last(shown) == '\"';
    TrimIsIdentity(shown);
    assert Trim(shown) == shown && shown != "/dev/null";
    assert shown[1..|shown| - 1] == inner;
    assert ("b/" + path)[2..] == path;
    assert StartsWith(inner, "b/") ==> inner == "b/" + inner[2..];
  }
}
