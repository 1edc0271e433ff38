/** The changed-lines gate: which lines a `git diff --unified=0` adds, and which findings they answer for. */
module ChangedLines {
  import opened Wrappers
  import opened Text
  import opened EditScripts
  import opened DiffLines

  /** A stretch of a new file, both its first and its last line counted, from line 1. */
  datatype LineRange = LineRange(start: int, end: int)

  datatype Finding = Finding(file: Option<string>, line: int, code: string, message: string)

  /** JSON.parse on a string literal: what it denotes, or nothing when it does not parse. */
  type JsonParse = string -> Option<string>

  function UnquotePath(raw: string, json: JsonParse): string {
    if !StartsWith(raw, "\"") then raw
    else match json(raw)
      case Some(path) => path
      case None => if |raw| < 2 then "" else raw[1..|raw| - 1]
  }

  function StripSide(path: string): string { if StartsWith(path, "b/") then path[2..] else path }

  /** The post-image path a `+++ ` line names; none for a deleted file. */
  function ReadTarget(shown: string, json: JsonParse): Option<string> {
    var target := Trim(shown);
    if target == "/dev/null" then None else Some(StripSide(UnquotePath(target, json)))
  }

  /** The file in force, and every range recorded so far under the file it was recorded for. */
  datatype State = State(file: Option<string>, log: seq<(string, LineRange)>)

  function Step(st: State, line: string, json: JsonParse): State {
    if StartsWith(line, "+++ ") then st.(file := ReadTarget(line[4..], json))
    else if !StartsWith(line, "@@") then st
    else Record(st, ReadHunkHead(line))
  }

  /** A hunk that adds lines, under the file in force. */
  function Record(st: State, head: Option<HunkHead>): State {
    if st.file == None || head == None || head.value.post.count == 0 then st
    else
      var post := head.value.post;
      st.(log := st.log + [(st.file.value, LineRange(post.start, post.start + post.count - 1))])
  }

  function Read(st: State, lines: seq<string>, json: JsonParse): State
    decreases |lines|
  {
    if lines == [] then st else Read(Step(st, lines[0], json), lines[1..], json)
  }

  /** The ranges recorded for one file, in order. */
  function RangesFor(log: seq<(string, LineRange)>, file: string): seq<LineRange> {
    if log == [] then []
    else (if log[0].0 == file then [log[0].1] else []) + RangesFor(log[1..], file)
  }

  function LogOf(diff: string, json: JsonParse): seq<(string, LineRange)> {
    Read(State(None, []), Lines(Unixed(diff)), json).log
  }

  lemma {:induction false} RangesForAppend(a: seq<(string, LineRange)>, b: seq<(string, LineRange)>, file: string)
    ensures RangesFor(a + b, file) == RangesFor(a, file) + RangesFor(b, file)
  {
    if a == [] {
      assert a + b == b;
    } else {
      var first := if a[0].0 == file then [a[0].1] else [];
      assert (a + b)[1..] == a[1..] + b;
      RangesForAppend(a[1..], b, file);
      Regroup(first, RangesFor(a[1..], file), RangesFor(b, file));
    }
  }

  ghost predicate GroupsAt(byFile: map<string, seq<LineRange>>, log: seq<(string, LineRange)>, file: string) {
    (file in byFile <==> RangesFor(log, file) != []) && (file in byFile ==> byFile[file] == RangesFor(log, file))
  }

  /** The map holds the ranges of the log, file by file, and a key only for a file that has some. */
  ghost predicate Groups(byFile: map<string, seq<LineRange>>, log: seq<(string, LineRange)>) {
    forall file :: GroupsAt(byFile, log, file)
  }

  lemma {:induction false} GroupsPush(byFile: map<string, seq<LineRange>>, log: seq<(string, LineRange)>, file: string, r: LineRange)
    requires Groups(byFile, log)
    ensures Groups(byFile[file := (if file in byFile then byFile[file] else []) + [r]], log + [(file, r)])
  {
    var grown := byFile[file := (if file in byFile then byFile[file] else []) + [r]];
    var longer := log + [(file, r)];
    forall f
      ensures GroupsAt(grown, longer, f)
    {
      assert GroupsAt(byFile, log, f);
      RangesForAppend(log, [(file, r)], f);
      assert RangesFor([(file, r)][1..], f) == [];
    }
  }

  /** The gate's diff reader. */
  method ParseAddedLines(diff: string, json: JsonParse) returns (byFile: map<string, seq<LineRange>>)
    ensures Groups(byFile, LogOf(diff, json))
  {
    var lines := Lines(Unixed(diff));
    var file: Option<string> := None;
    ghost var log := [];
    byFile := map[];
    for i := 0 to |lines|
      invariant Groups(byFile, log)
      invariant Read(State(file, log), lines[i..], json) == Read(State(None, []), lines, json)
    {
      var line := lines[i];
      assert lines[i..][0] == line && lines[i..][1..] == lines[i + 1..];
      if StartsWith(line, "+++ ") {
        file := ReadTarget(line[4..], json);
        continue;
      }
      if !StartsWith(line, "@@") || file == None { continue; }
      var hunk := ReadHunkHead(line);
      if hunk == None { continue; }
      var start, count := hunk.value.post.start, hunk.value.post.count;
      if count <= 0 { continue; }
      var r := LineRange(start, start + count - 1);
      GroupsPush(byFile, log, file.value, r);
      var ranges := if file.value in byFile then byFile[file.value] else [];
      byFile := byFile[file.value := ranges + [r]];
      log := log + [(file.value, r)];
    }
    assert lines[0..] == lines;
  }

  /** Some range covers the line. */
  predicate IsAddedLine(line: int, ranges: seq<LineRange>) {
    exists i | 0 <= i < |ranges| :: ranges[i].start <= line <= ranges[i].end
  }

  predicate KeepsFinding(f: Finding, added: map<string, seq<LineRange>>) {
    f.file == None || (f.file.value in added && IsAddedLine(f.line, added[f.file.value]))
  }

  function SelectNewFindings(findings: seq<Finding>, added: map<string, seq<LineRange>>): seq<Finding> {
    if findings == [] then []
    else (if KeepsFinding(findings[0], added) then [findings[0]] else []) + SelectNewFindings(findings[1..], added)
  }
}
