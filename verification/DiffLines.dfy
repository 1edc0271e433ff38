/** The lines of git's unified diffs that both readers know: headers and how git prints them. */
module DiffLines {
  import opened Wrappers
  import opened Text

  function Skip(s: string, prefix: string): Option<string> {
    if StartsWith(s, prefix) then Some(s[|prefix|..]) else None
  }

  lemma {:induction false} SkipPrefix(prefix: string, rest: string)
    ensures Skip(prefix + rest, prefix) == Some(rest)
  {
  }

  lemma {:induction false} NotPrefix(l: string, prefix: string)
    requires l == "" || (prefix != "" && l[0] != prefix[0])
    ensures prefix != "" ==> !StartsWith(l, prefix)
  {
  }

  /** A range of one side of a hunk: where it starts and how many lines it holds. */
  datatype Range = Range(start: nat, count: nat)

  /** `(\d+)(?:,(\d+))?`; a range without a count holds one line. */
  function TakeRange(s: string): Option<(Range, string)> {
    match TakeNat(s)
    case None => None
    case Some((start, rest)) =>
      if !StartsWith(rest, ",") then Some((Range(start, 1), rest))
      else match TakeNat(rest[1..])
        case None => None
        case Some((count, tail)) => Some((Range(start, count), tail))
  }

  datatype HunkHead = HunkHead(pre: Range, post: Range, tail: string)

  /** `^@@ -<range> \+<range> @@`, and what follows. */
  function ReadHunkHead(l: string): Option<HunkHead> {
    match Skip(l, "@@ -")
    case None => None
    case Some(a) =>
      match TakeRange(a)
      case None => None
      case Some((pre, b)) =>
        match Skip(b, " +")
        case None => None
        case Some(c) =>
          match TakeRange(c)
          case None => None
          case Some((post, d)) =>
            match Skip(d, " @@")
            case None => None
            case Some(tail) => Some(HunkHead(pre, post, tail))
  }

  /** Git leaves the count out when it is one. */
  function PrintRange(r: Range): string {
    Decimal(r.start) + if r.count == 1 then "" else "," + Decimal(r.count)
  }

  function PrintHunkHead(h: HunkHead): string {
    "@@ -" + (PrintRange(h.pre) + (" +" + (PrintRange(h.post) + (" @@" + h.tail))))
  }

  lemma {:induction false} TakePrintedRange(r: Range, rest: string)
    requires StartsWith(rest, " ")
    ensures TakeRange(PrintRange(r) + rest) == Some((r, rest))
  {
    if r.count == 1 {
      assert PrintRange(r) + rest == Decimal(r.start) + rest;
      TakeDecimal(r.start, rest);
    } else {
      var tail := "," + (Decimal(r.count) + rest);
      assert PrintRange(r) + rest == Decimal(r.start) + tail;
      TakeDecimal(r.start, tail);
      assert tail[1..] == Decimal(r.count) + rest;
      TakeDecimal(r.count, rest);
    }
  }

  lemma {:induction false} ReadPrintedHunkHead(h: HunkHead)
    ensures ReadHunkHead(PrintHunkHead(h)) == Some(h)
  {
    var d := " @@" + h.tail;
    var c := PrintRange(h.post) + d;
    var b := " +" + c;
    var a := PrintRange(h.pre) + b;
    SkipPrefix("@@ -", a);
    TakePrintedRange(h.pre, b);
    SkipPrefix(" +", c);
    TakePrintedRange(h.post, d);
    SkipPrefix(" @@", h.tail);
  }

  lemma {:induction false} HunkHeadLine(h: HunkHead)
    ensures var l := PrintHunkHead(h);
            StartsWith(l, "@@ ") && StartsWith(l, "@@") && !StartsWith(l, "+++ ") && ReadHunkHead(l) == Some(h)
  {
    ReadPrintedHunkHead(h);
    NotPrefix(PrintHunkHead(h), "+++ ");
  }

  lemma {:induction false} NoBreakJoin(a: string, b: string)
    requires '\n' !in a && '\n' !in b
    ensures '\n' !in a + b
  {
  }

  lemma {:induction false} RangeHasNoBreak(r: Range)
    ensures '\n' !in PrintRange(r)
  {
    NoBreakJoin(",", Decimal(r.count));
    NoBreakJoin(Decimal(r.start), if r.count == 1 then "" else "," + Decimal(r.count));
  }

  lemma {:induction false} HeadHasNoBreak(h: HunkHead)
    requires '\n' !in h.tail
    ensures '\n' !in PrintHunkHead(h)
  {
    var d := " @@" + h.tail;
    var c := PrintRange(h.post) + d;
    var b := " +" + c;
    var a := PrintRange(h.pre) + b;
    RangeHasNoBreak(h.pre);
    RangeHasNoBreak(h.post);
    NoBreakJoin(" @@", h.tail);
    NoBreakJoin(PrintRange(h.post), d);
    NoBreakJoin(" +", c);
    NoBreakJoin(PrintRange(h.pre), b);
    NoBreakJoin("@@ -", a);
  }

  /** What git prints after a row that ends its side without a newline. */
  const MARKER := "\\ No newline at end of file"

  /** Git ends a path that holds a space with a tab. */
  function Shown(path: string): string {
    if ' ' in path then path + "\t" else path
  }

  lemma {:induction false} TrimLeftTab(s: string)
    ensures TrimLeft(s + "\t") == if TrimLeft(s) == "" then "" else TrimLeft(s) + "\t"
  {
    if s == "" {
      assert "" + "\t" == "\t" && TrimLeft("\t") == TrimLeft("");
    } else if IsSpace(s[0]) {
      assert (s + "\t")[1..] == s[1..] + "\t";
      TrimLeftTab(s[1..]);
    }
  }

  lemma {:induction false} TrimTab(s: string)
    ensures Trim(s + "\t") == Trim(s)
  {
    TrimLeftTab(s);
    var t := TrimLeft(s);
    assert t != "" ==> Butlast(t + "\t") == t;
  }

  lemma {:induction false} TrimShown(path: string)
    ensures Trim(Shown(path)) == Trim(path)
  {
    TrimTab(path);
  }
}
