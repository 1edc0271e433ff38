/**
 * Text as the scripts see it: JavaScript's character classes, trimming, lines,
 * and decimal numbers. A char stands for one unit of a JavaScript string.
 */
module Text {
  import opened Wrappers

  /** `\s`. */
  predicate IsSpace(c: char) {
    || '\t' <= c <= '\r' || c == ' ' || c == '\U{0000A0}' || c == '\U{001680}'
    || '\U{002000}' <= c <= '\U{00200A}' || c == '\U{002028}' || c == '\U{002029}'
    || c == '\U{00202F}' || c == '\U{00205F}' || c == '\U{003000}' || c == '\U{00FEFF}'
  }

  /** What `.` does not match. */
  predicate IsTerminator(c: char) {
    c == '\n' || c == '\r' || c == '\U{002028}' || c == '\U{002029}'
  }

  predicate OneLine(s: string) {
    forall i | 0 <= i < |s| :: !IsTerminator(s[i])
  }

  predicate IsDigit(c: char) { '0' <= c <= '9' }

  /** `[A-Za-z0-9_]`. */
  predicate IsWordChar(c: char) {
    'A' <= c <= 'Z' || 'a' <= c <= 'z' || IsDigit(c) || c == '_'
  }

  predicate StartsWith(s: string, prefix: string) { prefix <= s }

  function TrimLeft(s: string): string {
    if s != "" && IsSpace(s[0]) then TrimLeft(s[1..]) else s
  }

  function TrimRight(s: string): string {
    if s != "" && IsSpace(Last(s)) then TrimRight(Butlast(s)) else s
  }

  function Trim(s: string): string { TrimRight(TrimLeft(s)) }

  /** No whitespace at either end. */
  predicate Trimmed(s: string) {
    s == "" || (!IsSpace(s[0]) && !IsSpace(Last(s)))
  }

  lemma {:induction false} TrimRightShortens(s: string)
    ensures TrimRight(s) == s <==> s == "" || !IsSpace(Last(s))
    ensures |TrimRight(s)| <= |s|
  {
    if s != "" && IsSpace(Last(s)) {
      TrimRightShortens(Butlast(s));
    }
  }

  /** Trimming leaves no whitespace at the end, and takes no other opening character. */
  lemma {:induction false} TrimRightEnds(s: string)
    ensures TrimRight(s) == "" || !IsSpace(Last(TrimRight(s)))
    ensures s != "" && !IsSpace(s[0]) ==> TrimRight(s) != "" && TrimRight(s)[0] == s[0]
  {
    if s != "" && IsSpace(Last(s)) {
      TrimRightEnds(Butlast(s));
    }
  }

  lemma {:induction false} TrimLeftShortens(s: string)
    ensures TrimLeft(s) == s <==> s == "" || !IsSpace(s[0])
    ensures TrimLeft(s) == s || |TrimLeft(s)| < |s|
  {
    if s != "" && IsSpace(s[0]) {
      TrimLeftShortens(s[1..]);
    }
  }

  lemma {:induction false} TrimIsIdentity(s: string)
    ensures Trim(s) == s <==> Trimmed(s)
  {
    TrimLeftShortens(s);
    TrimRightShortens(TrimLeft(s));
    if TrimLeft(s) == s {
      TrimRightShortens(s);
    }
  }

  /** However a text is a trimmed core between whitespace, trimming gives the core. */
  lemma {:induction false} TrimGivesTheCore(lead: string, core: string, tail: string)
    requires Trimmed(core) && (forall c | c in lead :: IsSpace(c)) && forall c | c in tail :: IsSpace(c)
    ensures Trim(lead + (core + tail)) == core
  {
    if lead != "" {
      assert lead[0] in lead && (lead + (core + tail))[1..] == lead[1..] + (core + tail);
      TrimGivesTheCore(lead[1..], core, tail);
    } else {
      assert lead + (core + tail) == core + tail;
      if tail != "" {
        assert Last(tail) in tail && core + tail == core + Butlast(tail) + [Last(tail)];
        TrimGivesTheCore("", core, Butlast(tail));
        assert "" + (core + Butlast(tail)) == core + Butlast(tail);
        TrimSpace(core + Butlast(tail), Last(tail));
      } else {
        assert core + tail == core;
        TrimIsIdentity(core);
      }
    }
  }

  lemma {:induction false} TrimSpace(s: string, c: char)
    requires IsSpace(c)
    ensures Trim(s + [c]) == Trim(s)
  {
    if s == "" {
      assert s + [c] == [c] && [c][1..] == "";
    } else if IsSpace(s[0]) {
      assert (s + [c])[1..] == s[1..] + [c];
      TrimSpace(s[1..], c);
    } else {
      assert TrimLeft(s + [c]) == s + [c] && Butlast(s + [c]) == s;
    }
  }

  // Lines

  /** `split("\n")`: never empty. */
  function Lines(s: string): (r: seq<string>)
    ensures r != []
  {
    if s == "" then [""]
    else if s[0] == '\n' then [""] + Lines(s[1..])
    else var rest := Lines(s[1..]); [[s[0]] + rest[0]] + rest[1..]
  }

  /** Lines with a newline between every two. */
  function Joined(lines: seq<string>): string
    requires lines != []
  {
    if |lines| == 1 then lines[0] else lines[0] + "\n" + Joined(lines[1..])
  }

  /** Splitting loses nothing, and leaves no newline inside a line. */
  lemma {:induction false} LinesAreTheCut(s: string)
    ensures Joined(Lines(s)) == s && forall l | l in Lines(s) :: '\n' !in l
  {
    if s != "" {
      var c, rest := s[0], Lines(s[1..]);
      LinesAreTheCut(s[1..]);
      if c == '\n' {
        assert ([""] + rest)[1..] == rest;
        assert "" + "\n" + Joined(rest) == s;
      } else {
        var all := [[c] + rest[0]] + rest[1..];
        assert all[1..] == rest[1..];
        assert Joined(all) == [c] + Joined(rest);
      }
    }
  }

  /** Every line with its newline. */
  function Unlines(lines: seq<string>): string {
    if lines == [] then "" else lines[0] + "\n" + Unlines(lines[1..])
  }

  lemma {:induction false} LinesPrefix(line: string, rest: string)
    requires '\n' !in line
    ensures Lines(line + "\n" + rest) == [line] + Lines(rest)
  {
    var s := line + "\n" + rest;
    if line == "" {
      assert s[1..] == rest;
    } else {
      assert s[1..] == line[1..] + "\n" + rest;
      LinesPrefix(line[1..], rest);
      assert line[0] in line && [line[0]] + line[1..] == line;
    }
  }

  /** Splitting undoes printing, with one empty line after the last newline. */
  lemma {:induction false} LinesOfUnlines(lines: seq<string>)
    requires forall l | l in lines :: '\n' !in l
    ensures Lines(Unlines(lines)) == lines + [""]
  {
    if lines != [] {
      LinesOfUnlines(lines[1..]);
      LinesPrefix(lines[0], Unlines(lines[1..]));
    }
  }

  /** `replace(/\r\n/g, "\n")`. */
  function Unixed(s: string): string {
    if s == "" then ""
    else if |s| >= 2 && s[0] == '\r' && s[1] == '\n' then "\n" + Unixed(s[2..])
    else [s[0]] + Unixed(s[1..])
  }

  /** A line without the one carriage return that would end it. */
  function Chomp(line: string): string {
    if line != "" && Last(line) == '\r' then Butlast(line) else line
  }

  lemma {:induction false} ChompCons(c: char, line: string)
    requires line != ""
    ensures Chomp([c] + line) == [c] + Chomp(line)
  {
  }

  lemma {:induction false} UnixedLine(line: string, rest: string)
    requires '\n' !in line
    ensures Unixed(line + "\n" + rest) == Chomp(line) + "\n" + Unixed(rest)
  {
    var s := line + "\n" + rest;
    if line == "" {
      assert s[1..] == rest;
    } else if line == "\r" {
      assert s[2..] == rest;
    } else {
      var tail := line[1..] + "\n" + rest;
      assert s == [line[0]] + tail && s[1..] == tail;
      assert s[1] != '\n' || s[0] != '\r';
      UnixedLine(line[1..], rest);
      assert Unixed(s) == [line[0]] + Unixed(tail);
      if |line| > 1 {
        ChompCons(line[0], line[1..]);
        assert [line[0]] + line[1..] == line;
      }
      assert Chomp(line) == [line[0]] + Chomp(line[1..]);
    }
  }

  function ChompAll(lines: seq<string>): (r: seq<string>)
    ensures |r| == |lines| && forall i | 0 <= i < |r| :: r[i] == Chomp(lines[i])
  {
    if lines == [] then [] else [Chomp(lines[0])] + ChompAll(lines[1..])
  }

  lemma {:induction false} ChompConcat(a: seq<string>, b: seq<string>)
    ensures ChompAll(a + b) == ChompAll(a) + ChompAll(b)
  {
    if a == [] {
      assert a + b == b;
    } else {
      assert (a + b)[1..] == a[1..] + b;
      ChompConcat(a[1..], b);
      Regroup([Chomp(a[0])], ChompAll(a[1..]), ChompAll(b));
    }
  }

  lemma {:induction false} UnixedUnlines(lines: seq<string>)
    requires forall l | l in lines :: '\n' !in l
    ensures Unixed(Unlines(lines)) == Unlines(ChompAll(lines))
  {
    if lines != [] {
      UnixedUnlines(lines[1..]);
      UnixedLine(lines[0], Unlines(lines[1..]));
    }
  }

  lemma {:induction false} ChompedAreLines(lines: seq<string>)
    requires forall l | l in lines :: '\n' !in l
    ensures forall l | l in ChompAll(lines) :: '\n' !in l
  {
    if lines != [] {
      ChompedAreLines(lines[1..]);
      assert lines[0] in lines;
    }
  }

  /** What a reader that forgives CRLF sees of printed lines. */
  lemma {:induction false} ReadBack(lines: seq<string>)
    requires forall l | l in lines :: '\n' !in l
    ensures Lines(Unixed(Unlines(lines))) == ChompAll(lines) + [""]
  {
    UnixedUnlines(lines);
    ChompedAreLines(lines);
    LinesOfUnlines(ChompAll(lines));
  }

  // Numbers

  function Digit(n: nat): char
    requires n < 10
  {
    ('0' as int + n) as char
  }

  function Value(c: char): nat
    requires IsDigit(c)
  {
    c as int - '0' as int
  }

  /** The decimal print of a natural number. */
  function Decimal(n: nat): (r: string)
    ensures r != "" && forall i | 0 <= i < |r| :: IsDigit(r[i])
  {
    if n < 10 then [Digit(n)] else Decimal(n / 10) + [Digit(n % 10)]
  }

  /** Reading digits left to right. */
  function ReadNat(s: string): nat
    requires forall i | 0 <= i < |s| :: IsDigit(s[i])
  {
    if s == "" then 0 else 10 * ReadNat(Butlast(s)) + Value(Last(s))
  }

  lemma {:induction false} ReadDecimal(n: nat)
    ensures ReadNat(Decimal(n)) == n
  {
    if n < 10 {
      assert Butlast([Digit(n)]) == "";
    } else {
      ReadDecimal(n / 10);
      assert Butlast(Decimal(n)) == Decimal(n / 10);
    }
  }

  /** How many digits s opens with. */
  function DigitRun(s: string): (n: nat)
    ensures n <= |s| && forall i | 0 <= i < n :: IsDigit(s[i])
    ensures n < |s| ==> !IsDigit(s[n])
  {
    if s != "" && IsDigit(s[0]) then 1 + DigitRun(s[1..]) else 0
  }

  /** `(\d+)` and what follows it. */
  function TakeNat(s: string): (r: Option<(nat, string)>)
    ensures r.Some? ==> |r.value.1| < |s|
  {
    var n := DigitRun(s);
    if n == 0 then None else Some((ReadNat(s[..n]), s[n..]))
  }

  lemma {:induction false} TakeDecimal(n: nat, rest: string)
    requires rest == "" || !IsDigit(rest[0])
    ensures TakeNat(Decimal(n) + rest) == Some((n, rest))
  {
    var d := Decimal(n);
    var s := d + rest;
    var k := DigitRun(s);
    assert forall i | 0 <= i < |d| :: s[i] == d[i];
    assert |d| < |s| ==> s[|d|] == rest[0];
    assert k == |d|;
    assert s[..k] == Decimal(n) && s[k..] == rest;
    ReadDecimal(n);
  }
}
