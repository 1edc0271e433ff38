/**
 * The decision kit's differ: a table of common-subsequence lengths filled from
 * the end, then one walk from the start.
 */
module SeqDiff {
  import opened Wrappers
  import opened EditScripts

  newtype Uint32 = x: int | 0 <= x < 0x1_0000_0000

  /** Above this many cells the lists are not compared at all. */
  const MAX_CELLS := 6_000_000

  /** The table's entry (i, j), by the recurrence the fill uses. */
  function Lcs(a: seq<string>, b: seq<string>, i: nat, j: nat): (r: nat)
    requires i <= |a| && j <= |b|
    ensures r <= |a| - i && r <= |b| - j
    decreases |a| - i + |b| - j
  {
    if i == |a| || j == |b| then 0
    else if a[i] == b[j] then 1 + Lcs(a, b, i + 1, j + 1)
    else Max(Lcs(a, b, i + 1, j), Lcs(a, b, i, j + 1))
  }

  /** No common subsequence is longer than the table says. */
  lemma {:induction false} LcsBounds(a: seq<string>, b: seq<string>, i: nat, j: nat, c: seq<string>)
    requires i <= |a| && j <= |b|
    requires Subsequence(c, a[i..]) && Subsequence(c, b[j..])
    ensures |c| <= Lcs(a, b, i, j)
    decreases |a| - i + |b| - j
  {
    if c != [] {
      assert a[i..][1..] == a[i + 1..] && b[j..][1..] == b[j + 1..];
      if a[i] == b[j] {
        SubsequenceTail(c, a[i..]);
        SubsequenceTail(c, b[j..]);
        LcsBounds(a, b, i + 1, j + 1, c[1..]);
      } else if c[0] == a[i] {
        LcsBounds(a, b, i, j + 1, c);
      } else {
        LcsBounds(a, b, i + 1, j, c);
      }
    }
  }

  /** The walk from (i, j): match when equal, else delete unless inserting keeps strictly more. */
  function Walk(a: seq<string>, b: seq<string>, i: nat, j: nat): seq<Op>
    requires i <= |a| && j <= |b|
    decreases |a| - i + |b| - j
  {
    if i < |a| && j < |b| then
      if a[i] == b[j] then [Op(Same, a[i])] + Walk(a, b, i + 1, j + 1)
      else if Lcs(a, b, i + 1, j) >= Lcs(a, b, i, j + 1) then [Op(Del, a[i])] + Walk(a, b, i + 1, j)
      else [Op(Ins, b[j])] + Walk(a, b, i, j + 1)
    else if i < |a| then [Op(Del, a[i])] + Walk(a, b, i + 1, j)
    else if j < |b| then [Op(Ins, b[j])] + Walk(a, b, i, j + 1)
    else []
  }

  /** The walk turns the one list into the other and keeps as many items as the table promises. */
  lemma {:induction false} WalkMeaning(a: seq<string>, b: seq<string>, i: nat, j: nat)
    requires i <= |a| && j <= |b|
    ensures Turns(Walk(a, b, i, j), a[i..], b[j..])
    ensures |Kept(Walk(a, b, i, j))| == Lcs(a, b, i, j)
    decreases |a| - i + |b| - j
  {
    var w := Walk(a, b, i, j);
    if w != [] {
      match w[0].tag {
        case Same => WalkMeaning(a, b, i + 1, j + 1);
        case Del => WalkMeaning(a, b, i + 1, j);
        case Ins => WalkMeaning(a, b, i, j + 1);
      }
    }
  }

  /**
   * Optimality: the walk keeps a longest common subsequence, so no script at
   * all between the two lists deletes and inserts fewer items.
   */
  lemma {:induction false} WalkIsOptimal(a: seq<string>, b: seq<string>)
    ensures Turns(Walk(a, b, 0, 0), a, b)
    ensures Subsequence(Kept(Walk(a, b, 0, 0)), a) && Subsequence(Kept(Walk(a, b, 0, 0)), b)
    ensures forall c | Subsequence(c, a) && Subsequence(c, b) :: |c| <= |Kept(Walk(a, b, 0, 0))|
    ensures forall ops | Turns(ops, a, b) :: Edits(Walk(a, b, 0, 0)) <= Edits(ops)
  {
    var w := Walk(a, b, 0, 0);
    WalkMeaning(a, b, 0, 0);
    assert a[0..] == a && b[0..] == b;
    KeptIsCommon(w);
    forall c | Subsequence(c, a) && Subsequence(c, b)
      ensures |c| <= |Kept(w)|
    {
      LcsBounds(a, b, 0, 0, c);
    }
    forall ops | Turns(ops, a, b)
      ensures Edits(w) <= Edits(ops)
    {
      KeptIsCommon(ops);
    }
  }

  /** Ties go to matching, then to deleting. */
  function Rank(t: Tag): nat { match t case Same => 0 case Del => 1 case Ins => 2 }

  /** The one script comes no later than the other, tag by tag. */
  predicate NoLater(x: seq<Op>, y: seq<Op>)
    decreases |x|
  {
    x == [] ||
    (y != [] && (Rank(x[0].tag) < Rank(y[0].tag) || (x[0].tag == y[0].tag && NoLater(x[1..], y[1..]))))
  }

  /** Each first op of a script takes its item off the list or lists it belongs to. */
  lemma {:induction false} FirstOpTakes(ops: seq<Op>, a: seq<string>, b: seq<string>)
    requires ops != [] && Turns(ops, a, b)
    ensures ops[0].tag != Ins ==> a != [] && a[0] == ops[0].s
    ensures ops[0].tag != Del ==> b != [] && b[0] == ops[0].s
    ensures Turns(ops[1..], if ops[0].tag == Ins then a else a[1..], if ops[0].tag == Del then b else b[1..])
  {
  }

  /** Among all the shortest scripts the walk is the first: it matches as soon as any does, else deletes as soon as any does. */
  lemma {:induction false} WalkIsFirst(a: seq<string>, b: seq<string>, i: nat, j: nat, ops: seq<Op>)
    requires i <= |a| && j <= |b| && Turns(ops, a[i..], b[j..]) && Edits(ops) <= Edits(Walk(a, b, i, j))
    ensures NoLater(Walk(a, b, i, j), ops)
    decreases |ops|
  {
    var w := Walk(a, b, i, j);
    if ops == [] {
      assert w == [];
    } else {
      FirstOpTakes(ops, a[i..], b[j..]);
      assert w != [];
      match ops[0].tag {
        case Same =>
          assert a[i..][1..] == a[i + 1..] && b[j..][1..] == b[j + 1..];
          assert w == [Op(Same, a[i])] + Walk(a, b, i + 1, j + 1);
          WalkIsFirst(a, b, i + 1, j + 1, ops[1..]);
        case Del =>
          assert a[i..][1..] == a[i + 1..];
          if w[0].tag == Del {
            assert w == [w[0]] + Walk(a, b, i + 1, j);
            WalkIsFirst(a, b, i + 1, j, ops[1..]);
          } else if w[0].tag == Ins {
            InsertingWasShorter(a, b, i, j, ops);
          }
        case Ins =>
          assert b[j..][1..] == b[j + 1..];
          if w[0].tag == Ins {
            assert w == [w[0]] + Walk(a, b, i, j + 1);
            WalkIsFirst(a, b, i, j + 1, ops[1..]);
          }
      }
    }
  }

  /** Where the walk inserts, no script that deletes first is as short. */
  lemma {:induction false} InsertingWasShorter(a: seq<string>, b: seq<string>, i: nat, j: nat, ops: seq<Op>)
    requires i < |a| && j <= |b| && ops != [] && ops[0].tag == Del && Turns(ops[1..], a[i + 1..], b[j..])
    requires Walk(a, b, i, j) != [] && Walk(a, b, i, j)[0].tag == Ins
    ensures Edits(ops) > Edits(Walk(a, b, i, j))
  {
    WalkMeaning(a, b, i, j);
    KeptIsCommon(Walk(a, b, i, j));
    KeptIsCommon(ops[1..]);
    LcsBounds(a, b, i + 1, j, Kept(ops[1..]));
    assert Lcs(a, b, i, j) == Lcs(a, b, i, j + 1) > Lcs(a, b, i + 1, j);
  }

  /** Adds one op; when joining, a neighbour of the same tag takes the text instead. */
  function Push(ops: seq<Op>, o: Op, join: bool): seq<Op> {
    if join && ops != [] && Last(ops).tag == o.tag
    then Butlast(ops) + [Op(o.tag, Last(ops).s + o.s)]
    else ops + [o]
  }

  function PushAll(ops: seq<Op>, more: seq<Op>, join: bool): seq<Op>
    decreases |more|
  {
    if more == [] then ops else PushAll(Push(ops, more[0], join), more[1..], join)
  }

  lemma {:induction false} PushAllPlain(ops: seq<Op>, more: seq<Op>)
    ensures PushAll(ops, more, false) == ops + more
    decreases |more|
  {
    if more == [] {
      assert ops + more == ops;
    } else {
      PushAllPlain(ops + [more[0]], more[1..]);
      assert ops + more == ops + [more[0]] + more[1..];
    }
  }

  predicate TooLarge(a: seq<string>, b: seq<string>) {
    |a| * |b| > MAX_CELLS
  }

  /** What the differ answers: nothing when the table would be too large. */
  function Script(a: seq<string>, b: seq<string>, join: bool): Option<seq<Op>> {
    if TooLarge(a, b) then None else Some(PushAll([], Walk(a, b, 0, 0), join))
  }

  /** What the differ answers is a correct script, no correct script is shorter, and of those as short it is the first. */
  lemma {:induction false} ScriptIsOptimal(a: seq<string>, b: seq<string>)
    requires Script(a, b, false).Some?
    ensures Turns(Script(a, b, false).value, a, b)
    ensures forall ops | Turns(ops, a, b) :: Edits(Script(a, b, false).value) <= Edits(ops)
    ensures forall ops | Turns(ops, a, b) && Edits(ops) == Edits(Script(a, b, false).value) ::
              NoLater(Script(a, b, false).value, ops)
  {
    var w := Walk(a, b, 0, 0);
    PushAllPlain([], w);
    assert [] + w == w;
    WalkIsOptimal(a, b);
    assert a[0..] == a && b[0..] == b;
    forall ops | Turns(ops, a, b) && Edits(ops) == Edits(w)
      ensures NoLater(w, ops)
    {
      WalkIsFirst(a, b, 0, 0, ops);
    }
  }

  /** And only one script is first: of two that come no later than each other, both are the same. */
  lemma {:induction false} FirstIsUnique(x: seq<Op>, y: seq<Op>, a: seq<string>, b: seq<string>)
    requires Turns(x, a, b) && Turns(y, a, b) && NoLater(x, y) && NoLater(y, x)
    ensures x == y
    decreases |x|
  {
    if x != [] && y != [] {
      FirstsAgree(x, y, a, b);
      FirstIsUnique(x[1..], y[1..], if x[0].tag == Ins then a else a[1..], if x[0].tag == Del then b else b[1..]);
      assert x == [x[0]] + x[1..] && y == [y[0]] + y[1..];
    }
  }

  lemma {:induction false} FirstsAgree(x: seq<Op>, y: seq<Op>, a: seq<string>, b: seq<string>)
    requires x != [] && y != [] && Turns(x, a, b) && Turns(y, a, b) && NoLater(x, y) && NoLater(y, x)
    ensures x[0] == y[0] && (x[0].tag != Ins ==> a != []) && (x[0].tag != Del ==> b != [])
    ensures var a', b' := if x[0].tag == Ins then a else a[1..], if x[0].tag == Del then b else b[1..];
            Turns(x[1..], a', b') && Turns(y[1..], a', b') && NoLater(x[1..], y[1..]) && NoLater(y[1..], x[1..])
  {
    FirstOpTakes(x, a, b);
    FirstOpTakes(y, a, b);
  }

  /** Row and column of a flat index in rows of width w, counted off one row at a time. */
  function RowOf(k: nat, w: nat): nat
    requires w > 0
  {
    if k < w then 0 else 1 + RowOf(k - w, w)
  }

  function ColOf(k: nat, w: nat): (c: nat)
    requires w > 0
    ensures c < w
  {
    if k < w then k else ColOf(k - w, w)
  }

  /** Where row i starts: i * w, by repeated addition. */
  function RowStart(i: nat, w: nat): nat {
    if i == 0 then 0 else RowStart(i - 1, w) + w
  }

  lemma {:induction false} RowStartIs(i: nat, w: nat)
    ensures RowStart(i, w) == i * w
  {
    if i > 0 {
      RowStartIs(i - 1, w);
      assert i * w == (i - 1) * w + w;
    }
  }

  /** The source's i * w. */
  method Offset(i: nat, w: nat) returns (r: nat)
    ensures r == RowStart(i, w)
  {
    RowStartIs(i, w);
    return i * w;
  }

  lemma {:induction false} RowAndCol(i: nat, j: nat, w: nat)
    requires j < w
    ensures RowOf(RowStart(i, w) + j, w) == i && ColOf(RowStart(i, w) + j, w) == j
  {
    if i > 0 {
      RowAndCol(i - 1, j, w);
    }
  }

  lemma {:induction false} RowBelow(k: nat, rows: nat, w: nat)
    requires w > 0 && k < RowStart(rows, w)
    ensures RowOf(k, w) < rows
  {
    if k >= w {
      RowBelow(k - w, rows - 1, w);
    }
  }

  lemma {:induction false} RowsRise(i: nat, n: nat, w: nat)
    requires i <= n
    ensures RowStart(i, w) <= RowStart(n, w)
  {
    if i < n {
      RowsRise(i, n - 1, w);
    }
  }

  /** The table's value at a flat index. */
  function Cell(a: seq<string>, b: seq<string>, k: nat): nat
    requires k < RowStart(|a| + 1, |b| + 1)
  {
    RowBelow(k, |a| + 1, |b| + 1);
    Lcs(a, b, RowOf(k, |b| + 1), ColOf(k, |b| + 1))
  }

  /** Cell (i, j) sits at i * w + j, inside the array, and holds the recurrence's value. */
  lemma {:induction false} CellIs(a: seq<string>, b: seq<string>, i: nat, j: nat)
    requires i <= |a| && j <= |b|
    ensures RowStart(i, |b| + 1) + j < RowStart(|a| + 1, |b| + 1)
    ensures Cell(a, b, RowStart(i, |b| + 1) + j) == Lcs(a, b, i, j)
  {
    RowsRise(i, |a|, |b| + 1);
    RowAndCol(i, j, |b| + 1);
  }

  ghost predicate Filled(a: seq<string>, b: seq<string>, t: seq<Uint32>, from: int) {
    |t| == RowStart(|a| + 1, |b| + 1) &&
    (forall k | 0 <= k < |t| :: t[k] as int == if k < from then 0 else Cell(a, b, k))
  }

  lemma {:induction false} FilledStep(a: seq<string>, b: seq<string>, t: seq<Uint32>, k: nat, v: Uint32)
    requires k < |t| && Filled(a, b, t, k + 1) && v as int == Cell(a, b, k)
    ensures Filled(a, b, t[k := v], k)
  {
  }

  /**
   * The fill: row by row from the last, in place in one flat Uint32 array.
   * Every index is in range and every value fits the array's element type.
   */
  method FillTable(a: seq<string>, b: seq<string>) returns (table: array<Uint32>)
    requires |a| <= MAX_CELLS || |b| <= MAX_CELLS
    ensures fresh(table) && Filled(a, b, table[..], 0)
  {
    var n, w := |a|, |b| + 1;
    var cells := Offset(n + 1, w);
    table := new Uint32[cells](_ => 0);
    forall k | RowStart(n, w) <= k < RowStart(n + 1, w)
      ensures Cell(a, b, k) == 0
    {
      CellIs(a, b, n, k - RowStart(n, w));
    }
    var i := n - 1;
    while i >= 0
      invariant -1 <= i <= n - 1
      invariant Filled(a, b, table[..], RowStart(i + 1, w))
    {
      FillRow(a, b, i, table);
      i := i - 1;
    }
  }

  /** One row of the fill, right to left. */
  method FillRow(a: seq<string>, b: seq<string>, i: nat, table: array<Uint32>)
    requires i < |a| && (|a| <= MAX_CELLS || |b| <= MAX_CELLS)
    requires Filled(a, b, table[..], RowStart(i + 1, |b| + 1))
    modifies table
    ensures Filled(a, b, table[..], RowStart(i, |b| + 1))
  {
    var row := Offset(i, |b| + 1);
    var below := Offset(i + 1, |b| + 1);
    CellIs(a, b, i, |b|);
    var j := |b| - 1;
    while j >= 0
      invariant -1 <= j <= |b| - 1
      invariant Filled(a, b, table[..], row + j + 1)
    {
      FillCell(a, b, i, j, row, below, table);
      j := j - 1;
    }
  }

  /** One cell, from its right, lower and diagonal neighbours. */
  method FillCell(a: seq<string>, b: seq<string>, i: nat, j: nat, row: nat, below: nat, table: array<Uint32>)
    requires i < |a| && j < |b| && (|a| <= MAX_CELLS || |b| <= MAX_CELLS)
    requires row == RowStart(i, |b| + 1) && below == RowStart(i + 1, |b| + 1)
    requires Filled(a, b, table[..], row + j + 1)
    modifies table
    ensures Filled(a, b, table[..], row + j)
  {
    ghost var t := table[..];
    ReadsAreDone(a, b, i, j, t, row, below);
    var right, down, diagonal := table[row + j + 1], table[below + j], table[below + j + 1];
    NextCellIs(a, b, i, j, right, down, diagonal);
    CellIs(a, b, i, j);
    var v := NextCell(a[i] == b[j], right, down, diagonal);
    table[row + j] := v;
    assert table[..] == t[row + j := v];
    FilledStep(a, b, t, row + j, v);
  }

  function NextCell(equal: bool, right: Uint32, down: Uint32, diagonal: Uint32): Uint32
    requires diagonal as int + 1 < 0x1_0000_0000
  {
    if equal then diagonal + 1 else if down >= right then down else right
  }

  lemma {:induction false} FilledAt(a: seq<string>, b: seq<string>, t: seq<Uint32>, from: int, i: nat, j: nat, k: nat)
    requires Filled(a, b, t, from) && i <= |a| && j <= |b|
    requires k == RowStart(i, |b| + 1) + j && from <= k
    ensures k < |t| && t[k] as int == Lcs(a, b, i, j)
  {
    CellIs(a, b, i, j);
  }

  /** The three neighbours of a cell hold their final values by the time it is filled. */
  lemma {:induction false} ReadsAreDone(a: seq<string>, b: seq<string>, i: nat, j: nat, t: seq<Uint32>, row: nat, below: nat)
    requires i < |a| && j < |b|
    requires row == RowStart(i, |b| + 1) && below == RowStart(i + 1, |b| + 1)
    requires Filled(a, b, t, row + j + 1)
    ensures row + |b| < below && below + j + 1 < |t|
    ensures t[row + j + 1] as int == Lcs(a, b, i, j + 1)
    ensures t[below + j] as int == Lcs(a, b, i + 1, j)
    ensures t[below + j + 1] as int == Lcs(a, b, i + 1, j + 1)
  {
    FilledAt(a, b, t, row + j + 1, i + 1, j + 1, below + j + 1);
    FilledAt(a, b, t, row + j + 1, i + 1, j, below + j);
    FilledAt(a, b, t, row + j + 1, i, j + 1, row + j + 1);
  }

  lemma {:induction false} NextCellIs(a: seq<string>, b: seq<string>, i: nat, j: nat, right: Uint32, down: Uint32, diagonal: Uint32)
    requires i < |a| && j < |b| && (|a| <= MAX_CELLS || |b| <= MAX_CELLS)
    requires right as int == Lcs(a, b, i, j + 1) && down as int == Lcs(a, b, i + 1, j)
    requires diagonal as int == Lcs(a, b, i + 1, j + 1)
    ensures diagonal as int <= MAX_CELLS
    ensures Lcs(a, b, i, j) == NextCell(a[i] == b[j], right, down, diagonal) as int
  {
  }

  lemma {:induction false} MulAtLeast(x: nat, y: nat)
    requires y > 0
    ensures x * y >= x
  {
  }

  /** Within the cell limit one of the lists is short (or one is empty), so the table fits Uint32. */
  lemma {:induction false} OneListIsShort(a: seq<string>, b: seq<string>)
    requires !TooLarge(a, b)
    ensures |a| <= MAX_CELLS || |b| <= MAX_CELLS
  {
    if |a| > MAX_CELLS && |b| > MAX_CELLS {
      MulAtLeast(|a|, |b|);
    }
  }

  /** What is still to be pushed when the walk stands at (i, j), after ops. */
  ghost predicate Ahead(a: seq<string>, b: seq<string>, i: nat, j: nat, ops: seq<Op>, join: bool) {
    i <= |a| && j <= |b| &&
    PushAll(ops, Walk(a, b, i, j), join) == PushAll([], Walk(a, b, 0, 0), join)
  }

  lemma {:induction false} AheadStep(a: seq<string>, b: seq<string>, i: nat, j: nat, ops: seq<Op>, join: bool, i': nat, j': nat, o: Op)
    requires Ahead(a, b, i, j, ops, join) && i' <= |a| && j' <= |b|
    requires Walk(a, b, i, j) == [o] + Walk(a, b, i', j')
    ensures Ahead(a, b, i', j', Push(ops, o, join), join)
  {
    assert Walk(a, b, i, j)[1..] == Walk(a, b, i', j');
  }

  /** The walk over a filled table, then the leftovers of either list. */
  method WalkTable(a: seq<string>, b: seq<string>, table: array<Uint32>, join: bool) returns (ops: seq<Op>)
    requires Filled(a, b, table[..], 0)
    ensures ops == PushAll([], Walk(a, b, 0, 0), join)
  {
    var i, j := 0, 0;
    ops := [];
    while i < |a| && j < |b|
      invariant Ahead(a, b, i, j, ops, join)
      decreases |a| - i + |b| - j
    {
      var deleteFirst := Compare(a, b, i, j, table);
      if a[i] == b[j] {
        AheadStep(a, b, i, j, ops, join, i + 1, j + 1, Op(Same, a[i]));
        ops := Push(ops, Op(Same, a[i]), join);
        i, j := i + 1, j + 1;
      } else if deleteFirst {
        AheadStep(a, b, i, j, ops, join, i + 1, j, Op(Del, a[i]));
        ops := Push(ops, Op(Del, a[i]), join);
        i := i + 1;
      } else {
        AheadStep(a, b, i, j, ops, join, i, j + 1, Op(Ins, b[j]));
        ops := Push(ops, Op(Ins, b[j]), join);
        j := j + 1;
      }
    }
    while i < |a|
      invariant Ahead(a, b, i, j, ops, join) && (i == |a| || j == |b|)
    {
      AheadStep(a, b, i, j, ops, join, i + 1, j, Op(Del, a[i]));
      ops := Push(ops, Op(Del, a[i]), join);
      i := i + 1;
    }
    while j < |b|
      invariant Ahead(a, b, i, j, ops, join) && i == |a|
    {
      AheadStep(a, b, i, j, ops, join, i, j + 1, Op(Ins, b[j]));
      ops := Push(ops, Op(Ins, b[j]), join);
      j := j + 1;
    }
  }

  /** The walk's table test at (i, j). */
  method Compare(a: seq<string>, b: seq<string>, i: nat, j: nat, table: array<Uint32>) returns (r: bool)
    requires i < |a| && j < |b| && Filled(a, b, table[..], 0)
    ensures r <==> Lcs(a, b, i + 1, j) >= Lcs(a, b, i, j + 1)
  {
    var row := Offset(i, |b| + 1);
    var below := Offset(i + 1, |b| + 1);
    FilledAt(a, b, table[..], 0, i + 1, j, below + j);
    FilledAt(a, b, table[..], 0, i, j + 1, row + j + 1);
    return table[below + j] >= table[row + j + 1];
  }

  /** The differ: refuse, or fill and walk. */
  method Diff(a: seq<string>, b: seq<string>, join: bool) returns (r: Option<seq<Op>>)
    ensures r == Script(a, b, join)
    ensures r.Some? <==> |a| * |b| <= 6_000_000
  {
    if TooLarge(a, b) {
      return None;
    }
    OneListIsShort(a, b);
    var table := FillTable(a, b);
    var ops := WalkTable(a, b, table, join);
    return Some(ops);
  }
}
