/**
 * Edit scripts: the rows of a diff, and the two texts a script stands for.
 * The differ produces them, the row grouper numbers them, and the changed-lines
 * gate is judged against them.
 */
module EditScripts {
  import opened Wrappers

  datatype Tag = Same | Del | Ins

  datatype Op = Op(tag: Tag, s: string)

  /** One side of the script: every item whose tag is not the skipped one. */
  function Side(ops: seq<Op>, skip: Tag): seq<string> {
    if ops == [] then []
    else (if ops[0].tag == skip then [] else [ops[0].s]) + Side(ops[1..], skip)
  }

  /** The old list: unchanged and removed items. */
  function OldSide(ops: seq<Op>): seq<string> { Side(ops, Ins) }

  /** The new list: unchanged and inserted items. */
  function NewSide(ops: seq<Op>): seq<string> { Side(ops, Del) }

  /** The unchanged items. */
  function Kept(ops: seq<Op>): seq<string> {
    if ops == [] then []
    else (if ops[0].tag == Same then [ops[0].s] else []) + Kept(ops[1..])
  }

  /** How many items the script deletes or inserts. */
  function Edits(ops: seq<Op>): nat {
    if ops == [] then 0
    else (if ops[0].tag == Same then 0 else 1) + Edits(ops[1..])
  }

  ghost predicate Turns(ops: seq<Op>, a: seq<string>, b: seq<string>) {
    OldSide(ops) == a && NewSide(ops) == b
  }

  ghost predicate Subsequence(c: seq<string>, a: seq<string>) {
    c == [] ||
    (a != [] && ((c[0] == a[0] && Subsequence(c[1..], a[1..])) || Subsequence(c, a[1..])))
  }

  lemma {:induction false} SubsequenceTail(c: seq<string>, a: seq<string>)
    requires c != [] && Subsequence(c, a)
    ensures a != [] && Subsequence(c[1..], a[1..])
  {
    if !(c[0] == a[0] && Subsequence(c[1..], a[1..])) {
      SubsequenceTail(c, a[1..]);
      SubsequenceWeaken(c[1..], a[1..]);
    }
  }

  lemma {:induction false} SubsequenceWeaken(c: seq<string>, a: seq<string>)
    requires a != [] && Subsequence(c, a[1..])
    ensures Subsequence(c, a)
  {
  }

  /** What any script leaves unchanged is a common subsequence, and fixes its edit count. */
  lemma {:induction false} KeptIsCommon(ops: seq<Op>)
    ensures Subsequence(Kept(ops), OldSide(ops)) && Subsequence(Kept(ops), NewSide(ops))
    ensures Edits(ops) + 2 * |Kept(ops)| == |OldSide(ops)| + |NewSide(ops)|
  {
    if ops == [] {
    } else {
      KeptIsCommon(ops[1..]);
      var a, b, c := OldSide(ops), NewSide(ops), Kept(ops);
      match ops[0].tag {
        case Same =>
          assert a[1..] == OldSide(ops[1..]) && b[1..] == NewSide(ops[1..]) && c[1..] == Kept(ops[1..]);
        case Del =>
          assert a[1..] == OldSide(ops[1..]);
          assert b == NewSide(ops[1..]) && c == Kept(ops[1..]);
        case Ins =>
          assert b[1..] == NewSide(ops[1..]);
          assert a == OldSide(ops[1..]) && c == Kept(ops[1..]);
      }
    }
  }

  lemma {:induction false} SideAppend(x: seq<Op>, y: seq<Op>, skip: Tag)
    ensures Side(x + y, skip) == Side(x, skip) + Side(y, skip)
  {
    if x == [] {
      assert x + y == y;
    } else {
      var first := if x[0].tag == skip then [] else [x[0].s];
      assert (x + y)[1..] == x[1..] + y;
      SideAppend(x[1..], y, skip);
      Regroup(first, Side(x[1..], skip), Side(y, skip));
    }
  }

  lemma {:induction false} SidePush(x: seq<Op>, o: Op, skip: Tag)
    ensures Side(x + [o], skip) == if o.tag == skip then Side(x, skip) else Side(x, skip) + [o.s]
  {
    SideAppend(x, [o], skip);
    assert [o][1..] == [];
  }
}
