/**
 * The decision kit's word diff: tokens, joined edit script, and the fold that
 * takes a few stray shared words between two changes as part of the change.
 */
module WordDiff {
  import opened Wrappers
  import opened EditScripts
  import opened Text
  import SeqDiff

  // Tokens

  datatype Class = Space | Word | Other

  function ClassOf(c: char): Class {
    if IsSpace(c) then Space else if IsWordChar(c) then Word else Other
  }

  /** The longest match at the start: a run of spaces, a run of word characters, or one other character. */
  function MatchLength(s: string): (n: nat)
    requires s != ""
    ensures 1 <= n <= |s|
    ensures OneToken(s[..n])
    ensures n < |s| && ClassOf(s[0]) != Other ==> ClassOf(s[n]) != ClassOf(s[0])
  {
    if |s| == 1 || ClassOf(s[0]) == Other || ClassOf(s[1]) != ClassOf(s[0]) then 1
    else
      assert s[1..][0] == s[1];
      var n := MatchLength(s[1..]);
      assert s[..n + 1] == [s[0]] + s[1..][..n];
      n + 1
  }

  function Tokens(s: string): seq<string> {
    if s == "" then [] else var n := MatchLength(s); [s[..n]] + Tokens(s[n..])
  }

  /** One character class throughout; characters outside the two runs stand alone. */
  ghost predicate OneToken(t: string) {
    t != "" && (forall i | 0 <= i < |t| :: ClassOf(t[i]) == ClassOf(t[0])) && (ClassOf(t[0]) == Other ==> |t| == 1)
  }

  ghost predicate AllTokens(ts: seq<string>) {
    forall i | 0 <= i < |ts| :: OneToken(ts[i])
  }

  /** No run is cut in two. */
  ghost predicate Maximal(ts: seq<string>) {
    AllTokens(ts) &&
    forall i | 0 < i < |ts| :: ClassOf(ts[i][0]) == ClassOf(ts[i - 1][0]) ==> ClassOf(ts[i][0]) == Other
  }

  /** Tokens lose nothing, and are the one way to cut the text into maximal runs. */
  lemma {:induction false} TokensAreTheCut(s: string)
    ensures Flatten(Tokens(s)) == s && Maximal(Tokens(s))
    ensures s != "" ==> Tokens(s) != [] && Tokens(s)[0] != "" && Tokens(s)[0][0] == s[0]
  {
    if s != "" {
      var n := MatchLength(s);
      var t, rest := s[..n], s[n..];
      TokensAreTheCut(rest);
      FirstTokenIsApart(s, n);
      MaximalCons(t, Tokens(rest));
      FlattenCons(t, Tokens(rest));
      assert Tokens(s) == [t] + Tokens(rest);
    }
  }

  /** The first token and the rest are the text, and the rest opens with another class unless single characters meet. */
  lemma {:induction false} FirstTokenIsApart(s: string, n: nat)
    requires s != "" && n == MatchLength(s)
    ensures s[..n] + s[n..] == s && s[..n][0] == s[0]
    ensures s[n..] != "" && ClassOf(s[n..][0]) == ClassOf(s[0]) ==> ClassOf(s[0]) == Other
  {
    assert s[n..] != "" ==> s[n..][0] == s[n];
  }

  lemma {:induction false} FlattenCons(t: string, ts: seq<string>)
    ensures Flatten([t] + ts) == t + Flatten(ts)
  {
    assert ([t] + ts)[1..] == ts;
  }

  lemma {:induction false} MaximalCons(t: string, ts: seq<string>)
    requires OneToken(t) && Maximal(ts)
    requires ts != [] ==> ts[0] != "" && (ClassOf(ts[0][0]) == ClassOf(t[0]) ==> ClassOf(t[0]) == Other)
    ensures Maximal([t] + ts)
  {
    var all := [t] + ts;
    forall i | 0 < i < |all|
      ensures ClassOf(all[i][0]) == ClassOf(all[i - 1][0]) ==> ClassOf(all[i][0]) == Other
    {
      assert all[i] == ts[i - 1];
      assert i > 1 ==> all[i - 1] == ts[i - 2];
    }
  }

  lemma {:induction false} CutIsUnique(ts: seq<string>)
    requires Maximal(ts)
    ensures Tokens(Flatten(ts)) == ts
  {
    if ts != [] {
      var s, k := Flatten(ts), |ts[0]|;
      assert s[..k] == ts[0] && s[k..] == Flatten(ts[1..]);
      FirstMatch(ts);
      assert Maximal(ts[1..]) by {
        forall i | 0 < i < |ts[1..]|
          ensures ClassOf(ts[1..][i][0]) == ClassOf(ts[1..][i - 1][0]) ==> ClassOf(ts[1..][i][0]) == Other
        {
          assert ts[1..][i] == ts[i + 1] && ts[1..][i - 1] == ts[i];
        }
      }
      CutIsUnique(ts[1..]);
    }
  }

  lemma {:induction false} FirstMatch(ts: seq<string>)
    requires ts != [] && Maximal(ts)
    ensures Flatten(ts) != "" && MatchLength(Flatten(ts)) == |ts[0]|
  {
    var s := Flatten(ts);
    var n, k := MatchLength(s), |ts[0]|;
    assert forall i | 0 <= i < k :: s[i] == ts[0][i];
    assert forall i | 0 <= i < n :: s[..n][i] == s[i];
    assert |ts| > 1 ==> s[k] == ts[1][0] by {
      if |ts| > 1 {
        assert ts[1..][0] == ts[1];
        assert Flatten(ts[1..])[0] == ts[1][0];
      }
    }
    assert |ts| == 1 ==> |s| == k;
    assert !(n < k);
    assert !(k < n);
  }

  // The joined script

  /** The text of one side of a script. */
  function SideText(ops: seq<Op>, skip: Tag): string {
    if ops == [] then "" else OpText(ops[0], skip) + SideText(ops[1..], skip)
  }

  function OpText(o: Op, skip: Tag): string { if o.tag == skip then "" else o.s }

  function OldText(ops: seq<Op>): string { SideText(ops, Ins) }

  function NewText(ops: seq<Op>): string { SideText(ops, Del) }

  lemma {:induction false} SideTextIsSide(ops: seq<Op>, skip: Tag)
    ensures SideText(ops, skip) == Flatten(Side(ops, skip))
  {
    if ops != [] {
      SideTextIsSide(ops[1..], skip);
      if ops[0].tag != skip {
        assert Side(ops, skip)[1..] == Side(ops[1..], skip);
      } else {
        assert Side(ops, skip) == Side(ops[1..], skip);
      }
    }
  }

  lemma {:induction false} SideTextPush(ops: seq<Op>, o: Op, skip: Tag)
    ensures SideText(ops + [o], skip) == SideText(ops, skip) + OpText(o, skip)
  {
    if ops == [] {
      assert [o][1..] == [];
    } else {
      assert (ops + [o])[1..] == ops[1..] + [o];
      SideTextPush(ops[1..], o, skip);
    }
  }

  function WordScript(a: string, b: string): Option<seq<Op>> {
    SeqDiff.Script(Tokens(a), Tokens(b), true)
  }

  /** The joined script from one text to the other; none when their token lists make too large a table. */
  method Diff(a: string, b: string) returns (r: Option<seq<Op>>)
    ensures r == WordScript(a, b)
    ensures r.Some? ==> OldText(r.value) == a && NewText(r.value) == b && Alternates(r.value)
  {
    r := SeqDiff.Diff(Tokens(a), Tokens(b), true);
    if r.Some? {
      WordScriptMeaning(a, b);
    }
  }

  /** Neighbouring ops of one kind are one op. */
  ghost predicate Alternates(ops: seq<Op>) {
    forall i | 0 < i < |ops| :: ops[i].tag != ops[i - 1].tag
  }

  lemma {:induction false} JoinKeepsText(ops: seq<Op>, o: Op, skip: Tag)
    ensures SideText(SeqDiff.Push(ops, o, true), skip) == SideText(ops, skip) + OpText(o, skip)
  {
    if ops != [] && Last(ops).tag == o.tag {
      assert ops == Butlast(ops) + [Last(ops)];
      SideTextPush(Butlast(ops), Last(ops), skip);
      SideTextPush(Butlast(ops), Op(o.tag, Last(ops).s + o.s), skip);
    } else {
      SideTextPush(ops, o, skip);
    }
  }

  lemma {:induction false} PushAllKeepsText(ops: seq<Op>, more: seq<Op>, skip: Tag)
    ensures SideText(SeqDiff.PushAll(ops, more, true), skip) == SideText(ops, skip) + SideText(more, skip)
    decreases |more|
  {
    if more != [] {
      JoinKeepsText(ops, more[0], skip);
      PushAllKeepsText(SeqDiff.Push(ops, more[0], true), more[1..], skip);
    }
  }

  lemma {:induction false} PushAllAlternates(ops: seq<Op>, more: seq<Op>)
    requires Alternates(ops)
    ensures Alternates(SeqDiff.PushAll(ops, more, true))
    decreases |more|
  {
    if more != [] {
      PushAllAlternates(SeqDiff.Push(ops, more[0], true), more[1..]);
    }
  }

  lemma {:induction false} WordScriptMeaning(a: string, b: string)
    requires WordScript(a, b).Some?
    ensures OldText(WordScript(a, b).value) == a && NewText(WordScript(a, b).value) == b
    ensures Alternates(WordScript(a, b).value)
  {
    var ta, tb := Tokens(a), Tokens(b);
    var w := SeqDiff.Walk(ta, tb, 0, 0);
    SeqDiff.WalkIsOptimal(ta, tb);
    PushAllKeepsText([], w, Ins);
    PushAllKeepsText([], w, Del);
    PushAllAlternates([], w);
    SideTextIsSide(w, Ins);
    SideTextIsSide(w, Del);
    TokensAreTheCut(a);
    TokensAreTheCut(b);
  }

  /** The script character by character, each under its op's tag. */
  function Tagged(ops: seq<Op>): seq<(Tag, char)> {
    if ops == [] then [] else Tagged(Butlast(ops)) + TaggedText(Last(ops))
  }

  function TaggedText(o: Op): (r: seq<(Tag, char)>)
    ensures |r| == |o.s| && forall i | 0 <= i < |r| :: r[i] == (o.tag, o.s[i])
  {
    seq(|o.s|, i requires 0 <= i < |o.s| => (o.tag, o.s[i]))
  }

  lemma {:induction false} TaggedPush(ops: seq<Op>, o: Op)
    ensures Tagged(ops + [o]) == Tagged(ops) + TaggedText(o)
  {
    assert Butlast(ops + [o]) == ops;
  }

  lemma {:induction false} JoinKeepsTags(ops: seq<Op>, o: Op)
    ensures Tagged(SeqDiff.Push(ops, o, true)) == Tagged(ops) + TaggedText(o)
  {
    if ops != [] && Last(ops).tag == o.tag {
      var front, joined := Butlast(ops), Op(o.tag, Last(ops).s + o.s);
      TaggedPush(front, joined);
      assert TaggedText(joined) == TaggedText(Last(ops)) + TaggedText(o);
      Regroup(Tagged(front), TaggedText(Last(ops)), TaggedText(o));
    } else {
      TaggedPush(ops, o);
    }
  }

  lemma {:induction false} TaggedAppend(x: seq<Op>, more: seq<Op>)
    ensures Tagged(x + more) == Tagged(x) + Tagged(more)
    decreases |more|
  {
    if more == [] {
      assert x + more == x && Tagged(x) + [] == Tagged(x);
    } else {
      var before := Butlast(more);
      TaggedAppend(x, before);
      TaggedPush(x + before, Last(more));
      assert x + more == x + before + [Last(more)];
      Regroup(Tagged(x), Tagged(before), TaggedText(Last(more)));
    }
  }

  lemma {:induction false} TaggedCons(ops: seq<Op>)
    requires ops != []
    ensures Tagged(ops) == TaggedText(ops[0]) + Tagged(ops[1..])
  {
    TaggedAppend([ops[0]], ops[1..]);
    TaggedPush([], ops[0]);
    assert [ops[0]] + ops[1..] == ops && [] + [ops[0]] == [ops[0]];
  }

  lemma {:induction false} PushAllKeepsTags(ops: seq<Op>, more: seq<Op>)
    ensures Tagged(SeqDiff.PushAll(ops, more, true)) == Tagged(ops) + Tagged(more)
    decreases |more|
  {
    if more == [] {
      assert Tagged(ops) + [] == Tagged(ops);
    } else {
      JoinKeepsTags(ops, more[0]);
      PushAllKeepsTags(SeqDiff.Push(ops, more[0], true), more[1..]);
      TaggedCons(more);
      Regroup(Tagged(ops), TaggedText(more[0]), Tagged(more[1..]));
    }
  }

  ghost predicate NoEmptyOp(ops: seq<Op>) { forall i | 0 <= i < |ops| :: ops[i].s != "" }

  lemma {:induction false} JoinLeavesNoneEmpty(ops: seq<Op>, more: seq<Op>)
    requires NoEmptyOp(ops) && NoEmptyOp(more)
    ensures NoEmptyOp(SeqDiff.PushAll(ops, more, true))
    decreases |more|
  {
    if more != [] {
      JoinLeavesNoneEmpty(SeqDiff.Push(ops, more[0], true), more[1..]);
    }
  }

  /**
   * The joined script deletes, keeps and inserts exactly the characters of the
   * shortest token script that comes first, in as few ops as there can be: no
   * op is empty and no two neighbours are of one kind.
   */
  lemma {:induction false} WordScriptIsTheWalk(a: string, b: string)
    requires WordScript(a, b).Some?
    ensures var ta, tb, r := Tokens(a), Tokens(b), WordScript(a, b).value;
            Tagged(r) == Tagged(SeqDiff.Script(ta, tb, false).value) && Alternates(r) && NoEmptyOp(r)
  {
    var ta, tb := Tokens(a), Tokens(b);
    var w := SeqDiff.Walk(ta, tb, 0, 0);
    SeqDiff.PushAllPlain([], w);
    assert [] + w == w;
    PushAllKeepsTags([], w);
    assert [] + Tagged(w) == Tagged(w);
    PushAllAlternates([], w);
    TokensAreTheCut(a);
    TokensAreTheCut(b);
    WalkTakesItems(ta, tb, 0, 0);
    JoinLeavesNoneEmpty([], w);
  }

  lemma {:induction false} WalkTakesItems(a: seq<string>, b: seq<string>, i: nat, j: nat)
    requires i <= |a| && j <= |b| && AllTokens(a) && AllTokens(b)
    ensures NoEmptyOp(SeqDiff.Walk(a, b, i, j))
    decreases |a| - i + |b| - j
  {
    var w := SeqDiff.Walk(a, b, i, j);
    if w != [] {
      match w[0].tag {
        case Same => WalkTakesItems(a, b, i + 1, j + 1);
        case Del => WalkTakesItems(a, b, i + 1, j);
        case Ins => WalkTakesItems(a, b, i, j + 1);
      }
    }
  }

  // Segments

  datatype Seg = Eq(s: string) | Change(del: string, ins: string)

  function SegText(g: Seg, skip: Tag): string {
    match g
    case Eq(s) => s
    case Change(del, ins) => if skip == Ins then del else ins
  }

  /** One side's text: what was there (skip Ins) or what is there now (skip Del). */
  function SegsText(segs: seq<Seg>, skip: Tag): string {
    if segs == [] then "" else SegText(segs[0], skip) + SegsText(segs[1..], skip)
  }

  lemma {:induction false} SegsTextPush(segs: seq<Seg>, g: Seg, skip: Tag)
    ensures SegsText(segs + [g], skip) == SegsText(segs, skip) + SegText(g, skip)
  {
    if segs == [] {
      assert [g][1..] == [];
    } else {
      assert (segs + [g])[1..] == segs[1..] + [g];
      SegsTextPush(segs[1..], g, skip);
    }
  }

  /** A change with one more op in it. */
  function Grown(cur: Seg, o: Op): Seg
    requires cur.Change?
  {
    if o.tag == Del then Change(cur.del + o.s, cur.ins) else Change(cur.del, cur.ins + o.s)
  }

  /** One op onto the segments: unchanged text closes a change, changes of both kinds share one segment. */
  function GroupOne(segs: seq<Seg>, o: Op): seq<Seg> {
    if o.tag == Same then segs + [Eq(o.s)]
    else
      var current := if segs != [] && Last(segs).Change? then segs else segs + [Change("", "")];
      Butlast(current) + [Grown(Last(current), o)]
  }

  function Group(segs: seq<Seg>, ops: seq<Op>): seq<Seg>
    decreases |ops|
  {
    if ops == [] then segs else Group(GroupOne(segs, ops[0]), ops[1..])
  }

  /** How many word runs the text holds. */
  function WordRuns(ts: seq<string>): nat {
    if ts == [] then 0
    else (if ts[0] != "" && ClassOf(ts[0][0]) == Word then 1 else 0) + WordRuns(ts[1..])
  }

  /** Too little shared text to be worth showing between two changes. */
  predicate Small(s: string) { |s| < 28 && WordRuns(Tokens(s)) < 4 }

  predicate FoldsAt(out: seq<Seg>, segs: seq<Seg>, i: nat) {
    i + 1 < |segs| && segs[i].Eq? && Small(segs[i].s) && out != [] && Last(out).Change? && segs[i + 1].Change?
  }

  function FoldedInto(out: seq<Seg>, segs: seq<Seg>, i: nat): seq<Seg>
    requires FoldsAt(out, segs, i)
  {
    var prev, s, next := Last(out), segs[i].s, segs[i + 1];
    Butlast(out) + [Change(prev.del + s + next.del, prev.ins + s + next.ins)]
  }

  function Fold(out: seq<Seg>, segs: seq<Seg>, i: nat): seq<Seg>
    decreases |segs| - i
  {
    if i >= |segs| then out
    else if FoldsAt(out, segs, i) then Fold(FoldedInto(out, segs, i), segs, i + 2)
    else Fold(out + [segs[i]], segs, i + 1)
  }

  function SegmentsOf(ops: seq<Op>): seq<Seg> { Fold([], Group([], ops), 0) }

  /** Groups the ops; the change being extended is always the last segment. */
  method GroupOps(ops: seq<Op>) returns (segs: seq<Seg>)
    ensures segs == Group([], ops)
  {
    segs := [];
    var open := false;
    assert ops[0..] == ops;
    for k := 0 to |ops|
      invariant open <==> segs != [] && Last(segs).Change?
      invariant Group(segs, ops[k..]) == Group([], ops)
    {
      GroupCons(segs, ops[k..]);
      assert ops[k..][0] == ops[k] && ops[k..][1..] == ops[k + 1..];
      segs, open := AddOp(segs, open, ops[k]);
    }
  }

  /** One op onto the segments, the change being extended where it stands. */
  method AddOp(segs: seq<Seg>, open: bool, o: Op) returns (segs': seq<Seg>, open': bool)
    requires open <==> segs != [] && Last(segs).Change?
    ensures segs' == GroupOne(segs, o) && (open' <==> o.tag != Same)
    ensures open' <==> segs' != [] && Last(segs').Change?
  {
    if o.tag == Same {
      return segs + [Eq(o.s)], false;
    }
    segs', open' := segs, open;
    if !open' {
      segs', open' := segs' + [Change("", "")], true;
    }
    var cur := Last(segs');
    segs' := segs'[|segs'| - 1 := if o.tag == Del then Change(cur.del + o.s, cur.ins) else Change(cur.del, cur.ins + o.s)];
    assert segs' == GroupOne(segs, o);
  }

  lemma {:induction false} GroupCons(segs: seq<Seg>, ops: seq<Op>)
    requires ops != []
    ensures Group(segs, ops) == Group(GroupOne(segs, ops[0]), ops[1..])
  {
  }

  /** Groups the ops, then folds. */
  method Segments(ops: seq<Op>) returns (out: seq<Seg>)
    ensures out == SegmentsOf(ops)
    ensures SegsText(out, Ins) == OldText(ops) && SegsText(out, Del) == NewText(ops)
  {
    var segs := GroupOps(ops);
    out := FoldSegs(segs);
    SegmentsKeepText(ops);
  }

  method FoldSegs(segs: seq<Seg>) returns (out: seq<Seg>)
    ensures out == Fold([], segs, 0)
  {
    out := [];
    var i := 0;
    while i < |segs|
      invariant Fold(out, segs, i) == Fold([], segs, 0)
      decreases |segs| - i
    {
      if FoldsAt(out, segs, i) {
        out := FoldedInto(out, segs, i);
        i := i + 2;
      } else {
        out := out + [segs[i]];
        i := i + 1;
      }
    }
  }

  lemma {:induction false} GrownText(cur: Seg, o: Op, skip: Tag)
    requires cur.Change? && o.tag != Same && skip != Same
    ensures SegText(Grown(cur, o), skip) == SegText(cur, skip) + OpText(o, skip)
  {
  }

  lemma {:induction false} GrownKeepsText(front: seq<Seg>, last: Seg, o: Op, skip: Tag)
    requires last.Change? && o.tag != Same && skip != Same
    ensures SegsText(front + [Grown(last, o)], skip) == SegsText(front + [last], skip) + OpText(o, skip)
  {
    SegsTextPush(front, last, skip);
    SegsTextPush(front, Grown(last, o), skip);
    GrownText(last, o, skip);
    Regroup(SegsText(front, skip), SegText(last, skip), OpText(o, skip));
  }

  lemma {:induction false} GroupOneKeepsText(segs: seq<Seg>, o: Op, skip: Tag)
    requires skip != Same
    ensures SegsText(GroupOne(segs, o), skip) == SegsText(segs, skip) + OpText(o, skip)
  {
    var blank := Change("", "");
    if o.tag == Same {
      SegsTextPush(segs, Eq(o.s), skip);
    } else if segs != [] && Last(segs).Change? {
      assert segs == Butlast(segs) + [Last(segs)];
      GrownKeepsText(Butlast(segs), Last(segs), o, skip);
    } else {
      SegsTextPush(segs, blank, skip);
      assert Butlast(segs + [blank]) == segs;
      GrownKeepsText(segs, blank, o, skip);
    }
  }

  ghost predicate NoTwoChanges(segs: seq<Seg>) {
    forall i | 0 < i < |segs| :: segs[i].Change? ==> segs[i - 1].Eq?
  }

  ghost predicate NoTwoEqs(segs: seq<Seg>) {
    forall i | 0 < i < |segs| :: segs[i].Eq? ==> segs[i - 1].Change?
  }

  lemma {:induction false} GroupKeepsText(segs: seq<Seg>, ops: seq<Op>, skip: Tag)
    requires skip != Same
    ensures SegsText(Group(segs, ops), skip) == SegsText(segs, skip) + SideText(ops, skip)
    decreases |ops|
  {
    if ops != [] {
      GroupOneKeepsText(segs, ops[0], skip);
      GroupKeepsText(GroupOne(segs, ops[0]), ops[1..], skip);
    }
  }

  lemma {:induction false} GroupPartsChanges(segs: seq<Seg>, ops: seq<Op>)
    requires NoTwoChanges(segs)
    ensures NoTwoChanges(Group(segs, ops))
    decreases |ops|
  {
    if ops != [] {
      GroupPartsChanges(GroupOne(segs, ops[0]), ops[1..]);
    }
  }

  lemma {:induction false} GroupAlternates(segs: seq<Seg>, ops: seq<Op>)
    requires NoTwoEqs(segs) && Alternates(ops)
    requires segs != [] && Last(segs).Eq? && ops != [] ==> ops[0].tag != Same
    ensures NoTwoEqs(Group(segs, ops))
    decreases |ops|
  {
    if ops != [] {
      GroupAlternates(GroupOne(segs, ops[0]), ops[1..]);
    }
  }

  /** No small unchanged run stands between two changes. */
  ghost predicate NothingStray(out: seq<Seg>) {
    forall i | 0 < i < |out| - 1 :: out[i].Eq? && Small(out[i].s) && out[i - 1].Change? ==> out[i + 1].Eq?
  }

  /** The last of out is a small run after a change: the fold let it stand because no change follows. */
  ghost predicate Dangling(out: seq<Seg>) {
    |out| > 1 && Last(out).Eq? && Small(Last(out).s) && out[|out| - 2].Change?
  }

  lemma {:induction false} FoldedText(out: seq<Seg>, segs: seq<Seg>, i: nat, skip: Tag)
    requires FoldsAt(out, segs, i) && skip != Same
    ensures SegsText(FoldedInto(out, segs, i), skip)
         == SegsText(out, skip) + (SegText(segs[i], skip) + SegText(segs[i + 1], skip))
  {
    var more, front := FoldedInto(out, segs, i), Butlast(out);
    var prev, s, next := SegText(Last(out), skip), SegText(segs[i], skip), SegText(segs[i + 1], skip);
    assert out == front + [Last(out)] && more == front + [Last(more)];
    SegsTextPush(front, Last(out), skip);
    SegsTextPush(front, Last(more), skip);
    assert SegText(Last(more), skip) == prev + s + next;
    Regroup(prev, s, next);
    Regroup(SegsText(front, skip), prev, s + next);
  }

  lemma {:induction false} FoldKeepsText(out: seq<Seg>, segs: seq<Seg>, i: nat, skip: Tag)
    requires i <= |segs| && skip != Same
    ensures SegsText(Fold(out, segs, i), skip) == SegsText(out, skip) + SegsText(segs[i..], skip)
    decreases |segs| - i
  {
    if i < |segs| {
      assert segs[i..][1..] == segs[i + 1..];
      if FoldsAt(out, segs, i) {
        FoldedText(out, segs, i, skip);
        assert segs[i + 1..][1..] == segs[i + 2..];
        Regroup(SegText(segs[i], skip), SegText(segs[i + 1], skip), SegsText(segs[i + 2..], skip));
        Regroup(SegsText(out, skip), SegText(segs[i], skip) + SegText(segs[i + 1], skip), SegsText(segs[i + 2..], skip));
        FoldKeepsText(FoldedInto(out, segs, i), segs, i + 2, skip);
      } else {
        SegsTextPush(out, segs[i], skip);
        Regroup(SegsText(out, skip), SegText(segs[i], skip), SegsText(segs[i + 1..], skip));
        FoldKeepsText(out + [segs[i]], segs, i + 1, skip);
      }
    }
  }

  lemma {:induction false} FoldLeavesNothingStray(out: seq<Seg>, segs: seq<Seg>, i: nat)
    requires i <= |segs| && NoTwoChanges(segs) && NoTwoChanges(out) && NothingStray(out)
    requires i < |segs| && segs[i].Change? ==> !Dangling(out) && (out == [] || Last(out).Eq?)
    ensures NoTwoChanges(Fold(out, segs, i)) && NothingStray(Fold(out, segs, i))
    decreases |segs| - i
  {
    if i < |segs| {
      if FoldsAt(out, segs, i) {
        FoldLeavesNothingStray(FoldedInto(out, segs, i), segs, i + 2);
      } else {
        FoldLeavesNothingStray(out + [segs[i]], segs, i + 1);
      }
    }
  }

  lemma {:induction false} FoldAlternates(out: seq<Seg>, segs: seq<Seg>, i: nat)
    requires i <= |segs| && NoTwoEqs(segs) && NoTwoEqs(out)
    requires i < |segs| && segs[i].Eq? ==> out == [] || Last(out).Change?
    ensures NoTwoEqs(Fold(out, segs, i))
    decreases |segs| - i
  {
    if i < |segs| {
      if FoldsAt(out, segs, i) {
        FoldAlternates(FoldedInto(out, segs, i), segs, i + 2);
      } else {
        FoldAlternates(out + [segs[i]], segs, i + 1);
      }
    }
  }

  /** The unchanged runs the fold may not touch. */
  function LongRuns(segs: seq<Seg>): seq<string> {
    if segs == [] then []
    else LongRun(segs[0]) + LongRuns(segs[1..])
  }

  function LongRun(g: Seg): seq<string> { if g.Eq? && !Small(g.s) then [g.s] else [] }

  lemma {:induction false} LongRunsPush(segs: seq<Seg>, g: Seg)
    ensures LongRuns(segs + [g]) == LongRuns(segs) + LongRun(g)
  {
    if segs == [] {
      assert [g][1..] == [];
    } else {
      assert (segs + [g])[1..] == segs[1..] + [g];
      LongRunsPush(segs[1..], g);
    }
  }

  /** Folding loses no long run: the run between the changes is small. */
  lemma {:induction false} FoldedRuns(out: seq<Seg>, segs: seq<Seg>, i: nat)
    requires FoldsAt(out, segs, i)
    ensures LongRuns(FoldedInto(out, segs, i)) == LongRuns(out) && LongRun(segs[i]) == [] && LongRun(segs[i + 1]) == []
  {
    var more, front := FoldedInto(out, segs, i), Butlast(out);
    assert out == front + [Last(out)] && more == front + [Last(more)];
    LongRunsPush(front, Last(out));
    LongRunsPush(front, Last(more));
  }

  lemma {:induction false} LongRunsFrom(segs: seq<Seg>, i: nat)
    requires i < |segs|
    ensures LongRuns(segs[i..]) == LongRun(segs[i]) + LongRuns(segs[i + 1..])
  {
    assert segs[i..][1..] == segs[i + 1..];
  }

  lemma {:induction false} FoldKeepsLongRuns(out: seq<Seg>, segs: seq<Seg>, i: nat)
    requires i <= |segs|
    ensures LongRuns(Fold(out, segs, i)) == LongRuns(out) + LongRuns(segs[i..])
    decreases |segs| - i
  {
    if i == |segs| {
      assert LongRuns(segs[i..]) == [] && LongRuns(out) + [] == LongRuns(out);
    } else if FoldsAt(out, segs, i) {
      FoldedRuns(out, segs, i);
      LongRunsFrom(segs, i);
      LongRunsFrom(segs, i + 1);
      FoldKeepsLongRuns(FoldedInto(out, segs, i), segs, i + 2);
    } else {
      LongRunsPush(out, segs[i]);
      LongRunsFrom(segs, i);
      Regroup(LongRuns(out), LongRun(segs[i]), LongRuns(segs[i + 1..]));
      FoldKeepsLongRuns(out + [segs[i]], segs, i + 1);
    }
  }

  /** For any ops: both texts survive, changes stay apart, no stray run is left, no long run is lost. */
  lemma {:induction false} SegmentsKeepText(ops: seq<Op>)
    ensures SegsText(SegmentsOf(ops), Ins) == OldText(ops) && SegsText(SegmentsOf(ops), Del) == NewText(ops)
    ensures NoTwoChanges(SegmentsOf(ops)) && NothingStray(SegmentsOf(ops))
    ensures LongRuns(SegmentsOf(ops)) == LongRuns(Group([], ops))
    ensures Alternates(ops) ==> NoTwoEqs(SegmentsOf(ops))
  {
    var segs := Group([], ops);
    GroupKeepsText([], ops, Ins);
    GroupKeepsText([], ops, Del);
    GroupPartsChanges([], ops);
    FoldKeepsText([], segs, 0, Ins);
    FoldKeepsText([], segs, 0, Del);
    FoldLeavesNothingStray([], segs, 0);
    FoldKeepsLongRuns([], segs, 0);
    assert segs[0..] == segs;
    if Alternates(ops) {
      GroupAlternates([], ops);
      FoldAlternates([], segs, 0);
    }
  }

  // Where the unchanged runs stand

  /** An unchanged run, and how far into either text it stands. */
  datatype Place = Place(s: string, oldAt: nat, newAt: nat)

  function PlaceOf(g: Seg, before: seq<Seg>): seq<Place> {
    if g.Eq? then [Place(g.s, |SegsText(before, Ins)|, |SegsText(before, Del)|)] else []
  }

  /** The unchanged runs of the segments. */
  function Places(segs: seq<Seg>): seq<Place> {
    if segs == [] then [] else Places(Butlast(segs)) + PlaceOf(Last(segs), Butlast(segs))
  }

  /** The unchanged ops of a script. */
  function OpPlaces(ops: seq<Op>): seq<Place> {
    if ops == [] then []
    else
      var before := Butlast(ops);
      OpPlaces(before) + if Last(ops).tag == Same then [Place(Last(ops).s, |OldText(before)|, |NewText(before)|)] else []
  }

  lemma {:induction false} PlacesPush(segs: seq<Seg>, g: Seg)
    ensures Places(segs + [g]) == Places(segs) + PlaceOf(g, segs)
  {
    assert Butlast(segs + [g]) == segs;
  }

  lemma {:induction false} GroupPush(segs: seq<Seg>, ops: seq<Op>, o: Op)
    ensures Group(segs, ops + [o]) == GroupOne(Group(segs, ops), o)
    decreases |ops|
  {
    if ops == [] {
      assert [] + [o] == [o] && [o][1..] == [];
    } else {
      assert (ops + [o])[1..] == ops[1..] + [o];
      GroupPush(GroupOne(segs, ops[0]), ops[1..], o);
    }
  }

  lemma {:induction false} GroupOnePlaces(segs: seq<Seg>, o: Op)
    ensures Places(GroupOne(segs, o)) == Places(segs) + (if o.tag == Same then PlaceOf(Eq(o.s), segs) else [])
  {
    if o.tag == Same {
      PlacesPush(segs, Eq(o.s));
    } else {
      var current := if segs != [] && Last(segs).Change? then segs else segs + [Change("", "")];
      var front := Butlast(current);
      assert current == front + [Last(current)];
      PlacesPush(front, Last(current));
      PlacesPush(front, Grown(Last(current), o));
      if current != segs {
        assert front == segs;
      }
    }
  }

  /** Grouping keeps every unchanged op where it stood, and makes no other unchanged run. */
  lemma {:induction false} GroupPlaces(ops: seq<Op>)
    ensures Places(Group([], ops)) == OpPlaces(ops)
    decreases |ops|
  {
    if ops != [] {
      var before, o := Butlast(ops), Last(ops);
      assert ops == before + [o];
      GroupPlaces(before);
      GroupPush([], before, o);
      GroupOnePlaces(Group([], before), o);
      GroupKeepsText([], before, Ins);
      GroupKeepsText([], before, Del);
    }
  }

  /** A small run between two changes. */
  predicate Stray(segs: seq<Seg>, i: int) {
    0 < i < |segs| - 1 && segs[i].Eq? && Small(segs[i].s) && segs[i - 1].Change? && segs[i + 1].Change?
  }

  /** The unchanged runs from i on that are not stray. */
  function Standing(segs: seq<Seg>, i: nat): seq<Place>
    decreases |segs| - i
  {
    if i >= |segs| then [] else (if Stray(segs, i) then [] else PlaceOf(segs[i], segs[..i])) + Standing(segs, i + 1)
  }

  /** What is folded so far has the texts of the segments it came from, and ends in a change when they do. */
  ghost predicate FoldedUpTo(out: seq<Seg>, segs: seq<Seg>, i: nat) {
    i <= |segs| && SegsText(out, Ins) == SegsText(segs[..i], Ins) && SegsText(out, Del) == SegsText(segs[..i], Del) &&
    (out == [] <==> i == 0) && (i > 0 && out != [] ==> (Last(out).Change? <==> segs[i - 1].Change?))
  }

  lemma {:induction false} TakenText(segs: seq<Seg>, i: nat, skip: Tag)
    requires i < |segs|
    ensures SegsText(segs[..i + 1], skip) == SegsText(segs[..i], skip) + SegText(segs[i], skip)
  {
    assert segs[..i + 1] == segs[..i] + [segs[i]];
    SegsTextPush(segs[..i], segs[i], skip);
  }

  lemma {:induction false} OneTaken(out: seq<Seg>, segs: seq<Seg>, i: nat)
    requires FoldedUpTo(out, segs, i) && i < |segs|
    ensures FoldedUpTo(out + [segs[i]], segs, i + 1)
    ensures PlaceOf(segs[i], out) == PlaceOf(segs[i], segs[..i])
  {
    SegsTextPush(out, segs[i], Ins);
    SegsTextPush(out, segs[i], Del);
    TakenText(segs, i, Ins);
    TakenText(segs, i, Del);
  }

  lemma {:induction false} StrayText(out: seq<Seg>, segs: seq<Seg>, i: nat, skip: Tag)
    requires FoldsAt(out, segs, i) && SegsText(out, skip) == SegsText(segs[..i], skip) && skip != Same
    ensures SegsText(FoldedInto(out, segs, i), skip) == SegsText(segs[..i + 2], skip)
  {
    FoldedText(out, segs, i, skip);
    TakenText(segs, i, skip);
    TakenText(segs, i + 1, skip);
    Regroup(SegsText(out, skip), SegText(segs[i], skip), SegText(segs[i + 1], skip));
  }

  lemma {:induction false} StrayPlaces(out: seq<Seg>, segs: seq<Seg>, i: nat)
    requires FoldsAt(out, segs, i)
    ensures Places(FoldedInto(out, segs, i)) == Places(out)
  {
    var more, front := FoldedInto(out, segs, i), Butlast(out);
    assert out == front + [Last(out)] && more == front + [Last(more)];
    PlacesPush(front, Last(out));
    PlacesPush(front, Last(more));
  }

  lemma {:induction false} StrayStandsNowhere(out: seq<Seg>, segs: seq<Seg>, i: nat)
    requires FoldedUpTo(out, segs, i) && FoldsAt(out, segs, i)
    ensures Standing(segs, i) == Standing(segs, i + 2)
  {
    assert Stray(segs, i) && PlaceOf(segs[i + 1], segs[..i + 1]) == [];
  }

  /** One turn of the fold leads from out at i to more at next, and accounts for the runs between. */
  ghost predicate Turned(out: seq<Seg>, segs: seq<Seg>, i: nat, more: seq<Seg>, next: nat) {
    i < next && FoldedUpTo(more, segs, next) && Fold(out, segs, i) == Fold(more, segs, next) &&
    Places(more) + Standing(segs, next) == Places(out) + Standing(segs, i)
  }

  lemma {:induction false} StrayTurn(out: seq<Seg>, segs: seq<Seg>, i: nat)
    requires FoldedUpTo(out, segs, i) && FoldsAt(out, segs, i)
    ensures Turned(out, segs, i, FoldedInto(out, segs, i), i + 2)
  {
    StrayText(out, segs, i, Ins);
    StrayText(out, segs, i, Del);
    StrayPlaces(out, segs, i);
    StrayStandsNowhere(out, segs, i);
  }

  lemma {:induction false} OneTurn(out: seq<Seg>, segs: seq<Seg>, i: nat)
    requires FoldedUpTo(out, segs, i) && i < |segs| && !FoldsAt(out, segs, i)
    ensures Turned(out, segs, i, out + [segs[i]], i + 1)
  {
    OneTaken(out, segs, i);
    OneStands(out, segs, i);
  }

  lemma {:induction false} OneStands(out: seq<Seg>, segs: seq<Seg>, i: nat)
    requires FoldedUpTo(out, segs, i) && i < |segs| && !FoldsAt(out, segs, i)
    requires PlaceOf(segs[i], out) == PlaceOf(segs[i], segs[..i])
    ensures Places(out + [segs[i]]) + Standing(segs, i + 1) == Places(out) + Standing(segs, i)
  {
    PlacesPush(out, segs[i]);
    assert !Stray(segs, i);
    Regroup(Places(out), PlaceOf(segs[i], segs[..i]), Standing(segs, i + 1));
  }

  lemma {:induction false} FoldPlaces(out: seq<Seg>, segs: seq<Seg>, i: nat)
    requires FoldedUpTo(out, segs, i)
    ensures Places(Fold(out, segs, i)) == Places(out) + Standing(segs, i)
    decreases |segs| - i
  {
    if i == |segs| {
      assert Places(out) + [] == Places(out);
    } else {
      var folds := FoldsAt(out, segs, i);
      var more, next := if folds then FoldedInto(out, segs, i) else out + [segs[i]], if folds then i + 2 else i + 1;
      assert Turned(out, segs, i, more, next) by {
        if folds { StrayTurn(out, segs, i); } else { OneTurn(out, segs, i); }
      }
      FoldPlaces(more, segs, next);
    }
  }

  /**
   * For any ops: grouped, the unchanged runs are the unchanged ops where they
   * stood in either text; folded, those of them that are not small runs between
   * two changes, and no other. So every fold is of such a run, and every such
   * run is folded.
   */
  lemma {:induction false} FoldIsExact(ops: seq<Op>)
    ensures Places(Group([], ops)) == OpPlaces(ops)
    ensures Places(SegmentsOf(ops)) == Standing(Group([], ops), 0)
  {
    var segs := Group([], ops);
    GroupPlaces(ops);
    assert segs[..0] == [];
    FoldPlaces([], segs, 0);
    assert [] + Standing(segs, 0) == Standing(segs, 0);
  }

  // Similarity

  function EqLength(segs: seq<Seg>): nat {
    if segs == [] then 0 else (if segs[0].Eq? then |segs[0].s| else 0) + EqLength(segs[1..])
  }

  /** The share of the longer text that stands unchanged. */
  function Similarity(segs: seq<Seg>, a: string, b: string): real {
    EqLength(segs) as real / Max(1, Max(|a|, |b|)) as real
  }

  lemma {:induction false} EqLengthBounds(segs: seq<Seg>)
    ensures EqLength(segs) <= |SegsText(segs, Ins)| && EqLength(segs) <= |SegsText(segs, Del)|
    ensures EqLength(segs) == |SegsText(segs, Ins)| == |SegsText(segs, Del)|
        ==> SegsText(segs, Ins) == SegsText(segs, Del)
  {
    if segs != [] {
      EqLengthBounds(segs[1..]);
    }
  }

  /** The characters that changes delete, or insert. */
  function ChangedLength(segs: seq<Seg>, skip: Tag): nat {
    if segs == [] then 0
    else (if segs[0].Change? then |SegText(segs[0], skip)| else 0) + ChangedLength(segs[1..], skip)
  }

  lemma {:induction false} UnchangedIsTheRest(segs: seq<Seg>, skip: Tag)
    ensures EqLength(segs) + ChangedLength(segs, skip) == |SegsText(segs, skip)|
  {
    if segs != [] {
      UnchangedIsTheRest(segs[1..], skip);
    }
  }

  predicate IsShare(share: real, part: int, whole: int) { share * whole as real == part as real }

  lemma {:induction false} KeptOfTheLonger(ops: seq<Op>, a: string, b: string)
    requires OldText(ops) == a && NewText(ops) == b
    ensures var segs := SegmentsOf(ops);
            EqLength(segs) == Max(|a|, |b|) - Max(ChangedLength(segs, Ins), ChangedLength(segs, Del))
  {
    SegmentsKeepText(ops);
    UnchangedIsTheRest(SegmentsOf(ops), Ins);
    UnchangedIsTheRest(SegmentsOf(ops), Del);
  }

  /**
   * Similarity is the share of the longer text that stays: its length less what
   * is deleted or inserted, whichever is more.
   */
  lemma {:induction false} SimilarityIsTheShareKept(ops: seq<Op>, a: string, b: string)
    requires OldText(ops) == a && NewText(ops) == b
    ensures var segs := SegmentsOf(ops);
            var kept := Max(|a|, |b|) - Max(ChangedLength(segs, Ins), ChangedLength(segs, Del));
            IsShare(Similarity(segs, a, b), kept, Max(1, Max(|a|, |b|)))
  {
    var segs := SegmentsOf(ops);
    KeptOfTheLonger(ops, a, b);
    ShareTimes(segs, a, b, Max(|a|, |b|) - Max(ChangedLength(segs, Ins), ChangedLength(segs, Del)));
  }

  lemma {:induction false} ShareTimes(segs: seq<Seg>, a: string, b: string, kept: int)
    requires EqLength(segs) == kept
    ensures IsShare(Similarity(segs, a, b), kept, Max(1, Max(|a|, |b|)))
  {
    QuotientTimes(EqLength(segs) as real, Max(1, Max(|a|, |b|)) as real);
  }

  lemma {:induction false} QuotientTimes(p: real, w: real)
    requires w > 0.0
    ensures p / w * w == p
  {
  }

  lemma {:induction false} SameWalk(ts: seq<string>, i: nat)
    requires i <= |ts|
    ensures forall k | 0 <= k < |SeqDiff.Walk(ts, ts, i, i)| :: SeqDiff.Walk(ts, ts, i, i)[k].tag == Same
    ensures |SeqDiff.Walk(ts, ts, i, i)| == |ts| - i
    decreases |ts| - i
  {
    if i < |ts| {
      SameWalk(ts, i + 1);
    }
  }

  lemma {:induction false} PushAllSame(ops: seq<Op>, more: seq<Op>)
    requires |ops| <= 1 && forall k | 0 <= k < |ops| :: ops[k].tag == Same
    requires forall k | 0 <= k < |more| :: more[k].tag == Same
    ensures var r := SeqDiff.PushAll(ops, more, true);
            |r| <= 1 && (forall k | 0 <= k < |r| :: r[k].tag == Same) && (ops != [] || more != [] ==> r != [])
    decreases |more|
  {
    if more != [] {
      PushAllSame(SeqDiff.Push(ops, more[0], true), more[1..]);
    }
  }

  /** A text's script against itself is one unchanged op. */
  lemma {:induction false} SameScript(a: string)
    requires a != "" && WordScript(a, a).Some?
    ensures WordScript(a, a).value == [Op(Same, a)]
  {
    var ts := Tokens(a);
    var w, r := SeqDiff.Walk(ts, ts, 0, 0), WordScript(a, a).value;
    TokensAreTheCut(a);
    SameWalk(ts, 0);
    PushAllSame([], w);
    WordScriptMeaning(a, a);
    assert r == [] + [r[0]];
    SideTextPush([], r[0], Ins);
    assert r[0] == Op(Same, a);
  }

  lemma {:induction false} OneUnchangedRun(a: string)
    ensures SegmentsOf([Op(Same, a)]) == [Eq(a)]
  {
    var ops := [Op(Same, a)];
    assert ops[1..] == [] && GroupOne([], ops[0]) == [Eq(a)];
    assert Group([], ops) == Group([Eq(a)], []) == [Eq(a)];
    assert Fold([], [Eq(a)], 0) == Fold([] + [Eq(a)], [Eq(a)], 1);
  }

  /** A text against itself is one unchanged run. */
  lemma {:induction false} SameText(a: string)
    requires a != "" && WordScript(a, a).Some?
    ensures SegmentsOf(WordScript(a, a).value) == [Eq(a)]
  {
    SameScript(a);
    OneUnchangedRun(a);
  }

  /** Similarity never passes 1, and reaches it exactly for equal texts that hold anything at all. */
  lemma {:induction false} SimilarityIsOneForEqualTexts(a: string, b: string)
    requires WordScript(a, b).Some?
    ensures var sim := Similarity(SegmentsOf(WordScript(a, b).value), a, b);
            0.0 <= sim <= 1.0 && (sim == 1.0 <==> a == b && a != "")
  {
    var segs := SegmentsOf(WordScript(a, b).value);
    WordScriptMeaning(a, b);
    SegmentsKeepText(WordScript(a, b).value);
    EqLengthBounds(segs);
    ShareBounds(EqLength(segs), Max(1, Max(|a|, |b|)));
    if a == b && a != "" {
      SameText(a);
      assert segs[1..] == [];
      assert EqLength(segs) == |a|;
    }
  }

  lemma {:induction false} Signs(a: real, w: real)
    requires w > 0.0
    ensures (a > 0.0 <==> a * w > 0.0) && (a < 0.0 <==> a * w < 0.0)
  {
    if a > 0.0 {
      assert a * w > 0.0;
    } else if a < 0.0 {
      assert -a * w > 0.0;
    } else {
      assert a * w == 0.0;
    }
  }

  /** A quotient against 1, by its product with the divisor. */
  lemma {:induction false} QuotientBounds(p: real, w: real)
    requires 0.0 <= p <= w && w > 0.0
    ensures 0.0 <= p / w <= 1.0 && (p / w == 1.0 <==> p == w)
  {
    var q := p / w;
    assert q * w == p;
    assert (q - 1.0) * w == p - w;
    Signs(q, w);
    Signs(q - 1.0, w);
  }

  lemma {:induction false} ShareBounds(part: nat, whole: nat)
    requires part <= whole && whole > 0
    ensures 0.0 <= part as real / whole as real <= 1.0
    ensures part as real / whole as real == 1.0 <==> part == whole
  {
    QuotientBounds(part as real, whole as real);
  }
}
