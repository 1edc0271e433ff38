/** Judgments chained into moments: one chain per kind and subject, broken by a quiet gap. */
module Moments {
  import opened Wrappers
  import opened Sorting

  datatype Judgment = Judgment(id: string, kind: string, subject: string, at: int)

  /** A moment's key: its kind, its subject and the time of its first judgment. */
  datatype Key = Key(kind: string, subject: string, first: int)

  datatype Moment = Moment(key: Key, last: int)

  datatype Row = Row(judgment: Judgment, key: Key, eventAt: int)

  /** Each kind's quiet window. */
  type Quiet = string -> nat

  predicate ByTime(x: Judgment, y: Judgment) { x.at <= y.at }

  predicate SameSubject(x: Judgment, y: Judgment) { x.kind == y.kind && x.subject == y.subject }

  type Chain = (string, string)

  function ChainOf(j: Judgment): Chain { (j.kind, j.subject) }

  /** The latest judgment of a chain among the first n, -1 if there is none. */
  function LatestOf(js: seq<Judgment>, n: nat, c: Chain): (p: int)
    requires n <= |js|
    ensures -1 <= p < n && (p >= 0 ==> ChainOf(js[p]) == c)
    ensures forall k | p < k < n :: ChainOf(js[k]) != c
  {
    if n == 0 then -1 else if ChainOf(js[n - 1]) == c then n - 1 else LatestOf(js, n - 1, c)
  }

  /** The judgment before this one in its chain, -1 if it opens the chain. */
  function Previous(js: seq<Judgment>, i: nat): int
    requires i < |js|
  {
    LatestOf(js, i, ChainOf(js[i]))
  }

  /** The moment a judgment joins: its predecessor's while the gap is within the quiet window, else its own. */
  function KeyOf(js: seq<Judgment>, i: nat, quiet: Quiet): (key: Key)
    requires i < |js|
    ensures key.kind == js[i].kind && key.subject == js[i].subject
  {
    var p := Previous(js, i);
    if p >= 0 && js[i].at <= js[p].at + quiet(js[i].kind) then KeyOf(js, p, quiet)
    else Key(js[i].kind, js[i].subject, js[i].at)
  }

  /** The newest time under a key, as the source folds it, from zero. */
  function EventAt(js: seq<Judgment>, n: nat, key: Key, quiet: Quiet): int
    requires n <= |js|
  {
    if n == 0 then 0
    else if KeyOf(js, n - 1, quiet) == key then Max(EventAt(js, n - 1, key, quiet), js[n - 1].at)
    else EventAt(js, n - 1, key, quiet)
  }

  /** A chain's open moment after the first n judgments holds its latest one. */
  ghost predicate OpenAt(momentOf: map<Chain, Moment>, js: seq<Judgment>, n: nat, c: Chain, quiet: Quiet)
    requires n <= |js|
  {
    var p := LatestOf(js, n, c);
    (c in momentOf <==> p >= 0) && (p >= 0 ==> momentOf[c] == Moment(KeyOf(js, p, quiet), js[p].at))
  }

  ghost predicate AllOpen(momentOf: map<Chain, Moment>, js: seq<Judgment>, n: nat, quiet: Quiet)
    requires n <= |js|
  {
    forall c: Chain :: OpenAt(momentOf, js, n, c, quiet)
  }

  lemma {:induction false} OpenStep(momentOf: map<Chain, Moment>, js: seq<Judgment>, i: nat, quiet: Quiet)
    requires i < |js| && AllOpen(momentOf, js, i, quiet)
    ensures AllOpen(momentOf[ChainOf(js[i]) := Moment(KeyOf(js, i, quiet), js[i].at)], js, i + 1, quiet)
  {
    var next, n := momentOf[ChainOf(js[i]) := Moment(KeyOf(js, i, quiet), js[i].at)], i + 1;
    forall c: Chain
      ensures OpenAt(next, js, n, c, quiet)
    {
      assert OpenAt(momentOf, js, i, c, quiet);
    }
  }

  /** What the open moment says of the next judgment is its key. */
  lemma {:induction false} OpenGivesKey(momentOf: map<Chain, Moment>, js: seq<Judgment>, i: nat, quiet: Quiet)
    requires i < |js| && AllOpen(momentOf, js, i, quiet)
    ensures var j, c := js[i], ChainOf(js[i]);
            KeyOf(js, i, quiet) ==
              if c in momentOf && j.at <= momentOf[c].last + quiet(j.kind) then momentOf[c].key else Key(j.kind, j.subject, j.at)
  {
    assert OpenAt(momentOf, js, i, ChainOf(js[i]), quiet);
  }

  /** Each judgment placed on the moment it joins, over a map of the open moments. */
  method Place(js: seq<Judgment>, quiet: Quiet) returns (placed: seq<Key>)
    ensures Placed(js, placed, quiet)
  {
    var momentOf: map<Chain, Moment> := map[];
    placed := [];
    for i := 0 to |js|
      invariant AllOpen(momentOf, js, i, quiet)
      invariant |placed| == i && forall k | 0 <= k < i :: placed[k] == KeyOf(js, k, quiet)
    {
      var j, chain := js[i], ChainOf(js[i]);
      OpenGivesKey(momentOf, js, i, quiet);
      OpenStep(momentOf, js, i, quiet);
      var moment :=
        if chain in momentOf && j.at <= momentOf[chain].last + quiet(j.kind) then Moment(momentOf[chain].key, j.at)
        else Moment(Key(j.kind, j.subject, j.at), j.at);
      momentOf := momentOf[chain := moment];
      placed := placed + [moment.key];
    }
  }

  ghost predicate Placed(js: seq<Judgment>, placed: seq<Key>, quiet: Quiet) {
    |placed| == |js| && forall k | 0 <= k < |js| :: placed[k] == KeyOf(js, k, quiet)
  }

  /** The map holds the newest time of every judgment's moment. */
  ghost predicate Dates(lastOf: map<Key, int>, js: seq<Judgment>, quiet: Quiet) {
    forall k | 0 <= k < |js| ::
      KeyOf(js, k, quiet) in lastOf && lastOf[KeyOf(js, k, quiet)] == EventAt(js, |js|, KeyOf(js, k, quiet), quiet)
  }

  /** Each moment's newest time, over a map that starts every moment at zero. */
  method Newest(js: seq<Judgment>, placed: seq<Key>, quiet: Quiet) returns (lastOf: map<Key, int>)
    requires Placed(js, placed, quiet)
    ensures Dates(lastOf, js, quiet)
  {
    lastOf := map[];
    for i := 0 to |js|
      invariant forall k | 0 <= k < i :: placed[k] in lastOf
      invariant forall key | key in lastOf :: lastOf[key] == EventAt(js, i, key, quiet)
      invariant forall key | key !in lastOf :: EventAt(js, i, key, quiet) == 0
    {
      lastOf := lastOf[placed[i] := Max(if placed[i] in lastOf then lastOf[placed[i]] else 0, js[i].at)];
    }
  }

  /** The rows: judgments in time order, each with its moment and its moment's newest time. */
  method ChainMoments(judgments: seq<Judgment>, quiet: Quiet) returns (rows: seq<Row>)
    ensures var js := Sort(judgments, ByTime);
            |rows| == |js| && forall i | 0 <= i < |js| ::
              rows[i] == Row(js[i], KeyOf(js, i, quiet), EventAt(js, |js|, KeyOf(js, i, quiet), quiet))
  {
    var js := Sort(judgments, ByTime);
    var placed := Place(js, quiet);
    var lastOf := Newest(js, placed, quiet);
    rows := seq(|js|, i requires 0 <= i < |js| => Row(js[i], placed[i], lastOf[placed[i]]));
  }

  // What the keys mean

  /** Every step of one subject's judgments from i to j stays within the quiet window. */
  ghost predicate Unbroken(js: seq<Judgment>, i: nat, j: nat, quiet: Quiet)
    requires i <= j < |js|
  {
    forall k | i < k <= j && SameSubject(js[k], js[j]) ::
      Previous(js, k) >= 0 && js[k].at <= js[Previous(js, k)].at + quiet(js[j].kind)
  }

  lemma {:induction false} KeyIsNotLater(js: seq<Judgment>, i: nat, quiet: Quiet)
    requires i < |js| && Sorted(js, ByTime)
    ensures KeyOf(js, i, quiet).first <= js[i].at
  {
    var p := Previous(js, i);
    if p >= 0 && js[i].at <= js[p].at + quiet(js[i].kind) {
      KeyIsNotLater(js, p, quiet);
      assert ByTime(js[p], js[i]);
    }
  }

  /** A moment is named by the time of its first judgment: one that opens it, and none of it is earlier. */
  lemma {:induction false} KeyIsItsFirst(js: seq<Judgment>, i: nat, quiet: Quiet) returns (first: nat)
    requires i < |js| && Sorted(js, ByTime)
    ensures first <= i && KeyOf(js, first, quiet) == KeyOf(js, i, quiet) && js[first].at == KeyOf(js, i, quiet).first
    ensures Previous(js, first) < 0 || js[first].at > js[Previous(js, first)].at + quiet(js[i].kind)
    ensures forall k | 0 <= k < |js| && KeyOf(js, k, quiet) == KeyOf(js, i, quiet) :: js[first].at <= js[k].at
  {
    var p := Previous(js, i);
    if p >= 0 && js[i].at <= js[p].at + quiet(js[i].kind) {
      first := KeyIsItsFirst(js, p, quiet);
    } else {
      first := i;
      forall k | 0 <= k < |js| && KeyOf(js, k, quiet) == KeyOf(js, i, quiet)
        ensures js[i].at <= js[k].at
      {
        KeyIsNotLater(js, k, quiet);
      }
    }
  }

  /**
   * Two judgments of one kind and subject share a moment if and only if no gap
   * between consecutive ones from the first to the second exceeds the window.
   */
  lemma {:induction false} SameMomentIffUnbroken(js: seq<Judgment>, i: nat, j: nat, quiet: Quiet)
    requires Sorted(js, ByTime) && i < j < |js| && SameSubject(js[i], js[j])
    ensures KeyOf(js, i, quiet) == KeyOf(js, j, quiet) <==> Unbroken(js, i, j, quiet)
    decreases j
  {
    var p := Previous(js, j);
    assert ChainOf(js[i]) == ChainOf(js[j]) && i <= p;
    assert ByTime(js[i], js[p]) || i == p;
    assert ByTime(js[p], js[j]);
    if js[j].at <= js[p].at + quiet(js[j].kind) {
      UnbrokenStep(js, i, j, quiet);
      if i < p {
        SameMomentIffUnbroken(js, i, p, quiet);
      }
    } else {
      KeyIsNotLater(js, i, quiet);
      assert !Unbroken(js, i, j, quiet);
    }
  }

  /** A step within the window leaves the earlier part to decide. */
  lemma {:induction false} UnbrokenStep(js: seq<Judgment>, i: nat, j: nat, quiet: Quiet)
    requires i < j < |js| && SameSubject(js[i], js[j])
    requires js[j].at <= js[Previous(js, j)].at + quiet(js[j].kind)
    ensures i <= Previous(js, j)
    ensures Unbroken(js, i, j, quiet) <==> Unbroken(js, i, Previous(js, j), quiet)
  {
    var p := Previous(js, j);
    assert ChainOf(js[i]) == ChainOf(js[j]);
    if Unbroken(js, i, p, quiet) {
      forall k | i < k <= j && SameSubject(js[k], js[j])
        ensures Previous(js, k) >= 0 && js[k].at <= js[Previous(js, k)].at + quiet(js[j].kind)
      {
        assert ChainOf(js[k]) == ChainOf(js[j]);
      }
    }
  }

  /** Judgments of different kinds or subjects never share one. */
  lemma {:induction false} OtherSubjectsOtherMoments(js: seq<Judgment>, i: nat, j: nat, quiet: Quiet)
    requires i < |js| && j < |js| && !SameSubject(js[i], js[j])
    ensures KeyOf(js, i, quiet) != KeyOf(js, j, quiet)
  {
  }

  /** The last row of a moment. */
  ghost predicate LastOfMoment(js: seq<Judgment>, i: nat, n: nat, quiet: Quiet)
    requires i < n <= |js|
  {
    forall k | i < k < n :: KeyOf(js, k, quiet) != KeyOf(js, i, quiet)
  }

  /** A moment's time is its newest judgment's, floored at the epoch: right exactly when that is not before it. */
  lemma {:induction false} EventAtIsNewest(js: seq<Judgment>, i: nat, n: nat, quiet: Quiet)
    requires Sorted(js, ByTime) && i < n <= |js| && LastOfMoment(js, i, n, quiet)
    ensures EventAt(js, n, KeyOf(js, i, quiet), quiet) == Max(0, js[i].at)
    ensures EventAt(js, n, KeyOf(js, i, quiet), quiet) == js[i].at <==> js[i].at >= 0
    ensures forall k | 0 <= k < n && KeyOf(js, k, quiet) == KeyOf(js, i, quiet) :: js[k].at <= js[i].at
    decreases n
  {
    if i == n - 1 {
      EventAtBelow(js, n - 1, i, quiet);
      assert forall k | 0 <= k < n - 1 :: ByTime(js[k], js[i]);
    } else {
      EventAtIsNewest(js, i, n - 1, quiet);
    }
  }

  lemma {:induction false} EventAtBelow(js: seq<Judgment>, n: nat, i: nat, quiet: Quiet)
    requires Sorted(js, ByTime) && n <= i < |js|
    ensures 0 <= EventAt(js, n, KeyOf(js, i, quiet), quiet) <= Max(0, js[i].at)
  {
    if n > 0 {
      EventAtBelow(js, n - 1, i, quiet);
      assert ByTime(js[n - 1], js[i]);
    }
  }
}
