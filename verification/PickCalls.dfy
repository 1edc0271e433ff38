/**
 * The replay's choice of calls: issue calls newest first, then for each a fair
 * share of unused clean calls, the nearest in duration from the same caller and
 * source, else from the same source.
 */
module PickCalls {
  import opened Wrappers
  import opened Sorting

  /** `id` is the call's place in id order; `last` when it was last judged. */
  datatype Call = Call(id: nat, contact: string, source: string, caller: Option<string>, duration: real, issue: bool, last: int)

  /** How far apart two calls are; the source takes the distance of the logarithms of their durations. */
  type Gap = (Call, Call) -> real

  datatype Pick = Pick(call: Call, matchedTo: Option<nat>)

  predicate ByNewest(x: Call, y: Call) { x.last > y.last || (x.last == y.last && x.id <= y.id) }

  predicate ById(x: Call, y: Call) { x.id <= y.id }

  function Filter(calls: seq<Call>, keep: Call -> bool): (r: seq<Call>)
    ensures forall c :: c in r <==> c in calls && keep(c)
  {
    if calls == [] then [] else (if keep(calls[0]) then [calls[0]] else []) + Filter(calls[1..], keep)
  }

  lemma {:induction false} FilterSorted(calls: seq<Call>, keep: Call -> bool, before: Order<Call>)
    requires Sorted(calls, before)
    ensures Sorted(Filter(calls, keep), before)
  {
    if calls != [] {
      var rest := Filter(calls[1..], keep);
      FilterSorted(calls[1..], keep, before);
      forall i | 0 <= i < |rest|
        ensures before(calls[0], rest[i])
      {
        assert rest[i] in calls[1..];
      }
    }
  }

  function Issues(calls: seq<Call>, wanted: nat): seq<Call> {
    var sorted := Sort(Filter(calls, (c: Call) => c.issue), ByNewest);
    if wanted < |sorted| then sorted[..wanted] else sorted
  }

  function Clean(calls: seq<Call>): seq<Call> { Sort(Filter(calls, (c: Call) => !c.issue), ById) }

  // Which issues a round serves

  /** The running share of n issues, as the source's Math.floor takes it. */
  function Served(n: nat, share: real): int { (n as real * share).Floor }

  /** The issues among the first n that a round with this share attempts. */
  function Attempts(n: nat, share: real): seq<nat> {
    if n == 0 then []
    else Attempts(n - 1, share) + if Served(n, share) == Served(n - 1, share) then [] else [n - 1 as nat]
  }

  function Share(perIssue: real, round: nat): real {
    if perIssue - round as real < 1.0 then perIssue - round as real else 1.0
  }

  /** Every attempt from a round on, in order. */
  function AllAttempts(n: nat, perIssue: real, round: nat): seq<nat>
    decreases if round as real < perIssue then (perIssue - round as real).Floor + 1 else 0
  {
    if round as real >= perIssue then []
    else Attempts(n, Share(perIssue, round)) + AllAttempts(n, perIssue, round + 1)
  }

  predicate IsWholePart(n: int, x: real) { n as real <= x < n as real + 1.0 }

  lemma {:induction false} ServedIsTheWholePart(n: nat, share: real)
    ensures IsWholePart(Served(n, share), n as real * share)
  {
  }

  lemma {:induction false} ServedStep(n: nat, share: real)
    requires 0.0 <= share <= 1.0
    ensures Served(n, share) <= Served(n + 1, share) <= Served(n, share) + 1
  {
    assert (n + 1) as real * share == n as real * share + share;
  }

  /** A round with a share of n issues attempts exactly the whole part of it, each issue at most once. */
  lemma {:induction false} RoundAttempts(n: nat, share: real)
    requires 0.0 <= share <= 1.0
    ensures |Attempts(n, share)| == Served(n, share)
    ensures forall k | 0 <= k < |Attempts(n, share)| :: Attempts(n, share)[k] < n
    ensures forall i, k | 0 <= i < k < |Attempts(n, share)| :: Attempts(n, share)[i] < Attempts(n, share)[k]
  {
    if n > 0 {
      RoundAttempts(n - 1, share);
      ServedStep(n - 1, share);
    } else {
      assert 0 as real * share == 0.0;
    }
  }

  lemma {:induction false} WholeAndPart(n: nat, x: real)
    ensures Served(n, x + 1.0) == n + Served(n, x)
  {
    assert n as real * (x + 1.0) == n as real * x + n as real;
  }

  /** All rounds together attempt exactly the whole part of n times the number asked for per issue. */
  lemma {:induction false} TotalAttempts(n: nat, perIssue: real, round: nat)
    ensures |AllAttempts(n, perIssue, round)|
         == if round as real >= perIssue then 0 else Served(n, perIssue - round as real)
    ensures forall k | 0 <= k < |AllAttempts(n, perIssue, round)| :: AllAttempts(n, perIssue, round)[k] < n
    decreases if round as real < perIssue then (perIssue - round as real).Floor + 1 else 0
  {
    if round as real < perIssue {
      var left := perIssue - round as real;
      RoundAttempts(n, Share(perIssue, round));
      TotalAttempts(n, perIssue, round + 1);
      if left >= 1.0 {
        WholeAndPart(n, left - 1.0);
        assert Served(n, 1.0) == n;
        if left == 1.0 { assert n as real * 0.0 == 0.0; }
      }
    }
  }

  /** The round is even: among the first m issues it attempts exactly the whole part of their share, for every m. */
  lemma {:induction false} RoundIsEven(n: nat, share: real, m: nat)
    requires 0.0 <= share <= 1.0 && m <= n
    ensures var all, first := Attempts(n, share), Attempts(m, share);
            first <= all && |first| == Served(m, share) && IsWholePart(|first|, m as real * share) &&
            (forall k | 0 <= k < |first| :: first[k] < m) && (forall k | |first| <= k < |all| :: all[k] >= m)
  {
    RoundAttempts(m, share);
    ServedIsTheWholePart(m, share);
    if m < n {
      RoundIsEven(n - 1, share, m);
    }
  }

  /** A whole round attempts every issue, in order. */
  lemma {:induction false} WholeRound(n: nat)
    ensures |Attempts(n, 1.0)| == n && forall k | 0 <= k < n :: Attempts(n, 1.0)[k] == k
  {
    if n > 0 {
      WholeRound(n - 1);
      assert Served(n, 1.0) == n && Served(n - 1, 1.0) == n - 1;
    }
  }

  /** Issues attempted over some whole rounds, one after the other. */
  function Around(n: nat, rounds: nat): seq<nat> {
    if rounds == 0 then [] else seq(n, i requires 0 <= i < n => i) + Around(n, rounds - 1)
  }

  /** Every issue is attempted once before any is attempted again: first the whole rounds, then one round for what is left over. */
  lemma {:induction false} WholeRoundsComeFirst(n: nat, perIssue: real, round: nat)
    requires perIssue >= round as real
    ensures var rounds := (perIssue - round as real).Floor;
            AllAttempts(n, perIssue, round) ==
            Around(n, rounds) + Attempts(n, perIssue - round as real - rounds as real)
    decreases (perIssue - round as real).Floor
  {
    var left := perIssue - round as real;
    if left >= 1.0 {
      WholeRound(n);
      WholeRoundsComeFirst(n, perIssue, round + 1);
      var rest := perIssue - (round + 1) as real;
      assert rest == left - 1.0 && rest.Floor == left.Floor - 1;
      assert Attempts(n, 1.0) == seq(n, i requires 0 <= i < n => i);
      Regroup(Attempts(n, 1.0), Around(n, rest.Floor), Attempts(n, rest - rest.Floor as real));
    } else {
      assert left.Floor == 0;
      if left == 0.0 {
        NoAttempts(n);
      } else {
        assert AllAttempts(n, perIssue, round + 1) == [];
      }
      assert Around(n, 0) + Attempts(n, left) == Attempts(n, left);
    }
  }

  lemma {:induction false} NoAttempts(n: nat)
    ensures Attempts(n, 0.0) == []
  {
    if n > 0 {
      NoAttempts(n - 1);
      assert n as real * 0.0 == 0.0 && (n - 1) as real * 0.0 == 0.0;
    }
  }

  // One match

  function Free(clean: seq<Call>, used: set<nat>, issue: Call): seq<Call> {
    Filter(clean, (c: Call) => c.id !in used && c.source == issue.source)
  }

  /** The free calls of the issue's own caller if there is one, else every free call. */
  function Pool(clean: seq<Call>, used: set<nat>, issue: Call): seq<Call> {
    var free := Free(clean, used, issue);
    var own := Filter(free, (c: Call) => c.caller == issue.caller);
    if own != [] then own else free
  }

  /** The source's reduce: a later call replaces the best only when it is strictly nearer. */
  function Nearest(pool: seq<Call>, issue: Call, gap: Gap): Option<Call> {
    if pool == [] then None
    else match Nearest(Butlast(pool), issue, gap)
      case None => Some(Last(pool))
      case Some(b) => Some(if gap(Last(pool), issue) < gap(b, issue) then Last(pool) else b)
  }

  /** Nearer to the issue, or as near and of a smaller id. */
  predicate Beats(b: Call, c: Call, issue: Call, gap: Gap) {
    gap(b, issue) < gap(c, issue) || (gap(b, issue) == gap(c, issue) && b.id <= c.id)
  }

  ghost predicate BeatsAll(b: Call, pool: seq<Call>, issue: Call, gap: Gap) { forall c | c in pool :: Beats(b, c, issue, gap) }

  lemma {:induction false} LastIsLargest(pool: seq<Call>)
    requires pool != [] && Sorted(pool, ById)
    ensures forall c | c in Butlast(pool) :: c.id <= Last(pool).id
  {
    forall c | c in Butlast(pool)
      ensures c.id <= Last(pool).id
    {
      var i :| 0 <= i < |pool| - 1 && Butlast(pool)[i] == c;
      assert ById(pool[i], pool[|pool| - 1]);
    }
  }

  lemma {:induction false} BestWithLast(b: Call, less: seq<Call>, last: Call, issue: Call, gap: Gap)
    requires BeatsAll(b, less, issue, gap) && b in less && forall c | c in less :: c.id <= last.id
    ensures var best := if gap(last, issue) < gap(b, issue) then last else b;
            best in less + [last] && BeatsAll(best, less + [last], issue, gap)
  {
    var best := if gap(last, issue) < gap(b, issue) then last else b;
    forall c | c in less + [last]
      ensures Beats(best, c, issue, gap)
    {
      assert c in less || c == last;
      if c in less {
        assert Beats(b, c, issue, gap);
      }
    }
  }

  lemma {:induction false} NearestMeans(pool: seq<Call>, issue: Call, gap: Gap)
    requires Sorted(pool, ById)
    ensures pool == [] <==> Nearest(pool, issue, gap) == None
    ensures var b := Nearest(pool, issue, gap); b.Some? ==> b.value in pool && BeatsAll(b.value, pool, issue, gap)
  {
    if pool != [] {
      var less, last := Butlast(pool), Last(pool);
      assert pool == less + [last];
      NearestMeans(less, issue, gap);
      if less == [] {
        assert Nearest(pool, issue, gap) == Some(last) && pool == [last];
      } else {
        LastIsLargest(pool);
        BestWithLast(Nearest(less, issue, gap).value, less, last, issue, gap);
      }
    }
  }

  /** The choice the documentation promises for one issue, given what is used already. */
  ghost predicate Right(clean: seq<Call>, used: set<nat>, issue: Call, choice: Option<Call>, gap: Gap) {
    match choice
    case None => forall c | c in clean && c.source == issue.source :: c.id in used
    case Some(b) =>
      b in clean && b.id !in used && b.source == issue.source &&
      (b.caller == issue.caller ||
        forall c | c in clean && c.source == issue.source && c.caller == issue.caller :: c.id in used) &&
      (forall c | c in clean && c.id !in used && c.source == issue.source && c.caller == b.caller :: Beats(b, c, issue, gap)) &&
      (b.caller != issue.caller ==>
        forall c | c in clean && c.id !in used && c.source == issue.source :: Beats(b, c, issue, gap))
  }

  lemma {:induction false} ChoiceIsRight(clean: seq<Call>, used: set<nat>, issue: Call, gap: Gap)
    requires Sorted(clean, ById)
    ensures Right(clean, used, issue, Nearest(Pool(clean, used, issue), issue, gap), gap)
  {
    var free := Free(clean, used, issue);
    FilterSorted(clean, (c: Call) => c.id !in used && c.source == issue.source, ById);
    FilterSorted(free, (c: Call) => c.caller == issue.caller, ById);
    NearestMeans(Pool(clean, used, issue), issue, gap);
    var own := Filter(free, (c: Call) => c.caller == issue.caller);
    if own == [] {
      forall c | c in clean && c.source == issue.source && c.caller == issue.caller
        ensures c.id in used
      {
        assert c in free ==> c in own;
      }
    }
  }

  // All matches

  datatype Outcome = Outcome(issue: Call, choice: Option<Call>)

  function Used(trace: seq<Outcome>): set<nat> {
    if trace == [] then {}
    else Used(Butlast(trace)) + (if Last(trace).choice.Some? then {Last(trace).choice.value.id} else {})
  }

  function Choose(issues: seq<Call>, clean: seq<Call>, used: set<nat>, i: nat, gap: Gap): Outcome
    requires i < |issues|
  {
    Outcome(issues[i], Nearest(Pool(clean, used, issues[i]), issues[i], gap))
  }

  /** What every attempt, in order, comes to. */
  function Trace(issues: seq<Call>, clean: seq<Call>, attempts: seq<nat>, gap: Gap): (trace: seq<Outcome>)
    requires forall k | 0 <= k < |attempts| :: attempts[k] < |issues|
    ensures |trace| == |attempts|
  {
    if attempts == [] then []
    else
      var earlier := Trace(issues, clean, Butlast(attempts), gap);
      earlier + [Choose(issues, clean, Used(earlier), Last(attempts), gap)]
  }

  function Matches(trace: seq<Outcome>): seq<Pick> {
    if trace == [] then []
    else Matches(Butlast(trace)) + MatchOf(Last(trace))
  }

  function MatchOf(o: Outcome): seq<Pick> {
    if o.choice.Some? then [Pick(o.choice.value, Some(o.issue.id))] else []
  }

  /** The matches are the choices made, in order, each with the issue it was made for. */
  lemma {:induction false} MatchesAreTheChoices(trace: seq<Outcome>, k: nat)
    requires k < |trace|
    ensures var at := |Matches(trace[..k])|;
            at <= |Matches(trace)| &&
            |Matches(trace[..k + 1])| == at + (if trace[k].choice.Some? then 1 else 0) &&
            (trace[k].choice.Some? ==>
               at < |Matches(trace)| && Matches(trace)[at].call == trace[k].choice.value &&
               Matches(trace)[at].matchedTo == Some(trace[k].issue.id))
    decreases |trace|
  {
    var less := Butlast(trace);
    if k == |trace| - 1 {
      assert trace[..k] == less && trace[..k + 1] == trace;
    } else {
      MatchesAreTheChoices(less, k);
      assert less[..k] == trace[..k] && less[..k + 1] == trace[..k + 1] && less[k] == trace[k];
    }
  }

  lemma {:induction false} UsedMeans(trace: seq<Outcome>, id: nat)
    ensures id in Used(trace) <==> exists k :: 0 <= k < |trace| && trace[k].choice.Some? && trace[k].choice.value.id == id
  {
    if trace != [] {
      UsedMeans(Butlast(trace), id);
      assert forall k | 0 <= k < |trace| - 1 :: Butlast(trace)[k] == trace[k];
    }
  }

  /** The trace grows at its end. */
  lemma {:induction false} TraceEnds(issues: seq<Call>, clean: seq<Call>, attempts: seq<nat>, gap: Gap)
    requires attempts != [] && forall j | 0 <= j < |attempts| :: attempts[j] < |issues|
    ensures var trace, earlier := Trace(issues, clean, attempts, gap), Trace(issues, clean, Butlast(attempts), gap);
            Butlast(trace) == earlier && Last(trace) == Choose(issues, clean, Used(earlier), Last(attempts), gap)
  {
  }

  /** Every attempt makes the promised choice among the calls the earlier ones left. */
  lemma {:induction false} EveryChoiceIsRight(issues: seq<Call>, clean: seq<Call>, attempts: seq<nat>, gap: Gap, k: nat)
    requires forall j | 0 <= j < |attempts| :: attempts[j] < |issues|
    requires Sorted(clean, ById) && k < |attempts|
    ensures var trace := Trace(issues, clean, attempts, gap);
            trace[k].issue == issues[attempts[k]] && Right(clean, Used(trace[..k]), trace[k].issue, trace[k].choice, gap)
    decreases |attempts|
  {
    var trace, earlier := Trace(issues, clean, attempts, gap), Trace(issues, clean, Butlast(attempts), gap);
    TraceEnds(issues, clean, attempts, gap);
    assert trace == earlier + [Last(trace)];
    if k == |attempts| - 1 {
      assert trace[..k] == earlier;
      ChoiceIsRight(clean, Used(earlier), issues[Last(attempts)], gap);
    } else {
      EveryChoiceIsRight(issues, clean, Butlast(attempts), gap, k);
      assert trace[..k] == earlier[..k] && trace[k] == earlier[k];
    }
  }

  /** No clean call is picked twice. */
  lemma {:induction false} NoCallTwice(issues: seq<Call>, clean: seq<Call>, attempts: seq<nat>, gap: Gap, i: nat, k: nat)
    requires forall j | 0 <= j < |attempts| :: attempts[j] < |issues|
    requires Sorted(clean, ById) && i < k < |attempts|
    ensures var trace := Trace(issues, clean, attempts, gap);
            trace[i].choice.Some? && trace[k].choice.Some? ==> trace[i].choice.value.id != trace[k].choice.value.id
  {
    var trace := Trace(issues, clean, attempts, gap);
    EveryChoiceIsRight(issues, clean, attempts, gap, k);
    if trace[i].choice.Some? {
      assert trace[..k][i] == trace[i];
      UsedMeans(trace[..k], trace[i].choice.value.id);
    }
  }

  function Picks(issues: seq<Call>): (r: seq<Pick>)
    ensures |r| == |issues| && forall i | 0 <= i < |r| :: r[i] == Pick(issues[i], None)
  {
    seq(|issues|, i requires 0 <= i < |issues| => Pick(issues[i], None))
  }

  /** Every attempt of a whole run and what it came to. */
  function Chosen(calls: seq<Call>, wanted: nat, perIssue: real, gap: Gap): seq<Outcome> {
    TotalAttempts(|Issues(calls, wanted)|, perIssue, 0);
    Trace(Issues(calls, wanted), Clean(calls), AllAttempts(|Issues(calls, wanted)|, perIssue, 0), gap)
  }

  /** Where the loops stand after some attempts. */
  ghost predicate Stands(issues: seq<Call>, clean: seq<Call>, attempts: seq<nat>, gap: Gap, used: set<nat>, out: seq<Pick>) {
    (forall k | 0 <= k < |attempts| :: attempts[k] < |issues|) &&
    var trace := Trace(issues, clean, attempts, gap);
    used == Used(trace) && out == Picks(issues) + Matches(trace)
  }

  lemma {:induction false} StandsAfter(issues: seq<Call>, clean: seq<Call>, attempts: seq<nat>, gap: Gap, used: set<nat>, out: seq<Pick>, i: nat)
    requires Stands(issues, clean, attempts, gap, used, out) && i < |issues|
    ensures var o := Choose(issues, clean, used, i, gap);
            Stands(issues, clean, attempts + [i], gap,
                   if o.choice.Some? then used + {o.choice.value.id} else used, out + MatchOf(o))
  {
    var more := attempts + [i];
    assert Butlast(more) == attempts && Last(more) == i;
    var trace := Trace(issues, clean, more, gap);
    assert Butlast(trace) == Trace(issues, clean, attempts, gap);
    assert out + MatchOf(Last(trace)) == Picks(issues) + Matches(trace);
  }

  /** The source's test for leaving an issue to another round. */
  method LeavesOut(i: nat, share: real) returns (skip: bool)
    ensures Attempts(i + 1, share) == Attempts(i, share) + if skip then [] else [i]
  {
    return Served(i + 1, share) == Served(i, share);
  }

  lemma {:induction false} AttemptsOn(before: seq<nat>, now: seq<nat>, more: seq<nat>)
    ensures before + (now + more) == before + now + more
  {
  }

  /** One round: every issue of its share, with the used calls and the picks grown as it goes. */
  method PickRound(issues: seq<Call>, clean: seq<Call>, share: real, gap: Gap, ghost before: seq<nat>, usedBefore: set<nat>, outBefore: seq<Pick>)
    returns (used: set<nat>, out: seq<Pick>)
    requires Stands(issues, clean, before, gap, usedBefore, outBefore)
    ensures Stands(issues, clean, before + Attempts(|issues|, share), gap, used, out)
  {
    used, out := usedBefore, outBefore;
    ghost var attempts := before;
    for i := 0 to |issues|
      invariant attempts == before + Attempts(i, share)
      invariant Stands(issues, clean, attempts, gap, used, out)
    {
      var skip := LeavesOut(i, share);
      AttemptsOn(before, Attempts(i, share), if skip then [] else [i]);
      if skip { continue; }
      StandsAfter(issues, clean, attempts, gap, used, out, i);
      attempts := attempts + [i];
      var best := Nearest(Pool(clean, used, issues[i]), issues[i], gap);
      if best == None { continue; }
      used := used + {best.value.id};
      out := out + [Pick(best.value, Some(issues[i].id))];
    }
  }

  /** All rounds: the attempts from each round on are what is left of the whole. */
  method PickRounds(issues: seq<Call>, clean: seq<Call>, perIssue: real, gap: Gap) returns (used: set<nat>, out: seq<Pick>)
    ensures Stands(issues, clean, AllAttempts(|issues|, perIssue, 0), gap, used, out)
  {
    used, out := {}, Picks(issues);
    ghost var attempts: seq<nat> := [];
    ghost var n, all := |issues|, AllAttempts(|issues|, perIssue, 0);
    var round := 0;
    while round as real < perIssue
      invariant attempts + AllAttempts(n, perIssue, round) == all
      invariant Stands(issues, clean, attempts, gap, used, out)
      decreases if round as real < perIssue then (perIssue - round as real).Floor + 1 else 0
    {
      var share := Share(perIssue, round);
      ghost var now, later := Attempts(n, share), AllAttempts(n, perIssue, round + 1);
      assert AllAttempts(n, perIssue, round) == now + later;
      used, out := PickRound(issues, clean, share, gap, attempts, used, out);
      AttemptsOn(attempts, now, later);
      attempts := attempts + now;
      round := round + 1;
    }
    assert attempts + [] == attempts;
  }

  /** The whole choice: the issue calls, then the matches round by round. */
  method PickAll(calls: seq<Call>, wanted: nat, perIssue: real, gap: Gap) returns (out: seq<Pick>)
    ensures out == Picks(Issues(calls, wanted)) + Matches(Chosen(calls, wanted, perIssue, gap))
  {
    var used;
    used, out := PickRounds(Issues(calls, wanted), Clean(calls), perIssue, gap);
  }

  /** Over the whole run, the whole part of issues times clean calls per issue is attempted. */
  lemma {:induction false} WholeShareIsAttempted(calls: seq<Call>, wanted: nat, perIssue: real, gap: Gap)
    requires perIssue > 0.0
    ensures |Chosen(calls, wanted, perIssue, gap)| == Served(|Issues(calls, wanted)|, perIssue)
    ensures IsWholePart(|Chosen(calls, wanted, perIssue, gap)|, |Issues(calls, wanted)| as real * perIssue)
  {
    TotalAttempts(|Issues(calls, wanted)|, perIssue, 0);
    ServedIsTheWholePart(|Issues(calls, wanted)|, perIssue);
  }

  /** Every attempt makes the documented choice among the clean calls no earlier attempt took. */
  lemma {:induction false} PicksAreRight(calls: seq<Call>, wanted: nat, perIssue: real, gap: Gap, k: nat)
    requires k < |Chosen(calls, wanted, perIssue, gap)|
    ensures var trace := Chosen(calls, wanted, perIssue, gap);
            trace[k].issue in Issues(calls, wanted) &&
            Right(Clean(calls), Used(trace[..k]), trace[k].issue, trace[k].choice, gap)
  {
    TotalAttempts(|Issues(calls, wanted)|, perIssue, 0);
    CleanIsSorted(calls);
    EveryChoiceIsRight(Issues(calls, wanted), Clean(calls), AllAttempts(|Issues(calls, wanted)|, perIssue, 0), gap, k);
  }

  lemma {:induction false} CleanIsSorted(calls: seq<Call>)
    ensures Sorted(Clean(calls), ById)
    ensures forall c :: c in Clean(calls) <==> c in calls && !c.issue
  {
    SortedMembers(Filter(calls, (c: Call) => !c.issue), ById);
  }

  /** The issue calls: all of them up to the number wanted, none older than one left out, newest first. */
  lemma {:induction false} IssuesAreNewest(calls: seq<Call>, wanted: nat)
    ensures var all := Sort(Filter(calls, (c: Call) => c.issue), ByNewest);
            Issues(calls, wanted) <= all && |Issues(calls, wanted)| == Min(wanted, |all|) && Sorted(all, ByNewest) &&
            (forall c :: c in all <==> c in calls && c.issue)
  {
    NewestIsTotal();
    SortedMembers(Filter(calls, (c: Call) => c.issue), ByNewest);
  }

  lemma {:induction false} NewestIsTotal()
    ensures Total(ByNewest)
  {
  }
}
