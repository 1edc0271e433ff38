/** The banner gate over whole runs: what each promise comes to, and how far apart one conversation's banners stay. */
module BannerRuns {
  import opened Wrappers
  import opened RecentKeys
  import opened BannerGate

  /** The clock reads something new, later or not; a banner is asked for; or a live grace timer fires. */
  datatype Event = Reads(now: int) | Ask(onScreen: bool, payload: Payload) | GraceEnds(hold: nat)

  datatype Clocked = Clocked(gate: Gate, now: int)

  predicate Enabled(c: Clocked, e: Event) { e.GraceEnds? ==> e.hold in c.gate.timers }

  function Step(c: Clocked, e: Event, r: Rules): Clocked
    requires Enabled(c, e)
  {
    match e
    case Reads(now) => c.(now := now)
    case Ask(onScreen, p) => c.(gate := Admit(c.gate, onScreen, p, c.now, r).0)
    case GraceEnds(hold) => c.(gate := RunOut(c.gate, hold, c.now, r))
  }

  predicate Possible(c: Clocked, events: seq<Event>, r: Rules)
    decreases |events|
  {
    events == [] || (Enabled(c, events[0]) && Possible(Step(c, events[0], r), events[1..], r))
  }

  function Run(c: Clocked, events: seq<Event>, r: Rules): Clocked
    requires Possible(c, events, r)
    decreases |events|
  {
    if events == [] then c else Run(Step(c, events[0], r), events[1..], r)
  }

  /** The clock never goes back. */
  predicate Forward(now: int, events: seq<Event>)
    decreases |events|
  {
    events == [] ||
    (if events[0].Reads? then now <= events[0].now && Forward(events[0].now, events[1..]) else Forward(now, events[1..]))
  }

  // The cooldown remembers enough

  /** The claims a gate made: banners put up under a conversation, in order. */
  function Claims(delivered: seq<Delivery>): Seen {
    if delivered == [] then []
    else Claims(Butlast(delivered)) + ClaimOf(Last(delivered))
  }

  function ClaimOf(d: Delivery): Seen {
    match d.key case None => [] case Some(k) => [(k, d.at)]
  }

  /** The place of a key's latest claim, -1 if it has none. */
  function Latest(log: Seen, key: string): (i: int)
    ensures -1 <= i < |log| && (i >= 0 ==> log[i].0 == key)
    ensures forall j | i < j < |log| :: log[j].0 != key
  {
    if log == [] then -1 else if Last(log).0 == key then |log| - 1 else Latest(Butlast(log), key)
  }

  function KeysAfter(log: Seen, i: int): set<string> {
    set j | 0 <= j < |log| && i < j :: log[j].0
  }

  /** Other conversations claimed strictly between two claims. */
  function KeysBetween(log: Seen, i: int, j: int): set<string>
    requires 0 <= i < j < |log|
  {
    (set k | i < k < j :: log[k].0) - {log[i].0}
  }

  ghost predicate IsLatest(e: (string, int), log: Seen) {
    Latest(log, e.0) >= 0 && log[Latest(log, e.0)] == e
  }

  ghost predicate Before(a: (string, int), b: (string, int), log: Seen) {
    Latest(log, a.0) < Latest(log, b.0)
  }

  /** The cooldown's entries are latest claims, in claim order. */
  ghost predicate Backed(seen: Seen, log: Seen) {
    (forall i | 0 <= i < |seen| :: IsLatest(seen[i], log)) &&
    (forall i, j | 0 <= i < j < |seen| :: Before(seen[i], seen[j], log))
  }

  ghost predicate Holds(seen: Seen, key: string) {
    exists i :: 0 <= i < |seen| && seen[i].0 == key
  }

  /** A claimed key the cooldown lost is either past its window or outnumbered. */
  ghost predicate Accounted(seen: Seen, log: Seen, key: string, now: int, r: Rules) {
    Latest(log, key) >= 0 ==>
      Holds(seen, key) || now - log[Latest(log, key)].1 > r.cooldownMs || |KeysAfter(log, Latest(log, key))| >= r.maxKeys
  }

  ghost predicate AllAccounted(seen: Seen, log: Seen, now: int, r: Rules) {
    forall key :: Accounted(seen, log, key, now, r)
  }

  /** The two claims lie further apart than the window, or have enough other keys between them. */
  ghost predicate PairSpaced(log: Seen, i: int, j: int, r: Rules)
    requires 0 <= i < j < |log|
  {
    log[j].1 - log[i].1 > r.cooldownMs || |KeysBetween(log, i, j)| >= r.maxKeys
  }

  /** Every two claims of one key are so spaced. */
  ghost predicate Spaced(log: Seen, r: Rules) {
    forall i, j | 0 <= i < j < |log| && log[i].0 == log[j].0 :: PairSpaced(log, i, j, r)
  }

  ghost predicate InOrder(log: Seen, now: int) {
    (forall i, j | 0 <= i < j < |log| :: log[i].1 <= log[j].1) && (forall i | 0 <= i < |log| :: log[i].1 <= now)
  }

  ghost predicate Remembers(seen: Seen, log: Seen, now: int, r: Rules) {
    Backed(seen, log) && AllAccounted(seen, log, now, r) && Spaced(log, r) && InOrder(log, now) && |seen| <= r.maxKeys
  }

  lemma {:induction false} BackedCons(e: (string, int), rest: Seen, log: Seen)
    requires IsLatest(e, log) && Backed(rest, log) && forall i | 0 <= i < |rest| :: Before(e, rest[i], log)
    ensures Backed([e] + rest, log)
  {
  }

  lemma {:induction false} BackedSuffix(seen: Seen, log: Seen, cut: nat)
    requires Backed(seen, log) && cut <= |seen|
    ensures Backed(seen[cut..], log)
  {
    var tail := seen[cut..];
    forall i | 0 <= i < |tail|
      ensures IsLatest(tail[i], log)
    {
      assert tail[i] == seen[cut + i];
    }
    forall i, j | 0 <= i < j < |tail|
      ensures Before(tail[i], tail[j], log)
    {
      assert tail[i] == seen[cut + i] && tail[j] == seen[cut + j];
    }
  }

  lemma {:induction false} PurgeAfterFirst(seen: Seen, log: Seen, now: int, ttl: int)
    requires seen != [] && Backed(seen, log)
    ensures forall i | 0 <= i < |Purge(seen[1..], now, ttl)| :: Before(seen[0], Purge(seen[1..], now, ttl)[i], log)
  {
    var tail, rest := seen[1..], Purge(seen[1..], now, ttl);
    PurgeKeeps(tail, now, ttl);
    forall i | 0 <= i < |rest|
      ensures Before(seen[0], rest[i], log)
    {
      var j :| 0 <= j < |tail| && tail[j] == rest[i];
      assert seen[j + 1] == rest[i];
    }
  }

  lemma {:induction false} PurgeBacked(seen: Seen, log: Seen, now: int, ttl: int)
    requires Backed(seen, log)
    ensures Backed(Purge(seen, now, ttl), log)
  {
    if seen != [] {
      BackedSuffix(seen, log, 1);
      PurgeBacked(seen[1..], log, now, ttl);
      PurgeAfterFirst(seen, log, now, ttl);
      BackedCons(seen[0], Purge(seen[1..], now, ttl), log);
    }
  }

  lemma {:induction false} PurgeAccounts(seen: Seen, log: Seen, now: int, r: Rules)
    requires Backed(seen, log) && AllAccounted(seen, log, now, r)
    ensures AllAccounted(Purge(seen, now, r.cooldownMs), log, now, r)
  {
    var kept := Purge(seen, now, r.cooldownMs);
    PurgeKeeps(seen, now, r.cooldownMs);
    forall key
      ensures Accounted(kept, log, key, now, r)
    {
      assert Accounted(seen, log, key, now, r);
      if Holds(seen, key) {
        var i :| 0 <= i < |seen| && seen[i].0 == key;
        if now - seen[i].1 <= r.cooldownMs {
          assert seen[i] in kept;
          var j :| 0 <= j < |kept| && kept[j] == seen[i];
          assert kept[j].0 == key;
        }
      }
    }
  }

  lemma {:induction false} LatestPush(log: Seen, e: (string, int), key: string)
    ensures Latest(log + [e], key) == if e.0 == key then |log| else Latest(log, key)
  {
    assert Butlast(log + [e]) == log;
  }

  lemma {:induction false} KeysAfterPush(log: Seen, e: (string, int), i: int)
    requires i < |log|
    ensures KeysAfter(log + [e], i) == KeysAfter(log, i) + {e.0}
    ensures |KeysAfter(log + [e], i)| >= |KeysAfter(log, i)|
  {
    var log' := log + [e];
    assert log'[|log|] == e;
    assert forall j | 0 <= j < |log| :: log'[j] == log[j];
    forall k | k in KeysAfter(log, i) + {e.0}
      ensures k in KeysAfter(log', i)
    {
      if k in KeysAfter(log, i) {
        var j :| 0 <= j < |log| && i < j && log[j].0 == k;
        assert log'[j].0 == k;
      }
    }
    SubsetSize(KeysAfter(log, i), KeysAfter(log', i));
  }

  lemma {:induction false} SubsetSize<T>(a: set<T>, b: set<T>)
    requires a <= b
    ensures |a| <= |b|
  {
    assert b == a + (b - a);
  }

  lemma {:induction false} PushBacked(seen: Seen, log: Seen, key: string, now: int)
    requires Backed(seen, log) && !Holds(seen, key)
    ensures Backed(seen + [(key, now)], log + [(key, now)])
  {
    var log' := log + [(key, now)];
    forall i | 0 <= i < |seen|
      ensures Latest(log', seen[i].0) == Latest(log, seen[i].0) && IsLatest(seen[i], log')
    {
      assert IsLatest(seen[i], log);
      LatestPush(log, (key, now), seen[i].0);
    }
    LatestPush(log, (key, now), key);
    forall i, j | 0 <= i < j < |seen|
      ensures Before(seen[i], seen[j], log')
    {
      assert Before(seen[i], seen[j], log);
    }
  }

  lemma {:induction false} PushAccounts(seen: Seen, log: Seen, key: string, now: int, r: Rules)
    requires AllAccounted(seen, log, now, r)
    ensures AllAccounted(seen + [(key, now)], log + [(key, now)], now, r)
  {
    var seen', log' := seen + [(key, now)], log + [(key, now)];
    forall k
      ensures Accounted(seen', log', k, now, r)
    {
      assert Accounted(seen, log, k, now, r);
      LatestPush(log, (key, now), k);
      if k == key {
        assert seen'[|seen|].0 == key;
      } else {
        if Holds(seen, k) {
          var i :| 0 <= i < |seen| && seen[i].0 == k;
          assert seen'[i].0 == k;
        }
        KeysAfterPush(log, (key, now), Latest(log, k));
      }
    }
  }

  lemma {:induction false} SameBetween(log: Seen, longer: Seen, i: int, j: int)
    requires 0 <= i < j < |log| && log <= longer
    ensures KeysBetween(longer, i, j) == KeysBetween(log, i, j)
  {
    assert forall k | 0 <= k < |log| :: log[k] == longer[k];
    var a, b := (set k | i < k < j :: log[k].0), (set k | i < k < j :: longer[k].0);
    forall x | x in a
      ensures x in b
    {
      var k :| i < k < j && log[k].0 == x;
      assert longer[k].0 == x;
    }
    forall x | x in b
      ensures x in a
    {
      var k :| i < k < j && longer[k].0 == x;
      assert log[k].0 == x;
    }
  }

  lemma {:induction false} KeysSinceLast(log: Seen, key: string, now: int, i: nat)
    requires i < |log| && log[i].0 == key
    ensures i <= Latest(log, key) && |KeysAfter(log, Latest(log, key))| <= |KeysBetween(log + [(key, now)], i, |log|)|
  {
    var log', last := log + [(key, now)], Latest(log, key);
    forall k | k in KeysAfter(log, last)
      ensures k in KeysBetween(log', i, |log|)
    {
      var m :| 0 <= m < |log| && last < m && log[m].0 == k;
      assert log'[m].0 == k;
    }
    SubsetSize(KeysAfter(log, last), KeysBetween(log', i, |log|));
  }

  lemma {:induction false} EarlierPair(log: Seen, e: (string, int), i: int, j: int, r: Rules)
    requires 0 <= i < j < |log| && PairSpaced(log, i, j, r)
    ensures PairSpaced(log + [e], i, j, r)
  {
    var longer := log + [e];
    SameBetween(log, longer, i, j);
    assert longer[i] == log[i] && longer[j] == log[j];
  }

  /** The gap of a fresh claim to the key's last: gone from the cooldown means expired or outnumbered. */
  lemma {:induction false} FreshPair(seen: Seen, log: Seen, key: string, now: int, i: int, r: Rules)
    requires InOrder(log, now) && !Holds(seen, key) && Accounted(seen, log, key, now, r)
    requires 0 <= i < |log| && log[i].0 == key
    ensures PairSpaced(log + [(key, now)], i, |log|, r)
  {
    var longer := log + [(key, now)];
    assert longer[i] == log[i] && longer[|log|] == (key, now);
    KeysSinceLast(log, key, now, i);
    assert log[i].1 <= log[Latest(log, key)].1;
  }

  lemma {:induction false} AnyPair(seen: Seen, log: Seen, key: string, now: int, i: int, j: int, r: Rules)
    requires Spaced(log, r) && InOrder(log, now) && !Holds(seen, key) && Accounted(seen, log, key, now, r)
    requires 0 <= i < j <= |log| && (log + [(key, now)])[i].0 == (log + [(key, now)])[j].0
    ensures PairSpaced(log + [(key, now)], i, j, r)
  {
    var longer := log + [(key, now)];
    assert longer[i] == log[i];
    if j < |log| {
      assert longer[j] == log[j];
      assert PairSpaced(log, i, j, r);
      EarlierPair(log, (key, now), i, j, r);
    } else {
      FreshPair(seen, log, key, now, i, r);
    }
  }

  lemma {:induction false} PushSpaced(seen: Seen, log: Seen, key: string, now: int, r: Rules)
    requires Spaced(log, r) && InOrder(log, now) && !Holds(seen, key) && Accounted(seen, log, key, now, r)
    ensures Spaced(log + [(key, now)], r)
  {
    var longer := log + [(key, now)];
    forall i, j | 0 <= i < j < |longer| && longer[i].0 == longer[j].0
      ensures PairSpaced(longer, i, j, r)
    {
      AnyPair(seen, log, key, now, i, j, r);
    }
  }

  function KeysOf(seen: Seen): set<string> {
    if seen == [] then {} else KeysOf(Butlast(seen)) + {Last(seen).0}
  }

  lemma {:induction false} KeysOfMeans(seen: Seen, key: string)
    ensures key in KeysOf(seen) ==> exists i :: 0 <= i < |seen| && seen[i].0 == key
  {
    if seen != [] {
      if key == Last(seen).0 {
        assert seen[|seen| - 1].0 == key;
      } else if key in KeysOf(Butlast(seen)) {
        KeysOfMeans(Butlast(seen), key);
        var i :| 0 <= i < |seen| - 1 && Butlast(seen)[i].0 == key;
        assert seen[i].0 == key;
      }
    }
  }

  lemma {:induction false} DistinctKeys(seen: Seen)
    requires Distinct(seen)
    ensures |KeysOf(seen)| == |seen|
  {
    if seen != [] {
      var less := Butlast(seen);
      assert Distinct(less);
      DistinctKeys(less);
      KeysOfMeans(less, Last(seen).0);
      assert forall i | 0 <= i < |less| :: less[i].0 == seen[i].0 != Last(seen).0;
    }
  }

  lemma {:induction false} BackedIsDistinct(seen: Seen, log: Seen)
    requires Backed(seen, log)
    ensures Distinct(seen)
  {
    forall i, j | 0 <= i < j < |seen|
      ensures seen[i].0 != seen[j].0
    {
      assert Before(seen[i], seen[j], log);
    }
  }

  /** An entry is outnumbered by the entries from some later place on. */
  lemma {:induction false} Outnumbered(seen: Seen, log: Seen, i: nat, cut: nat)
    requires Backed(seen, log) && i < cut <= |seen|
    ensures |KeysAfter(log, Latest(log, seen[i].0))| >= |seen| - cut
  {
    var kept := seen[cut..];
    var keys := KeysOf(kept);
    BackedSuffix(seen, log, cut);
    BackedIsDistinct(kept, log);
    DistinctKeys(kept);
    forall k | k in keys
      ensures k in KeysAfter(log, Latest(log, seen[i].0))
    {
      KeysOfMeans(kept, k);
      var q :| 0 <= q < |kept| && kept[q].0 == k;
      assert kept[q] == seen[cut + q];
      assert Before(seen[i], seen[cut + q], log) && IsLatest(seen[cut + q], log);
    }
    SubsetSize(keys, KeysAfter(log, Latest(log, seen[i].0)));
  }

  /** Entries the cap drops are outnumbered by those it keeps. */
  lemma {:induction false} CapAccounts(seen: Seen, log: Seen, now: int, r: Rules)
    requires Backed(seen, log) && AllAccounted(seen, log, now, r)
    ensures AllAccounted(Capped(seen, r.maxKeys), log, now, r)
  {
    var kept := Capped(seen, r.maxKeys);
    var cut := |seen| - |kept|;
    forall key
      ensures Accounted(kept, log, key, now, r)
    {
      assert Accounted(seen, log, key, now, r);
      if Holds(seen, key) {
        var i :| 0 <= i < |seen| && seen[i].0 == key;
        if i >= cut {
          assert kept[i - cut].0 == key;
        } else {
          Outnumbered(seen, log, i, cut);
        }
      }
    }
  }

  lemma {:induction false} CapBacked(seen: Seen, log: Seen, maxKeys: nat)
    requires Backed(seen, log)
    ensures Backed(Capped(seen, maxKeys), log)
  {
    if |seen| > maxKeys {
      BackedSuffix(seen, log, |seen| - maxKeys);
    }
  }

  lemma {:induction false} PurgeShortens(seen: Seen, now: int, ttl: int)
    ensures |Purge(seen, now, ttl)| <= |seen|
  {
    if seen != [] { PurgeShortens(seen[1..], now, ttl); }
  }

  /** A claim, granted or refused, keeps the memory good. */
  lemma {:induction false} ClaimRemembers(seen: Seen, log: Seen, key: string, now: int, r: Rules)
    requires Remembers(seen, log, now, r)
    ensures var (ok, after) := BurstClaim(seen, key, now, r.cooldownMs, r.maxKeys);
            Remembers(after, if ok then log + [(key, now)] else log, now, r)
  {
    var kept := Purge(seen, now, r.cooldownMs);
    PurgeBacked(seen, log, now, r.cooldownMs);
    PurgeAccounts(seen, log, now, r);
    PurgeShortens(seen, now, r.cooldownMs);
    FindMeans(kept, key);
    if Find(kept, key) == None {
      assert Accounted(kept, log, key, now, r);
      PushBacked(kept, log, key, now);
      PushAccounts(kept, log, key, now, r);
      PushSpaced(kept, log, key, now, r);
      CapBacked(kept + [(key, now)], log + [(key, now)], r.maxKeys);
      CapAccounts(kept + [(key, now)], log + [(key, now)], now, r);
    }
  }

  // Whole runs

  ghost predicate Good(c: Clocked, r: Rules) {
    Inv(c.gate, c.now, r) && Remembers(c.gate.cooldown, Claims(c.gate.delivered), c.now, r)
  }

  lemma {:induction false} ClaimsPush(delivered: seq<Delivery>, d: Delivery)
    ensures Claims(delivered + [d]) == Claims(delivered) + ClaimOf(d)
  {
    assert Butlast(delivered + [d]) == delivered;
  }

  lemma {:induction false} FireRemembers(g: Gate, p: Payload, key: Option<string>, now: int, r: Rules)
    requires Remembers(g.cooldown, Claims(g.delivered), now, r)
    ensures var after := Fire(g, p, key, now, r).0;
            Remembers(after.cooldown, Claims(after.delivered), now, r)
  {
    ClaimsPush(g.delivered, Delivery(p, key, now));
    if key.Some? {
      ClaimRemembers(g.cooldown, Claims(g.delivered), key.value, now, r);
    } else {
      assert Claims(g.delivered) + [] == Claims(g.delivered);
    }
  }

  ghost predicate Mindful(g: Gate, now: int, r: Rules) { Remembers(g.cooldown, Claims(g.delivered), now, r) }

  lemma {:induction false} AnsweringMinds(g: Gate, a: Answer, now: int, r: Rules)
    requires Mindful(g, now, r)
    ensures Mindful(Answering(g, a).0, now, r)
  {
  }

  lemma {:induction false} FireAndAnswerMinds(g: Gate, p: Payload, key: Option<string>, now: int, r: Rules)
    requires Mindful(g, now, r)
    ensures var (fired, a) := Fire(g, p, key, now, r); Mindful(Answering(fired, a).0, now, r)
  {
    FireRemembers(g, p, key, now, r);
    AnsweringMinds(Fire(g, p, key, now, r).0, Fire(g, p, key, now, r).1, now, r);
  }

  lemma {:induction false} CompletionMinds(g: Gate, p: Payload, key: string, now: int, r: Rules)
    requires Mindful(g, now, r)
    ensures var (fired, a) := Fire(Release(g, key), p, Some(key), now, r); Mindful(Answering(fired, a).0, now, r)
  {
    assert Release(g, key).cooldown == g.cooldown && Release(g, key).delivered == g.delivered;
    FireAndAnswerMinds(Release(g, key), p, Some(key), now, r);
  }

  lemma {:induction false} AdmitRemembers(g: Gate, onScreen: bool, p: Payload, now: int, r: Rules)
    requires Mindful(g, now, r)
    ensures Mindful(Admit(g, onScreen, p, now, r).0, now, r)
  {
    var (unseen, recent) := Claim(g.recent, p.key, now, RECENT_TTL_MS);
    var g' := g.(recent := recent);
    assert Mindful(g', now, r);
    if !p.force && onScreen {
      AnsweringMinds(g, Dropped(FocusedActive), now, r);
    } else if !unseen {
      AnsweringMinds(g', Dropped(Duplicate), now, r);
    } else if p.force || p.conversation == None {
      FireAndAnswerMinds(g', p, None, now, r);
    } else if p.completion {
      CompletionMinds(g', p, p.conversation.value, now, r);
    } else if p.conversation.value in g'.held {
      AnsweringMinds(g', Dropped(Burst), now, r);
    } else if Cooling(g'.cooldown, p.conversation.value, now, r.cooldownMs) {
      AnsweringMinds(g', Dropped(InCooldown), now, r);
    } else {
      HoldMinds(g', p, p.conversation.value, now, r);
    }
  }

  lemma {:induction false} HoldMinds(g: Gate, p: Payload, key: string, now: int, r: Rules)
    requires Mindful(g, now, r)
    ensures Mindful(Hold(g, p, key, now, r), now, r)
  {
    var after := Hold(g, p, key, now, r);
    assert after.cooldown == g.cooldown && after.delivered == g.delivered;
  }

  lemma {:induction false} LaterKeeps(c: Clocked, later: int, r: Rules)
    requires Good(c, r) && c.now <= later
    ensures Good(c.(now := later), r)
  {
    var log := Claims(c.gate.delivered);
    forall key
      ensures Accounted(c.gate.cooldown, log, key, later, r)
    {
      assert Accounted(c.gate.cooldown, log, key, c.now, r);
    }
    forall k | k in c.gate.held
      ensures !Cooling(c.gate.cooldown, k, later, r.cooldownMs)
    {
      assert !Cooling(c.gate.cooldown, k, c.now, r.cooldownMs);
    }
  }

  lemma {:induction false} StepGood(c: Clocked, e: Event, r: Rules)
    requires Good(c, r) && Enabled(c, e) && (e.Reads? ==> c.now <= e.now)
    ensures Good(Step(c, e, r), r)
  {
    match e {
      case Reads(now) => LaterKeeps(c, now, r);
      case Ask(onScreen, p) =>
        AdmitKeeps(c.gate, onScreen, p, c.now, r);
        AdmitFrees(c.gate, onScreen, p, c.now, r);
        AdmitRemembers(c.gate, onScreen, p, c.now, r);
      case GraceEnds(hold) =>
        RunOutShows(c.gate, hold, c.now, r);
        var t := c.gate.timers[hold];
        var out := c.gate.(held := c.gate.held - {t.key}, timers := c.gate.timers - {hold});
        FireRemembers(out, t.payload, Some(t.key), c.now, r);
    }
  }

  lemma {:induction false} RunGood(c: Clocked, events: seq<Event>, r: Rules)
    requires Good(c, r) && Possible(c, events, r) && Forward(c.now, events)
    ensures Good(Run(c, events, r), r)
    decreases |events|
  {
    if events != [] {
      StepGood(c, events[0], r);
      RunGood(Step(c, events[0], r), events[1..], r);
    }
  }

  lemma {:induction false} StartGood(now: int, r: Rules)
    ensures Good(Clocked(START, now), r)
  {
    StartInv(now, r);
  }

  lemma {:induction false} StepSound(c: Clocked, e: Event, r: Rules)
    requires Sound(c.gate, r) && Enabled(c, e)
    ensures Sound(Step(c, e, r).gate, r)
  {
    match e {
      case Reads(_) =>
      case Ask(onScreen, p) => AdmitKeeps(c.gate, onScreen, p, c.now, r);
      case GraceEnds(hold) => RunOutExactly(c.gate, hold, c.now, r);
    }
  }

  lemma {:induction false} RunSound(c: Clocked, events: seq<Event>, r: Rules)
    requires Sound(c.gate, r) && Possible(c, events, r)
    ensures Sound(Run(c, events, r).gate, r)
    decreases |events|
  {
    if events != [] {
      StepSound(c, events[0], r);
      RunSound(Step(c, events[0], r), events[1..], r);
    }
  }

  /**
   * In every reachable state, whatever the clock did, the cooldown is bounded,
   * live timers match held conversations, every promise so far is held or
   * settled exactly once, and the banners put up are exactly the answers that
   * say so.
   */
  lemma {:induction false} EveryStateIsSound(start: int, events: seq<Event>, r: Rules)
    requires Possible(Clocked(START, start), events, r)
    ensures Sound(Run(Clocked(START, start), events, r).gate, r)
  {
    StartInv(start, r);
    RunSound(Clocked(START, start), events, r);
  }

  /** In every run of a clock that does not go back, a held banner whose grace ends is put up. */
  lemma {:induction false} HeldBannersAreNeverLost(start: int, events: seq<Event>, hold: nat, r: Rules)
    requires Possible(Clocked(START, start), events, r) && Forward(start, events)
    requires hold in Run(Clocked(START, start), events, r).gate.timers
    ensures var end := Run(Clocked(START, start), events, r);
            Step(end, GraceEnds(hold), r).gate.resolved == end.gate.resolved + [(hold, Shown)]
  {
    StartGood(start, r);
    RunGood(Clocked(START, start), events, r);
    var end := Run(Clocked(START, start), events, r);
    RunOutShows(end.gate, hold, end.now, r);
  }

  /**
   * In every run at all, clock set back or not, a held banner whose grace ends
   * is lost if and only if its conversation is cooling by the clock of that
   * moment; a banner not lost is put up, once.
   */
  lemma {:induction false} HeldBannerIsLostExactly(start: int, events: seq<Event>, hold: nat, r: Rules)
    requires Possible(Clocked(START, start), events, r)
    requires hold in Run(Clocked(START, start), events, r).gate.timers
    ensures var end := Run(Clocked(START, start), events, r);
            var t, after := end.gate.timers[hold], Step(end, GraceEnds(hold), r).gate;
            var lost := Cooling(end.gate.cooldown, t.key, end.now, r.cooldownMs);
            after.resolved == end.gate.resolved + [(hold, if lost then Dropped(InCooldown) else Shown)] &&
            after.delivered == end.gate.delivered + if lost then [] else [Delivery(t.payload, Some(t.key), end.now)]
  {
    var end := Run(Clocked(START, start), events, r);
    EveryStateIsSound(start, events, r);
    RunOutExactly(end.gate, hold, end.now, r);
  }

  /** Likewise, in every run, a completion that supersedes a held request is lost if and only if the conversation is cooling. */
  lemma {:induction false} CompletionIsLostExactly(start: int, events: seq<Event>, p: Payload, key: string, r: Rules)
    requires Possible(Clocked(START, start), events, r)
    requires var end := Run(Clocked(START, start), events, r);
             key in end.gate.held && Claim(end.gate.recent, p.key, end.now, RECENT_TTL_MS).0
    requires p.conversation == Some(key) && p.completion && !p.force
    ensures var end := Run(Clocked(START, start), events, r);
            var (after, reply) := Admit(end.gate, false, p, end.now, r);
            var lost := Cooling(end.gate.cooldown, key, end.now, r.cooldownMs);
            reply == Answered(if lost then Dropped(InCooldown) else Shown) &&
            after.resolved == end.gate.resolved + [(end.gate.held[key], Dropped(Superseded))] &&
            after.delivered == end.gate.delivered + if lost then [] else [Delivery(p, Some(key), end.now)]
  {
    var end := Run(Clocked(START, start), events, r);
    EveryStateIsSound(start, events, r);
    CompletionExactly(end.gate, p, key, end.now, r);
  }

  /** Two banners of one conversation are more than the cooldown apart, unless enough others were claimed between. */
  lemma {:induction false} BannersAreSpaced(start: int, events: seq<Event>, i: nat, j: nat, r: Rules)
    requires Possible(Clocked(START, start), events, r) && Forward(start, events)
    requires var log := Claims(Run(Clocked(START, start), events, r).gate.delivered);
             i < j < |log| && log[i].0 == log[j].0
    ensures var log := Claims(Run(Clocked(START, start), events, r).gate.delivered);
            log[j].1 - log[i].1 > r.cooldownMs || |KeysBetween(log, i, j)| >= r.maxKeys
  {
    StartGood(start, r);
    RunGood(Clocked(START, start), events, r);
    var log := Claims(Run(Clocked(START, start), events, r).gate.delivered);
    assert Spaced(log, r);
    assert PairSpaced(log, i, j, r);
  }

  /**
   * That it can happen: the clock is set back while a banner waits, its
   * conversation is cooling again, and the banner is dropped when its grace ends.
   */
  lemma {:induction false} ClockSetBackLosesTheBanner(p: Payload, r: Rules)
    requires r == Rules(5000, 50, 250) && p.conversation == Some("c") && !p.completion && !p.force && p.key == "request"
    ensures var (first, reply) := Admit(START, false, Payload("done", Some("c"), true, false, ""), 0, r);
            var (second, promise) := Admit(first, false, p, 6000, r);
            reply == Answered(Shown) && promise == Promised(0) && 0 in second.timers &&
            RunOut(second, 0, 3000, r).resolved == [(0, Dropped(InCooldown))]
  {
    var done := Payload("done", Some("c"), true, false, "");
    var (first, reply) := Admit(START, false, done, 0, r);
    assert Purge([], 0, RECENT_TTL_MS) == [] && Purge([], 0, 5000) == [];
    assert first.cooldown == [("c", 0)] && first.recent == [("done", 0)] && first.held == map[];
    assert Purge(first.recent, 6000, RECENT_TTL_MS) == [("done", 0)] by { assert first.recent[1..] == []; }
    assert Find([("done", 0)], "request") == None by { assert [("done", 0)][1..] == []; }
    assert Find(first.cooldown, "c") == Some(0);
    var (second, promise) := Admit(first, false, p, 6000, r);
    assert second.cooldown == [("c", 0)] && second.timers == map[0 := Timer(6250, "c", p)] && second.resolved == [];
    assert Purge(second.cooldown, 3000, 5000) == [("c", 0)] by { assert second.cooldown[1..] == []; }
    assert BurstClaim(second.cooldown, "c", 3000, 5000, 50) == (false, [("c", 0)]);
  }
}
