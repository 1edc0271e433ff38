/**
 * Whether a desktop banner goes up: the focused view, the duplicate memory, the
 * per-conversation cooldown, and the grace a request waits out so that a
 * completion can take its place.
 */
module BannerGate {
  import opened Wrappers
  import opened RecentKeys

  datatype Payload = Payload(key: string, conversation: Option<string>, completion: bool, force: bool, body: string)

  datatype Reason = FocusedActive | Duplicate | Burst | InCooldown | Superseded

  datatype Answer = Shown | Dropped(reason: Reason)

  /** What `admit` returns: an answer, or a promise of one, named by the hold that will settle it. */
  datatype Reply = Answered(answer: Answer) | Promised(hold: nat)

  datatype Rules = Rules(cooldownMs: int, maxKeys: nat, graceMs: int)

  const RECENT_TTL_MS := 60_000

  /** A banner put up, under which conversation's cooldown (none for rings and banners without one), and when. */
  datatype Delivery = Delivery(payload: Payload, key: Option<string>, at: int)

  /** A live grace timer. */
  datatype Timer = Timer(due: int, key: string, payload: Payload)

  /**
   * `held` names each waiting conversation's hold; a hold's timer and promise
   * carry its number. The last three fields record what left the gate.
   */
  datatype Gate = Gate(
    recent: Seen,
    cooldown: Seen,
    held: map<string, nat>,
    timers: map<nat, Timer>,
    nextHold: nat,
    delivered: seq<Delivery>,
    answers: seq<Answer>,
    resolved: seq<(nat, Answer)>)

  const START := Gate([], [], map[], map[], 0, [], [], [])

  function Deliver(g: Gate, p: Payload, key: Option<string>, now: int): Gate {
    g.(delivered := g.delivered + [Delivery(p, key, now)])
  }

  function Fire(g: Gate, p: Payload, key: Option<string>, now: int, r: Rules): (Gate, Answer) {
    match key
    case None => (Deliver(g, p, None, now), Shown)
    case Some(k) =>
      var (ok, seen) := BurstClaim(g.cooldown, k, now, r.cooldownMs, r.maxKeys);
      var claimed := g.(cooldown := seen);
      if ok then (Deliver(claimed, p, key, now), Shown) else (claimed, Dropped(InCooldown))
  }

  /** Drops whatever waits out the grace for this conversation. */
  function Release(g: Gate, key: string): Gate {
    if key !in g.held then g
    else g.(held := g.held - {key}, timers := g.timers - {g.held[key]},
            resolved := g.resolved + [(g.held[key], Dropped(Superseded))])
  }

  function Hold(g: Gate, p: Payload, key: string, now: int, r: Rules): Gate {
    g.(held := g.held[key := g.nextHold], timers := g.timers[g.nextHold := Timer(now + r.graceMs, key, p)],
       nextHold := g.nextHold + 1)
  }

  function Answering(g: Gate, a: Answer): (Gate, Reply) { (g.(answers := g.answers + [a]), Answered(a)) }

  /** `onScreen`: a focused window already shows what the banner is about. */
  function Admit(g: Gate, onScreen: bool, p: Payload, now: int, r: Rules): (Gate, Reply) {
    if !p.force && onScreen then Answering(g, Dropped(FocusedActive))
    else
      var (unseen, recent) := Claim(g.recent, p.key, now, RECENT_TTL_MS);
      var g := g.(recent := recent);
      if !unseen then Answering(g, Dropped(Duplicate))
      else if p.force || p.conversation == None then
        var (fired, a) := Fire(g, p, None, now, r);
        Answering(fired, a)
      else
        var key := p.conversation.value;
        if p.completion then
          var (fired, a) := Fire(Release(g, key), p, Some(key), now, r);
          Answering(fired, a)
        else if key in g.held then Answering(g, Dropped(Burst))
        else if Cooling(g.cooldown, key, now, r.cooldownMs) then Answering(g, Dropped(InCooldown))
        else (Hold(g, p, key, now, r), Promised(g.nextHold))
  }

  /** The grace ran out: the hold leaves first, then the banner is fired and the promise settled. */
  function RunOut(g: Gate, hold: nat, now: int, r: Rules): Gate
    requires hold in g.timers
  {
    var t := g.timers[hold];
    var (fired, a) := Fire(g.(held := g.held - {t.key}, timers := g.timers - {hold}), t.payload, Some(t.key), now, r);
    fired.(resolved := fired.resolved + [(hold, a)])
  }

  // Invariants

  /** Live timers and held conversations match one to one. */
  ghost predicate Paired(held: map<string, nat>, timers: map<nat, Timer>) {
    (forall k | k in held :: held[k] in timers && timers[held[k]].key == k) &&
    (forall t | t in timers :: timers[t].key in held && held[timers[t].key] == t)
  }

  ghost predicate IsResolved(resolved: seq<(nat, Answer)>, hold: nat) {
    exists i :: 0 <= i < |resolved| && resolved[i].0 == hold
  }

  /** Every promise given so far is either still held or settled, and none was settled twice. */
  ghost predicate SettledOnce(g: Gate) {
    (forall h: nat :: h < g.nextHold <==> (h in g.timers || IsResolved(g.resolved, h))) &&
    (forall h | h in g.timers :: !IsResolved(g.resolved, h)) &&
    (forall i, j | 0 <= i < j < |g.resolved| :: g.resolved[i].0 != g.resolved[j].0)
  }

  function ShownIn(answers: seq<Answer>): nat {
    if answers == [] then 0 else ShownIn(Butlast(answers)) + (if Last(answers) == Shown then 1 else 0)
  }

  function ShownSettled(resolved: seq<(nat, Answer)>): nat {
    if resolved == [] then 0 else ShownSettled(Butlast(resolved)) + (if Last(resolved).1 == Shown then 1 else 0)
  }

  /** Banners put up are exactly the answers that say so. */
  predicate CountsAgree(g: Gate) { |g.delivered| == ShownIn(g.answers) + ShownSettled(g.resolved) }

  /** No held conversation is cooling. */
  ghost predicate HeldAreFree(g: Gate, now: int, r: Rules) {
    forall k | k in g.held :: !Cooling(g.cooldown, k, now, r.cooldownMs)
  }

  /** What holds whatever the clock does. */
  ghost predicate Sound(g: Gate, r: Rules) {
    Paired(g.held, g.timers) && SettledOnce(g) && CountsAgree(g) && Distinct(g.recent) && Distinct(g.cooldown) &&
    |g.cooldown| <= r.maxKeys
  }

  ghost predicate Inv(g: Gate, now: int, r: Rules) { Sound(g, r) && HeldAreFree(g, now, r) }

  lemma {:induction false} StartInv(now: int, r: Rules)
    ensures Inv(START, now, r)
  {
  }

  lemma {:induction false} ClaimIsDistinct(seen: Seen, key: string, now: int, ttl: int)
    requires Distinct(seen)
    ensures Distinct(Claim(seen, key, now, ttl).1)
  {
    var kept := Purge(seen, now, ttl);
    PurgeKeeps(seen, now, ttl);
    FindMeans(kept, key);
  }

  lemma {:induction false} CappedIsDistinct(seen: Seen, maxKeys: nat)
    requires Distinct(seen)
    ensures Distinct(Capped(seen, maxKeys)) && |Capped(seen, maxKeys)| <= maxKeys
    ensures forall i | 0 <= i < |Capped(seen, maxKeys)| :: Capped(seen, maxKeys)[i] in seen
  {
  }

  /** A capped claim is granted exactly when the key is not cooling, and leaves distinct keys within the cap. */
  lemma {:induction false} BurstClaimExactly(seen: Seen, key: string, now: int, ttl: int, maxKeys: nat)
    requires Distinct(seen)
    ensures var (ok, after) := BurstClaim(seen, key, now, ttl, maxKeys);
            Distinct(after) && |after| <= maxKeys && (ok <==> !Cooling(seen, key, now, ttl))
  {
    ClaimFailsWhileCooling(seen, key, now, ttl);
    ClaimIsDistinct(seen, key, now, ttl);
    CappedIsDistinct(Claim(seen, key, now, ttl).1, maxKeys);
  }

  /** It sets no other key cooling. */
  lemma {:induction false} BurstClaimFrees(seen: Seen, key: string, now: int, ttl: int, maxKeys: nat, other: string)
    requires Distinct(seen) && other != key && !Cooling(seen, other, now, ttl)
    ensures !Cooling(BurstClaim(seen, key, now, ttl, maxKeys).1, other, now, ttl)
  {
    var kept, claimed := Purge(seen, now, ttl), Claim(seen, key, now, ttl).1;
    var after := Capped(claimed, maxKeys);
    ClaimIsDistinct(seen, key, now, ttl);
    CappedIsDistinct(claimed, maxKeys);
    NotKept(seen, now, ttl, other);
    FindMeans(kept, other);
    FindMeans(after, other);
    forall i | 0 <= i < |after|
      ensures after[i].0 != other
    {
      var k :| 0 <= k < |claimed| && claimed[k] == after[i];
      assert k < |kept| ==> claimed[k] == kept[k];
    }
  }

  /** A key that is not cooling is gone after the purge. */
  lemma {:induction false} NotKept(seen: Seen, now: int, ttl: int, key: string)
    requires Distinct(seen) && !Cooling(seen, key, now, ttl)
    ensures Find(Purge(seen, now, ttl), key) == None
  {
    var kept := Purge(seen, now, ttl);
    PurgeKeeps(seen, now, ttl);
    FindMeans(seen, key);
    FindMeans(kept, key);
  }

  /** Firing puts the banner up unless its conversation is cooling by the clock of the moment. */
  lemma {:induction false} FireExactly(g: Gate, p: Payload, key: Option<string>, now: int, r: Rules)
    requires Distinct(g.cooldown) && |g.cooldown| <= r.maxKeys
    ensures var (after, a) := Fire(g, p, key, now, r);
            a == (if key.Some? && Cooling(g.cooldown, key.value, now, r.cooldownMs) then Dropped(InCooldown) else Shown) &&
            after == g.(cooldown := after.cooldown,
                        delivered := g.delivered + if a == Shown then [Delivery(p, key, now)] else []) &&
            Distinct(after.cooldown) && |after.cooldown| <= r.maxKeys
  {
    if key.Some? {
      BurstClaimExactly(g.cooldown, key.value, now, r.cooldownMs, r.maxKeys);
      var (ok, seen) := BurstClaim(g.cooldown, key.value, now, r.cooldownMs, r.maxKeys);
      assert ok ==> Fire(g, p, key, now, r).0 == Deliver(g.(cooldown := seen), p, key, now);
    }
    assert g.delivered + [] == g.delivered;
  }

  /** A claim for one conversation sets no other cooling. */
  lemma {:induction false} FireFrees(g: Gate, p: Payload, key: Option<string>, now: int, r: Rules)
    requires Distinct(g.cooldown) && HeldAreFree(g, now, r) && (key.Some? ==> key.value !in g.held)
    ensures HeldAreFree(Fire(g, p, key, now, r).0, now, r)
  {
    if key.Some? {
      forall k | k in g.held
        ensures !Cooling(Fire(g, p, key, now, r).0.cooldown, k, now, r.cooldownMs)
      {
        BurstClaimFrees(g.cooldown, key.value, now, r.cooldownMs, r.maxKeys, k);
      }
    }
  }

  lemma {:induction false} AnsweringKeeps(g: Gate, a: Answer, r: Rules)
    requires Paired(g.held, g.timers) && SettledOnce(g) && Distinct(g.recent) && Distinct(g.cooldown) && |g.cooldown| <= r.maxKeys
    requires |g.delivered| == ShownIn(g.answers) + ShownSettled(g.resolved) + (if a == Shown then 1 else 0)
    ensures Sound(Answering(g, a).0, r)
  {
    var after := Answering(g, a).0;
    assert Butlast(after.answers) == g.answers;
    assert SettledOnce(after);
  }

  lemma {:induction false} ResolvedPush(resolved: seq<(nat, Answer)>, hold: nat, a: Answer)
    ensures forall h :: IsResolved(resolved + [(hold, a)], h) <==> h == hold || IsResolved(resolved, h)
    ensures ShownSettled(resolved + [(hold, a)]) == ShownSettled(resolved) + (if a == Shown then 1 else 0)
  {
    var more := resolved + [(hold, a)];
    assert Butlast(more) == resolved;
    forall h
      ensures IsResolved(more, h) <==> h == hold || IsResolved(resolved, h)
    {
      if h == hold { assert more[|resolved|].0 == hold; }
      if IsResolved(resolved, h) {
        var i :| 0 <= i < |resolved| && resolved[i].0 == h;
        assert more[i].0 == h;
      }
    }
  }

  lemma {:induction false} PairedWithout(held: map<string, nat>, timers: map<nat, Timer>, hold: nat)
    requires Paired(held, timers) && hold in timers
    ensures Paired(held - {timers[hold].key}, timers - {hold})
  {
  }

  lemma {:induction false} SettledWithout(g: Gate, after: Gate, hold: nat, a: Answer)
    requires SettledOnce(g) && hold in g.timers
    requires after.timers == g.timers - {hold} && after.resolved == g.resolved + [(hold, a)] && after.nextHold == g.nextHold
    ensures SettledOnce(after)
  {
    ResolvedPush(g.resolved, hold, a);
    var more := g.resolved + [(hold, a)];
    forall i, j | 0 <= i < j < |more|
      ensures more[i].0 != more[j].0
    {
      if j == |g.resolved| { assert !IsResolved(g.resolved, hold); }
    }
    forall h: nat
      ensures h < g.nextHold <==> (h in after.timers || IsResolved(more, h))
      ensures h in after.timers ==> !IsResolved(more, h)
    {
    }
  }

  /** Taking a hold out of the waiting and settling its promise. */
  lemma {:induction false} SettleKeeps(g: Gate, hold: nat, a: Answer)
    requires Paired(g.held, g.timers) && SettledOnce(g) && hold in g.timers
    ensures var after := g.(held := g.held - {g.timers[hold].key}, timers := g.timers - {hold},
                            resolved := g.resolved + [(hold, a)]);
            Paired(after.held, after.timers) && SettledOnce(after)
  {
    PairedWithout(g.held, g.timers, hold);
    SettledWithout(g, g.(held := g.held - {g.timers[hold].key}, timers := g.timers - {hold},
                         resolved := g.resolved + [(hold, a)]), hold, a);
  }

  lemma {:induction false} ReleaseKeeps(g: Gate, key: string, r: Rules)
    requires Sound(g, r)
    ensures Sound(Release(g, key), r) && key !in Release(g, key).held
  {
    if key in g.held {
      SettleKeeps(g, g.held[key], Dropped(Superseded));
      ResolvedPush(g.resolved, g.held[key], Dropped(Superseded));
      var after := Release(g, key);
      assert SettledOnce(after);
    }
  }

  lemma {:induction false} HoldKeeps(g: Gate, p: Payload, key: string, now: int, r: Rules)
    requires Sound(g, r) && key !in g.held
    ensures Sound(Hold(g, p, key, now, r), r)
  {
    var after := Hold(g, p, key, now, r);
    assert !IsResolved(g.resolved, g.nextHold) && g.nextHold !in g.timers;
    assert Paired(after.held, after.timers);
    forall h: nat
      ensures h < after.nextHold <==> (h in after.timers || IsResolved(after.resolved, h))
    {
    }
    assert SettledOnce(after);
  }

  lemma {:induction false} FireAndAnswerKeeps(g: Gate, p: Payload, key: Option<string>, now: int, r: Rules)
    requires Sound(g, r)
    ensures var (fired, a) := Fire(g, p, key, now, r); Sound(Answering(fired, a).0, r)
  {
    FireExactly(g, p, key, now, r);
    var (fired, a) := Fire(g, p, key, now, r);
    assert SettledOnce(fired);
    AnsweringKeeps(fired, a, r);
  }

  /** Whatever is asked, at whatever time: timers, promises, counts and the cap stay right. */
  lemma {:induction false} AdmitKeeps(g: Gate, onScreen: bool, p: Payload, now: int, r: Rules)
    requires Sound(g, r)
    ensures Sound(Admit(g, onScreen, p, now, r).0, r)
  {
    var (unseen, recent) := Claim(g.recent, p.key, now, RECENT_TTL_MS);
    var g' := g.(recent := recent);
    ClaimIsDistinct(g.recent, p.key, now, RECENT_TTL_MS);
    assert SettledOnce(g') && Sound(g', r);
    if !p.force && onScreen {
      AnsweringKeeps(g, Dropped(FocusedActive), r);
    } else if !unseen {
      AnsweringKeeps(g', Dropped(Duplicate), r);
    } else if p.force || p.conversation == None {
      FireAndAnswerKeeps(g', p, None, now, r);
    } else {
      var key := p.conversation.value;
      if p.completion {
        ReleaseKeeps(g', key, r);
        FireAndAnswerKeeps(Release(g', key), p, Some(key), now, r);
      } else if key in g'.held {
        AnsweringKeeps(g', Dropped(Burst), r);
      } else if Cooling(g'.cooldown, key, now, r.cooldownMs) {
        AnsweringKeeps(g', Dropped(InCooldown), r);
      } else {
        HoldKeeps(g', p, key, now, r);
      }
    }
  }

  /** A request is held only while its conversation is free, and nothing asked for one sets another cooling. */
  lemma {:induction false} AdmitFrees(g: Gate, onScreen: bool, p: Payload, now: int, r: Rules)
    requires Inv(g, now, r)
    ensures HeldAreFree(Admit(g, onScreen, p, now, r).0, now, r)
  {
    var (unseen, recent) := Claim(g.recent, p.key, now, RECENT_TTL_MS);
    var g' := g.(recent := recent);
    assert HeldAreFree(g', now, r);
    if (!p.force && onScreen) || !unseen {
    } else if p.force || p.conversation == None {
      FireFrees(g', p, None, now, r);
    } else if p.completion {
      var free := Release(g', p.conversation.value);
      assert HeldAreFree(free, now, r) && free.cooldown == g'.cooldown;
      FireFrees(free, p, p.conversation, now, r);
    }
  }

  /**
   * When a grace runs out the banner is put up if and only if its conversation
   * is not cooling by the clock of that moment, and its promise says which.
   */
  lemma {:induction false} RunOutExactly(g: Gate, hold: nat, now: int, r: Rules)
    requires Sound(g, r) && hold in g.timers
    ensures var t, after := g.timers[hold], RunOut(g, hold, now, r);
            var lost := Cooling(g.cooldown, t.key, now, r.cooldownMs);
            Sound(after, r) && after.resolved == g.resolved + [(hold, if lost then Dropped(InCooldown) else Shown)] &&
            after.delivered == g.delivered + if lost then [] else [Delivery(t.payload, Some(t.key), now)]
  {
    var t := g.timers[hold];
    var out := g.(held := g.held - {t.key}, timers := g.timers - {hold});
    var a := Fire(out, t.payload, Some(t.key), now, r).1;
    FireExactly(out, t.payload, Some(t.key), now, r);
    SettleKeeps(g, hold, a);
    ResolvedPush(g.resolved, hold, a);
    assert SettledOnce(RunOut(g, hold, now, r));
  }

  /** So while no held conversation is cooling, a banner whose grace runs out is always put up. */
  lemma {:induction false} RunOutShows(g: Gate, hold: nat, now: int, r: Rules)
    requires Inv(g, now, r) && hold in g.timers
    ensures var after := RunOut(g, hold, now, r);
            Inv(after, now, r) && after.resolved == g.resolved + [(hold, Shown)] &&
            after.delivered == g.delivered + [Delivery(g.timers[hold].payload, Some(g.timers[hold].key), now)]
  {
    var t := g.timers[hold];
    RunOutExactly(g, hold, now, r);
    FireFrees(g.(held := g.held - {t.key}, timers := g.timers - {hold}), t.payload, Some(t.key), now, r);
  }

  /**
   * A completion that supersedes a held request is put up if and only if the
   * conversation is not cooling; either way the request learns it was superseded.
   */
  lemma {:induction false} CompletionExactly(g: Gate, p: Payload, key: string, now: int, r: Rules)
    requires Sound(g, r) && key in g.held && p.conversation == Some(key) && p.completion && !p.force
    requires Claim(g.recent, p.key, now, RECENT_TTL_MS).0
    ensures var (after, reply) := Admit(g, false, p, now, r);
            var lost := Cooling(g.cooldown, key, now, r.cooldownMs);
            reply == Answered(if lost then Dropped(InCooldown) else Shown) &&
            after.resolved == g.resolved + [(g.held[key], Dropped(Superseded))] && key !in after.held &&
            after.delivered == g.delivered + if lost then [] else [Delivery(p, Some(key), now)]
  {
    var g' := g.(recent := Claim(g.recent, p.key, now, RECENT_TTL_MS).1);
    FireExactly(Release(g', key), p, Some(key), now, r);
  }

  /** So while no held conversation is cooling, such a completion is always put up. */
  lemma {:induction false} CompletionTakesOver(g: Gate, p: Payload, key: string, now: int, r: Rules)
    requires Inv(g, now, r) && key in g.held && p.conversation == Some(key) && p.completion && !p.force
    requires Claim(g.recent, p.key, now, RECENT_TTL_MS).0
    ensures var (after, reply) := Admit(g, false, p, now, r);
            reply == Answered(Shown) && after.resolved == g.resolved + [(g.held[key], Dropped(Superseded))] &&
            after.delivered == g.delivered + [Delivery(p, Some(key), now)] && key !in after.held
  {
    CompletionExactly(g, p, key, now, r);
  }

  /** The request gets past the first rule: it is a ring, or nothing in a focused window shows what it is about. */
  predicate Unseen(onScreen: bool, p: Payload) { p.force || !onScreen }

  /** Its key was let through within the last minute, as far as the duplicate memory goes. */
  predicate Known(g: Gate, p: Payload, now: int) { Cooling(g.recent, p.key, now, RECENT_TTL_MS) }

  /** Its key is new and it is about this conversation, so the rules of one conversation apply. */
  predicate Enters(g: Gate, onScreen: bool, p: Payload, key: string, now: int) {
    Unseen(onScreen, p) && !Known(g, p, now) && !p.force && p.conversation == Some(key)
  }

  /** Each reason to drop a request is given exactly when it applies, and only a free conversation's request is held. */
  lemma {:induction false} AdmitExactly(g: Gate, onScreen: bool, p: Payload, now: int, r: Rules)
    requires Sound(g, r)
    ensures var reply := Admit(g, onScreen, p, now, r).1;
            (reply == Answered(Dropped(FocusedActive)) <==> !p.force && onScreen) &&
            (reply == Answered(Dropped(Duplicate)) <==> Unseen(onScreen, p) && Known(g, p, now)) &&
            (forall key | Enters(g, onScreen, p, key, now) ::
               (reply == Answered(Dropped(Burst)) <==> !p.completion && key in g.held) &&
               (reply == Answered(Dropped(InCooldown)) <==>
                  Cooling(g.cooldown, key, now, r.cooldownMs) && (p.completion || key !in g.held)) &&
               (reply.Promised? <==> !p.completion && key !in g.held && !Cooling(g.cooldown, key, now, r.cooldownMs)) &&
               (reply == Answered(Shown) <==> p.completion && !Cooling(g.cooldown, key, now, r.cooldownMs))) &&
            (p.force || p.conversation == None ==> (reply == Answered(Shown) <==> Unseen(onScreen, p) && !Known(g, p, now)))
  {
    ClaimFailsWhileCooling(g.recent, p.key, now, RECENT_TTL_MS);
    var g' := g.(recent := Claim(g.recent, p.key, now, RECENT_TTL_MS).1);
    if Unseen(onScreen, p) && !Known(g, p, now) {
      if p.force || p.conversation == None {
        FireExactly(g', p, None, now, r);
      } else if p.completion {
        FireExactly(Release(g', p.conversation.value), p, p.conversation, now, r);
      }
    }
  }

  /** The conversation a banner is put up for, unless it is a ring. */
  function Episode(p: Payload): Option<string> { if p.force then None else p.conversation }

  /**
   * A request puts up its own banner, and at once, if and only if the answer is
   * that it is shown; it takes a held request's place only as a completion the
   * rules of its conversation apply to; and it starts a grace of its own,
   * graceMs long, if and only if it is promised an answer.
   */
  lemma {:induction false} AdmitChangesOnly(g: Gate, onScreen: bool, p: Payload, now: int, r: Rules)
    requires Sound(g, r)
    ensures var (after, reply) := Admit(g, onScreen, p, now, r);
            var takesOver := p.completion && p.conversation.Some? && p.conversation.value in g.held &&
                            Enters(g, onScreen, p, p.conversation.value, now);
            after.delivered == g.delivered + (if reply == Answered(Shown) then [Delivery(p, Episode(p), now)] else []) &&
            after.answers == g.answers + (if reply.Answered? then [reply.answer] else []) &&
            after.resolved == g.resolved +
              (if takesOver then [(g.held[p.conversation.value], Dropped(Superseded))] else []) &&
            after.timers == (if takesOver then g.timers - {g.held[p.conversation.value]}
                             else if reply.Promised? && p.conversation.Some? then
                               g.timers[reply.hold := Timer(now + r.graceMs, p.conversation.value, p)]
                             else g.timers) &&
            after.recent == (if Unseen(onScreen, p) then Claim(g.recent, p.key, now, RECENT_TTL_MS).1 else g.recent) &&
            after.nextHold == g.nextHold + (if reply.Promised? then 1 else 0) &&
            (reply.Promised? ==> reply.hold == g.nextHold && p.conversation.Some?)
  {
    ClaimFailsWhileCooling(g.recent, p.key, now, RECENT_TTL_MS);
    var g' := g.(recent := Claim(g.recent, p.key, now, RECENT_TTL_MS).1);
    if Unseen(onScreen, p) && !Known(g, p, now) {
      if p.force || p.conversation == None {
        FireExactly(g', p, None, now, r);
      } else if p.completion {
        FireExactly(Release(g', p.conversation.value), p, p.conversation, now, r);
      }
    }
  }
}
