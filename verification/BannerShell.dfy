/** The gate as the shell runs it: an object whose maps and timers are updated in place. */
module BannerShell {
  import opened Wrappers
  import opened RecentKeys
  import opened BannerGate

  class Shell {
    const rules: Rules
    var recent: Seen
    var cooldown: Seen
    var held: map<string, nat>
    var timers: map<nat, Timer>
    var nextHold: nat
    var delivered: seq<Delivery>
    var answers: seq<Answer>
    var resolved: seq<(nat, Answer)>

    ghost function State(): Gate
      reads this
    {
      Gate(recent, cooldown, held, timers, nextHold, delivered, answers, resolved)
    }

    constructor (rules: Rules)
      ensures State() == START && this.rules == rules
    {
      this.rules := rules;
      recent, cooldown, held, timers, nextHold := [], [], map[], map[], 0;
      delivered, answers, resolved := [], [], [];
    }

    method Release(key: string)
      modifies this`held, this`timers, this`resolved
      ensures State() == BannerGate.Release(old(State()), key)
    {
      if key !in held {
        return;
      }
      var hold := held[key];
      held := held - {key};
      timers := timers - {hold};
      resolved := resolved + [(hold, Dropped(Superseded))];
    }

    method Fire(p: Payload, key: Option<string>, now: int) returns (a: Answer)
      modifies this`cooldown, this`delivered
      ensures (State(), a) == BannerGate.Fire(old(State()), p, key, now, rules)
    {
      if key.Some? {
        var ok;
        ok, cooldown := ClaimBurst(cooldown, key.value, now, rules.cooldownMs, rules.maxKeys);
        if !ok {
          return Dropped(InCooldown);
        }
      }
      delivered := delivered + [Delivery(p, key, now)];
      return Shown;
    }

    method Admit(onScreen: bool, p: Payload, now: int) returns (reply: Reply)
      modifies this
      ensures (State(), reply) == BannerGate.Admit(old(State()), onScreen, p, now, rules)
    {
      if !p.force && onScreen {
        reply := Answer(Dropped(FocusedActive));
        return;
      }
      var unseen;
      unseen, recent := ClaimKey(recent, p.key, now, RECENT_TTL_MS);
      if !unseen {
        reply := Answer(Dropped(Duplicate));
        return;
      }
      if p.force || p.conversation == None {
        var a := Fire(p, None, now);
        reply := Answer(a);
        return;
      }
      var key := p.conversation.value;
      if p.completion {
        Release(key);
        var a := Fire(p, Some(key), now);
        reply := Answer(a);
        return;
      }
      if key in held {
        reply := Answer(Dropped(Burst));
        return;
      }
      if Cooling(cooldown, key, now, rules.cooldownMs) {
        reply := Answer(Dropped(InCooldown));
        return;
      }
      reply := Promised(nextHold);
      held := held[key := nextHold];
      timers := timers[nextHold := Timer(now + rules.graceMs, key, p)];
      nextHold := nextHold + 1;
    }

    method Answer(a: Answer) returns (reply: Reply)
      modifies this`answers
      ensures (State(), reply) == Answering(old(State()), a)
    {
      answers := answers + [a];
      return Answered(a);
    }

    /** The grace timer's callback. */
    method OnGraceEnd(hold: nat, now: int)
      requires hold in timers
      modifies this
      ensures State() == RunOut(old(State()), hold, now, rules)
    {
      var t := timers[hold];
      timers := timers - {hold};
      held := held - {t.key};
      var a := Fire(t.payload, Some(t.key), now);
      resolved := resolved + [(hold, a)];
    }
  }
}
