/** Short memories of banner keys: which were claimed lately, oldest first. */
module RecentKeys {
  import opened Wrappers

  /** An insertion-ordered map from key to claim time. */
  type Seen = seq<(string, int)>

  function Find(seen: Seen, key: string): Option<int> {
    if seen == [] then None else if seen[0].0 == key then Some(seen[0].1) else Find(seen[1..], key)
  }

  function Purge(seen: Seen, now: int, ttl: int): Seen {
    if seen == [] then []
    else (if now - seen[0].1 > ttl then [] else [seen[0]]) + Purge(seen[1..], now, ttl)
  }

  /** True the first time a key is seen inside the window; the key then goes last. */
  function Claim(seen: Seen, key: string, now: int, ttl: int): (bool, Seen) {
    var kept := Purge(seen, now, ttl);
    if Find(kept, key).Some? then (false, kept) else (true, kept + [(key, now)])
  }

  function Capped(seen: Seen, maxKeys: nat): Seen {
    if |seen| > maxKeys then seen[|seen| - maxKeys..] else seen
  }

  /** A claim under a cap: the least recent keys are forgotten first. */
  function BurstClaim(seen: Seen, key: string, now: int, ttl: int, maxKeys: nat): (bool, Seen) {
    var (ok, claimed) := Claim(seen, key, now, ttl);
    (ok, Capped(claimed, maxKeys))
  }

  /** Still inside the window, asked without reserving. */
  predicate Cooling(seen: Seen, key: string, now: int, ttl: int) {
    Find(seen, key).Some? && now - Find(seen, key).value <= ttl
  }

  ghost predicate Distinct(seen: Seen) {
    forall i, j | 0 <= i < j < |seen| :: seen[i].0 != seen[j].0
  }

  /** Purging and claiming as the class does it: expired entries are deleted while the map is walked. */
  method ClaimKey(seen: Seen, key: string, now: int, ttl: int) returns (ok: bool, after: Seen)
    ensures (ok, after) == Claim(seen, key, now, ttl)
  {
    var kept: Seen := [];
    var has := false;
    assert seen[0..] == seen;
    for i := 0 to |seen|
      invariant kept + Purge(seen[i..], now, ttl) == Purge(seen, now, ttl)
      invariant has <==> Find(kept, key).Some?
    {
      var e := seen[i];
      PurgeOn(seen, i, kept, now, ttl);
      if now - e.1 <= ttl {
        FindPush(kept, e, key);
        kept := kept + [e];
        has := has || e.0 == key;
      }
    }
    assert seen[|seen|..] == [] && kept + [] == kept;
    if has {
      return false, kept;
    }
    return true, kept + [(key, now)];
  }

  /** An entry is kept or expired; the rest is still to be purged. */
  lemma {:induction false} PurgeOn(seen: Seen, i: nat, kept: Seen, now: int, ttl: int)
    requires i < |seen|
    ensures kept + Purge(seen[i..], now, ttl)
         == (if now - seen[i].1 <= ttl then kept + [seen[i]] else kept) + Purge(seen[i + 1..], now, ttl)
  {
    var rest := seen[i..];
    assert rest[0] == seen[i] && rest[1..] == seen[i + 1..];
    Regroup(kept, if now - seen[i].1 > ttl then [] else [seen[i]], Purge(rest[1..], now, ttl));
    assert kept + [] == kept;
  }

  /** The capped claim: the front of the map goes while it is over the cap. */
  method ClaimBurst(seen: Seen, key: string, now: int, ttl: int, maxKeys: nat) returns (ok: bool, after: Seen)
    ensures (ok, after) == BurstClaim(seen, key, now, ttl, maxKeys)
    ensures |after| <= maxKeys
  {
    var claimed;
    ok, claimed := ClaimKey(seen, key, now, ttl);
    after := claimed;
    while |after| > maxKeys
      invariant |after| <= |claimed| && after == claimed[|claimed| - |after|..]
      invariant |after| >= Min(|claimed|, maxKeys)
    {
      after := after[1..];
    }
  }

  lemma {:induction false} FindPush(seen: Seen, e: (string, int), key: string)
    ensures Find(seen + [e], key) == if Find(seen, key).Some? then Find(seen, key) else if e.0 == key then Some(e.1) else None
  {
    if seen == [] {
      assert [] + [e] == [e] && [e][1..] == [];
    } else {
      assert (seen + [e])[1..] == seen[1..] + [e];
      FindPush(seen[1..], e, key);
    }
  }

  lemma {:induction false} FindMeans(seen: Seen, key: string)
    ensures Find(seen, key).Some? <==> exists i :: 0 <= i < |seen| && seen[i].0 == key
    ensures Find(seen, key).Some? ==> exists i :: 0 <= i < |seen| && seen[i] == (key, Find(seen, key).value)
  {
    if seen != [] {
      FindMeans(seen[1..], key);
      assert forall i | 0 < i < |seen| :: seen[i] == seen[1..][i - 1];
    }
  }

  lemma {:induction false} PurgeKeeps(seen: Seen, now: int, ttl: int)
    ensures forall i | 0 <= i < |Purge(seen, now, ttl)| ::
              Purge(seen, now, ttl)[i] in seen && now - Purge(seen, now, ttl)[i].1 <= ttl
    ensures forall e | e in seen && now - e.1 <= ttl :: e in Purge(seen, now, ttl)
    ensures Distinct(seen) ==> Distinct(Purge(seen, now, ttl))
  {
    if seen != [] {
      var rest := Purge(seen[1..], now, ttl);
      PurgeKeeps(seen[1..], now, ttl);
      if Distinct(seen) {
        assert forall i | 0 < i < |seen| :: seen[i] == seen[1..][i - 1];
        assert Distinct(seen[1..]);
        forall i | 0 <= i < |rest|
          ensures rest[i].0 != seen[0].0
        {
          assert rest[i] in seen[1..];
        }
      }
    }
  }

  /** A claim fails exactly while the key is cooling. */
  lemma {:induction false} ClaimFailsWhileCooling(seen: Seen, key: string, now: int, ttl: int)
    requires Distinct(seen)
    ensures Claim(seen, key, now, ttl).0 <==> !Cooling(seen, key, now, ttl)
  {
    var kept := Purge(seen, now, ttl);
    PurgeKeeps(seen, now, ttl);
    FindMeans(seen, key);
    FindMeans(kept, key);
    if Find(kept, key).Some? {
      var i :| 0 <= i < |kept| && kept[i].0 == key;
      assert kept[i] in seen;
    }
  }
}
