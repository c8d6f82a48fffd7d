/**
 * The token verdict cache of the remote-validation gateway
 * (internal/cache/token_cache.go): a map from a bearer token to the verdict the
 * auth service gave for it and the instant that cached verdict goes stale.
 *
 * Time is the caller's `now` (nanoseconds). The removal that Get schedules on a
 * goroutine is kept as a queue of pending removals, `pending`, which a separate
 * step, RunRemoval, carries out later; the operations are otherwise sequential.
 */
module TokenVerdictCache {
  import opened Model

  /** The fixed time-to-live of a cached verdict: 15 minutes, in nanoseconds. */
  const TTL: int := 15 * 60 * NanosPerSecond

  /** tokenInfo: a cached verdict and the instant it goes stale. */
  datatype TokenInfo = TokenInfo(valid: bool, expiresAt: Instant)

  /** time.Time.After is strict: an entry is stale only once `now` is past its expiry. */
  predicate Expired(info: TokenInfo, now: Instant)
  {
    now > info.expiresAt
  }

  /** The `(valid, exists)` pair that Get answers from the map `m` at time `now`. */
  function Lookup(m: map<string, TokenInfo>, token: string, now: Instant): (bool, bool)
  {
    if token !in m then (false, false)
    else if Expired(m[token], now) then (false, false)
    else (m[token].valid, true)
  }

  /** What Cleanup leaves of `m` at time `now`: the entries that are not stale. */
  function Pruned(m: map<string, TokenInfo>, now: Instant): map<string, TokenInfo>
  {
    map k | k in m && !Expired(m[k], now) :: m[k]
  }

  /** The whole state: the map and the removals Get has scheduled but that have not run yet. */
  datatype CacheState = CacheState(cache: map<string, TokenInfo>, pending: seq<string>)

  /** One operation on the cache; RemovalOp(i) is the i-th scheduled removal running. */
  datatype Op =
    | GetOp(token: string, now: Instant)
    | SetOp(token: string, valid: bool, now: Instant)
    | CleanupOp(now: Instant)
    | RemovalOp(index: nat)

  /** The state after one operation. A RemovalOp with no such pending removal changes nothing. */
  function Step(s: CacheState, op: Op): CacheState
  {
    match op
    case GetOp(t, now) =>
      if t in s.cache && Expired(s.cache[t], now) then CacheState(s.cache, s.pending + [t]) else s
    case SetOp(t, v, now) =>
      CacheState(s.cache[t := TokenInfo(v, now + TTL)], s.pending)
    case CleanupOp(now) =>
      CacheState(Pruned(s.cache, now), s.pending)
    case RemovalOp(i) =>
      if i < |s.pending| then CacheState(s.cache - {s.pending[i]}, s.pending[..i] + s.pending[i + 1..])
      else s
  }

  /** The state after a sequence of operations, first to last. */
  function Run(s: CacheState, ops: seq<Op>): CacheState
    decreases |ops|
  {
    if ops == [] then s else Run(Step(s, ops[0]), ops[1..])
  }

  class TokenCache {
    var cache: map<string, TokenInfo>
    const ttl: int
    /** Tokens whose removal Get has scheduled and that has not run yet. */
    var pending: seq<string>

    ghost predicate Valid()
      reads this
    {
      ttl == TTL
    }

    function State(): CacheState
      reads this
    {
      CacheState(cache, pending)
    }

    /** NewTokenCache: an empty cache with a 15-minute TTL. */
    constructor ()
      ensures Valid()
      ensures cache == map[] && pending == []
    {
      cache := map[];
      ttl := TTL;
      pending := [];
    }

    /**
     * Get: a hit answers the cached verdict; a missing or stale entry answers
     * (false, false), and a stale one has its removal scheduled.
     */
    method Get(token: string, now: Instant) returns (valid: bool, found: bool)
      requires Valid()
      modifies this`pending
      ensures (valid, found) == Lookup(cache, token, now)
      ensures State() == Step(old(State()), GetOp(token, now))
    {
      if token !in cache {
        return false, false;
      }
      var info := cache[token];
      if now > info.expiresAt {
        pending := pending + [token];
        return false, false;
      }
      return info.valid, true;
    }

    /** The i-th scheduled removal runs: it deletes its token whatever the entry holds by then. */
    method RunRemoval(i: nat)
      requires Valid() && i < |pending|
      modifies this
      ensures Valid()
      ensures State() == Step(old(State()), RemovalOp(i))
      ensures cache == old(cache) - {old(pending)[i]}
    {
      var token := pending[i];
      cache := cache - {token};
      pending := pending[..i] + pending[i + 1..];
    }

    /** Set: (re)writes the verdict for `token` with a fresh expiry of now + TTL, whatever the verdict. */
    method Set(token: string, valid: bool, now: Instant)
      requires Valid()
      modifies this`cache
      ensures cache == old(cache)[token := TokenInfo(valid, now + TTL)]
      ensures State() == Step(old(State()), SetOp(token, valid, now))
    {
      cache := cache[token := TokenInfo(valid, now + ttl)];
    }

    /** Cleanup: deletes, one key at a time, every entry that is stale at `now`. */
    method Cleanup(now: Instant)
      requires Valid()
      modifies this`cache
      ensures cache == Pruned(old(cache), now)
      ensures State() == Step(old(State()), CleanupOp(now))
    {
      ghost var start := cache;
      var keys := cache.Keys;
      while keys != {}
        invariant keys <= start.Keys
        invariant forall k :: k in cache <==> k in start && (k in keys || !Expired(start[k], now))
        invariant forall k :: k in cache ==> cache[k] == start[k]
        decreases keys
      {
        var k :| k in keys;
        if now > cache[k].expiresAt {
          cache := cache - {k};
        }
        keys := keys - {k};
      }
    }
  }

  /** A token that was never Set misses. */
  lemma NeverSetMisses(m: map<string, TokenInfo>, token: string, now: Instant)
    requires token !in m
    ensures Lookup(m, token, now) == (false, false)
  {
  }

  /**
   * After Set(t, v) at `setAt`, a lookup at any instant up to and including
   * setAt + TTL answers (v, true), for either verdict; just past it, a miss.
   */
  lemma SetThenLookup(m: map<string, TokenInfo>, t: string, v: bool, setAt: Instant, now: Instant)
    ensures setAt <= now <= setAt + TTL ==> Lookup(Step(CacheState(m, []), SetOp(t, v, setAt)).cache, t, now) == (v, true)
    ensures now > setAt + TTL ==> Lookup(Step(CacheState(m, []), SetOp(t, v, setAt)).cache, t, now) == (false, false)
  {
  }

  /** Set touches only its own token. */
  lemma SetLeavesOthers(s: CacheState, t: string, v: bool, setAt: Instant, u: string, now: Instant)
    requires u != t
    ensures Lookup(Step(s, SetOp(t, v, setAt)).cache, u, now) == Lookup(s.cache, u, now)
    ensures Step(s, SetOp(t, v, setAt)).pending == s.pending
  {
  }

  /**
   * Get never changes the map; a stale entry is only queued for removal, and no
   * other token is queued.
   */
  lemma GetOnlySchedules(s: CacheState, t: string, now: Instant)
    ensures Step(s, GetOp(t, now)).cache == s.cache
    ensures Lookup(s.cache, t, now).1 ==> Step(s, GetOp(t, now)).pending == s.pending
    ensures t in s.cache && Expired(s.cache[t], now) ==> Step(s, GetOp(t, now)).pending == s.pending + [t]
    ensures t !in s.cache ==> Step(s, GetOp(t, now)).pending == s.pending
  {
  }

  /** Cleanup removes exactly the stale entries and leaves every other entry as it was. */
  lemma CleanupExact(m: map<string, TokenInfo>, now: Instant, k: string)
    ensures k in Pruned(m, now) <==> k in m && !Expired(m[k], now)
    ensures k in Pruned(m, now) ==> Pruned(m, now)[k] == m[k]
  {
  }

  /** After Cleanup nothing stale remains, so a second Cleanup at the same instant is a no-op. */
  lemma CleanupIdempotent(m: map<string, TokenInfo>, now: Instant)
    ensures forall k :: k in Pruned(m, now) ==> !Expired(Pruned(m, now)[k], now)
    ensures Pruned(Pruned(m, now), now) == Pruned(m, now)
  {
  }

  /** Cleanup is invisible to Get: every lookup at the cleanup instant or later answers as before. */
  lemma CleanupPreservesLookups(m: map<string, TokenInfo>, cleanedAt: Instant, token: string, now: Instant)
    requires cleanedAt <= now
    ensures Lookup(Pruned(m, cleanedAt), token, now) == Lookup(m, token, now)
  {
  }

  /** An operation that cannot disturb the entry for `t` while it is fresh, i.e. up to `expiresAt`. */
  predicate Harmless(op: Op, t: string, expiresAt: Instant)
  {
    match op
    case GetOp(u, now) => u == t ==> now <= expiresAt
    case SetOp(u, _, _) => u != t
    case CleanupOp(now) => now <= expiresAt
    case RemovalOp(_) => true
  }

  /**
   * An entry with no removal pending survives, unchanged, any sequence of
   * operations that neither re-Sets it nor looks at it or cleans up after it
   * goes stale; and no removal of it gets scheduled meanwhile.
   */
  lemma {:induction false} EntrySurvives(s: CacheState, ops: seq<Op>, t: string)
    requires t in s.cache && t !in s.pending
    requires forall i :: 0 <= i < |ops| ==> Harmless(ops[i], t, s.cache[t].expiresAt)
    ensures t in Run(s, ops).cache && Run(s, ops).cache[t] == s.cache[t]
    ensures t !in Run(s, ops).pending
    decreases |ops|
  {
    if ops != [] {
      var s' := Step(s, ops[0]);
      match ops[0] {
        case GetOp(u, now) =>
        case SetOp(u, v, now) =>
        case CleanupOp(now) =>
        case RemovalOp(i) =>
          if i < |s.pending| {
            assert s.pending[i] != t;
            assert forall x :: x in s'.pending ==> x in s.pending by {
              forall x | x in s'.pending ensures x in s.pending {
                if x in s.pending[..i] {
                } else {
                  assert x in s.pending[i + 1..];
                }
              }
            }
          }
      }
      assert t in s'.cache && s'.cache[t] == s.cache[t] && t !in s'.pending;
      EntrySurvives(s', ops[1..], t);
    }
  }

  /**
   * The cached verdict is served for the whole TTL: after Set(t, v) at `setAt`,
   * when no removal of t was pending, every lookup of t at an instant up to
   * setAt + TTL after any harmless operations answers (v, true).
   */
  lemma SetServesForTTL(s: CacheState, t: string, v: bool, setAt: Instant, ops: seq<Op>, now: Instant)
    requires t !in s.pending
    requires forall i :: 0 <= i < |ops| ==> Harmless(ops[i], t, setAt + TTL)
    requires now <= setAt + TTL
    ensures Lookup(Run(Step(s, SetOp(t, v, setAt)), ops).cache, t, now) == (v, true)
  {
    EntrySurvives(Step(s, SetOp(t, v, setAt)), ops, t);
  }

  /**
   * The removal Get schedules is unconditional: when it runs after the token has
   * been Set again, it drops the fresh verdict, and a lookup well within the new
   * TTL misses.
   */
  lemma StaleRemovalDropsFreshVerdict()
    ensures var s := CacheState(map["t" := TokenInfo(true, 0)], []);
            var after := Run(s, [GetOp("t", 1), SetOp("t", true, 2), RemovalOp(0)]);
            Lookup(after.cache, "t", 3) == (false, false) && 3 <= 2 + TTL
  {
    var s := CacheState(map["t" := TokenInfo(true, 0)], []);
    var s1 := Step(s, GetOp("t", 1));
    assert s1.pending == ["t"];
    var s2 := Step(s1, SetOp("t", true, 2));
    var s3 := Step(s2, RemovalOp(0));
    assert "t" !in s3.cache;
    var ops := [GetOp("t", 1), SetOp("t", true, 2), RemovalOp(0)];
    assert ops[1..][1..][1..] == [];
    assert Run(s, ops) == Run(s1, ops[1..]) == Run(s2, ops[1..][1..]) == Run(s3, []);
  }
}
