/** The capacity-bounded fixed-window rate limiter of app/security/rate_limit.py. */
module RateLimiting {
  import opened Wrappers

  datatype Entry = Entry(key: string, startedAt: real, count: nat, window: nat)
  datatype Decision = Decision(allowed: bool, retryAfter: int)

  predicate Expired(e: Entry, now: real) {
    now - e.startedAt >= e.window as real
  }

  // ---- The store as a function of its entries, oldest use first ----------------------------

  function Discard(entries: seq<Entry>, keys: set<string>): seq<Entry> {
    if entries == [] then []
    else Discard(entries[..|entries| - 1], keys)
         + (if entries[|entries| - 1].key in keys then [] else [entries[|entries| - 1]])
  }

  function ExpiredKeys(entries: seq<Entry>, now: real): set<string> {
    set i | 0 <= i < |entries| && Expired(entries[i], now) :: entries[i].key
  }

  function Unexpired(entries: seq<Entry>, now: real): seq<Entry> {
    Discard(entries, ExpiredKeys(entries, now))
  }

  function Find(entries: seq<Entry>, key: string): Option<Entry> {
    if entries == [] then None
    else if entries[|entries| - 1].key == key then Some(entries[|entries| - 1])
    else Find(entries[..|entries| - 1], key)
  }

  /** Counting one more request on top of what is known about its key. */
  function Bump(known: Option<Entry>, key: string, now: real, window: nat): Entry {
    if known.Some? && known.value.window == window && now - known.value.startedAt < window as real
    then Entry(key, known.value.startedAt, known.value.count + 1, window)
    else Entry(key, now, 1, window)
  }

  function Latest(entries: seq<Entry>, maxKeys: nat): seq<Entry> {
    if |entries| > maxKeys then entries[|entries| - maxKeys..] else entries
  }

  function Counted(entries: seq<Entry>, key: string, now: real, window: nat): Entry {
    Bump(Find(Unexpired(entries, now), key), key, now, window)
  }

  function Consumed(entries: seq<Entry>, maxKeys: nat, key: string, now: real, window: nat): seq<Entry> {
    Latest(Discard(Unexpired(entries, now), {key}) + [Counted(entries, key, now, window)], maxKeys)
  }

  /** Python's `int()` of a float. */
  function Truncate(x: real): int {
    if x >= 0.0 then x.Floor else -((-x).Floor)
  }

  function RetryAfter(remaining: real): int {
    var wait := Truncate(remaining + 0.999);
    if wait > 1 then wait else 1
  }

  function Decide(e: Entry, now: real, limit: int): Decision {
    Decision(e.count <= limit, RetryAfter(e.window as real - (now - e.startedAt)))
  }

  predicate DistinctKeys(entries: seq<Entry>) {
    forall i, j :: 0 <= i < j < |entries| ==> entries[i].key != entries[j].key
  }

  // ---- The store as the program runs it ----------------------------------------------------

  lemma {:induction false} DiscardTwice(entries: seq<Entry>, a: set<string>, b: set<string>)
    ensures Discard(Discard(entries, a), b) == Discard(entries, a + b)
  {
    if entries != [] {
      var n := |entries| - 1;
      DiscardTwice(entries[..n], a, b);
      var rest := Discard(entries[..n], a);
      if entries[n].key !in a {
        assert (rest + [entries[n]])[..|rest|] == rest;
      } else {
        assert rest + [] == rest;
      }
    }
  }

  function Ceiling(x: real): int {
    -((-x).Floor)
  }

  /** A wait for the time that remains: short of it by less than a millisecond, and equal to it rounded up
    * but for an excess of under a millisecond over a whole number of seconds.  It is never less than a
    * second, even if nothing remains. */
  ghost predicate WaitsFor(wait: int, remaining: real) {
    if remaining <= 0.0 then wait == 1
    else
      && remaining - 0.001 < wait as real && 1 <= wait <= Ceiling(remaining)
      && (wait == Ceiling(remaining) <==> !(remaining >= 1.0 && 0.0 < remaining - remaining.Floor as real < 0.001))
  }

  /** A decision on a counted request: whether it is within the limit, and the wait for the window's end. */
  ghost predicate Announces(d: Decision, e: Entry, now: real, limit: int) {
    (d.allowed <==> e.count <= limit) && WaitsFor(d.retryAfter, e.startedAt + e.window as real - now)
  }

  /** A request is counted in a window that is not over. */
  lemma CountedIsCurrent(entries: seq<Entry>, key: string, now: real, window: nat, limit: int)
    ensures var e := Counted(entries, key, now, window);
            && e.key == key && e.window == window && (window > 0 ==> e.startedAt + window as real - now > 0.0)
            && Announces(Decide(e, now, limit), e, now, limit)
  {
    var e := Counted(entries, key, now, window);
    var remaining := e.window as real - (now - e.startedAt);
    if remaining > 0.0 { RetryIsRoundedUp(remaining); }
  }

  class BoundedMemoryRateLimitStore {
    const maxKeys: nat
    var entries: seq<Entry>

    constructor (maxKeys: nat)
      ensures this.maxKeys == maxKeys && entries == []
    {
      this.maxKeys := maxKeys;
      entries := [];
    }

    method CollectExpired(now: real) returns (expired: seq<string>)
      ensures (set k | k in expired) == ExpiredKeys(entries, now)
    {
      expired := [];
      for i := 0 to |entries|
        invariant forall k :: k in expired <==> exists j :: 0 <= j < i && entries[j].key == k && Expired(entries[j], now)
      {
        if Expired(entries[i], now) {
          expired := expired + [entries[i].key];
        }
      }
    }

    method DeleteKeys(keys: seq<string>)
      modifies this
      ensures entries == Discard(old(entries), set k | k in keys)
    {
      DiscardNothing(entries);
      ghost var done: set<string> := {};
      for i := 0 to |keys|
        invariant done == set k | k in keys[..i]
        invariant entries == Discard(old(entries), done)
      {
        DiscardTwice(old(entries), done, {keys[i]});
        entries := Discard(entries, {keys[i]});
        done := done + {keys[i]};
      }
      assert keys[..|keys|] == keys;
    }

    method EvictOldest()
      modifies this
      ensures entries == Latest(old(entries), maxKeys)
    {
      ghost var full := entries;
      while |entries| > maxKeys
        invariant |entries| <= |full| && entries == full[|full| - |entries|..]
        invariant |full| > maxKeys ==> |entries| >= maxKeys
        invariant |full| <= maxKeys ==> entries == full
      {
        entries := entries[1..];
      }
    }

    /** `consume` up to its decision: the request is counted and the store trimmed. */
    method Count(key: string, now: real, window: nat) returns (startedAt: real, count: nat)
      modifies this
      ensures entries == Consumed(old(entries), maxKeys, key, now, window)
      ensures Entry(key, startedAt, count, window) == Counted(old(entries), key, now, window)
    {
      var expired := CollectExpired(now);
      DeleteKeys(expired);
      assert entries == Unexpired(old(entries), now);
      var known := Find(entries, key);
      entries := Discard(entries, {key});
      var storedWindow := window;
      startedAt, count := now, 0;
      if known.Some? {
        startedAt, count, storedWindow := known.value.startedAt, known.value.count, known.value.window;
      }
      if storedWindow != window || now - startedAt >= window as real {
        startedAt, count := now, 0;
      }
      count := count + 1;
      assert Entry(key, startedAt, count, window) == Bump(known, key, now, window);
      entries := entries + [Entry(key, startedAt, count, window)];
      EvictOldest();
    }

    /** `consume`, with the clock reading as an argument. */
    method Consume(key: string, now: real, limit: int, window: nat) returns (decision: Decision)
      modifies this
      ensures entries == Consumed(old(entries), maxKeys, key, now, window)
      ensures decision == Decide(Counted(old(entries), key, now, window), now, limit)
      ensures Announces(decision, Counted(old(entries), key, now, window), now, limit)
    {
      CountedIsCurrent(entries, key, now, window, limit);
      var startedAt, count := Count(key, now, window);
      decision := Decision(count <= limit, RetryAfter(window as real - (now - startedAt)));
    }
  }

  lemma {:induction false} DiscardNothing(entries: seq<Entry>)
    ensures Discard(entries, {}) == entries
  {
    if entries != [] { DiscardNothing(entries[..|entries| - 1]); }
  }

  // ---- The route limiter in front of the store --------------------------------------------

  /** The store key of a route group and a client. */
  function StoreKey(routeGroup: string, clientKey: string): string {
    routeGroup + ":" + clientKey
  }

  /** Routes and clients never share a counter: the route groups contain no colon, so the first
    * colon of the key separates the two even when the client is an IPv6 address. */
  lemma StoreKeysAreDistinct(group1: string, client1: string, group2: string, client2: string)
    requires ':' !in group1 && ':' !in group2
    ensures StoreKey(group1, client1) == StoreKey(group2, client2) <==> group1 == group2 && client1 == client2
  {
    var k1, k2 := StoreKey(group1, client1), StoreKey(group2, client2);
    assert k1[|group1|] == ':' && k2[|group2|] == ':';
    if k1 == k2 {
      assert forall i :: 0 <= i < |group1| ==> k1[i] != ':';
      assert forall i :: 0 <= i < |group2| ==> k2[i] != ':';
      assert |group1| == |group2|;
      assert group1 == k1[..|group1|] && group2 == k2[..|group2|];
      assert client1 == k1[|group1| + 1..] && client2 == k2[|group2| + 1..];
    }
  }

  datatype CheckResult = Decided(decision: Decision) | NotLimited | StoreError

  class RouteRateLimiter {
    const store: BoundedMemoryRateLimitStore
    const failClosed: bool

    constructor (store: BoundedMemoryRateLimitStore, failClosed: bool)
      ensures this.store == store && this.failClosed == failClosed
    {
      this.store := store;
      this.failClosed := failClosed;
    }

    /** A failing store is an error when failing closed and no limit at all when failing open;
      * either way nothing is counted. */
    method Check(routeGroup: string, clientKey: string, now: real, limit: int, window: nat, available: bool)
      returns (result: CheckResult)
      modifies store
      ensures !available ==> store.entries == old(store.entries) && result == if failClosed then StoreError else NotLimited
      ensures available ==>
                && store.entries == Consumed(old(store.entries), store.maxKeys, StoreKey(routeGroup, clientKey), now, window)
                && result == Decided(Decide(Counted(old(store.entries), StoreKey(routeGroup, clientKey), now, window), now, limit))
      ensures available ==>
                && result.Decided?
                && Announces(result.decision, Counted(old(store.entries), StoreKey(routeGroup, clientKey), now, window),
                             now, limit)
    {
      if available {
        var decision := store.Consume(StoreKey(routeGroup, clientKey), now, limit, window);
        result := Decided(decision);
      } else if failClosed {
        result := StoreError;
      } else {
        result := NotLimited;
      }
    }
  }

  // ---- The wait that is returned ----------------------------------------------------------

  /** The advertised wait falls short of the remaining time by less than a millisecond, and is the
    * remaining time rounded up exactly when it does not end in a fraction of a millisecond. */
  lemma RetryIsRoundedUp(remaining: real)
    requires remaining > 0.0
    ensures RetryAfter(remaining) as real > remaining - 0.001
    ensures RetryAfter(remaining) == Ceiling(remaining) <==>
              !(remaining >= 1.0 && 0.0 < remaining - remaining.Floor as real < 0.001)
  {
    var n := remaining.Floor;
    var f := remaining - n as real;
    assert 0.0 <= f < 1.0;
    assert Truncate(remaining + 0.999) == if f < 0.001 then n else n + 1;
    assert Ceiling(remaining) == if f == 0.0 then n else n + 1;
  }

  /** A refused client that waits as told gets a new window exactly when the wait was rounded up. */
  lemma WaitingHelps(e: Entry, now: real)
    requires e.startedAt <= now < e.startedAt + e.window as real
    ensures var remaining := e.window as real - (now - e.startedAt);
            Bump(Some(e), e.key, now + RetryAfter(remaining) as real, e.window).startedAt > e.startedAt
            <==> RetryAfter(remaining) == Ceiling(remaining)
  {
    var remaining := e.window as real - (now - e.startedAt);
    RetryIsRoundedUp(remaining);
  }
}
