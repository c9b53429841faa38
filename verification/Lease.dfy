/** Expiring collection leases in Redis and the task that works under one:
  * app/queue/locks.py and app/queue/tasks/scrape.py. */
module Leases {
  import opened Wrappers

  type Token = nat

  /** A Redis value set with an expiry time, in milliseconds. */
  datatype Slot = Slot(token: Token, expiresAt: int)

  type Keys = map<string, Slot>

  function Get(keys: Keys, key: string, now: int): Option<Token> {
    if key in keys && now < keys[key].expiresAt then Some(keys[key].token) else None
  }

  /** `SET key token NX PX ttl`. */
  function SetIfAbsent(keys: Keys, key: string, token: Token, now: int, ttl: nat): Keys {
    if Get(keys, key, now).Some? then keys else keys[key := Slot(token, now + ttl)]
  }

  /** The release script: delete the key only while it still holds this token. */
  function CompareAndDelete(keys: Keys, key: string, token: Token, now: int): Keys {
    if Get(keys, key, now) == Some(token) then keys - {key} else keys
  }

  // ---- The lease objects ------------------------------------------------------------------

  class Redis {
    var keys: Keys
    var now: int

    constructor ()
      ensures keys == map[] && now == 0
    {
      keys, now := map[], 0;
    }

    /** What other clients and the clock do meanwhile. */
    method Elapse(later: Keys, at: int)
      requires now <= at
      modifies this
      ensures keys == later && now == at
    {
      keys, now := later, at;
    }
  }

  class RedisCollectionLease {
    const redis: Redis
    const key: string
    const token: Token
    var released: bool

    constructor (redis: Redis, key: string, token: Token)
      ensures this.redis == redis && this.key == key && this.token == token && !released
    {
      this.redis, this.key, this.token := redis, key, token;
      released := false;
    }

    /** `release`: true when the lease was still ours.  A second release does nothing, and when
      * Redis cannot be reached (no result) the lease can be released again later. */
    method Release(reachable: bool) returns (result: Option<bool>)
      modifies this, redis
      ensures redis.now == old(redis.now)
      ensures old(released) ==> result == Some(false) && redis.keys == old(redis.keys) && released
      ensures !old(released) && !reachable ==> result == None && redis.keys == old(redis.keys) && !released
      ensures !old(released) && reachable ==>
                && released && redis.keys == CompareAndDelete(old(redis.keys), key, token, redis.now)
                && result == Some(Get(old(redis.keys), key, redis.now) == Some(token))
    {
      if released {
        return Some(false);
      }
      if !reachable {
        return None;
      }
      var ours := Get(redis.keys, key, redis.now) == Some(token);
      redis.keys := CompareAndDelete(redis.keys, key, token, redis.now);
      released := true;
      return Some(ours);
    }
  }

  class RedisCollectionLockManager {
    const redis: Redis
    const ttlMs: nat
    const namespace: string

    constructor (redis: Redis, ttlSeconds: nat, namespace: string)
      ensures this.redis == redis && ttlMs == ttlSeconds * 1000 && this.namespace == namespace
    {
      this.redis, this.namespace := redis, namespace;
      ttlMs := ttlSeconds * 1000;
    }

    function RedisKey(identity: string): string {
      namespace + ":collection-lock:" + identity
    }

    /** `acquire`: a lease exactly when nobody holds the key. */
    method Acquire(identity: string, token: Token) returns (lease: RedisCollectionLease?)
      modifies redis
      ensures redis.now == old(redis.now)
      ensures redis.keys == SetIfAbsent(old(redis.keys), RedisKey(identity), token, redis.now, ttlMs)
      ensures lease == null <==> Get(old(redis.keys), RedisKey(identity), redis.now).Some?
      ensures lease != null ==>
                && fresh(lease) && lease.redis == redis && lease.key == namespace + ":collection-lock:" + identity
                && lease.token == token && !lease.released
    {
      var key := RedisKey(identity);
      var acquired := Get(redis.keys, key, redis.now).None?;
      redis.keys := SetIfAbsent(redis.keys, key, token, redis.now, ttlMs);
      if !acquired {
        return null;
      }
      lease := new RedisCollectionLease(redis, key, token);
    }
  }

  // ---- The collection task ----------------------------------------------------------------

  /** How the coordinator's run ends: with the jobs that failed in the legacy and in the canonical table, or
    * with an error. */
  datatype Collected = Completed(failed: nat, canonicalFailed: nat) | Temporary(retryAfter: nat) | Permanent | Unexpected | Cancelled

  datatype TaskResult =
    | Returned(status: string, lockAcquired: bool)
    | Retry(defer: nat)
    | Raised

  /** `run_job_collection`: `later` and `at` are the Redis state and time when the collection
    * section is left, however it is left.  The lease is given back on every path, and only ours:
    * any other token found under the key stays. */
  method RunJobCollection(manager: RedisCollectionLockManager, identity: string, token: Token, valid: bool,
                          registered: bool, collected: Collected, later: Keys, at: int, reachable: bool)
    returns (result: TaskResult, entered: bool)
    requires manager.redis.now <= at
    modifies manager.redis
    ensures entered <==> valid && registered
                         && Get(old(manager.redis.keys), manager.RedisKey(identity), old(manager.redis.now)).None?
    ensures !entered ==> manager.redis.keys == old(manager.redis.keys) && manager.redis.now == old(manager.redis.now)
    ensures !entered ==> result == Returned(if !valid then "failed" else if !registered then "source_unavailable"
                                            else "skipped_locked", false)
    ensures entered ==> manager.redis.now == at
    ensures entered ==> match collected
                        case Completed(0, 0) => result == Returned("success", true)
                        case Completed(_, _) => result == Returned("partial", true)
                        case Temporary(seconds) => result == Retry(seconds)
                        case Permanent => result == Returned("failed", true)
                        case _ => result == Raised
    ensures entered ==> manager.redis.keys == if reachable then CompareAndDelete(later, manager.RedisKey(identity), token, at)
                                              else later
  {
    entered := false;
    if !valid {
      return Returned("failed", false), entered;
    }
    if !registered {
      return Returned("source_unavailable", false), entered;
    }
    var lease := manager.Acquire(identity, token);
    if lease == null {
      return Returned("skipped_locked", false), entered;
    }
    entered := true;
    manager.redis.Elapse(later, at);
    match collected {
      case Completed(failed, canonicalFailed) =>
        result := Returned(if failed > 0 || canonicalFailed > 0 then "partial" else "success", true);
      case Temporary(retryAfter) =>
        result := Retry(retryAfter);
      case Permanent =>
        result := Returned("failed", true);
      case Unexpected =>
        result := Raised;
      case Cancelled =>
        result := Raised;
    }
    var released := lease.Release(reachable);
  }

  // ---- Any number of tasks ----------------------------------------------------------------

  type Tid = nat

  /** Where a task is: it has started, is in the collection section, or is about to release. */
  datatype Task =
    | Started(key: string, startedAt: int)
    | Collecting(key: string, startedAt: int, token: Token)
    | Releasing(key: string, token: Token)
    | Ended

  datatype World = World(now: int, keys: Keys, tasks: map<Tid, Task>, nextToken: Token)

  const EMPTY: World := World(0, map[], map[], 0)

  /** Both settings in milliseconds. */
  datatype Config = Config(ttl: nat, timeout: nat)

  datatype Event =
    | Tick(ms: nat)
    | Start(t: Tid, key: string)
    | Acquire(t: Tid)
    | Leave(t: Tid)
    | Release(t: Tid, reachable: bool)
    | Crash(t: Tid)

  /** Time does not carry a task past its timeout: it has left the section by then. */
  predicate Enabled(c: Config, w: World, e: Event) {
    match e
    case Tick(ms) => forall t :: t in w.tasks && w.tasks[t].Collecting? ==> w.now + ms <= w.tasks[t].startedAt + c.timeout
    case Start(t, _) => t !in w.tasks || w.tasks[t].Ended?
    case Acquire(t) => t in w.tasks && w.tasks[t].Started? && w.now <= w.tasks[t].startedAt + c.timeout
    case Leave(t) => t in w.tasks && w.tasks[t].Collecting?
    case Release(t, _) => t in w.tasks && w.tasks[t].Releasing?
    case Crash(t) => t in w.tasks
  }

  function Next(c: Config, w: World, e: Event): World {
    if !Enabled(c, w, e) then w
    else match e
    case Tick(ms) => w.(now := w.now + ms)
    case Start(t, key) => w.(tasks := w.tasks[t := Started(key, w.now)])
    case Acquire(t) =>
      var key := w.tasks[t].key;
      if Get(w.keys, key, w.now).Some? then w.(tasks := w.tasks[t := Ended])
      else w.(keys := SetIfAbsent(w.keys, key, w.nextToken, w.now, c.ttl), nextToken := w.nextToken + 1,
              tasks := w.tasks[t := Collecting(key, w.tasks[t].startedAt, w.nextToken)])
    case Leave(t) => w.(tasks := w.tasks[t := Releasing(w.tasks[t].key, w.tasks[t].token)])
    case Release(t, reachable) =>
      var released := w.(tasks := w.tasks[t := Ended]);
      if reachable then released.(keys := CompareAndDelete(w.keys, w.tasks[t].key, w.tasks[t].token, w.now)) else released
    case Crash(t) => w.(tasks := w.tasks[t := Ended])
  }

  /** No two tasks are in the collection section of one target together. */
  ghost predicate Exclusive(w: World) {
    forall s, t | s in w.tasks && t in w.tasks && w.tasks[s].Collecting? && w.tasks[t].Collecting? ::
      w.tasks[s].key == w.tasks[t].key ==> s == t
  }

  /** A task that owns a token. */
  predicate Owner(x: Task) {
    x.Collecting? || x.Releasing?
  }

  /** While a task collects, the key is its own and will not expire before its timeout. */
  ghost predicate Holds(c: Config, w: World, x: Task)
    requires x.Collecting?
  {
    && x.key in w.keys && w.keys[x.key].token == x.token
    && x.startedAt + c.ttl <= w.keys[x.key].expiresAt
    && w.now <= x.startedAt + c.timeout
  }

  ghost predicate Inv(c: Config, w: World) {
    && (forall t :: t in w.tasks && w.tasks[t].Collecting? ==> Holds(c, w, w.tasks[t]))
    && (forall t :: t in w.tasks && w.tasks[t].Started? ==> w.tasks[t].startedAt <= w.now)
    && (forall k :: k in w.keys ==> w.keys[k].token < w.nextToken)
    && (forall t :: t in w.tasks && Owner(w.tasks[t]) ==> w.tasks[t].token < w.nextToken)
    && (forall s, t :: s in w.tasks && t in w.tasks && s != t ==> Owner(w.tasks[s]) && Owner(w.tasks[t]) ==>
          w.tasks[s].token != w.tasks[t].token)
  }

  lemma AcquireKeepsInv(c: Config, w: World, t: Tid)
    requires c.timeout < c.ttl && Inv(c, w) && Enabled(c, w, Acquire(t))
    ensures Inv(c, Next(c, w, Acquire(t)))
  {
    var w' := Next(c, w, Acquire(t));
    if w'.tasks[t].Collecting? {
      forall s | s in w'.tasks && w'.tasks[s].Collecting?
        ensures Holds(c, w', w'.tasks[s])
      {
        if s != t {
          assert Holds(c, w, w.tasks[s]);
          assert Get(w.keys, w.tasks[s].key, w.now).Some?;
        }
      }
    }
  }

  lemma ReleaseKeepsInv(c: Config, w: World, t: Tid, reachable: bool)
    requires Inv(c, w) && Enabled(c, w, Release(t, reachable))
    ensures Inv(c, Next(c, w, Release(t, reachable)))
  {
    var w' := Next(c, w, Release(t, reachable));
    forall s | s in w'.tasks && w'.tasks[s].Collecting?
      ensures Holds(c, w', w'.tasks[s])
    {
      assert Holds(c, w, w.tasks[s]);
    }
  }

  lemma StepKeepsInv(c: Config, w: World, e: Event)
    requires c.timeout < c.ttl && Inv(c, w) && Enabled(c, w, e)
    ensures Inv(c, Next(c, w, e))
  {
    match e
    case Acquire(t) => AcquireKeepsInv(c, w, t);
    case Release(t, reachable) => ReleaseKeepsInv(c, w, t, reachable);
    case Tick(ms) =>
      forall t | t in w.tasks && w.tasks[t].Collecting?
        ensures Holds(c, Next(c, w, e), w.tasks[t])
      {
        assert Holds(c, w, w.tasks[t]);
      }
    case _ =>
  }

  /** The life of a task: it starts, enters the section with a token of its own if the key is free, leaves
    * it, and ends with its release; or it dies. */
  lemma TaskMoves(c: Config, w: World, e: Event, t: Tid)
    requires Inv(c, w) && Enabled(c, w, e) && t in Next(c, w, e).tasks && (t in w.tasks ==> w.tasks[t] != Next(c, w, e).tasks[t])
    ensures match Next(c, w, e).tasks[t]
            case Started(key, at) => e == Start(t, key) && at == w.now && (t in w.tasks ==> w.tasks[t].Ended?)
            case Collecting(key, at, token) =>
              && e == Acquire(t) && t in w.tasks && w.tasks[t] == Started(key, at)
              && (key in w.keys ==> w.keys[key].expiresAt <= w.now)
              && (forall k :: k in w.keys ==> w.keys[k].token != token)
              && Next(c, w, e).keys == w.keys[key := Slot(token, w.now + c.ttl)]
            case Releasing(key, token) =>
              e == Leave(t) && t in w.tasks && w.tasks[t].Collecting? && w.tasks[t].key == key && w.tasks[t].token == token
            case Ended =>
              && t in w.tasks
              && (e == Crash(t) || e == Release(t, true) || e == Release(t, false)
                  || (e == Acquire(t) && w.tasks[t].Started? && w.tasks[t].key in w.keys
                      && w.now < w.keys[w.tasks[t].key].expiresAt))
  {
  }

  /** A release that reaches Redis frees the key if it is still its own; one that does not leaves all keys
    * to expire. */
  lemma ReleaseFrees(c: Config, w: World, t: Tid, reachable: bool)
    requires Inv(c, w) && Enabled(c, w, Release(t, reachable))
    ensures w.tasks[t].Releasing? && Next(c, w, Release(t, reachable)).tasks == w.tasks[t := Ended]
    ensures var x, keys := w.tasks[t], Next(c, w, Release(t, reachable)).keys;
            if reachable && x.key in w.keys && w.keys[x.key].token == x.token && w.now < w.keys[x.key].expiresAt
            then keys == w.keys - {x.key} else keys == w.keys
  {
  }

  /** A release, whenever it happens, leaves every other task's lease in place. */
  lemma ReleaseSparesOthers(c: Config, w: World, t: Tid, reachable: bool, s: Tid)
    requires Inv(c, w) && Enabled(c, w, Release(t, reachable))
    requires s != t && s in w.tasks && Owner(w.tasks[s])
    ensures var w' := Next(c, w, Release(t, reachable));
            Get(w'.keys, w.tasks[s].key, w'.now) == Some(w.tasks[s].token)
            <==> Get(w.keys, w.tasks[s].key, w.now) == Some(w.tasks[s].token)
  {
  }

  function Run(c: Config, w: World, run: seq<Event>): World {
    if run == [] then w else Next(c, Run(c, w, run[..|run| - 1]), run[|run| - 1])
  }

  predicate Possible(c: Config, w: World, run: seq<Event>) {
    run == [] || (Possible(c, w, run[..|run| - 1]) && Enabled(c, Run(c, w, run[..|run| - 1]), run[|run| - 1]))
  }

  lemma {:induction false} RunKeepsInv(c: Config, run: seq<Event>)
    requires c.timeout < c.ttl && Possible(c, EMPTY, run)
    ensures Inv(c, Run(c, EMPTY, run)) && Exclusive(Run(c, EMPTY, run))
  {
    if run != [] {
      RunKeepsInv(c, run[..|run| - 1]);
      StepKeepsInv(c, Run(c, EMPTY, run[..|run| - 1]), run[|run| - 1]);
    }
  }

  /** A lease that does not outlive the task timeout lets a second task in. */
  lemma ShortLeaseOverlaps(c: Config) returns (run: seq<Event>)
    requires c.ttl <= c.timeout
    ensures Possible(c, EMPTY, run) && !Exclusive(Run(c, EMPTY, run))
  {
    var run1 := [Start(0, "k")];
    var run2 := run1 + [Acquire(0)];
    var run3 := run2 + [Tick(c.ttl)];
    var run4 := run3 + [Start(1, "k")];
    run := run4 + [Acquire(1)];
    assert run1[..0] == [] && run2[..1] == run1 && run3[..2] == run2 && run4[..3] == run3 && run[..4] == run4;
    var w1 := World(0, map[], map[0 := Started("k", 0)], 0);
    var w2 := World(0, map["k" := Slot(0, c.ttl)], map[0 := Collecting("k", 0, 0)], 1);
    var w3 := w2.(now := c.ttl);
    var w4 := w3.(tasks := w3.tasks[1 := Started("k", c.ttl)]);
    assert Run(c, EMPTY, run1) == Next(c, EMPTY, Start(0, "k")) == w1;
    assert Run(c, EMPTY, run2) == Next(c, w1, Acquire(0)) == w2;
    assert Possible(c, EMPTY, run2);
    assert Run(c, EMPTY, run3) == Next(c, w2, Tick(c.ttl)) == w3;
    assert Run(c, EMPTY, run4) == Next(c, w3, Start(1, "k")) == w4;
    assert Possible(c, EMPTY, run4);
    var w5 := Next(c, w4, Acquire(1));
    assert Run(c, EMPTY, run) == w5;
    assert w5.tasks[0].Collecting? && w5.tasks[1].Collecting?;
  }

  /** Mutual exclusion over all runs is exactly the condition the settings validator enforces:
    * the lease must outlive the task timeout. */
  lemma ExclusiveIffLeaseOutlivesTask(c: Config)
    ensures (forall run :: Possible(c, EMPTY, run) ==> Exclusive(Run(c, EMPTY, run))) <==> c.timeout < c.ttl
  {
    if c.timeout < c.ttl {
      forall run | Possible(c, EMPTY, run)
        ensures Exclusive(Run(c, EMPTY, run))
      {
        RunKeepsInv(c, run);
      }
    } else {
      var run := ShortLeaseOverlaps(c);
    }
  }
}
