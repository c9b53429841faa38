/** How many requests of one key a window-long interval can admit. */
module RateLimitBursts {
  import opened Wrappers
  import opened RateLimiting
  import opened RateLimitAgreement

  predicate Within(now: real, from: real, window: nat) {
    from <= now < from + window as real
  }

  /** How many requests for the key the bounded store admitted in [from, from + window). */
  function Admitted(history: seq<Request>, maxKeys: nat, key: string, from: real, window: nat): nat {
    if history == [] then 0
    else
      var before, r := history[..|history| - 1], history[|history| - 1];
      Admitted(before, maxKeys, key, from, window)
      + (if r.key == key && Within(r.now, from, window) && BoundedDecision(before, maxKeys, r).allowed then 1 else 0)
  }

  /** How often capacity dropped the key's live entry in [from, from + window). */
  function Evictions(history: seq<Request>, maxKeys: nat, key: string, from: real, window: nat): nat {
    if history == [] then 0
    else
      var before, r := history[..|history| - 1], history[|history| - 1];
      Evictions(before, maxKeys, key, from, window)
      + (if Within(r.now, from, window) && Drops(before, maxKeys, r, key) then 1 else 0)
  }

  /** All requests for the key use this limit and window. */
  ghost predicate Fixed(history: seq<Request>, key: string, limit: nat, window: nat) {
    forall i :: 0 <= i < |history| && history[i].key == key ==> history[i].limit == limit && history[i].window == window
  }

  function Least(a: int, b: int): int { if a <= b then a else b }

  /** What is known of a key after a history: how many of its requests the interval admitted, its last
    * counter, whether that was evicted since, and how often the interval saw it evicted. */
  datatype Ledger = Ledger(admitted: nat, counter: Option<Entry>, evicted: bool, evictions: nat)

  function LedgerOf(history: seq<Request>, maxKeys: nat, key: string, from: real, window: nat): Ledger {
    Ledger(Admitted(history, maxKeys, key, from, window), LastCounter(history, maxKeys, key),
           EvictedSince(history, maxKeys, key), Evictions(history, maxKeys, key, from, window))
  }

  function Recorded(l: Ledger, r: Request, key: string, counted: Entry, dropped: bool, within: bool): Ledger {
    Ledger(l.admitted + (if r.key == key && within && counted.count <= r.limit then 1 else 0),
           if r.key == key then Some(counted) else l.counter,
           dropped || (r.key != key && l.evicted),
           l.evictions + (if within && dropped then 1 else 0))
  }

  lemma LedgerSnoc(before: seq<Request>, r: Request, maxKeys: nat, key: string, from: real, window: nat)
    ensures LedgerOf(before + [r], maxKeys, key, from, window)
         == Recorded(LedgerOf(before, maxKeys, key, from, window), r, key,
                     Counted(Bounded(before, maxKeys), r.key, r.now, r.window),
                     Drops(before, maxKeys, r, key), Within(r.now, from, window))
  {
    assert (before + [r])[..|before|] == before;
  }

  /** How much of the budget can be spent up to `now`. */
  ghost predicate Spent(l: Ledger, from: real, limit: nat, window: nat, now: real) {
    var extra := limit * l.evictions;
    && l.admitted <= 2 * limit - 1 + extra
    && (now < from ==> l.admitted == 0)
    && (match l.counter
        case None => l.admitted == 0 && !l.evicted
        case Some(e) =>
          && e.startedAt <= now && e.window == window && e.count >= 1
          && (if l.evicted then now < from + window as real ==> l.admitted <= limit - 1 + extra
              else && (e.startedAt < from ==> l.admitted <= Least(e.count, limit) - 1 + extra)
                   && (Within(e.startedAt, from, window) ==> l.admitted <= limit - 1 + Least(e.count, limit) + extra)))
  }

  /** A request of the key spends at most one. */
  lemma SpendOne(l: Ledger, r: Request, key: string, counted: Entry, from: real, limit: nat, window: nat, last: real)
    requires limit > 0 && last <= r.now && r.window == window && r.limit == limit && r.key == key
    requires Spent(l, from, limit, window, last)
    requires counted == if l.evicted then Entry(r.key, r.now, 1, window) else Bump(l.counter, r.key, r.now, window)
    ensures Spent(Recorded(l, r, key, counted, false, Within(r.now, from, window)), from, limit, window, r.now)
  {
  }

  /** Losing the entry within the interval buys at most one more full limit. */
  lemma LoseEntry(l: Ledger, from: real, limit: nat, window: nat, now: real)
    requires limit > 0 && l.counter.Some? && !l.evicted && Spent(l, from, limit, window, now)
    ensures Spent(l.(evicted := true, evictions := l.evictions + (if Within(now, from, window) then 1 else 0)),
                  from, limit, window, now)
  {
    assert limit * (l.evictions + 1) == limit * l.evictions + limit;
  }

  /** Either way a request keeps the ledger within its bounds. */
  lemma RecordedIsSpent(l: Ledger, r: Request, key: string, counted: Entry, dropped: bool,
                        from: real, limit: nat, window: nat, last: real)
    requires limit > 0 && last <= r.now && Spent(l, from, limit, window, last)
    requires r.key == key ==>
               && r.window == window && r.limit == limit
               && counted == if l.evicted then Entry(r.key, r.now, 1, window) else Bump(l.counter, r.key, r.now, window)
    requires r.key != key && dropped ==> l.counter.Some? && !l.evicted
    ensures Spent(Recorded(l, r, key, counted, dropped, Within(r.now, from, window)), from, limit, window, r.now)
  {
    var within := Within(r.now, from, window);
    var kept := Recorded(l, r, key, counted, false, within);
    if r.key == key {
      SpendOne(l, r, key, counted, from, limit, window, last);
    } else {
      assert kept == l;
    }
    if dropped {
      LoseEntry(kept, from, limit, window, r.now);
      assert Recorded(l, r, key, counted, true, within)
          == kept.(evicted := true, evictions := kept.evictions + (if within then 1 else 0));
    }
  }

  lemma FixedPrefix(history: seq<Request>, r: Request, key: string, limit: nat, window: nat)
    requires Fixed(history + [r], key, limit, window)
    ensures Fixed(history, key, limit, window) && (r.key == key ==> r.limit == limit && r.window == window)
  {
    var h := history + [r];
    assert h[|history|] == r;
    forall i | 0 <= i < |history| && history[i].key == key
      ensures history[i].limit == limit && history[i].window == window
    {
      assert h[i] == history[i];
    }
  }

  /** Only a key with a counter can be dropped, and only once. */
  lemma DropsLastCounter(history: seq<Request>, maxKeys: nat, r: Request, key: string)
    requires Kept(history, maxKeys, r.now) && Drops(history, maxKeys, r, key) && r.key != key
    ensures LastCounter(history, maxKeys, key).Some? && !EvictedSince(history, maxKeys, key)
  {
    AppendedShape(history, maxKeys, r);
    FindIsMember(Appended(history, maxKeys, r), key);
  }

  lemma {:induction false} SpentIsKept(history: seq<Request>, maxKeys: nat, key: string, from: real, limit: nat, window: nat, now: real)
    requires limit > 0 && Monotone(history) && Fixed(history, key, limit, window) && NotBefore(now, history)
    ensures Spent(LedgerOf(history, maxKeys, key, from, window), from, limit, window, now)
  {
    if history != [] {
      var before, r := history[..|history| - 1], history[|history| - 1];
      assert history == before + [r];
      MonotonePrefix(before, r);
      FixedPrefix(before, r, key, limit, window);
      StoreKeepsLiveCounters(before, maxKeys, r.now);
      SpentIsKept(before, maxKeys, key, from, limit, window, r.now);
      var dropped := Drops(before, maxKeys, r, key);
      if r.key == key {
        CountedIs(before, maxKeys, r);
      } else if dropped {
        DropsLastCounter(before, maxKeys, r, key);
      }
      LedgerSnoc(before, r, maxKeys, key, from, window);
      RecordedIsSpent(LedgerOf(before, maxKeys, key, from, window), r, key,
                      Counted(Bounded(before, maxKeys), r.key, r.now, r.window), dropped, from, limit, window, r.now);
      SpentLater(LedgerOf(history, maxKeys, key, from, window), from, limit, window, r.now, now);
    }
  }

  lemma SpentLater(l: Ledger, from: real, limit: nat, window: nat, now: real, later: real)
    requires Spent(l, from, limit, window, now) && now <= later
    ensures Spent(l, from, limit, window, later)
  {
  }

  lemma {:induction false} NothingWithoutLimit(history: seq<Request>, maxKeys: nat, key: string, from: real, window: nat)
    requires Fixed(history, key, 0, window)
    ensures Admitted(history, maxKeys, key, from, window) == 0
  {
    if history != [] {
      var before, r := history[..|history| - 1], history[|history| - 1];
      assert history == before + [r];
      FixedPrefix(before, r, key, 0, window);
      NothingWithoutLimit(before, maxKeys, key, from, window);
    }
  }

  /** Any half-open interval of one window admits at most 2 * limit - 1 requests of a key, one less
    * than two full windows because the request that opens the earlier window lies outside, and at
    * most one limit more for each time the interval sees the key's live entry evicted. */
  lemma BurstBound(history: seq<Request>, maxKeys: nat, key: string, from: real, limit: nat, window: nat)
    requires Monotone(history) && Fixed(history, key, limit, window)
    ensures var l := LedgerOf(history, maxKeys, key, from, window);
            l.admitted <= if limit == 0 then 0 else 2 * limit - 1 + limit * l.evictions
  {
    if limit == 0 {
      NothingWithoutLimit(history, maxKeys, key, from, window);
    } else {
      var now := if history == [] then from else history[|history| - 1].now;
      SpentIsKept(history, maxKeys, key, from, limit, window, now);
    }
  }

  /** So a key never evicted live within the interval gets one request less than two limits. */
  lemma BurstBoundUnevicted(history: seq<Request>, maxKeys: nat, key: string, from: real, limit: nat, window: nat)
    requires Monotone(history) && Fixed(history, key, limit, window) && Evictions(history, maxKeys, key, from, window) == 0
    ensures Admitted(history, maxKeys, key, from, window) <= if limit == 0 then 0 else 2 * limit - 1
  {
    BurstBound(history, maxKeys, key, from, limit, window);
    var l := LedgerOf(history, maxKeys, key, from, window);
    assert l.evictions == 0 && limit * l.evictions == 0;
  }

  // ---- The bound is reached ---------------------------------------------------------------

  /** With one key in the store, one more request for it. */
  lemma OneMore(history: seq<Request>, r: Request, e: Entry, from: real)
    requires Bounded(history, 1) == [e] && e.key == r.key
    ensures var next := if Expired(e, r.now) then Entry(r.key, r.now, 1, r.window)
                        else Bump(Some(e), r.key, r.now, r.window);
            && Bounded(history + [r], 1) == [next]
            && Admitted(history + [r], 1, r.key, from, r.window)
               == Admitted(history, 1, r.key, from, r.window)
                  + (if Within(r.now, from, r.window) && next.count <= r.limit then 1 else 0)
  {
    assert (history + [r])[..|history|] == history;
    RoomForOne(Bounded(history, 1), r.key, r.now, r.window);
    CountedAfterOne(e, r.key, r.now, r.window);
  }

  lemma OneMoreInWindow(history: seq<Request>, r: Request, e: Entry, from: real)
    requires Bounded(history, 1) == [e] && e.key == r.key && e.window == r.window
    requires r.now - e.startedAt < r.window as real && e.count + 1 <= r.limit
    ensures Bounded(history + [r], 1) == [Entry(e.key, e.startedAt, e.count + 1, e.window)]
    ensures Admitted(history + [r], 1, r.key, from, r.window)
         == Admitted(history, 1, r.key, from, r.window) + (if Within(r.now, from, r.window) then 1 else 0)
  {
    OneMore(history, r, e, from);
  }

  /** A history of one key with one limit and window, over before `now`. */
  ghost predicate Simple(history: seq<Request>, key: string, limit: int, window: nat, now: real) {
    && Monotone(history) && NotBefore(now, history)
    && forall r :: r in history ==> r.key == key && r.limit == limit && r.window == window
  }

  lemma SimpleSnoc(history: seq<Request>, r: Request)
    requires Simple(history, r.key, r.limit, r.window, r.now)
    ensures Simple(history + [r], r.key, r.limit, r.window, r.now)
  {
  }

  /** The single entry of a one-key store, and how many of that key's requests the interval admitted. */
  ghost predicate Reached(history: seq<Request>, r: Request, e: Entry, admitted: nat, from: real) {
    && Bounded(history, 1) == [e] && e.key == r.key && e.window == r.window
    && Admitted(history, 1, r.key, from, r.window) == admitted
    && Simple(history, r.key, r.limit, r.window, r.now)
  }

  lemma ReachOneMore(history: seq<Request>, r: Request, e: Entry, admitted: nat, from: real)
    requires Reached(history, r, e, admitted, from)
    requires r.now - e.startedAt < r.window as real && e.count + 1 <= r.limit
    ensures Reached(history + [r], r, Entry(e.key, e.startedAt, e.count + 1, e.window),
                    admitted + (if Within(r.now, from, r.window) then 1 else 0), from)
  {
    OneMoreInWindow(history, r, e, from);
    SimpleSnoc(history, r);
  }

  /** Requests of one key inside its window only raise the count; within the interval they are
    * admitted until the limit is reached. */
  lemma {:induction false} CountUp(history: seq<Request>, r: Request, n: nat, e: Entry, admitted: nat, from: real)
    returns (longer: seq<Request>)
    requires Reached(history, r, e, admitted, from)
    requires r.now - e.startedAt < r.window as real && e.count + n <= r.limit
    ensures Reached(longer, r, Entry(e.key, e.startedAt, e.count + n, e.window),
                    admitted + (if Within(r.now, from, r.window) then n else 0), from)
    decreases n
  {
    if n == 0 {
      longer := history;
    } else {
      ReachOneMore(history, r, e, admitted, from);
      longer := CountUp(history + [r], r, n - 1, Entry(e.key, e.startedAt, e.count + 1, e.window),
                        admitted + (if Within(r.now, from, r.window) then 1 else 0), from);
    }
  }

  /** The latest key is never dropped while there is room for one. */
  lemma {:induction false} NeverAloneEvicted(history: seq<Request>, key: string, from: real, window: nat)
    requires forall r :: r in history ==> r.key == key
    ensures Evictions(history, 1, key, from, window) == 0
  {
    if history != [] {
      var before, r := history[..|history| - 1], history[|history| - 1];
      assert r in history && forall other :: other in before ==> other in history;
      NeverAloneEvicted(before, key, from, window);
      var full := Appended(before, 1, r);
      assert full[|full| - 1].key == key && Latest(full, 1)[|Latest(full, 1)| - 1] == full[|full| - 1];
    }
  }

  /** The bound without evictions is reached for every limit: one request, limit - 1 half a window
    * later, and limit more as soon as the next window starts. */
  lemma BurstBoundIsReached(limit: nat) returns (history: seq<Request>)
    requires limit > 0
    ensures Monotone(history) && Fixed(history, "k", limit, 2) && Evictions(history, 1, "k", 1.0, 2) == 0
    ensures Admitted(history, 1, "k", 1.0, 2) == 2 * limit - 1
  {
    var first, middle, last := Request("k", 0.0, limit, 2), Request("k", 1.0, limit, 2), Request("k", 2.0, limit, 2);
    history := [first];
    RoomForOne([], "k", 0.0, 2);
    assert history[..0] == [];
    history := CountUp(history, middle, limit - 1, Entry("k", 0.0, 1, 2), 0, 1.0);
    OneMore(history, last, Entry("k", 0.0, limit, 2), 1.0);
    history := history + [last];
    history := CountUp(history, last, limit - 1, Entry("k", 2.0, 1, 2), limit, 1.0);
    assert forall i :: 0 <= i < |history| ==> history[i] in history;
    NeverAloneEvicted(history, "k", 1.0, 2);
  }
}
