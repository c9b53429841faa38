/** Which requests a decision counts, and what the wait it returns is worth, over whole histories. */
module RateLimitWaits {
  import opened Wrappers
  import opened RateLimiting
  import opened RateLimitAgreement

  /** The request that opened the window the key was last counted in: an earlier one, unless its entry was
    * evicted since, or it had another window, or its time is over. */
  function Opening(history: seq<Request>, maxKeys: nat, key: string): (i: Option<nat>)
    ensures i.Some? ==> i.value < |history|
  {
    if history == [] then None
    else
      var before, r := history[..|history| - 1], history[|history| - 1];
      var earlier := Opening(before, maxKeys, key);
      if r.key != key then earlier
      else if || earlier.None?
              || EvictedSince(before, maxKeys, key)
              || LastUse(before, key).None? || LastUse(before, key).value.window != r.window
              || r.now >= before[earlier.value].now + r.window as real
      then Some(|before|)
      else earlier
  }

  /** How many requests of the key there were from this one on. */
  function RequestsFrom(history: seq<Request>, i: nat, key: string): nat {
    if |history| <= i then 0
    else RequestsFrom(history[..|history| - 1], i, key) + (if history[|history| - 1].key == key then 1 else 0)
  }

  // ---- What a counter counts --------------------------------------------------------------

  /** What the requests of a key come to: when its window was opened, how many it has counted, and how long
    * it is. */
  ghost function CountedBy(history: seq<Request>, maxKeys: nat, key: string): Option<Entry> {
    match (Opening(history, maxKeys, key), LastUse(history, key))
    case (Some(i), Some(last)) => Some(Entry(key, history[i].now, RequestsFrom(history, i, key), last.window))
    case _ => None
  }

  lemma {:induction false} OpenedIffUsed(history: seq<Request>, maxKeys: nat, key: string)
    ensures Opening(history, maxKeys, key).Some? <==> LastUse(history, key).Some?
  {
    if history != [] { OpenedIffUsed(history[..|history| - 1], maxKeys, key); }
  }

  lemma OpeningSnoc(before: seq<Request>, maxKeys: nat, r: Request, key: string)
    ensures LastUse(before + [r], key) == if r.key == key then Some(r) else LastUse(before, key)
    ensures r.key != key ==> Opening(before + [r], maxKeys, key) == Opening(before, maxKeys, key)
    ensures r.key == key ==>
              Opening(before + [r], maxKeys, key)
              == match (Opening(before, maxKeys, key), LastUse(before, key))
                 case (Some(i), Some(last)) =>
                   if !EvictedSince(before, maxKeys, key) && last.window == r.window && r.now < before[i].now + r.window as real
                   then Some(i) else Some(|before|)
                 case _ => Some(|before|)
  {
    assert (before + [r])[..|before|] == before;
  }

  lemma RequestsSnoc(before: seq<Request>, r: Request, i: nat, key: string)
    requires i <= |before|
    ensures RequestsFrom(before + [r], i, key) == RequestsFrom(before, i, key) + (if r.key == key then 1 else 0)
    ensures RequestsFrom(before, |before|, key) == 0
  {
    assert (before + [r])[..|before|] == before;
  }

  lemma CountedBySnoc(before: seq<Request>, maxKeys: nat, r: Request, key: string)
    ensures CountedBy(before + [r], maxKeys, key)
         == if r.key != key then CountedBy(before, maxKeys, key)
            else if EvictedSince(before, maxKeys, key) then Some(Entry(key, r.now, 1, r.window))
            else Some(Bump(CountedBy(before, maxKeys, key), key, r.now, r.window))
  {
    OpeningSnoc(before, maxKeys, r, key);
    OpenedIffUsed(before, maxKeys, key);
    RequestsSnoc(before, r, |before|, key);
    if Opening(before, maxKeys, key).Some? { RequestsSnoc(before, r, Opening(before, maxKeys, key).value, key); }
  }

  /** The counter a key was last given holds when its window was opened, and the requests since. */
  lemma {:induction false} CounterIs(history: seq<Request>, maxKeys: nat, key: string)
    requires Monotone(history)
    ensures LastCounter(history, maxKeys, key) == CountedBy(history, maxKeys, key)
  {
    if history != [] {
      var before, r := history[..|history| - 1], history[|history| - 1];
      assert history == before + [r];
      MonotonePrefix(before, r);
      CounterIs(before, maxKeys, key);
      CountedBySnoc(before, maxKeys, r, key);
      StoreKeepsLiveCounters(before, maxKeys, r.now);
      CountedIs(before, maxKeys, r);
    }
  }

  /** A decision admits a request exactly when no more than `limit` requests were counted from the one that
    * opened its window, and the wait runs from there. */
  lemma DecisionIs(history: seq<Request>, maxKeys: nat, r: Request)
    requires Monotone(history + [r])
    ensures var full, d := history + [r], BoundedDecision(history, maxKeys, r);
            && Opening(full, maxKeys, r.key).Some?
            && var i := Opening(full, maxKeys, r.key).value;
               && (d.allowed <==> RequestsFrom(full, i, r.key) <= r.limit)
               && (r.window > 0 ==> full[i].now + r.window as real > r.now)
               && WaitsFor(d.retryAfter, full[i].now + r.window as real - r.now)
  {
    MonotonePrefix(history, r);
    CounterIs(history + [r], maxKeys, r.key);
    assert (history + [r])[..|history|] == history;
    OpenedIffUsed(history + [r], maxKeys, r.key);
    CountedIsCurrent(Bounded(history, maxKeys), r.key, r.now, r.window, r.limit);
  }

  // ---- Coming back after the wait ---------------------------------------------------------

  /** Requests of other keys leave a key's window as it was opened. */
  lemma {:induction false} OthersKeepOpening(history: seq<Request>, others: seq<Request>, maxKeys: nat, key: string)
    requires forall r :: r in others ==> r.key != key
    ensures Opening(history + others, maxKeys, key) == Opening(history, maxKeys, key)
    ensures LastUse(history + others, key) == LastUse(history, key)
  {
    if others == [] {
      assert history + others == history;
    } else {
      var n := |others| - 1;
      assert (history + others)[..|history| + n] == history + others[..n];
      assert (history + others)[|history| + n] == others[n];
      OthersKeepOpening(history, others[..n], maxKeys, key);
    }
  }

  /** The next request of a key opens a window if its entry was evicted or its window is over. */
  lemma ReturnOpensWhenOver(first: seq<Request>, maxKeys: nat, r: Request, others: seq<Request>, back: Request)
    requires first != [] && first[|first| - 1] == r && back.key == r.key && back.window == r.window
    requires forall other :: other in others ==> other.key != r.key
    ensures Opening(first, maxKeys, r.key).Some?
    ensures var middle, i := first + others, Opening(first, maxKeys, r.key).value;
            Opening(middle + [back], maxKeys, r.key) == Some(|middle|)
            <==> EvictedSince(middle, maxKeys, r.key) || back.now >= first[i].now + r.window as real
  {
    var middle := first + others;
    OpenedIffUsed(first, maxKeys, r.key);
    OthersKeepOpening(first, others, maxKeys, r.key);
    OpeningSnoc(middle, maxKeys, back, r.key);
    var i := Opening(first, maxKeys, r.key).value;
    assert middle[i] == first[i] && LastUse(middle, r.key) == Some(r);
  }

  /** A client that comes back after exactly the wait it was told opens a new window if and only if its
    * entry was evicted meanwhile or the wait was the remaining time rounded up. */
  lemma WaitOpensAWindow(history: seq<Request>, maxKeys: nat, r: Request, others: seq<Request>, limit: int)
    requires r.window > 0 && Monotone(history + [r]) && forall other :: other in others ==> other.key != r.key
    ensures var wait, first := BoundedDecision(history, maxKeys, r).retryAfter, history + [r];
            var middle, back := first + others, Request(r.key, r.now + wait as real, limit, r.window);
            && Opening(first, maxKeys, r.key).Some?
            && var i := Opening(first, maxKeys, r.key).value;
               Opening(middle + [back], maxKeys, r.key) == Some(|middle|)
               <==> EvictedSince(middle, maxKeys, r.key) || wait == Ceiling(first[i].now + r.window as real - r.now)
  {
    WaitEndsTheWindow(history, maxKeys, r);
    var wait := BoundedDecision(history, maxKeys, r).retryAfter;
    ReturnOpensWhenOver(history + [r], maxKeys, r, others, Request(r.key, r.now + wait as real, limit, r.window));
  }

  lemma WaitEndsTheWindow(history: seq<Request>, maxKeys: nat, r: Request)
    requires r.window > 0 && Monotone(history + [r])
    ensures var wait, first := BoundedDecision(history, maxKeys, r).retryAfter, history + [r];
            && Opening(first, maxKeys, r.key).Some?
            && var start := first[Opening(first, maxKeys, r.key).value].now;
               r.now + wait as real >= start + r.window as real <==> wait == Ceiling(start + r.window as real - r.now)
  {
    var first := history + [r];
    DecisionIs(history, maxKeys, r);
    WaitedOut(first[Opening(first, maxKeys, r.key).value].now, r.window, r.now, BoundedDecision(history, maxKeys, r).retryAfter);
  }

  /** The window is over after the wait exactly when that was rounded up. */
  lemma WaitedOut(start: real, window: nat, now: real, wait: int)
    requires start + window as real - now > 0.0 && WaitsFor(wait, start + window as real - now)
    ensures now + wait as real >= start + window as real <==> wait == Ceiling(start + window as real - now)
  {
  }
}
