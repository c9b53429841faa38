/** The bounded store against an unbounded fixed-window counter, over whole histories of requests. */
module RateLimitAgreement {
  import opened Facts
  import opened Wrappers
  import opened RateLimiting

  // ---- Histories --------------------------------------------------------------------------

  datatype Request = Request(key: string, now: real, limit: int, window: nat)

  /** The entries after a history of requests. */
  function Bounded(history: seq<Request>, maxKeys: nat): seq<Entry> {
    if history == [] then []
    else
      var r := history[|history| - 1];
      Consumed(Bounded(history[..|history| - 1], maxKeys), maxKeys, r.key, r.now, r.window)
  }

  /** One fixed-window counter for every key ever seen; nothing is evicted. */
  function Unbounded(history: seq<Request>): map<string, Entry> {
    if history == [] then map[]
    else
      var before := Unbounded(history[..|history| - 1]);
      var r := history[|history| - 1];
      before[r.key := Bump(Known(before, r.key), r.key, r.now, r.window)]
  }

  function Known(counters: map<string, Entry>, key: string): Option<Entry> {
    if key in counters then Some(counters[key]) else None
  }

  /** The other keys used since the last use of this one. */
  function KeysSince(history: seq<Request>, key: string): set<string> {
    if history == [] || history[|history| - 1].key == key then {}
    else KeysSince(history[..|history| - 1], key) + {history[|history| - 1].key}
  }

  predicate Monotone(history: seq<Request>) {
    forall i, j :: 0 <= i < j < |history| ==> history[i].now <= history[j].now
  }

  predicate NotBefore(now: real, history: seq<Request>) {
    history == [] || history[|history| - 1].now <= now
  }

  lemma MonotonePrefix(before: seq<Request>, r: Request)
    requires Monotone(before + [r])
    ensures Monotone(before) && NotBefore(r.now, before)
  {
    var history := before + [r];
    assert forall i :: 0 <= i < |before| ==> history[i] == before[i] && history[i].now <= history[|before|].now;
  }

  function LastUse(history: seq<Request>, key: string): Option<Request> {
    if history == [] then None
    else if history[|history| - 1].key == key then Some(history[|history| - 1])
    else LastUse(history[..|history| - 1], key)
  }

  // ---- Eviction ---------------------------------------------------------------------------

  /** The entries before eviction. */
  function Appended(history: seq<Request>, maxKeys: nat, r: Request): seq<Entry> {
    var entries := Bounded(history, maxKeys);
    Discard(Unexpired(entries, r.now), {r.key}) + [Counted(entries, r.key, r.now, r.window)]
  }

  /** Serving this request makes capacity drop the live entry of the key. */
  predicate Drops(history: seq<Request>, maxKeys: nat, r: Request, key: string) {
    var full := Appended(history, maxKeys, r);
    Find(full, key).Some? && Find(Latest(full, maxKeys), key).None?
  }

  /** The key's live entry was dropped since its last use. */
  predicate EvictedSince(history: seq<Request>, maxKeys: nat, key: string) {
    history != [] &&
    (var before, r := history[..|history| - 1], history[|history| - 1];
     Drops(before, maxKeys, r, key) || (r.key != key && EvictedSince(before, maxKeys, key)))
  }

  /** The counter the bounded store gave the key at its last use, kept or not. */
  function LastCounter(history: seq<Request>, maxKeys: nat, key: string): Option<Entry> {
    if history == [] then None
    else
      var before, r := history[..|history| - 1], history[|history| - 1];
      if r.key == key then Some(Counted(Bounded(before, maxKeys), r.key, r.now, r.window))
      else LastCounter(before, maxKeys, key)
  }

  /** Each entry's key comes after all the keys before it. */
  ghost predicate InOrder(entries: seq<Entry>, after: string -> set<string>) {
    forall i, j :: 0 <= i < j < |entries| ==> entries[j].key in after(entries[i].key)
  }

  /** The store holds exactly the last counters that were neither evicted nor have expired, in order
    * of last use and within capacity; an expired one may linger until the next request. */
  ghost predicate Kept(history: seq<Request>, maxKeys: nat, now: real) {
    var entries := Bounded(history, maxKeys);
    && |entries| <= maxKeys
    && InOrder(entries, k => KeysSince(history, k))
    && (forall e :: e in entries ==>
          LastCounter(history, maxKeys, e.key) == Some(e) && !EvictedSince(history, maxKeys, e.key))
    && (forall k :: LastCounter(history, maxKeys, k).Some? && !EvictedSince(history, maxKeys, k) ==>
          var e := LastCounter(history, maxKeys, k).value;
          e in entries || Expired(e, now))
  }

  /** Membership and order in what `Discard` leaves. */
  lemma {:induction false} DiscardKeeps(entries: seq<Entry>, keys: set<string>)
    ensures forall e :: e in Discard(entries, keys) <==> e in entries && e.key !in keys
    ensures |Discard(entries, keys)| <= |entries|
  {
    if entries != [] {
      var n := |entries| - 1;
      DiscardKeeps(entries[..n], keys);
      assert entries == entries[..n] + [entries[n]];
    }
  }

  lemma UnexpiredAre(entries: seq<Entry>, now: real)
    requires DistinctKeys(entries)
    ensures forall e :: e in Unexpired(entries, now) <==> e in entries && now < e.startedAt + e.window as real
  {
    DiscardKeeps(entries, ExpiredKeys(entries, now));
    forall e | e in entries
      ensures e.key in ExpiredKeys(entries, now) <==> Expired(e, now)
    {
      var i :| 0 <= i < |entries| && entries[i] == e;
    }
  }

  /** What a request leaves of other keys' entries: none whose time is over, and, while there is room, all
    * the others. */
  lemma OthersAfterRequest(entries: seq<Entry>, maxKeys: nat, key: string, now: real, window: nat)
    requires DistinctKeys(entries)
    ensures var left := Consumed(entries, maxKeys, key, now, window);
            && (forall e :: e in left && e.key != key ==> e in entries && now < e.startedAt + e.window as real)
            && (|entries| < maxKeys ==>
                  forall e :: e in entries && e.key != key && now < e.startedAt + e.window as real ==> e in left)
  {
    var live := Unexpired(entries, now);
    UnexpiredAre(entries, now);
    DiscardKeeps(entries, ExpiredKeys(entries, now));
    DiscardKeeps(live, {key});
    OneMoreEntry(Discard(live, {key}), Counted(entries, key, now, window), maxKeys);
    CountedIsCurrent(entries, key, now, window, 0);
  }

  lemma OneMoreEntry(kept: seq<Entry>, counted: Entry, maxKeys: nat)
    ensures forall e :: e in Latest(kept + [counted], maxKeys) ==> e in kept || e == counted
    ensures |kept| < maxKeys ==> forall e :: e in kept ==> e in Latest(kept + [counted], maxKeys)
  {
    LatestIsSome(kept + [counted], maxKeys);
  }

  lemma LatestIsSome(full: seq<Entry>, maxKeys: nat)
    ensures forall e :: e in Latest(full, maxKeys) ==> e in full
    ensures |full| <= maxKeys ==> Latest(full, maxKeys) == full
  {
  }

  /** Any order on keys survives discarding. */
  lemma {:induction false} DiscardKeepsOrder(entries: seq<Entry>, keys: set<string>, after: string -> set<string>)
    requires InOrder(entries, after)
    ensures InOrder(Discard(entries, keys), after)
  {
    if entries != [] {
      var n := |entries| - 1;
      var rest := Discard(entries[..n], keys);
      DiscardKeepsOrder(entries[..n], keys, after);
      DiscardKeeps(entries[..n], keys);
      forall i | 0 <= i < |rest|
        ensures entries[n].key in after(rest[i].key)
      {
        assert rest[i] in entries[..n];
      }
    }
  }

  lemma {:induction false} FindIsMember(entries: seq<Entry>, key: string)
    ensures Find(entries, key).Some? ==> Find(entries, key).value in entries && Find(entries, key).value.key == key
    ensures Find(entries, key).None? ==> forall e :: e in entries ==> e.key != key
  {
    if entries != [] {
      FindIsMember(entries[..|entries| - 1], key);
      assert entries == entries[..|entries| - 1] + [entries[|entries| - 1]];
    }
  }

  lemma {:induction false} KeysSinceExcludesSelf(history: seq<Request>, key: string)
    ensures key !in KeysSince(history, key)
  {
    if history != [] { KeysSinceExcludesSelf(history[..|history| - 1], key); }
  }

  /** An order by last use has no key twice. */
  lemma OrderIsDistinct(history: seq<Request>, entries: seq<Entry>)
    requires InOrder(entries, k => KeysSince(history, k))
    ensures DistinctKeys(entries)
  {
    forall i, j | 0 <= i < j < |entries|
      ensures entries[i].key != entries[j].key
    {
      KeysSinceExcludesSelf(history, entries[i].key);
    }
  }

  lemma {:induction false} DistinctKeySetSize(entries: seq<Entry>)
    requires DistinctKeys(entries)
    ensures |set i | 0 <= i < |entries| :: entries[i].key| == |entries|
  {
    if entries != [] {
      var n := |entries| - 1;
      DistinctKeySetSize(entries[..n]);
      var before := set i | 0 <= i < n :: entries[..n][i].key;
      assert (set i | 0 <= i < |entries| :: entries[i].key) == before + {entries[n].key};
      assert entries[n].key !in before;
    }
  }

  /** An entry displaced by capacity was displaced by `maxKeys` other keys used after it. */
  lemma DisplacedByCapacity(history: seq<Request>, full: seq<Entry>, maxKeys: nat, i: nat)
    requires InOrder(full, k => KeysSince(history, k)) && |full| > maxKeys && i < |full| - maxKeys
    ensures |KeysSince(history, full[i].key)| >= maxKeys
  {
    var kept := full[|full| - maxKeys..];
    OrderIsDistinct(history, full);
    DistinctKeySetSize(kept);
    forall j | 0 <= j < maxKeys
      ensures kept[j].key in KeysSince(history, full[i].key)
    {
      assert kept[j] == full[|full| - maxKeys + j];
    }
    SubsetSize(set j | 0 <= j < |kept| :: kept[j].key, KeysSince(history, full[i].key));
  }

  /** After appending a request, everything kept so far is older than its key. */
  lemma AppendKeepsOrder(history: seq<Request>, r: Request, kept: seq<Entry>, e: Entry)
    requires InOrder(kept, k => KeysSince(history, k)) && e.key == r.key
    requires forall x :: x in kept ==> x.key != r.key
    ensures InOrder(kept + [e], k => KeysSince(history + [r], k))
  {
    assert (history + [r])[..|history|] == history;
    forall i, j | 0 <= i < j < |kept + [e]|
      ensures (kept + [e])[j].key in KeysSince(history + [r], (kept + [e])[i].key)
    {
      assert kept[i] in kept;
      if j < |kept| { assert kept[j].key in KeysSince(history, kept[i].key); }
    }
  }

  lemma AppendedMembers(entries: seq<Entry>, r: Request, counted: Entry)
    requires counted.key == r.key
    ensures var full := Discard(Unexpired(entries, r.now), {r.key}) + [counted];
            && (forall e :: e in full && e.key != r.key ==> e in entries)
            && (forall e :: e in full && e.key == r.key ==> e == counted)
            && (forall e :: e in entries && e.key != r.key && e.key !in ExpiredKeys(entries, r.now) ==> e in full)
  {
    DiscardKeeps(entries, ExpiredKeys(entries, r.now));
    DiscardKeeps(Unexpired(entries, r.now), {r.key});
  }

  lemma CountedKey(history: seq<Request>, maxKeys: nat, key: string)
    ensures LastCounter(history, maxKeys, key).Some? ==>
              LastCounter(history, maxKeys, key).value.key == key && LastCounter(history, maxKeys, key).value.count >= 1
  {
    if history != [] && history[|history| - 1].key != key { CountedKey(history[..|history| - 1], maxKeys, key); }
  }

  lemma AppendedShape(history: seq<Request>, maxKeys: nat, r: Request)
    requires Kept(history, maxKeys, r.now)
    ensures var entries, full := Bounded(history, maxKeys), Appended(history, maxKeys, r);
            && InOrder(full, k => KeysSince(history + [r], k))
            && full[|full| - 1] == Counted(entries, r.key, r.now, r.window)
            && (forall e :: e in full && e.key != r.key ==> e in entries)
            && (forall e :: e in full && e.key == r.key ==> e == full[|full| - 1])
            && (forall e :: e in entries && e.key != r.key && !Expired(e, r.now) ==> e in full)
  {
    var entries := Bounded(history, maxKeys);
    var current := Unexpired(entries, r.now);
    AppendedMembers(entries, r, Counted(entries, r.key, r.now, r.window));
    OrderIsDistinct(history, entries);
    DiscardKeepsOrder(entries, ExpiredKeys(entries, r.now), k => KeysSince(history, k));
    DiscardKeepsOrder(current, {r.key}, k => KeysSince(history, k));
    DiscardKeeps(current, {r.key});
    AppendKeepsOrder(history, r, Discard(current, {r.key}), Counted(entries, r.key, r.now, r.window));
  }

  lemma LatestIsSuffix(full: seq<Entry>, maxKeys: nat, after: string -> set<string>)
    requires InOrder(full, after)
    ensures InOrder(Latest(full, maxKeys), after)
    ensures forall e :: e in Latest(full, maxKeys) ==> e in full
    ensures |Latest(full, maxKeys)| <= maxKeys
  {
  }

  lemma SurvivorIsCurrent(history: seq<Request>, maxKeys: nat, r: Request, e: Entry)
    requires Kept(history, maxKeys, r.now) && e in Latest(Appended(history, maxKeys, r), maxKeys)
    ensures LastCounter(history + [r], maxKeys, e.key) == Some(e) && !EvictedSince(history + [r], maxKeys, e.key)
  {
    assert (history + [r])[..|history|] == history;
    AppendedShape(history, maxKeys, r);
    FindIsMember(Latest(Appended(history, maxKeys, r), maxKeys), e.key);
  }

  lemma LiveCounterSurvives(history: seq<Request>, maxKeys: nat, r: Request, k: string)
    requires Kept(history, maxKeys, r.now)
    requires LastCounter(history + [r], maxKeys, k).Some? && !EvictedSince(history + [r], maxKeys, k)
    ensures var e := LastCounter(history + [r], maxKeys, k).value;
            e in Latest(Appended(history, maxKeys, r), maxKeys) || Expired(e, r.now)
  {
    assert (history + [r])[..|history|] == history;
    var full := Appended(history, maxKeys, r);
    var e := LastCounter(history + [r], maxKeys, k).value;
    AppendedShape(history, maxKeys, r);
    CountedKey(history + [r], maxKeys, k);
    if e in full {
      FindIsMember(full, k);
      FindIsMember(Latest(full, maxKeys), k);
      OrderIsDistinct(history + [r], full);
    }
  }

  lemma KeptStep(history: seq<Request>, maxKeys: nat, r: Request)
    requires Kept(history, maxKeys, r.now)
    ensures Kept(history + [r], maxKeys, r.now)
  {
    var h := history + [r];
    assert h[..|history|] == history;
    var full := Appended(history, maxKeys, r);
    assert Bounded(h, maxKeys) == Latest(full, maxKeys);
    AppendedShape(history, maxKeys, r);
    LatestIsSuffix(full, maxKeys, k => KeysSince(h, k));
    forall e | e in Latest(full, maxKeys) { SurvivorIsCurrent(history, maxKeys, r, e); }
    forall k | LastCounter(h, maxKeys, k).Some? && !EvictedSince(h, maxKeys, k) { LiveCounterSurvives(history, maxKeys, r, k); }
  }

  lemma NothingKept(maxKeys: nat, now: real)
    ensures Kept([], maxKeys, now)
  {
  }

  /** Time only expires more. */
  lemma KeptLater(history: seq<Request>, maxKeys: nat, now: real, later: real)
    requires Kept(history, maxKeys, now) && now <= later
    ensures Kept(history, maxKeys, later)
  {
  }

  lemma {:induction false} StoreKeepsLiveCounters(history: seq<Request>, maxKeys: nat, now: real)
    requires Monotone(history) && NotBefore(now, history)
    ensures Kept(history, maxKeys, now)
  {
    if history == [] {
      NothingKept(maxKeys, now);
    } else {
      var before, r := history[..|history| - 1], history[|history| - 1];
      StoreKeepsLiveCounters(before, maxKeys, r.now);
      KeptStep(before, maxKeys, r);
      assert history == before + [r];
      MonotonePrefix(before, r);
      KeptLater(history, maxKeys, r.now, now);
    }
  }

  /** What a request finds: nothing if its entry was evicted, else its last counter. */
  lemma CountedIs(history: seq<Request>, maxKeys: nat, r: Request)
    requires Kept(history, maxKeys, r.now)
    ensures Counted(Bounded(history, maxKeys), r.key, r.now, r.window)
         == if EvictedSince(history, maxKeys, r.key) then Entry(r.key, r.now, 1, r.window)
            else Bump(LastCounter(history, maxKeys, r.key), r.key, r.now, r.window)
  {
    var entries := Bounded(history, maxKeys);
    var current := Unexpired(entries, r.now);
    DiscardKeeps(entries, ExpiredKeys(entries, r.now));
    FindIsMember(current, r.key);
    CountedKey(history, maxKeys, r.key);
    OrderIsDistinct(history, entries);
    if Find(current, r.key).None? && !EvictedSince(history, maxKeys, r.key)
       && LastCounter(history, maxKeys, r.key).Some? {
      ExpiredWhenGone(entries, r, LastCounter(history, maxKeys, r.key).value);
    }
  }

  lemma ExpiredWhenGone(entries: seq<Entry>, r: Request, e: Entry)
    requires DistinctKeys(entries) && e.key == r.key && Find(Unexpired(entries, r.now), r.key).None?
    requires e in entries || Expired(e, r.now)
    ensures Expired(e, r.now)
  {
    DiscardKeeps(entries, ExpiredKeys(entries, r.now));
    FindIsMember(Unexpired(entries, r.now), r.key);
  }

  lemma LatestKeepsTheEnd(full: seq<Entry>, maxKeys: nat)
    ensures forall i :: 0 <= i < |full| && i >= |full| - maxKeys ==> full[i] in Latest(full, maxKeys)
  {
    var latest := Latest(full, maxKeys);
    assert |full| > maxKeys ==> forall i :: |full| - maxKeys <= i < |full| ==> latest[i - (|full| - maxKeys)] == full[i];
  }

  /** An eviction takes `maxKeys` other keys used since, so while fewer were used there is none. */
  lemma {:induction false} EvictionTakesACrowd(history: seq<Request>, maxKeys: nat, key: string)
    requires Monotone(history) && EvictedSince(history, maxKeys, key)
    ensures |KeysSince(history, key)| >= maxKeys
  {
    var before, r := history[..|history| - 1], history[|history| - 1];
    assert history == before + [r];
    MonotonePrefix(before, r);
    if Drops(before, maxKeys, r, key) {
      StoreKeepsLiveCounters(before, maxKeys, r.now);
      AppendedShape(before, maxKeys, r);
      var full := Appended(before, maxKeys, r);
      FindIsMember(full, key);
      FindIsMember(Latest(full, maxKeys), key);
      var i :| 0 <= i < |full| && full[i] == Find(full, key).value;
      LatestKeepsTheEnd(full, maxKeys);
      DisplacedByCapacity(history, full, maxKeys, i);
    } else {
      EvictionTakesACrowd(before, maxKeys, key);
      SubsetSize(KeysSince(before, key), KeysSince(history, key));
    }
  }

  // ---- Agreement --------------------------------------------------------------------------

  function BoundedDecision(history: seq<Request>, maxKeys: nat, r: Request): Decision {
    Decide(Counted(Bounded(history, maxKeys), r.key, r.now, r.window), r.now, r.limit)
  }

  function UnboundedDecision(history: seq<Request>, r: Request): Decision {
    Decide(Bump(Known(Unbounded(history), r.key), r.key, r.now, r.window), r.now, r.limit)
  }

  /** The two counters of a key were equal when it was last used. */
  predicate InAgreement(history: seq<Request>, maxKeys: nat, key: string) {
    LastCounter(history, maxKeys, key) == Known(Unbounded(history), key)
  }

  /** The unbounded counter opens a new window for this request. */
  predicate StartsOver(history: seq<Request>, r: Request) {
    var known := Known(Unbounded(history), r.key);
    known.None? || known.value.window != r.window || r.now - known.value.startedAt >= r.window as real
  }

  /** The key lost a live entry, and its unbounded window is still open at its next request. */
  predicate Disturbed(history: seq<Request>, maxKeys: nat, r: Request) {
    EvictedSince(history, maxKeys, r.key) && !StartsOver(history, r)
  }

  ghost predicate DecideAlike(history: seq<Request>, maxKeys: nat, r: Request) {
    forall limit :: BoundedDecision(history, maxKeys, r.(limit := limit)) == UnboundedDecision(history, r.(limit := limit))
  }

  /** Decisions under every limit tell whether the counters are equal. */
  lemma AlikeIsEqual(history: seq<Request>, maxKeys: nat, r: Request)
    requires Kept(history, maxKeys, r.now) && InAgreement(history, maxKeys, r.key)
    ensures var counted := Counted(Bounded(history, maxKeys), r.key, r.now, r.window);
            var bumped := Bump(Known(Unbounded(history), r.key), r.key, r.now, r.window);
            && (counted == bumped <==> !Disturbed(history, maxKeys, r))
            && (DecideAlike(history, maxKeys, r) <==> counted == bumped)
  {
    CountedIs(history, maxKeys, r);
    CountedKey(history, maxKeys, r.key);
    if Disturbed(history, maxKeys, r) {
      assert BoundedDecision(history, maxKeys, r.(limit := 1)).allowed;
      assert !UnboundedDecision(history, r.(limit := 1)).allowed;
    }
  }

  /** For a key in agreement, the next request is decided alike under every limit, and leaves the
    * key in agreement, exactly when its entry was not evicted live since its last use or its
    * unbounded window is over. */
  lemma AgreesIffUndisturbed(history: seq<Request>, maxKeys: nat, r: Request)
    requires Monotone(history) && NotBefore(r.now, history) && InAgreement(history, maxKeys, r.key)
    ensures DecideAlike(history, maxKeys, r) <==> !Disturbed(history, maxKeys, r)
    ensures InAgreement(history + [r], maxKeys, r.key) <==> !Disturbed(history, maxKeys, r)
  {
    assert (history + [r])[..|history|] == history;
    StoreKeepsLiveCounters(history, maxKeys, r.now);
    AlikeIsEqual(history, maxKeys, r);
  }

  /** Every request of the key in the history is decided alike under every limit. */
  ghost predicate AgreesThroughout(history: seq<Request>, maxKeys: nat, key: string) {
    history == [] ||
    (var before, r := history[..|history| - 1], history[|history| - 1];
     AgreesThroughout(before, maxKeys, key) && (r.key == key ==> DecideAlike(before, maxKeys, r)))
  }

  /** No request of the key in the history follows a live eviction within its unbounded window. */
  predicate Undisturbed(history: seq<Request>, maxKeys: nat, key: string) {
    history == [] ||
    (var before, r := history[..|history| - 1], history[|history| - 1];
     Undisturbed(before, maxKeys, key) && (r.key == key ==> !Disturbed(before, maxKeys, r)))
  }

  /** The bounded store decides like the unbounded counter for a key throughout a history exactly
    * when the key is undisturbed in it. */
  lemma {:induction false} StoreAgrees(history: seq<Request>, maxKeys: nat, key: string)
    requires Monotone(history)
    ensures AgreesThroughout(history, maxKeys, key) <==> Undisturbed(history, maxKeys, key)
    ensures Undisturbed(history, maxKeys, key) ==> InAgreement(history, maxKeys, key)
  {
    if history != [] {
      var before, r := history[..|history| - 1], history[|history| - 1];
      assert history == before + [r];
      MonotonePrefix(before, r);
      StoreAgrees(before, maxKeys, key);
      if Undisturbed(before, maxKeys, key) && r.key == key { AgreesIffUndisturbed(before, maxKeys, r); }
    }
  }

  /** While fewer than `maxKeys` other keys were used since its last use, a key in agreement stays
    * in agreement. */
  lemma FewOthersAgree(history: seq<Request>, maxKeys: nat, r: Request)
    requires Monotone(history) && NotBefore(r.now, history) && InAgreement(history, maxKeys, r.key)
    requires |KeysSince(history, r.key)| < maxKeys
    ensures DecideAlike(history, maxKeys, r) && InAgreement(history + [r], maxKeys, r.key)
  {
    if EvictedSince(history, maxKeys, r.key) { EvictionTakesACrowd(history, maxKeys, r.key); }
    AgreesIffUndisturbed(history, maxKeys, r);
  }

  /** Capacity and order of the store after any history. */
  lemma StoreIsBoundedLru(history: seq<Request>, maxKeys: nat)
    requires Monotone(history)
    ensures var entries := Bounded(history, maxKeys);
            && |entries| <= maxKeys && DistinctKeys(entries)
            && forall i, j :: 0 <= i < j < |entries| ==> entries[j].key in KeysSince(history, entries[i].key)
  {
    var now := if history == [] then 0.0 else history[|history| - 1].now;
    StoreKeepsLiveCounters(history, maxKeys, now);
    var entries := Bounded(history, maxKeys);
    OrderIsDistinct(history, entries);
    forall i, j | 0 <= i < j < |entries|
      ensures entries[j].key in KeysSince(history, entries[i].key)
    {
      assert InOrder(entries, k => KeysSince(history, k));
    }
  }

  // ---- A store with room for one key ------------------------------------------------------

  lemma RoomForOne(entries: seq<Entry>, key: string, now: real, window: nat)
    ensures Consumed(entries, 1, key, now, window) == [Counted(entries, key, now, window)]
  {
  }

  lemma CountedAfterOne(e: Entry, key: string, now: real, window: nat)
    ensures Counted([e], key, now, window)
         == if e.key == key && !Expired(e, now) then Bump(Some(e), key, now, window) else Entry(key, now, 1, window)
  {
    var keys := ExpiredKeys([e], now);
    assert [e][..0] == [];
    assert e.key in keys <==> Expired(e, now) by { assert [e][0] == e; }
    var left := Discard([e], keys);
    assert left == Discard([], keys) + (if e.key in keys then [] else [e]) by {
      assert [e][|[e]| - 1] == e && |[e]| == 1;
    }
    assert left == if Expired(e, now) then [] else [e];
    assert Find(left, key) == if e.key == key && !Expired(e, now) then Some(e) else None;
  }

  lemma BoundedThree()
    ensures Bounded([Request("a", 0.0, 2, 60), Request("b", 1.0, 2, 60), Request("a", 2.0, 2, 60)], 1) == [Entry("a", 2.0, 1, 60)]
  {
    var a1, b, a2 := Request("a", 0.0, 2, 60), Request("b", 1.0, 2, 60), Request("a", 2.0, 2, 60);
    assert [a1][..0] == [] && [a1, b][..1] == [a1] && [a1, b, a2][..2] == [a1, b];
    var ea, eb := Entry("a", 0.0, 1, 60), Entry("b", 1.0, 1, 60);
    RoomForOne([], "a", 0.0, 60);
    assert Bounded([a1], 1) == [ea];
    RoomForOne([ea], "b", 1.0, 60);
    CountedAfterOne(ea, "b", 1.0, 60);
    assert Bounded([a1, b], 1) == [eb];
    RoomForOne([eb], "a", 2.0, 60);
    CountedAfterOne(eb, "a", 2.0, 60);
  }

  lemma UnboundedThree()
    ensures Known(Unbounded([Request("a", 0.0, 2, 60), Request("b", 1.0, 2, 60), Request("a", 2.0, 2, 60)]), "a")
         == Some(Entry("a", 0.0, 2, 60))
  {
    var a1, b, a2 := Request("a", 0.0, 2, 60), Request("b", 1.0, 2, 60), Request("a", 2.0, 2, 60);
    assert [a1][..0] == [] && [a1, b][..1] == [a1] && [a1, b, a2][..2] == [a1, b];
    assert Unbounded([a1]) == map["a" := Entry("a", 0.0, 1, 60)];
    assert Unbounded([a1, b]) == map["a" := Entry("a", 0.0, 1, 60), "b" := Entry("b", 1.0, 1, 60)];
  }

  /** Being used recently is not enough for agreement: a key displaced earlier in its window has
    * lost its count.  With room for one key, the fourth request below is the third for "a" within
    * the window; the unbounded counter refuses it and the store admits it. */
  lemma RecentUseIsNotEnough()
    ensures var history := [Request("a", 0.0, 2, 60), Request("b", 1.0, 2, 60), Request("a", 2.0, 2, 60)];
            var r := Request("a", 3.0, 2, 60);
            && Monotone(history + [r]) && KeysSince(history, "a") == {}
            && BoundedDecision(history, 1, r).allowed && !UnboundedDecision(history, r).allowed
  {
    BoundedThree();
    UnboundedThree();
    CountedAfterOne(Entry("a", 2.0, 1, 60), "a", 3.0, 60);
  }
}
