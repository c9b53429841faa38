/** The rotation-aware JWKS cache of app/auth/verifier.py.  Its two entry points run under one
  * lock, fetch included, so each is one atomic step; the clock moves between and within them. */
module JwksCache {
  import opened Wrappers

  type Kid = string
  type SigningKey = nat

  /** A fetch yields a non-empty key set, stamped by the clock when it is stored, or raises. */
  datatype Fetch = Fetched(keys: map<Kid, SigningKey>, doneAt: real) | Unavailable

  datatype Cache = Cache(keys: map<Kid, SigningKey>, fetchedAt: Option<real>, lastUnknownRefresh: Option<real>)

  const COLD: Cache := Cache(map[], None, None)

  datatype Settings = Settings(ttl: real, cooldown: real)

  predicate NeedsFetch(s: Settings, c: Cache, now: real) {
    c.fetchedAt.None? || c.keys == map[] || now - c.fetchedAt.value >= s.ttl
  }

  predicate NeedsRefresh(s: Settings, c: Cache, observed: real, now: real) {
    && c.fetchedAt == Some(observed)
    && !(c.lastUnknownRefresh.Some? && now - c.lastUnknownRefresh.value < s.cooldown)
  }

  function Stored(c: Cache, fetch: Fetch): Cache {
    if fetch.Fetched? then c.(keys := fetch.keys, fetchedAt := Some(fetch.doneAt)) else c
  }

  // ---- Steps ------------------------------------------------------------------------------

  datatype Step =
    | GetCached(now: real, fetch: Fetch)
    | RefreshUnknown(observed: real, now: real, fetch: Fetch)

  /** Whether the step calls the fetcher. */
  predicate Fetches(s: Settings, c: Cache, step: Step) {
    match step
    case GetCached(now, _) => NeedsFetch(s, c, now)
    case RefreshUnknown(observed, now, _) => NeedsRefresh(s, c, observed, now)
  }

  function Next(s: Settings, c: Cache, step: Step): Cache {
    if !Fetches(s, c, step) then c
    else match step
      case GetCached(_, fetch) => Stored(c, fetch)
      case RefreshUnknown(_, now, fetch) => Stored(c.(lastUnknownRefresh := Some(now)), fetch)
  }

  /** The last clock reading of a step. */
  function EndOf(s: Settings, c: Cache, step: Step): real {
    if Fetches(s, c, step) && step.fetch.Fetched? then step.fetch.doneAt else step.now
  }

  function After(s: Settings, c: Cache, steps: seq<Step>): Cache {
    if steps == [] then c else Next(s, After(s, c, steps[..|steps| - 1]), steps[|steps| - 1])
  }

  class SupabaseJwtVerifier {
    const settings: Settings
    var keys: map<Kid, SigningKey>
    var fetchedAt: Option<real>
    var lastUnknownRefresh: Option<real>

    constructor (settings: Settings)
      ensures this.settings == settings && State() == COLD
    {
      this.settings := settings;
      keys, fetchedAt, lastUnknownRefresh := map[], None, None;
    }

    function State(): Cache
      reads this
    {
      Cache(keys, fetchedAt, lastUnknownRefresh)
    }

    /** `_fetch_keys`: a failed fetch leaves everything as it was. */
    method FetchKeys(fetch: Fetch) returns (ok: bool)
      modifies this
      ensures State() == Stored(old(State()), fetch) && ok == fetch.Fetched?
    {
      match fetch {
        case Unavailable =>
          ok := false;
        case Fetched(newKeys, doneAt) =>
          keys, fetchedAt := newKeys, Some(doneAt);
          ok := true;
      }
    }

    /** `_get_cached_keys`: the key set and its age stamp, or nothing when a needed fetch fails.
      * What it serves is younger than the time to live. */
    method GetCachedKeys(now: real, fetch: Fetch) returns (served: Option<(map<Kid, SigningKey>, real)>)
      requires fetch.Fetched? ==> fetch.keys != map[]
      modifies this
      ensures State() == Next(settings, old(State()), GetCached(now, fetch))
      ensures served.None? <==> NeedsFetch(settings, old(State()), now) && fetch.Unavailable?
      ensures served.Some? ==>
                && served.value == (keys, fetchedAt.value) && fetchedAt.Some? && keys != map[]
                && (fetch == Fetched(served.value.0, served.value.1) || now - served.value.1 < settings.ttl)
      ensures var was := old(State());
              if was.fetchedAt.Some? && was.keys != map[] && now - was.fetchedAt.value < settings.ttl
              then State() == was
              else State() == match fetch
                              case Unavailable => was
                              case Fetched(newKeys, doneAt) => Cache(newKeys, Some(doneAt), was.lastUnknownRefresh)
    {
      if fetchedAt.None? || keys == map[] || now - fetchedAt.value >= settings.ttl {
        var ok := FetchKeys(fetch);
        if !ok {
          return None;
        }
      }
      return Some((keys, fetchedAt.value));
    }

    /** `_refresh_for_unknown_key`. */
    method RefreshForUnknownKey(observed: real, now: real, fetch: Fetch) returns (served: Option<map<Kid, SigningKey>>)
      modifies this
      ensures State() == Next(settings, old(State()), RefreshUnknown(observed, now, fetch))
      ensures served.None? <==> NeedsRefresh(settings, old(State()), observed, now) && fetch.Unavailable?
      ensures served.Some? ==> served.value == keys
      ensures var was := old(State());
              if was.fetchedAt == Some(observed)
                 && (was.lastUnknownRefresh.Some? ==> now - was.lastUnknownRefresh.value >= settings.cooldown)
              then State() == match fetch
                              case Unavailable => was.(lastUnknownRefresh := Some(now))
                              case Fetched(newKeys, doneAt) => Cache(newKeys, Some(doneAt), Some(now))
              else State() == was
    {
      var refreshedByAnother := fetchedAt != Some(observed);
      var onCooldown := lastUnknownRefresh.Some? && now - lastUnknownRefresh.value < settings.cooldown;
      if !refreshedByAnother && !onCooldown {
        lastUnknownRefresh := Some(now);
        var ok := FetchKeys(fetch);
        if !ok {
          return None;
        }
      }
      return Some(keys);
    }

    /** One step of another request. */
    method Interleave(step: Step)
      modifies this
      ensures State() == Next(settings, old(State()), step)
    {
      var c := Next(settings, State(), step);
      keys, fetchedAt, lastUnknownRefresh := c.keys, c.fetchedAt, c.lastUnknownRefresh;
    }

    /** `_get_signing_key`: a known key identifier needs one step; an unknown one also refreshes the
      * fetch it observed, after whatever other requests did in between. */
    method GetSigningKey(kid: Kid, now: real, first: Fetch, others: seq<Step>, later: real, second: Fetch)
      returns (key: Option<SigningKey>)
      requires first.Fetched? ==> first.keys != map[]
      modifies this
      ensures var seen := Next(settings, old(State()), GetCached(now, first));
              if NeedsFetch(settings, old(State()), now) && first.Unavailable? then
                key == None && State() == seen
              else if kid in seen.keys then
                key == Some(seen.keys[kid]) && State() == seen
              else
                && seen.fetchedAt.Some?
                && var middle := After(settings, seen, others);
                   var failed := NeedsRefresh(settings, middle, seen.fetchedAt.value, later) && second.Unavailable?;
                   && State() == Next(settings, middle, RefreshUnknown(seen.fetchedAt.value, later, second))
                   && key == if !failed && kid in keys then Some(keys[kid]) else None
    {
      var cached := GetCachedKeys(now, first);
      if cached.None? {
        return None;
      }
      if kid in cached.value.0 {
        return Some(cached.value.0[kid]);
      }
      ghost var seen := State();
      for i := 0 to |others|
        invariant State() == After(settings, seen, others[..i])
      {
        Interleave(others[i]);
        assert others[..i + 1][..i] == others[..i];
      }
      assert others[..|others|] == others;
      var refreshed := RefreshForUnknownKey(cached.value.1, later, second);
      return if refreshed.Some? && kid in refreshed.value then Some(refreshed.value[kid]) else None;
    }
  }

  // ---- Runs -------------------------------------------------------------------------------

  function Run(s: Settings, steps: seq<Step>): Cache {
    After(s, COLD, steps)
  }

  function Clock(s: Settings, steps: seq<Step>): Option<real> {
    if steps == [] then None else Some(EndOf(s, Run(s, steps[..|steps| - 1]), steps[|steps| - 1]))
  }

  /** The clock is strictly increasing, a fetch takes time, and a fetched set is not empty. */
  predicate Timely(s: Settings, steps: seq<Step>) {
    steps == [] ||
    (var before, step := steps[..|steps| - 1], steps[|steps| - 1];
     && Timely(s, before)
     && (Clock(s, before).Some? ==> Clock(s, before).value < step.now)
     && (step.fetch.Fetched? ==> step.now < step.fetch.doneAt && step.fetch.keys != map[]))
  }

  ghost predicate Stamped(s: Settings, steps: seq<Step>) {
    var c, clock := Run(s, steps), Clock(s, steps);
    && (c.fetchedAt.Some? <==> c.keys != map[])
    && (c.fetchedAt.Some? ==> clock.Some? && c.fetchedAt.value <= clock.value)
    && (c.lastUnknownRefresh.Some? ==> clock.Some? && c.lastUnknownRefresh.value <= clock.value)
  }

  lemma {:induction false} RunIsStamped(s: Settings, steps: seq<Step>)
    requires Timely(s, steps)
    ensures Stamped(s, steps)
  {
    if steps != [] { RunIsStamped(s, steps[..|steps| - 1]); }
  }

  /** The start times of the unknown-key fetches, failed ones included. */
  function UnknownFetches(s: Settings, steps: seq<Step>): seq<real> {
    if steps == [] then []
    else
      var before, step := steps[..|steps| - 1], steps[|steps| - 1];
      UnknownFetches(s, before)
      + (if step.RefreshUnknown? && Fetches(s, Run(s, before), step) then [step.now] else [])
  }

  /** The start times of the age-driven fetches that succeeded. */
  function AgeFetches(s: Settings, steps: seq<Step>): seq<real> {
    if steps == [] then []
    else
      var before, step := steps[..|steps| - 1], steps[|steps| - 1];
      AgeFetches(s, before)
      + (if step.GetCached? && Fetches(s, Run(s, before), step) && step.fetch.Fetched? then [step.now] else [])
  }

  /** The last fetch that succeeded. */
  function LastFetched(s: Settings, steps: seq<Step>): (last: Option<Fetch>)
    ensures last.Some? ==> last.value.Fetched?
  {
    if steps == [] then None
    else
      var before, step := steps[..|steps| - 1], steps[|steps| - 1];
      if Fetches(s, Run(s, before), step) && step.fetch.Fetched? then Some(step.fetch) else LastFetched(s, before)
  }

  /** The cache holds the keys and the time of the last fetch that succeeded, for whichever reason. */
  lemma {:induction false} KeysAreTheLastFetched(s: Settings, steps: seq<Step>)
    requires Timely(s, steps)
    ensures match LastFetched(s, steps)
            case None => Run(s, steps).keys == map[] && Run(s, steps).fetchedAt == None
            case Some(fetch) =>
              && Run(s, steps).keys == fetch.keys && Run(s, steps).fetchedAt == Some(fetch.doneAt)
              && fetch.keys != map[]
  {
    if steps != [] { KeysAreTheLastFetched(s, steps[..|steps| - 1]); }
  }

  /** When a step goes to the network, told from the history: a look at the cache when nothing was fetched
    * yet or the last fetch is a time to live old; a refresh when the last fetch is the one it observed and
    * the last unknown-key fetch is a cooldown ago. */
  lemma FetchesIff(s: Settings, steps: seq<Step>, step: Step)
    requires s.cooldown >= 0.0 && Timely(s, steps)
    ensures var last, unknown := LastFetched(s, steps), UnknownFetches(s, steps);
            Fetches(s, Run(s, steps), step) <==>
              match step
              case GetCached(now, _) => last.Some? ==> now - last.value.doneAt >= s.ttl
              case RefreshUnknown(observed, now, _) =>
                && last.Some? && last.value.doneAt == observed
                && (unknown != [] ==> now - unknown[|unknown| - 1] >= s.cooldown)
  {
    KeysAreTheLastFetched(s, steps);
    UnknownFetchesAreSpaced(s, steps);
  }

  ghost predicate Spaced(times: seq<real>, gap: real) {
    forall i, j :: 0 <= i < j < |times| ==> times[i] + gap <= times[j]
  }

  lemma SpacedSnoc(times: seq<real>, gap: real, t: real)
    requires gap >= 0.0 && Spaced(times, gap) && (times != [] ==> times[|times| - 1] + gap <= t)
    ensures Spaced(times + [t], gap)
  {
    forall i | 0 <= i < |times| - 1
      ensures times[i] <= times[|times| - 1]
    {
      assert times[i] + gap <= times[|times| - 1];
    }
  }

  lemma {:induction false} UnknownFetchesAreSpaced(s: Settings, steps: seq<Step>)
    requires s.cooldown >= 0.0 && Timely(s, steps)
    ensures var times := UnknownFetches(s, steps);
            && Spaced(times, s.cooldown)
            && Run(s, steps).lastUnknownRefresh == (if times == [] then None else Some(times[|times| - 1]))
  {
    if steps != [] {
      var before, step := steps[..|steps| - 1], steps[|steps| - 1];
      UnknownFetchesAreSpaced(s, before);
      if step.RefreshUnknown? && Fetches(s, Run(s, before), step) {
        SpacedSnoc(UnknownFetches(s, before), s.cooldown, step.now);
      }
    }
  }

  /** The stored stamp is past the start of the last age-driven fetch. */
  ghost predicate StampPast(c: Cache, times: seq<real>) {
    times != [] ==> c.fetchedAt.Some? && times[|times| - 1] < c.fetchedAt.value
  }

  lemma AgeFetchStep(s: Settings, c: Cache, times: seq<real>, step: Step)
    requires s.ttl >= 0.0 && Spaced(times, s.ttl) && StampPast(c, times)
    requires c.fetchedAt.Some? ==> c.keys != map[] && c.fetchedAt.value <= step.now
    requires step.GetCached? && Fetches(s, c, step) && step.fetch.Fetched? && step.now < step.fetch.doneAt
    ensures Spaced(times + [step.now], s.ttl) && StampPast(Next(s, c, step), times + [step.now])
  {
    SpacedSnoc(times, s.ttl, step.now);
  }

  lemma {:induction false} AgeFetchesAreSpaced(s: Settings, steps: seq<Step>)
    requires s.ttl >= 0.0 && Timely(s, steps)
    ensures Spaced(AgeFetches(s, steps), s.ttl) && StampPast(Run(s, steps), AgeFetches(s, steps))
  {
    if steps != [] {
      var before, step := steps[..|steps| - 1], steps[|steps| - 1];
      AgeFetchesAreSpaced(s, before);
      RunIsStamped(s, before);
      if step.GetCached? && Fetches(s, Run(s, before), step) && step.fetch.Fetched? {
        AgeFetchStep(s, Run(s, before), AgeFetches(s, before), step);
      }
    }
  }

  /** So many times, a gap apart, fit in an interval of this length. */
  predicate Fit(count: nat, gap: real, length: real) {
    count >= 1 ==> (count - 1) as real * gap <= length
  }

  /** Spaced times are few. */
  lemma {:induction false} SpacedTimesAreFew(times: seq<real>, gap: real, from: real, length: real)
    requires gap > 0.0 && length >= 0.0 && Spaced(times, gap)
    requires forall t :: t in times ==> from <= t <= from + length
    ensures Fit(|times|, gap, length)
  {
    if |times| >= 1 {
      LastIsLate(times, gap);
      assert times[0] in times && times[|times| - 1] in times;
    }
  }

  lemma {:induction false} LastIsLate(times: seq<real>, gap: real)
    requires |times| >= 1 && Spaced(times, gap)
    ensures times[0] + (|times| - 1) as real * gap <= times[|times| - 1]
  {
    if |times| > 1 {
      var n := |times| - 1;
      LastIsLate(times[..n], gap);
      assert times[n - 1] + gap <= times[n];
      assert (n - 1) as real * gap + gap == n as real * gap;
    }
  }

  /** The times that fall into an interval. */
  function Inside(times: seq<real>, from: real, length: real): seq<real> {
    if times == [] then []
    else
      var n := |times| - 1;
      Inside(times[..n], from, length) + (if from <= times[n] <= from + length then [times[n]] else [])
  }

  lemma {:induction false} InsideIsSpaced(times: seq<real>, gap: real, from: real, length: real)
    requires gap >= 0.0 && Spaced(times, gap)
    ensures Spaced(Inside(times, from, length), gap)
    ensures forall t :: t in Inside(times, from, length) ==> t in times && from <= t <= from + length
  {
    if times != [] {
      var n := |times| - 1;
      var before := Inside(times[..n], from, length);
      InsideIsSpaced(times[..n], gap, from, length);
      if from <= times[n] <= from + length {
        if before != [] {
          assert before[|before| - 1] in before;
          var i :| 0 <= i < n && times[..n][i] == before[|before| - 1];
          assert times[i] + gap <= times[n];
        }
        SpacedSnoc(before, gap, times[n]);
      }
    }
  }

  /** The fetch budget: in any interval of any run, successful age-driven fetches and all unknown-key
    * fetches are bounded linearly in its length. */
  lemma FetchBudget(s: Settings, steps: seq<Step>, from: real, length: real)
    requires s.ttl > 0.0 && s.cooldown > 0.0 && length >= 0.0 && Timely(s, steps)
    ensures Fit(|Inside(AgeFetches(s, steps), from, length)|, s.ttl, length)
    ensures Fit(|Inside(UnknownFetches(s, steps), from, length)|, s.cooldown, length)
  {
    AgeFetchesAreSpaced(s, steps);
    InsideIsSpaced(AgeFetches(s, steps), s.ttl, from, length);
    SpacedTimesAreFew(Inside(AgeFetches(s, steps), from, length), s.ttl, from, length);
    UnknownFetchesAreSpaced(s, steps);
    InsideIsSpaced(UnknownFetches(s, steps), s.cooldown, from, length);
    SpacedTimesAreFew(Inside(UnknownFetches(s, steps), from, length), s.cooldown, from, length);
  }

  // ---- Requests that saw the same fetch ---------------------------------------------------

  /** How many refreshes by requests that observed this fetch actually replaced the keys. */
  function Refetches(s: Settings, steps: seq<Step>, observed: real): nat {
    if steps == [] then 0
    else
      var before, step := steps[..|steps| - 1], steps[|steps| - 1];
      Refetches(s, before, observed)
      + (if step.RefreshUnknown? && step.observed == observed && Fetches(s, Run(s, before), step) && step.fetch.Fetched?
         then 1 else 0)
  }

  /** Requests that observed the same fetch replace the keys at most once between them: afterwards
    * the stamp is past the observed one for good. */
  lemma {:induction false} OneRefetchPerObservation(s: Settings, steps: seq<Step>, observed: real)
    requires Timely(s, steps)
    ensures Refetches(s, steps, observed) <= 1
    ensures Refetches(s, steps, observed) == 1 ==> Run(s, steps).fetchedAt.Some? && observed < Run(s, steps).fetchedAt.value
  {
    if steps != [] {
      OneRefetchPerObservation(s, steps[..|steps| - 1], observed);
      RunIsStamped(s, steps[..|steps| - 1]);
    }
  }

  // ---- Refreshes that failed --------------------------------------------------------------

  /** Step i is a refresh by a request that observed this fetch, and it goes to the network. */
  predicate Attempt(s: Settings, steps: seq<Step>, i: int, observed: real) {
    && 0 <= i < |steps| && steps[i].RefreshUnknown? && steps[i].observed == observed
    && Fetches(s, Run(s, steps[..i]), steps[i])
  }

  function Attempts(s: Settings, steps: seq<Step>, observed: real): nat {
    if steps == [] then 0
    else
      var before, step := steps[..|steps| - 1], steps[|steps| - 1];
      Attempts(s, before, observed)
      + (if step.RefreshUnknown? && step.observed == observed && Fetches(s, Run(s, before), step) then 1 else 0)
  }

  /** An attempt failed, and later another request that observed the same fetch comes while that is
    * still the latest one and the last attempt of anybody is a cooldown ago. */
  ghost predicate RetriedAfterFailure(s: Settings, steps: seq<Step>, observed: real) {
    exists i, j :: 0 <= i < j < |steps| && FailedAttempt(s, steps, i, observed) && ComesInTime(s, steps, j, observed)
  }

  ghost predicate FailedAttempt(s: Settings, steps: seq<Step>, i: int, observed: real) {
    Attempt(s, steps, i, observed) && steps[i].fetch.Unavailable?
  }

  ghost predicate ComesInTime(s: Settings, steps: seq<Step>, j: int, observed: real) {
    && 0 <= j < |steps| && steps[j].RefreshUnknown? && steps[j].observed == observed
    && var c := Run(s, steps[..j]);
       && c.fetchedAt == Some(observed)
       && (c.lastUnknownRefresh.Some? ==> steps[j].now - c.lastUnknownRefresh.value >= s.cooldown)
  }

  /** While the observed fetch is the latest one, every attempt so far has failed. */
  lemma {:induction false} AttemptsSoFarFailed(s: Settings, steps: seq<Step>, observed: real) returns (i: int)
    requires Timely(s, steps) && Run(s, steps).fetchedAt == Some(observed) && Attempts(s, steps, observed) >= 1
    ensures FailedAttempt(s, steps, i, observed)
  {
    var n := |steps| - 1;
    var before, step := steps[..n], steps[n];
    RunIsStamped(s, before);
    if Attempt(s, steps, n, observed) {
      i := n;
    } else {
      OneRefetchPerObservation(s, before, observed);
      if Run(s, before).fetchedAt == Some(observed) {
        i := AttemptsSoFarFailed(s, before, observed);
        assert steps[..i] == before[..i];
      } else {
        NotObservedYet(s, before, observed);
        i := 0;
      }
    }
  }

  /** A fetch that is stored now was observed by nobody before. */
  lemma {:induction false} NotObservedYet(s: Settings, steps: seq<Step>, observed: real)
    requires Timely(s, steps) && Attempts(s, steps, observed) >= 1
    ensures Clock(s, steps).Some? && observed <= Clock(s, steps).value
  {
    var before := steps[..|steps| - 1];
    RunIsStamped(s, before);
    if Attempts(s, before, observed) >= 1 { NotObservedYet(s, before, observed); }
  }

  /** Requests that observed the same fetch go to the network more than once exactly when an attempt
    * failed and another came, with that fetch still the latest, a cooldown after the last attempt. */
  lemma {:induction false} RepeatedIff(s: Settings, steps: seq<Step>, observed: real)
    requires Timely(s, steps)
    ensures Attempts(s, steps, observed) >= 2 <==> RetriedAfterFailure(s, steps, observed)
  {
    if steps != [] {
      var n := |steps| - 1;
      var before := steps[..n];
      RepeatedIff(s, before, observed);
      RetriedExtends(s, steps, observed);
      if Attempt(s, steps, n, observed) && Attempts(s, before, observed) >= 1 {
        var i := AttemptsSoFarFailed(s, before, observed);
        assert before[..i] == steps[..i];
        assert FailedAttempt(s, steps, i, observed) && ComesInTime(s, steps, n, observed);
      }
      if RetriedAfterFailure(s, steps, observed) && !RetriedAfterFailure(s, before, observed) {
        var i, j :| 0 <= i < j < |steps| && FailedAttempt(s, steps, i, observed) && ComesInTime(s, steps, j, observed);
        assert j == n by {
          if j < n {
            assert before[..i] == steps[..i] && before[..j] == steps[..j];
            assert FailedAttempt(s, before, i, observed) && ComesInTime(s, before, j, observed);
          }
        }
        assert before[..i] == steps[..i];
        AttemptIsCounted(s, before, i, observed);
      }
    }
  }

  lemma RetriedExtends(s: Settings, steps: seq<Step>, observed: real)
    requires steps != []
    ensures RetriedAfterFailure(s, steps[..|steps| - 1], observed) ==> RetriedAfterFailure(s, steps, observed)
  {
    var before := steps[..|steps| - 1];
    if RetriedAfterFailure(s, before, observed) {
      var i, j :| 0 <= i < j < |before| && FailedAttempt(s, before, i, observed) && ComesInTime(s, before, j, observed);
      assert before[..i] == steps[..i] && before[..j] == steps[..j];
      assert FailedAttempt(s, steps, i, observed) && ComesInTime(s, steps, j, observed);
    }
  }

  lemma {:induction false} AttemptIsCounted(s: Settings, steps: seq<Step>, i: int, observed: real)
    requires Attempt(s, steps, i, observed)
    ensures Attempts(s, steps, observed) >= 1
  {
    var n := |steps| - 1;
    if i < n {
      assert steps[..n][..i] == steps[..i];
      AttemptIsCounted(s, steps[..n], i, observed);
    }
  }

  // ---- Keys past their time to live -------------------------------------------------------

  /** A refresh serves keys at or past their time to live exactly when they were that old when it got
    * the lock and it does not fetch: because another request has refreshed, or on the cooldown. */
  lemma StaleServedIff(s: Settings, c: Cache, observed: real, now: real, fetch: Fetch)
    requires s.ttl > 0.0 && c.fetchedAt.Some? && (fetch.Fetched? ==> now < fetch.doneAt)
    requires !(NeedsRefresh(s, c, observed, now) && fetch.Unavailable?)
    ensures var step := RefreshUnknown(observed, now, fetch);
            && Next(s, c, step).fetchedAt.Some?
            && (EndOf(s, c, step) - Next(s, c, step).fetchedAt.value >= s.ttl
                <==> now - c.fetchedAt.value >= s.ttl && !NeedsRefresh(s, c, observed, now))
  {
  }

  // ---- Both happen ------------------------------------------------------------------------

  /** Each refresh belongs to a request of its own that observed the fetch it names: `origin` leads
    * from the refresh to that request's first step. */
  ghost predicate Genuine(s: Settings, steps: seq<Step>, origin: map<int, int>) {
    && (forall i :: 0 <= i < |steps| && steps[i].RefreshUnknown? ==>
          && i in origin && 0 <= origin[i] < i && steps[origin[i]].GetCached?
          && Run(s, steps[..origin[i] + 1]).fetchedAt == Some(steps[i].observed))
    && (forall i, j :: i in origin && j in origin && origin[i] == origin[j] ==> i == j)
  }

  lemma OneMore(s: Settings, before: seq<Step>, step: Step)
    ensures var steps, c := before + [step], Run(s, before);
            && Run(s, steps) == Next(s, c, step) && Clock(s, steps) == Some(EndOf(s, c, step))
            && UnknownFetches(s, steps) == UnknownFetches(s, before)
                                           + (if step.RefreshUnknown? && Fetches(s, c, step) then [step.now] else [])
            && (Timely(s, steps) <==> && Timely(s, before)
                                      && (Clock(s, before).Some? ==> Clock(s, before).value < step.now)
                                      && (step.fetch.Fetched? ==> step.now < step.fetch.doneAt && step.fetch.keys != map[]))
  {
    var steps := before + [step];
    assert steps[..|steps| - 1] == before;
  }

  /** Two requests observe the first fetch; then both refresh, the first in vain. */
  function TwoObservers(ready: real, look: real, again: real, first: real, second: real): seq<Step> {
    [GetCached(0.0, Fetched(map["k" := 1], ready)), GetCached(look, Unavailable), GetCached(again, Unavailable),
     RefreshUnknown(ready, first, Unavailable), RefreshUnknown(ready, second, Unavailable)]
  }

  /** A fresh fetch serves everybody while it is young. */
  lemma TwoLooks(s: Settings, ready: real, look: real, again: real)
    requires 0.0 < ready < look < again && again - ready < s.ttl
    ensures var steps := [GetCached(0.0, Fetched(map["k" := 1], ready)), GetCached(look, Unavailable), GetCached(again, Unavailable)];
            && Timely(s, steps) && Clock(s, steps) == Some(again)
            && Run(s, steps[..2]).fetchedAt == Some(ready)
            && Run(s, steps) == Cache(map["k" := 1], Some(ready), None)
  {
    var s1, s2, s3 := GetCached(0.0, Fetched(map["k" := 1], ready)), GetCached(look, Unavailable), GetCached(again, Unavailable);
    assert Timely(s, []) && "k" in s1.fetch.keys;
    OneMore(s, [], s1);
    OneMore(s, [s1], s2);
    OneMore(s, [s1, s2], s3);
    assert [] + [s1] == [s1] && [s1] + [s2] == [s1, s2] && [s1, s2] + [s3] == [s1, s2, s3] && [s1, s2, s3][..2] == [s1, s2];
  }

  lemma TwoObserversRun(s: Settings, ready: real, look: real, again: real, first: real, second: real)
    requires 0.0 < ready < look < again < first < second && again - ready < s.ttl
    ensures var steps := TwoObservers(ready, look, again, first, second);
            && Timely(s, steps) && Genuine(s, steps, map[3 := 1, 4 := 2])
            && Run(s, steps[..3]) == Cache(map["k" := 1], Some(ready), None)
            && Run(s, steps[..4]) == Cache(map["k" := 1], Some(ready), Some(first))
  {
    var steps := TwoObservers(ready, look, again, first, second);
    TwoLooks(s, ready, look, again);
    var looks := steps[..3];
    assert looks == [steps[0], steps[1], steps[2]] && looks[..2] == steps[..2];
    OneMore(s, looks, steps[3]);
    OneMore(s, steps[..4], steps[4]);
    assert looks + [steps[3]] == steps[..4] && steps[..4] + [steps[4]] == steps;
  }

  /** Under all settings some run of genuine requests repeats a refresh. */
  lemma FailedRefreshIsRepeated(s: Settings) returns (steps: seq<Step>, observed: real)
    requires s.ttl > 0.0 && s.cooldown > 0.0
    ensures Timely(s, steps) && Genuine(s, steps, map[3 := 1, 4 := 2]) && Attempts(s, steps, observed) >= 2
  {
    var unit := s.ttl / 4.0;
    observed := 1.0;
    var first := 1.0 + 3.0 * unit;
    steps := TwoObservers(1.0, 1.0 + unit, 1.0 + 2.0 * unit, first, first + s.cooldown);
    TwoObserversRun(s, 1.0, 1.0 + unit, 1.0 + 2.0 * unit, first, first + s.cooldown);
    RepeatedIff(s, steps, observed);
    assert FailedAttempt(s, steps, 3, observed) && ComesInTime(s, steps, 4, observed);
  }

  /** Under all settings some request is served keys exactly at their time to live. */
  lemma RefreshCanServeStaleKeys(s: Settings) returns (steps: seq<Step>)
    requires s.ttl > 0.0 && s.cooldown > 0.0
    ensures Timely(s, steps) && Genuine(s, steps, map[3 := 1, 4 := 2]) && |steps| == 5
    ensures var before, last := Run(s, steps[..4]), steps[4];
            && last.RefreshUnknown? && !NeedsRefresh(s, before, last.observed, last.now)
            && before.fetchedAt.Some? && last.now - before.fetchedAt.value >= s.ttl
  {
    var unit := (if s.ttl <= s.cooldown then s.ttl else s.cooldown) / 4.0;
    var expiry := 1.0 + s.ttl;
    steps := TwoObservers(1.0, expiry - 3.0 * unit, expiry - 2.0 * unit, expiry - unit, expiry);
    TwoObserversRun(s, 1.0, expiry - 3.0 * unit, expiry - 2.0 * unit, expiry - unit, expiry);
  }
}
