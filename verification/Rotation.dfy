/** Query rotation and target selection of app/queue/scheduler/collection.py. */
module Rotation {
  import opened Facts

  // ---- The rotating batch -----------------------------------------------------------------

  /** What Redis holds under the offset key: any integer, or text that `int()` rejects. */
  datatype Cursor = Missing | Number(n: int) | Garbage

  /** Where the next batch starts; `int(...) % len` is never negative. */
  function StartIndex(cursor: Cursor, n: nat): nat
    requires n > 0
  {
    if cursor.Number? then cursor.n % n else 0
  }

  /** The targets at these indices. */
  function Pick<T>(targets: seq<T>, indices: seq<nat>): seq<T>
    requires forall i :: 0 <= i < |indices| ==> indices[i] < |targets|
  {
    seq(|indices|, i requires 0 <= i < |indices| => targets[indices[i]])
  }

  /** How a round's two Redis calls end: the read and then the write fail, the write takes effect but
    * its response is lost, or both succeed. */
  datatype Calls = ReadFails | WriteFails | ResponseLost | BothSucceed

  /** Whether a round goes through: both Redis calls succeed and the cursor is a number. */
  predicate Complete(cursor: Cursor, calls: Calls) {
    calls.BothSucceed? && !cursor.Garbage?
  }

  /** The indices one round selects; any failure falls back to the first batch. */
  function Selected(cursor: Cursor, n: nat, batchSize: nat, calls: Calls): seq<nat>
    requires 0 < n
  {
    Indices(if Complete(cursor, calls) then StartIndex(cursor, n) else 0, n, batchSize)
  }

  /** The cursor one round leaves; it moves when the write takes effect, answered or not. */
  function Advanced(cursor: Cursor, n: nat, batchSize: nat, calls: Calls): Cursor
    requires 0 < n
  {
    if (calls.BothSucceed? || calls.ResponseLost?) && !cursor.Garbage?
    then Number((StartIndex(cursor, n) + batchSize) % n) else cursor
  }

  class OffsetStore {
    var cursor: Cursor

    constructor (cursor: Cursor)
      ensures this.cursor == cursor
    {
      this.cursor := cursor;
    }

    /** `_rotate_queries`. */
    method RotateQueries<T>(targets: seq<T>, batchSize: nat, calls: Calls) returns (selected: seq<T>)
      modifies this
      ensures targets == [] || batchSize >= |targets| ==> selected == targets && cursor == old(cursor)
      ensures targets != [] && batchSize < |targets| ==>
                && selected == Pick(targets, Selected(old(cursor), |targets|, batchSize, calls))
                && cursor == Advanced(old(cursor), |targets|, batchSize, calls)
      ensures targets != [] && batchSize < |targets| ==>
                var at := match old(cursor)
                          case Number(k) => k % |targets|
                          case _ => 0;
                && |selected| == batchSize
                && (forall i :: 0 <= i < batchSize ==>
                      selected[i] == targets[((if calls == BothSucceed then at else 0) + i) % |targets|])
                && (if old(cursor) != Garbage && (calls == BothSucceed || calls == ResponseLost)
                    then cursor == Number((at + batchSize) % |targets|) else cursor == old(cursor))
    {
      if targets == [] || batchSize >= |targets| {
        return targets;
      }
      var start := 0;
      if !calls.ReadFails? && !cursor.Garbage? {
        start := StartIndex(cursor, |targets|);
        if !calls.WriteFails? {
          cursor := Number((start + batchSize) % |targets|);
        }
        if !calls.BothSucceed? {
          start := 0;
        }
      }
      selected := [];
      for i := 0 to batchSize
        invariant selected == Pick(targets, Indices(start, |targets|, i))
      {
        selected := selected + [targets[(start + i) % |targets|]];
      }
    }
  }

  // ---- Fairness ---------------------------------------------------------------------------

  /** All indices selected by k rounds that go through, in order; a stored number is any integer. */
  function Rounds(cursor: Cursor, n: nat, batchSize: nat, k: nat): seq<nat>
    requires 0 < n && !cursor.Garbage?
    decreases k
  {
    if k == 0 then []
    else Selected(cursor, n, batchSize, BothSucceed) + Rounds(Advanced(cursor, n, batchSize, BothSucceed), n, batchSize, k - 1)
  }

  function Indices(start: nat, n: nat, count: nat): seq<nat>
    requires n > 0
  {
    seq(count, i requires 0 <= i => (start + i) % n)
  }

  function CountOf(s: seq<nat>, t: nat): nat {
    if s == [] then 0 else CountOf(s[..|s| - 1], t) + (if s[|s| - 1] == t then 1 else 0)
  }

  lemma {:induction false} CountOfConcat(a: seq<nat>, b: seq<nat>, t: nat)
    ensures CountOf(a + b, t) == CountOf(a, t) + CountOf(b, t)
  {
    if b == [] {
      assert a + b == a;
    } else {
      CountOfConcat(a, b[..|b| - 1], t);
      assert (a + b)[..|a + b| - 1] == a + b[..|b| - 1];
    }
  }

  lemma ModAdd(x: nat, y: nat, n: nat)
    requires n > 0
    ensures (x % n + y) % n == (x + y) % n
  {
    var z := x % n + y;
    assert x + y == (x / n + z / n) * n + z % n;
    DivModIs(x + y, n, x / n + z / n, z % n);
  }

  lemma DivStep(m: nat, n: nat)
    requires 0 < n <= m
    ensures m / n == (m - n) / n + 1
  {
    assert m == ((m - n) / n + 1) * n + (m - n) % n;
    DivModIs(m, n, (m - n) / n + 1, (m - n) % n);
  }

  lemma IndicesShift(start: nat, n: nat, a: nat, i: nat)
    requires n > 0
    ensures ((start + a) % n + i) % n == (start + (a + i)) % n
  {
    ModAdd(start + a, i, n);
    assert start + a + i == start + (a + i);
  }

  /** Moving the start by what has been selected continues the same walk. */
  lemma IndicesJoin(start: nat, n: nat, a: nat, b: nat)
    requires n > 0
    ensures Indices(start, n, a) + Indices((start + a) % n, n, b) == Indices(start, n, a + b)
  {
    var whole, rest := Indices(start, n, a + b), Indices((start + a) % n, n, b);
    forall i | 0 <= i < b
      ensures rest[i] == whole[a + i]
    {
      IndicesShift(start, n, a, i);
    }
  }

  /** k rounds are one walk of k * batchSize steps. */
  lemma {:induction false} RoundsAreOneWalk(cursor: Cursor, n: nat, batchSize: nat, k: nat)
    requires 0 < n && !cursor.Garbage?
    ensures Rounds(cursor, n, batchSize, k) == Indices(StartIndex(cursor, n), n, k * batchSize)
    decreases k
  {
    if k > 0 {
      var start := StartIndex(cursor, n);
      var next := Advanced(cursor, n, batchSize, BothSucceed);
      RoundsAreOneWalk(next, n, batchSize, k - 1);
      DivModIs(next.n, n, 0, next.n);
      IndicesJoin(start, n, batchSize, (k - 1) * batchSize);
      assert k * batchSize == batchSize + (k - 1) * batchSize;
    }
  }

  lemma WrapOnce(x: nat, n: nat)
    requires 0 < n && x < 2 * n
    ensures x % n == if x < n then x else x - n
  {
    DivModIs(x, n, if x < n then 0 else 1, if x < n then x else x - n);
  }

  /** A walk of n steps meets every index once, a shorter one at most once. */
  lemma {:induction false} ShortWalk(start: nat, n: nat, m: nat, t: nat)
    requires n > 0 && m <= n && t < n && start < n
    ensures CountOf(Indices(start, n, m), t) == if start <= t < start + m || start <= t + n < start + m then 1 else 0
    decreases m
  {
    if m > 0 {
      ShortWalk(start, n, m - 1, t);
      var walk := Indices(start, n, m);
      assert walk[..m - 1] == Indices(start, n, m - 1);
      assert walk[m - 1] == (start + (m - 1)) % n;
      WrapOnce(start + (m - 1), n);
    }
  }

  lemma {:induction false} WalkIsEven(start: nat, n: nat, m: nat, t: nat)
    requires n > 0 && t < n && start < n
    ensures m / n <= CountOf(Indices(start, n, m), t) <= (m + n - 1) / n
    decreases m
  {
    if m < n {
      ShortWalk(start, n, m, t);
      DivModIs(m, n, 0, m);
      if m > 0 { DivModIs(m + n - 1, n, 1, m - 1); }
    } else {
      WrapOnce(start + n, n);
      WalkIsEven(start, n, m - n, t);
      IndicesJoin(start, n, n, m - n);
      CountOfConcat(Indices(start, n, n), Indices(start, n, m - n), t);
      ShortWalk(start, n, n, t);
      DivStep(m, n);
      DivStep(m + n - 1, n);
    }
  }

  /** Fairness from any stored number, or none: k complete rounds of b out of n targets select every
    * target floor(k * b / n) or ceil(k * b / n) times, and ceil(n / b) rounds reach every target. */
  lemma RotationIsFair(cursor: Cursor, n: nat, batchSize: nat, k: nat, t: nat)
    requires 0 < batchSize < n && t < n && !cursor.Garbage?
    ensures var times := CountOf(Rounds(cursor, n, batchSize, k), t);
            && (k * batchSize) / n <= times <= (k * batchSize + n - 1) / n
            && (k >= (n + batchSize - 1) / batchSize ==> times >= 1)
  {
    RoundsAreOneWalk(cursor, n, batchSize, k);
    WalkIsEven(StartIndex(cursor, n), n, k * batchSize, t);
    if k >= (n + batchSize - 1) / batchSize { CoverAll(n, batchSize, k); }
  }

  /** No round takes a target twice, however its calls end. */
  lemma BatchIsDistinct(cursor: Cursor, n: nat, batchSize: nat, calls: Calls, t: nat)
    requires 0 < batchSize < n && t < n
    ensures CountOf(Selected(cursor, n, batchSize, calls), t) <= 1
  {
    var start := if Complete(cursor, calls) then StartIndex(cursor, n) else 0;
    DivModIs(0, n, 0, 0);
    ShortWalk(start, n, batchSize, t);
  }

  lemma CoverAll(n: nat, b: nat, k: nat)
    requires 0 < b && 0 < n && k >= (n + b - 1) / b
    ensures (k * b) / n >= 1
  {
    var q := (n + b - 1) / b;
    assert q * b >= n;
    assert k * b == q * b + (k - q) * b;
    DivAtLeastOne(k * b, n);
  }

  lemma DivAtLeastOne(x: nat, n: nat)
    requires 0 < n <= x
    ensures x / n >= 1
  {
    DivStep(x, n);
  }

  /** A cursor that is not a number is never repaired: every later round falls back to the first
    * batch, whatever Redis does, so no target outside it is ever selected again. */
  lemma {:induction false} GarbageStarves(outcomes: seq<Calls>, n: nat, batchSize: nat)
    requires 0 < batchSize < n
    ensures CursorAfter(Garbage, outcomes, n, batchSize) == Garbage
    ensures forall calls ::
              Selected(CursorAfter(Garbage, outcomes, n, batchSize), n, batchSize, calls) == Indices(0, n, batchSize)
    ensures forall t :: t in Indices(0, n, batchSize) ==> t < batchSize
  {
    if outcomes != [] { GarbageStarves(outcomes[..|outcomes| - 1], n, batchSize); }
    forall i | 0 <= i < batchSize
      ensures Indices(0, n, batchSize)[i] == i
    {
      DivModIs(i, n, 0, i);
    }
  }

  /** The cursor after rounds with these outcomes of the two Redis calls. */
  function CursorAfter(cursor: Cursor, outcomes: seq<Calls>, n: nat, batchSize: nat): Cursor
    requires 0 < n
  {
    if outcomes == [] then cursor
    else Advanced(CursorAfter(cursor, outcomes[..|outcomes| - 1], n, batchSize), n, batchSize, outcomes[|outcomes| - 1])
  }

  // ---- Claiming a due source --------------------------------------------------------------

  /** The times, out of these scheduler ticks, at which `SET NX EX interval` claims the source. */
  function Claims(ticks: seq<nat>, interval: nat): seq<nat> {
    if ticks == [] then []
    else
      var before, now := Claims(ticks[..|ticks| - 1], interval), ticks[|ticks| - 1];
      if before == [] || now >= before[|before| - 1] + interval then before + [now] else before
  }

  ghost predicate Spaced(claims: seq<nat>, interval: nat) {
    forall i, j :: 0 <= i < j < |claims| ==> claims[i] + interval <= claims[j]
  }

  lemma {:induction false} ClaimsAreSpaced(ticks: seq<nat>, interval: nat)
    ensures Spaced(Claims(ticks, interval), interval)
  {
    if ticks != [] {
      ClaimsAreSpaced(ticks[..|ticks| - 1], interval);
      var before := Claims(ticks[..|ticks| - 1], interval);
      forall i | 0 <= i < |before| - 1
        ensures before[i] <= before[|before| - 1]
      {
        assert before[i] + interval <= before[|before| - 1];
      }
    }
  }

  /** A tick claims the source exactly when every earlier claim has expired. */
  lemma ClaimsIff(ticks: seq<nat>, now: nat, interval: nat)
    ensures Claims(ticks + [now], interval)
         == Claims(ticks, interval) + (if forall c :: c in Claims(ticks, interval) ==> c + interval <= now then [now] else [])
  {
    assert (ticks + [now])[..|ticks|] == ticks;
    ClaimsAreSpaced(ticks, interval);
    var before := Claims(ticks, interval);
    if before != [] {
      assert before[|before| - 1] in before;
      if before[|before| - 1] + interval <= now {
        forall c | c in before
          ensures c + interval <= now
        {
          var i :| 0 <= i < |before| && before[i] == c;
          assert i < |before| - 1 ==> before[i] + interval <= before[|before| - 1];
        }
      }
    }
    assert before + [] == before;
  }

  /** Claims of a source are at least one interval apart, and the window number in the job ids of
    * each claim is larger than in all earlier ones: the ids of one claim never suppress those of
    * another. */
  lemma ClaimsHaveTheirOwnWindow(ticks: seq<nat>, interval: nat, i: nat, j: nat)
    requires interval > 0 && i < j < |Claims(ticks, interval)|
    ensures Claims(ticks, interval)[j] >= Claims(ticks, interval)[i] + interval
    ensures Claims(ticks, interval)[i] / interval < Claims(ticks, interval)[j] / interval
  {
    ClaimsAreSpaced(ticks, interval);
    var claims := Claims(ticks, interval);
    DivStep(claims[i] + interval, interval);
    DivMono(claims[i] + interval, claims[j], interval);
  }

  lemma DivMono(x: nat, y: nat, n: nat)
    requires n > 0 && x <= y
    ensures x / n <= y / n
  {
    var d := x / n - y / n;
    assert d * n == (x - x % n) - (y - y % n);
    if d >= 1 { MulAtLeast(n, d); }
  }

  // ---- Choosing targets -------------------------------------------------------------------

  datatype Target = Target(source: nat, identity: string, enabled: bool)

  /** A Python dict filled with `setdefault`, in insertion order. */
  function SetDefault(unique: seq<Target>, t: Target): seq<Target> {
    if Knows(unique, t.identity) then unique else unique + [t]
  }

  function EnabledTargets(targets: seq<Target>): seq<Target> {
    if targets == [] then []
    else
      var before, t := EnabledTargets(targets[..|targets| - 1]), targets[|targets| - 1];
      if t.enabled then SetDefault(before, t) else before
  }

  /** `enabled_targets`. */
  method CollectEnabledTargets(targets: seq<Target>) returns (unique: seq<Target>)
    ensures unique == EnabledTargets(targets)
  {
    unique := [];
    for i := 0 to |targets|
      invariant unique == EnabledTargets(targets[..i])
    {
      assert targets[..i + 1][..i] == targets[..i];
      if targets[i].enabled {
        unique := SetDefault(unique, targets[i]);
      }
    }
    assert targets[..|targets|] == targets;
  }

  predicate FirstEnabled(targets: seq<Target>, i: nat)
    requires i < |targets|
  {
    targets[i].enabled && forall j :: 0 <= j < i ==> !(targets[j].enabled && targets[j].identity == targets[i].identity)
  }

  predicate Knows(unique: seq<Target>, identity: string) {
    exists u :: u in unique && u.identity == identity
  }

  predicate OncePerIdentity(unique: seq<Target>) {
    forall i, j :: 0 <= i < j < |unique| ==> unique[i].identity != unique[j].identity
  }

  lemma AppendOnce(unique: seq<Target>, t: Target)
    requires OncePerIdentity(unique)
    ensures OncePerIdentity(SetDefault(unique, t))
  {
    if !Knows(unique, t.identity) {
      forall i | 0 <= i < |unique|
        ensures unique[i].identity != t.identity
      {
        assert unique[i] in unique;
      }
    }
  }

  /** No identity is searched twice. */
  lemma {:induction false} IdentitiesOnce(targets: seq<Target>)
    ensures OncePerIdentity(EnabledTargets(targets))
  {
    if targets != [] {
      var before := EnabledTargets(targets[..|targets| - 1]);
      IdentitiesOnce(targets[..|targets| - 1]);
      AppendOnce(before, targets[|targets| - 1]);
    }
  }

  /** The identities searched are exactly those of enabled targets. */
  lemma {:induction false} KnownIdentities(targets: seq<Target>, identity: string)
    ensures Knows(EnabledTargets(targets), identity) <==>
              exists i :: 0 <= i < |targets| && targets[i].enabled && targets[i].identity == identity
  {
    if targets != [] {
      var n := |targets| - 1;
      KnownIdentities(targets[..n], identity);
      var before, unique := EnabledTargets(targets[..n]), EnabledTargets(targets);
      assert forall u :: u in before ==> u in unique;
      if targets[n].enabled && targets[n].identity == identity && !Knows(before, identity) {
        assert unique[|before|] == targets[n];
      }
      if Knows(unique, identity) && !Knows(before, identity) {
        var u :| u in unique && u.identity == identity;
        assert u == targets[n];
      }
    }
  }

  /** A target is kept exactly when it stands first among the enabled ones of its identity. */
  lemma {:induction false} EnabledTargetsAreFirst(targets: seq<Target>, t: Target)
    ensures t in EnabledTargets(targets) <==> exists i :: 0 <= i < |targets| && targets[i] == t && FirstEnabled(targets, i)
  {
    if targets != [] {
      var n := |targets| - 1;
      var before := EnabledTargets(targets[..n]);
      EnabledTargetsAreFirst(targets[..n], t);
      KnownIdentities(targets[..n], targets[n].identity);
      assert forall i :: 0 <= i < n ==> targets[..n][i] == targets[i];
      assert forall i :: 0 <= i < n ==> (FirstEnabled(targets[..n], i) <==> FirstEnabled(targets, i));
      assert FirstEnabled(targets, n) <==> targets[n].enabled && !Knows(before, targets[n].identity);
      assert t in EnabledTargets(targets) <==> t in before || (FirstEnabled(targets, n) && t == targets[n]);
    }
  }

  /** Positions in order. */
  ghost predicate Increasing(at: seq<nat>) {
    forall i, j :: 0 <= i < j < |at| ==> at[i] < at[j]
  }

  /** These are the targets at these positions. */
  ghost predicate TakenFrom(chosen: seq<Target>, targets: seq<Target>, at: seq<nat>) {
    && |chosen| == |at| && Increasing(at)
    && forall i :: 0 <= i < |at| ==> at[i] < |targets| && targets[at[i]] == chosen[i]
  }

  lemma TakeOneMore(chosen: seq<Target>, targets: seq<Target>, at: seq<nat>)
    requires targets != [] && TakenFrom(chosen, targets[..|targets| - 1], at)
    ensures TakenFrom(chosen, targets, at)
    ensures TakenFrom(chosen + [targets[|targets| - 1]], targets, at + [|targets| - 1])
  {
    assert forall i :: 0 <= i < |at| ==> at[i] < |targets| - 1;
  }

  /** The targets that remain are those at the positions of the first enabled ones, in that order. */
  lemma {:induction false} RemainingInOrder(targets: seq<Target>) returns (at: seq<nat>)
    ensures TakenFrom(EnabledTargets(targets), targets, at)
    ensures forall i :: 0 <= i < |targets| ==> (i in at <==> FirstEnabled(targets, i))
  {
    if targets == [] {
      at := [];
    } else {
      var n := |targets| - 1;
      var before := EnabledTargets(targets[..n]);
      at := RemainingInOrder(targets[..n]);
      TakeOneMore(before, targets, at);
      KnownIdentities(targets[..n], targets[n].identity);
      assert forall i :: 0 <= i < n ==> (FirstEnabled(targets[..n], i) <==> FirstEnabled(targets, i));
      assert FirstEnabled(targets, n) <==> targets[n].enabled && !Knows(before, targets[n].identity);
      assert n !in at;
      if FirstEnabled(targets, n) { at := at + [n]; }
    }
  }

  /** At most `MAX_QUERIES` targets of one source are scheduled: the first ones. */
  const MAX_QUERIES: nat := 100

  function OfSource(targets: seq<Target>, source: nat): seq<Target> {
    if targets == [] then []
    else OfSource(targets[..|targets| - 1], source)
         + (if targets[|targets| - 1].source == source then [targets[|targets| - 1]] else [])
  }

  /** The targets of a source are those that name it, in order. */
  lemma {:induction false} SourceInOrder(targets: seq<Target>, source: nat) returns (at: seq<nat>)
    ensures TakenFrom(OfSource(targets, source), targets, at)
    ensures forall i :: 0 <= i < |targets| ==> (i in at <==> targets[i].source == source)
  {
    if targets == [] {
      at := [];
    } else {
      var n := |targets| - 1;
      at := SourceInOrder(targets[..n], source);
      TakeOneMore(OfSource(targets[..n], source), targets, at);
      assert OfSource(targets[..n], source) + [] == OfSource(targets[..n], source);
      assert n !in at;
      if targets[n].source == source { at := at + [n]; }
    }
  }

  /** The grouping loop of `schedule_due_collections`. */
  method GroupBySource(targets: seq<Target>) returns (grouped: map<nat, seq<Target>>)
    ensures forall s :: (s in grouped <==> OfSource(targets, s) != [])
    ensures forall s :: s in grouped ==>
              && |grouped[s]| == (if |OfSource(targets, s)| <= 100 then |OfSource(targets, s)| else 100)
              && grouped[s] <= OfSource(targets, s)
  {
    grouped := map[];
    for i := 0 to |targets|
      invariant forall s :: (s in grouped <==> OfSource(targets[..i], s) != [])
      invariant forall s :: s in grouped ==>
                  grouped[s] == if |OfSource(targets[..i], s)| <= MAX_QUERIES then OfSource(targets[..i], s)
                                else OfSource(targets[..i], s)[..MAX_QUERIES]
    {
      assert targets[..i + 1][..i] == targets[..i];
      var t := targets[i];
      var group := if t.source in grouped then grouped[t.source] else [];
      if |group| < MAX_QUERIES {
        group := group + [t];
      }
      grouped := grouped[t.source := group];
    }
    assert targets[..|targets|] == targets;
  }
}
