/** Which intents reconciliation reaches while the object store keeps refusing some of them. */
module ResumeStarvation {
  import opened Facts
  import opened Wrappers
  import opened ResumeSaga
  import opened ResumeSafety
  import opened ResumeReconciliation

  // ---- Primary keys -----------------------------------------------------------------------

  /** The primary keys of the journal are distinct and none lies ahead of the sequence. */
  ghost predicate DistinctUids(w: World) {
    && (forall k :: k in w.journal ==> w.journal[k].uid < w.nextUid)
    && (forall j, k :: j in w.journal && k in w.journal && w.journal[j].uid == w.journal[k].uid ==> j == k)
  }

  lemma SettleKeepsUids(w: World, batch: seq<Item>, outcomes: seq<bool>)
    requires DistinctUids(w) && |batch| == |outcomes| && Distinct(batch)
    ensures DistinctUids(w.(journal := Settle(w.journal, batch, outcomes)))
  {
    forall k
      ensures k in Settle(w.journal, batch, outcomes) ==>
                k in w.journal && Settle(w.journal, batch, outcomes)[k].uid == w.journal[k].uid
    {
      SettleAt(w.journal, batch, outcomes, k);
    }
  }

  lemma CommitKeepsUids(w: World, tx: Tx)
    requires DistinctUids(w) && (tx.add.Some? ==> tx.add.value !in w.journal)
    ensures DistinctUids(Commit(w, tx))
  {
  }

  lemma PersistKeepsUids(w: World, p: Pid, ok: bool)
    requires DistinctUids(w) && p in w.procs && w.procs[p].Persist?
    ensures DistinctUids(DatabaseStep(w, p, ok))
  {
    if Flush(w, PersistTx(w, w.procs[p])).Passes? { CommitKeepsUids(w, PersistTx(w, w.procs[p])); }
  }

  lemma DatabaseKeepsUids(w: World, p: Pid, ok: bool)
    requires Inv(w) && DistinctUids(w) && Enabled(TRUSTED, w, Database(p, ok))
    ensures DistinctUids(DatabaseStep(w, p, ok))
  {
    var x := w.procs[p];
    match x
    case Reserve(_, _, _, deadline) =>
      if x.NewKey() !in w.journal { CommitKeepsUids(w, IntentTx(x.NewKey(), deadline)); }
    case Persist(_, _, _, _, _, _) => PersistKeepsUids(w, p, ok);
    case Clear(key, uid, _) => CommitKeepsUids(w, ClearTx(w, key, uid));
    case Loaded(target, seen) =>
      if Flush(w, DeleteTx(w, target, seen)).Passes? { CommitKeepsUids(w, DeleteTx(w, target, seen)); }
    case Lookup(_, _) =>
    case Rejournal(target, seen) =>
      if KeyOf(target, seen) !in w.journal { CommitKeepsUids(w, IntentTx(KeyOf(target, seen), w.now)); }
    case Reconcile(batch, outcomes) =>
      assert ProcOk(w, x);
      SettleKeepsUids(w, batch, outcomes);
  }

  lemma StepKeepsUids(w: World, e: Event)
    requires Inv(w) && DistinctUids(w) && Enabled(TRUSTED, w, e)
    ensures DistinctUids(Next(w, e))
  {
    if e.Database? {
      DatabaseKeepsUids(w, e.p, e.ok);
    } else {
      OtherEventsKeepJournal(w, e);
    }
  }

  lemma OtherEventsKeepJournal(w: World, e: Event)
    requires Enabled(TRUSTED, w, e) && !e.Database?
    ensures Next(w, e).journal == w.journal && Next(w, e).nextUid == w.nextUid
  {
  }

  /** So over any run. */
  lemma {:induction false} RunKeepsUids(w: World, run: seq<Event>)
    requires Inv(w) && DistinctUids(w) && Possible(TRUSTED, w, run)
    ensures DistinctUids(Run(w, run))
  {
    if run != [] {
      RunKeepsUids(w, run[..|run| - 1]);
      RunIsSafe(w, run[..|run| - 1]);
      StepKeepsUids(Run(w, run[..|run| - 1]), run[|run| - 1]);
    }
  }

  // ---- The queue --------------------------------------------------------------------------

  /** A world between rounds. */
  ghost predicate Resting(w: World) {
    Inv(w) && DistinctUids(w) && Quiet(w) && AllDue(w)
  }

  /** The intents the query takes before this one. */
  ghost function Ahead(w: World, k: Key): set<Key>
    requires k in w.journal
  {
    set j | j in w.journal && j != k && Before(w.journal[j], w.journal[k])
  }

  /** A batch that misses an intent holds `limit` intents that come before it. */
  lemma MissedBatch(w: World, limit: nat, batch: seq<Item>, k: Key)
    requires Resting(w) && IsBatch(w, batch, limit) && k in w.journal && k !in KeySet(batch)
    ensures KeySet(batch) <= Ahead(w, k) && |KeySet(batch)| == limit
  {
    assert Due(w, k);
    assert Item(k, w.journal[k].uid) !in batch;
    KeySetSize(batch);
    forall i | 0 <= i < |batch|
      ensures batch[i].key in Ahead(w, k)
    {
      assert Due(w, batch[i].key);
    }
  }

  /** A batch that takes an intent takes everything ahead of it. */
  lemma TakenBatch(w: World, limit: nat, batch: seq<Item>, k: Key)
    requires Resting(w) && IsBatch(w, batch, limit) && k in w.journal && k in KeySet(batch)
    ensures Ahead(w, k) <= KeySet(batch) - {k} && |Ahead(w, k)| < limit
  {
    var i :| 0 <= i < |batch| && batch[i].key == k;
    forall j | j in Ahead(w, k)
      ensures j in KeySet(batch)
    {
      assert Due(w, j);
      assert !Before(w.journal[k], w.journal[j]);
      var n :| 0 <= n < |batch| && batch[n] == Item(j, w.journal[j].uid);
    }
    KeySetSize(batch);
    SubsetSize(Ahead(w, k), KeySet(batch) - {k});
  }

  // ---- Rounds against a store that refuses some keys --------------------------------------

  function Outcomes(batch: seq<Item>, refused: set<Key>): (r: seq<bool>)
    ensures |r| == |batch| && forall i :: 0 <= i < |r| ==> r[i] == (batch[i].key !in refused)
  {
    seq(|batch|, i requires 0 <= i < |batch| => batch[i].key !in refused)
  }

  ghost function AfterRound(w: World, p: Pid, limit: nat, refused: set<Key>, batch: seq<Item>): World {
    Run(w, RoundRun(p, limit, batch, Outcomes(batch, refused)))
  }

  ghost function AfterRounds(w: World, p: Pid, limit: nat, refused: set<Key>, batches: seq<seq<Item>>): World {
    if batches == [] then w
    else AfterRound(AfterRounds(w, p, limit, refused, batches[..|batches| - 1]), p, limit, refused, batches[|batches| - 1])
  }

  /** Each batch is an answer of the query where it is taken. */
  ghost predicate RoundsRun(w: World, p: Pid, limit: nat, refused: set<Key>, batches: seq<seq<Item>>) {
    batches == [] ||
    (var before := batches[..|batches| - 1];
     RoundsRun(w, p, limit, refused, before)
     && IsBatch(AfterRounds(w, p, limit, refused, before), batches[|batches| - 1], limit))
  }

  lemma SettledJournal(journal: map<Key, Intent>, batch: seq<Item>, refused: set<Key>)
    requires Distinct(batch)
    ensures var settled := Settle(journal, batch, Outcomes(batch, refused));
            && settled.Keys == journal.Keys - (KeySet(batch) - refused)
            && forall k :: k in settled ==> settled[k].uid == journal[k].uid && settled[k].availableAt == journal[k].availableAt
  {
    var outcomes := Outcomes(batch, refused);
    forall k
      ensures k in Settle(journal, batch, outcomes) <==> k in journal && k !in KeySet(batch) - refused
      ensures k in Settle(journal, batch, outcomes) ==>
                && Settle(journal, batch, outcomes)[k].uid == journal[k].uid
                && Settle(journal, batch, outcomes)[k].availableAt == journal[k].availableAt
    {
      SettleAt(journal, batch, outcomes, k);
    }
  }

  lemma RefusingRoundIsSafe(w: World, p: Pid, limit: nat, refused: set<Key>, batch: seq<Item>)
    requires Resting(w) && IsBatch(w, batch, limit)
    ensures Inv(AfterRound(w, p, limit, refused, batch)) && DistinctUids(AfterRound(w, p, limit, refused, batch))
  {
    var run := RoundRun(p, limit, batch, Outcomes(batch, refused));
    RoundRuns(w, p, limit, batch, Outcomes(batch, refused));
    RunIsSafe(w, run);
    RunKeepsUids(w, run);
  }

  /** One round removes exactly the intents of its batch that are not refused, and reorders nothing. */
  lemma RefusingRound(w: World, p: Pid, limit: nat, refused: set<Key>, batch: seq<Item>)
    requires Resting(w) && IsBatch(w, batch, limit)
    ensures var w' := AfterRound(w, p, limit, refused, batch);
            && Resting(w') && w'.rows == w.rows
            && w'.journal.Keys == w.journal.Keys - (KeySet(batch) - refused)
            && w'.objects == w.objects - (KeySet(batch) - refused)
            && (forall k :: k in w'.journal ==>
                  w'.journal[k].uid == w.journal[k].uid && w'.journal[k].availableAt == w.journal[k].availableAt)
  {
    assert Distinct(batch);
    RefusingRoundIsSafe(w, p, limit, refused, batch);
    RoundRuns(w, p, limit, batch, Outcomes(batch, refused));
    SettledJournal(w.journal, batch, refused);
    assert DeletedKeys(batch, Outcomes(batch, refused)) == KeySet(batch) - refused;
  }

  /** An intent the round leaves has everything ahead of it that it had, but for what was removed. */
  lemma AheadAfter(w: World, p: Pid, limit: nat, refused: set<Key>, batch: seq<Item>, k: Key)
    requires Resting(w) && IsBatch(w, batch, limit) && k in AfterRound(w, p, limit, refused, batch).journal
    ensures k in w.journal
    ensures Ahead(AfterRound(w, p, limit, refused, batch), k) == Ahead(w, k) - (KeySet(batch) - refused)
  {
    RefusingRound(w, p, limit, refused, batch);
  }

  /** A round that does not reach an accepted intent removes at least `limit` minus the refused ones
    * ahead of it. */
  lemma RoundMakesRoom(w: World, p: Pid, limit: nat, refused: set<Key>, batch: seq<Item>, k: Key)
    requires Resting(w) && IsBatch(w, batch, limit) && k !in refused
    requires k in AfterRound(w, p, limit, refused, batch).journal
    ensures var w' := AfterRound(w, p, limit, refused, batch);
            && k in w.journal && k !in KeySet(batch)
            && Ahead(w', k) * refused == Ahead(w, k) * refused
            && |Ahead(w', k) - refused| + limit <= |Ahead(w, k) - refused| + |Ahead(w, k) * refused|
  {
    var w' := AfterRound(w, p, limit, refused, batch);
    RefusingRound(w, p, limit, refused, batch);
    MissedBatch(w, limit, batch, k);
    AheadAfter(w, p, limit, refused, batch, k);
    TakenMakeRoom(Ahead(w, k), KeySet(batch), refused);
  }

  /** What a round takes from those ahead, in numbers. */
  lemma TakenMakeRoom(ahead: set<Key>, taken: set<Key>, refused: set<Key>)
    requires taken <= ahead
    ensures (ahead - (taken - refused)) * refused == ahead * refused
    ensures |(ahead - (taken - refused)) - refused| + |taken| <= |ahead - refused| + |ahead * refused|
  {
    assert (ahead - (taken - refused)) - refused == (ahead - refused) - (taken - refused);
    assert taken == (taken - refused) + (taken * refused);
    SubsetSize(taken * refused, ahead * refused);
    SubsetSize(taken - refused, ahead - refused);
  }

  /** An intent left after n rounds has the refused ones ahead of it as before, and each round has made
    * room. */
  ghost predicate RoomMade(w: World, w': World, limit: nat, refused: set<Key>, k: Key, n: nat) {
    && k in w.journal && k in w'.journal
    && Ahead(w', k) * refused == Ahead(w, k) * refused
    && |Ahead(w', k) - refused| + n * limit <= |Ahead(w, k) - refused| + n * |Ahead(w, k) * refused|
  }

  lemma RoundAddsRoom(w: World, middle: World, p: Pid, limit: nat, refused: set<Key>, batch: seq<Item>, k: Key, n: nat)
    requires Resting(middle) && IsBatch(middle, batch, limit) && k !in refused
    requires k in AfterRound(middle, p, limit, refused, batch).journal
    requires k in middle.journal ==> RoomMade(w, middle, limit, refused, k, n)
    ensures RoomMade(w, AfterRound(middle, p, limit, refused, batch), limit, refused, k, n + 1)
  {
    RoundMakesRoom(middle, p, limit, refused, batch, k);
    AddRoom(n, limit, |Ahead(w, k) - refused|, |Ahead(w, k) * refused|, |Ahead(middle, k) - refused|,
            |Ahead(AfterRound(middle, p, limit, refused, batch), k) - refused|);
  }

  lemma AddRoom(n: nat, limit: nat, first: nat, behind: nat, before: nat, after: nat)
    requires before + n * limit <= first + n * behind && after + limit <= before + behind
    ensures after + (n + 1) * limit <= first + (n + 1) * behind
  {
    assert (n + 1) * limit == n * limit + limit && (n + 1) * behind == n * behind + behind;
  }

  lemma {:induction false} RoundsRest(w: World, p: Pid, limit: nat, refused: set<Key>, batches: seq<seq<Item>>)
    requires Resting(w) && RoundsRun(w, p, limit, refused, batches)
    ensures Resting(AfterRounds(w, p, limit, refused, batches))
    ensures AfterRounds(w, p, limit, refused, batches).rows == w.rows
  {
    if batches != [] {
      var n := |batches| - 1;
      RoundsRest(w, p, limit, refused, batches[..n]);
      RefusingRound(AfterRounds(w, p, limit, refused, batches[..n]), p, limit, refused, batches[n]);
    }
  }

  lemma {:induction false} RoundsMakeRoom(w: World, p: Pid, limit: nat, refused: set<Key>, batches: seq<seq<Item>>, k: Key)
    requires Resting(w) && RoundsRun(w, p, limit, refused, batches) && k !in refused
    ensures k in AfterRounds(w, p, limit, refused, batches).journal ==>
              RoomMade(w, AfterRounds(w, p, limit, refused, batches), limit, refused, k, |batches|)
  {
    if batches != [] && k in AfterRounds(w, p, limit, refused, batches).journal {
      var n := |batches| - 1;
      RoundsRest(w, p, limit, refused, batches[..n]);
      RoundsMakeRoom(w, p, limit, refused, batches[..n], k);
      RoundAddsRoom(w, AfterRounds(w, p, limit, refused, batches[..n]), p, limit, refused, batches[n], k, n);
    }
  }

  /** Enough rounds reach every intent with fewer than `limit` refused ones ahead of it: n rounds when
    * n times the room that leaves exceeds the number of accepted intents ahead. */
  lemma ReachedInTime(w: World, p: Pid, limit: nat, refused: set<Key>, batches: seq<seq<Item>>, k: Key)
    requires Resting(w) && RoundsRun(w, p, limit, refused, batches) && k in w.journal && k !in refused
    requires |Ahead(w, k) * refused| < limit
    requires |batches| * (limit - |Ahead(w, k) * refused|) > |Ahead(w, k) - refused|
    ensures k !in AfterRounds(w, p, limit, refused, batches).journal
  {
    RoundsMakeRoom(w, p, limit, refused, batches, k);
    NoRoomLeft(w, AfterRounds(w, p, limit, refused, batches), limit, refused, k, |batches|);
  }

  lemma NoRoomLeft(w: World, w': World, limit: nat, refused: set<Key>, k: Key, n: nat)
    requires k in w.journal && |Ahead(w, k) * refused| < limit
    requires n * (limit - |Ahead(w, k) * refused|) > |Ahead(w, k) - refused|
    ensures !RoomMade(w, w', limit, refused, k, n)
  {
    RoomIsSpent(n, limit, |Ahead(w, k) * refused|, |Ahead(w, k) - refused|);
  }

  lemma RoomIsSpent(n: nat, limit: nat, behind: nat, first: nat)
    requires n * (limit - behind) > first
    ensures n * limit > first + n * behind
  {
    assert n * (limit - behind) == n * limit - n * behind;
  }

  /** With `limit` refused intents ahead of it, an intent is in no batch of any number of rounds. */
  lemma {:induction false} NeverReached(w: World, p: Pid, limit: nat, refused: set<Key>, batches: seq<seq<Item>>, k: Key)
    requires Resting(w) && RoundsRun(w, p, limit, refused, batches) && k in w.journal
    requires |Ahead(w, k) * refused| >= limit
    ensures var w' := AfterRounds(w, p, limit, refused, batches);
            && Resting(w') && k in w'.journal && w'.rows == w.rows
            && Ahead(w', k) * refused == Ahead(w, k) * refused && (k in w'.objects <==> k in w.objects)
  {
    if batches != [] {
      var n := |batches| - 1;
      var middle := AfterRounds(w, p, limit, refused, batches[..n]);
      NeverReached(w, p, limit, refused, batches[..n], k);
      NotReached(middle, p, limit, refused, batches[n], k);
    }
  }

  lemma NotReached(w: World, p: Pid, limit: nat, refused: set<Key>, batch: seq<Item>, k: Key)
    requires Resting(w) && IsBatch(w, batch, limit) && k in w.journal && |Ahead(w, k) * refused| >= limit
    ensures var w' := AfterRound(w, p, limit, refused, batch);
            && Resting(w') && k in w'.journal && w'.rows == w.rows
            && Ahead(w', k) * refused == Ahead(w, k) * refused && (k in w'.objects <==> k in w.objects)
  {
    RefusingRound(w, p, limit, refused, batch);
    assert k !in KeySet(batch) by {
      if k in KeySet(batch) {
        TakenBatch(w, limit, batch, k);
        SubsetSize(Ahead(w, k) * refused, Ahead(w, k));
      }
    }
    AheadAfter(w, p, limit, refused, batch, k);
  }

  lemma {:induction false} RefusingRoundsExist(w: World, p: Pid, limit: nat, refused: set<Key>, n: nat)
    returns (batches: seq<seq<Item>>)
    requires Resting(w)
    ensures |batches| == n && RoundsRun(w, p, limit, refused, batches)
  {
    if n == 0 {
      batches := [];
    } else {
      var before := RefusingRoundsExist(w, p, limit, refused, n - 1);
      RoundsRest(w, p, limit, refused, before);
      var batch := BatchExists(AfterRounds(w, p, limit, refused, before), limit);
      batches := before + [batch];
      assert batches[..n - 1] == before;
    }
  }

  /** Some number of rounds removes the intent. */
  ghost predicate EventuallyRemoved(w: World, p: Pid, limit: nat, refused: set<Key>, k: Key) {
    exists batches :: RoundsRun(w, p, limit, refused, batches) && k !in AfterRounds(w, p, limit, refused, batches).journal
  }

  lemma EnoughRoundsExist(w: World, p: Pid, limit: nat, refused: set<Key>, k: Key)
    requires Resting(w) && k in w.journal && k !in refused && |Ahead(w, k) * refused| < limit
    ensures EventuallyRemoved(w, p, limit, refused, k)
  {
    var n := |Ahead(w, k) - refused| + 1;
    var room := limit - |Ahead(w, k) * refused|;
    MulAtLeast(n, room);
    var batches := RefusingRoundsExist(w, p, limit, refused, n);
    ReachedInTime(w, p, limit, refused, batches, k);
  }

  lemma NoRoundsRemove(w: World, p: Pid, limit: nat, refused: set<Key>, k: Key)
    requires Resting(w) && k in w.journal && |Ahead(w, k) * refused| >= limit
    ensures !EventuallyRemoved(w, p, limit, refused, k)
  {
    forall batches | RoundsRun(w, p, limit, refused, batches)
      ensures k in AfterRounds(w, p, limit, refused, batches).journal
    {
      NeverReached(w, p, limit, refused, batches, k);
    }
  }

  /** While the store refuses a fixed set of keys, an intent outside it is eventually removed exactly
    * when fewer than `limit` refused intents come before it. */
  lemma RemovedIff(w: World, p: Pid, limit: nat, refused: set<Key>, k: Key)
    requires Resting(w) && k in w.journal && k !in refused
    ensures EventuallyRemoved(w, p, limit, refused, k) <==> |Ahead(w, k) * refused| < limit
  {
    if |Ahead(w, k) * refused| < limit {
      EnoughRoundsExist(w, p, limit, refused, k);
    } else {
      NoRoundsRemove(w, p, limit, refused, k);
    }
  }
}
