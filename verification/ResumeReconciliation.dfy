/** Reconciliation empties the journal in the least possible number of batches, survives crashes
  * without losing anything, and can be starved by intents that keep failing. */
module ResumeReconciliation {
  import opened Facts
  import opened Wrappers
  import opened ResumeSaga
  import opened ResumeSafety
  import opened ResumeAssumptions

  /** Nothing is in flight. */
  ghost predicate Quiet(w: World) {
    forall p :: p in w.procs ==> w.procs[p].Finished?
  }

  ghost predicate AllDue(w: World) {
    forall k :: k in w.journal ==> w.journal[k].availableAt <= w.now
  }

  ghost function LiveKeys(w: World): set<Key> {
    set id | id in w.rows && w.rows[id].Live() :: KeyOf(id, w.rows[id])
  }

  // ---- One batch --------------------------------------------------------------------------

  /** A reconciler up to its commit, with these outcomes from the object store. */
  function BatchRun(p: Pid, limit: nat, batch: seq<Item>, outcomes: seq<bool>): seq<Event> {
    if outcomes == [] then [BeginReconcile(p, limit, batch)]
    else BatchRun(p, limit, batch, outcomes[..|outcomes| - 1]) + [Storage(p, outcomes[|outcomes| - 1])]
  }

  function RoundRun(p: Pid, limit: nat, batch: seq<Item>, outcomes: seq<bool>): seq<Event> {
    BatchRun(p, limit, batch, outcomes) + [Database(p, true)]
  }

  function DeletedKeys(batch: seq<Item>, outcomes: seq<bool>): set<Key>
    requires |outcomes| <= |batch|
  {
    set i | 0 <= i < |outcomes| && outcomes[i] :: batch[i].key
  }

  /** The reconciler's next call to the object store. */
  lemma BatchStorageStep(w: World, p: Pid, batch: seq<Item>, before: seq<bool>, objects: set<Key>, ok: bool)
    requires |before| < |batch|
    ensures var w1 := Goto(w.(objects := objects), p, Reconcile(batch, before));
            && Enabled(TRUSTED, w1, Storage(p, ok))
            && Next(w1, Storage(p, ok))
               == Goto(w.(objects := objects - (if ok then {batch[|before|].key} else {})), p,
                       Reconcile(batch, before + [ok]))
  {
    assert objects - {} == objects;
    assert w.procs[p := Reconcile(batch, before)][p := Reconcile(batch, before + [ok])]
        == w.procs[p := Reconcile(batch, before + [ok])];
  }

  lemma BatchBegins(w: World, p: Pid, limit: nat, batch: seq<Item>)
    requires Free(w, p) && IsBatch(w, batch, limit)
    ensures Possible(TRUSTED, w, [BeginReconcile(p, limit, batch)])
    ensures Run(w, [BeginReconcile(p, limit, batch)]) == Goto(w, p, Reconcile(batch, []))
  {
    Extend(TRUSTED, w, [], BeginReconcile(p, limit, batch));
    assert [] + [BeginReconcile(p, limit, batch)] == [BeginReconcile(p, limit, batch)];
  }

  ghost predicate BatchReaches(w: World, p: Pid, limit: nat, batch: seq<Item>, outcomes: seq<bool>)
    requires |outcomes| <= |batch|
  {
    && Possible(TRUSTED, w, BatchRun(p, limit, batch, outcomes))
    && Run(w, BatchRun(p, limit, batch, outcomes))
       == Goto(w.(objects := w.objects - DeletedKeys(batch, outcomes)), p, Reconcile(batch, outcomes))
  }

  lemma BatchExtends(w: World, p: Pid, limit: nat, batch: seq<Item>, before: seq<bool>, ok: bool)
    requires |before| < |batch| && BatchReaches(w, p, limit, batch, before)
    ensures BatchReaches(w, p, limit, batch, before + [ok])
  {
    var n, deleted := |before|, DeletedKeys(batch, before);
    var outcomes := before + [ok];
    BatchStorageStep(w, p, batch, before, w.objects - deleted, ok);
    Extend(TRUSTED, w, BatchRun(p, limit, batch, before), Storage(p, ok));
    assert outcomes[..n] == before;
    assert DeletedKeys(batch, outcomes) == deleted + (if ok then {batch[n].key} else {});
    assert w.objects - DeletedKeys(batch, outcomes) == w.objects - deleted - (if ok then {batch[n].key} else {});
  }

  lemma {:induction false} BatchRuns(w: World, p: Pid, limit: nat, batch: seq<Item>, outcomes: seq<bool>)
    requires Free(w, p) && IsBatch(w, batch, limit) && |outcomes| <= |batch|
    ensures BatchReaches(w, p, limit, batch, outcomes)
  {
    if outcomes == [] {
      BatchBegins(w, p, limit, batch);
      assert w.objects - DeletedKeys(batch, outcomes) == w.objects;
    } else {
      var n := |outcomes| - 1;
      BatchRuns(w, p, limit, batch, outcomes[..n]);
      BatchExtends(w, p, limit, batch, outcomes[..n], outcomes[n]);
      assert outcomes == outcomes[..n] + [outcomes[n]];
    }
  }

  lemma BatchCommitStep(w: World, p: Pid, batch: seq<Item>, outcomes: seq<bool>, objects: set<Key>)
    requires |outcomes| == |batch|
    ensures var w1 := Goto(w.(objects := objects), p, Reconcile(batch, outcomes));
            && Enabled(TRUSTED, w1, Database(p, true))
            && Next(w1, Database(p, true))
               == Goto(w.(objects := objects, journal := Settle(w.journal, batch, outcomes)), p,
                       Finished(Reconciled(CountOf(outcomes, true), CountOf(outcomes, false))))
  {
    var reply := Finished(Reconciled(CountOf(outcomes, true), CountOf(outcomes, false)));
    assert w.procs[p := Reconcile(batch, outcomes)][p := reply] == w.procs[p := reply];
  }

  /** One complete batch: what it deletes, what it leaves, and what it reports. */
  lemma RoundRuns(w: World, p: Pid, limit: nat, batch: seq<Item>, outcomes: seq<bool>)
    requires Free(w, p) && IsBatch(w, batch, limit) && |outcomes| == |batch|
    ensures Possible(TRUSTED, w, RoundRun(p, limit, batch, outcomes))
    ensures Run(w, RoundRun(p, limit, batch, outcomes))
         == Goto(w.(objects := w.objects - DeletedKeys(batch, outcomes), journal := Settle(w.journal, batch, outcomes)),
                 p, Finished(Reconciled(CountOf(outcomes, true), CountOf(outcomes, false))))
  {
    BatchRuns(w, p, limit, batch, outcomes);
    BatchCommitStep(w, p, batch, outcomes, w.objects - DeletedKeys(batch, outcomes));
    Extend(TRUSTED, w, BatchRun(p, limit, batch, outcomes), Database(p, true));
  }

  /** The reported counts add up to the batch. */
  lemma {:induction false} CountsAddUp(outcomes: seq<bool>)
    ensures CountOf(outcomes, true) + CountOf(outcomes, false) == |outcomes|
  {
    if outcomes != [] { CountsAddUp(outcomes[..|outcomes| - 1]); }
  }

  function Repeat(value: bool, n: nat): (r: seq<bool>)
    ensures |r| == n && forall i :: 0 <= i < n ==> r[i] == value
  {
    seq(n, _ => value)
  }

  // ---- Draining ---------------------------------------------------------------------------

  function KeySet(batch: seq<Item>): set<Key> {
    set i | 0 <= i < |batch| :: batch[i].key
  }

  predicate Distinct(batch: seq<Item>) {
    forall i, j :: 0 <= i < j < |batch| ==> batch[i].key != batch[j].key
  }

  lemma {:induction false} KeySetSize(batch: seq<Item>)
    requires Distinct(batch)
    ensures |KeySet(batch)| == |batch|
  {
    if batch != [] {
      var n := |batch| - 1;
      KeySetSize(batch[..n]);
      assert KeySet(batch) == KeySet(batch[..n]) + {batch[n].key};
      assert batch[n].key !in KeySet(batch[..n]);
    }
  }

  lemma SuccessSettles(journal: map<Key, Intent>, batch: seq<Item>)
    requires Distinct(batch)
    ensures Settle(journal, batch, Repeat(true, |batch|)) == journal - KeySet(batch)
  {
    var settled := Settle(journal, batch, Repeat(true, |batch|));
    forall k
      ensures k in settled <==> k in journal - KeySet(batch)
      ensures k in settled ==> settled[k] == journal[k]
    {
      SettleAt(journal, batch, Repeat(true, |batch|), k);
    }
  }

  /** In a quiet world where all is due, a batch takes `limit` intents, or all of them. */
  lemma BatchSize(w: World, limit: nat, batch: seq<Item>)
    requires Quiet(w) && AllDue(w) && IsBatch(w, batch, limit)
    ensures KeySet(batch) <= w.journal.Keys
    ensures |batch| == if |w.journal| < limit then |w.journal| else limit
  {
    KeySetSize(batch);
    forall i | 0 <= i < |batch|
      ensures batch[i].key in w.journal
    {
      assert Due(w, batch[i].key);
    }
    if |batch| < limit {
      forall k | k in w.journal
        ensures k in KeySet(batch)
      {
        assert Due(w, k);
        var i :| 0 <= i < |batch| && batch[i] == Item(k, w.journal[k].uid);
      }
      assert KeySet(batch) == w.journal.Keys;
    } else if |w.journal| < limit {
      SubsetSize(KeySet(batch), w.journal.Keys);
    }
  }

  /** The world after these batches, each of them fully successful. */
  ghost function Drained(w: World, p: Pid, limit: nat, batches: seq<seq<Item>>): World {
    if batches == [] then w
    else
      var last := batches[|batches| - 1];
      Run(Drained(w, p, limit, batches[..|batches| - 1]), RoundRun(p, limit, last, Repeat(true, |last|)))
  }

  ghost predicate ValidBatches(w: World, p: Pid, limit: nat, batches: seq<seq<Item>>) {
    batches == [] ||
    (ValidBatches(w, p, limit, batches[..|batches| - 1])
     && IsBatch(Drained(w, p, limit, batches[..|batches| - 1]), batches[|batches| - 1], limit))
  }

  lemma RoundKeepsInv(w: World, p: Pid, limit: nat, batch: seq<Item>)
    requires Inv(w) && Quiet(w) && IsBatch(w, batch, limit)
    ensures Inv(Run(w, RoundRun(p, limit, batch, Repeat(true, |batch|))))
  {
    RoundRuns(w, p, limit, batch, Repeat(true, |batch|));
    RunIsSafe(w, RoundRun(p, limit, batch, Repeat(true, |batch|)));
  }

  lemma RoundEmptiesBatch(w: World, p: Pid, limit: nat, batch: seq<Item>)
    requires Quiet(w) && AllDue(w) && IsBatch(w, batch, limit)
    ensures var w' := Run(w, RoundRun(p, limit, batch, Repeat(true, |batch|)));
            && w'.journal == w.journal - KeySet(batch) && w'.rows == w.rows && w'.now == w.now
            && Quiet(w') && AllDue(w')
  {
    RoundRuns(w, p, limit, batch, Repeat(true, |batch|));
    assert Distinct(batch);
    SuccessSettles(w.journal, batch);
  }

  lemma RoundDrains(w: World, p: Pid, limit: nat, batch: seq<Item>)
    requires Inv(w) && Quiet(w) && AllDue(w) && IsBatch(w, batch, limit)
    ensures var w' := Run(w, RoundRun(p, limit, batch, Repeat(true, |batch|)));
            && Inv(w') && Quiet(w') && AllDue(w') && w'.rows == w.rows
            && |w'.journal| == if |w.journal| < limit then 0 else |w.journal| - limit
  {
    var w' := Run(w, RoundRun(p, limit, batch, Repeat(true, |batch|)));
    RoundKeepsInv(w, p, limit, batch);
    RoundEmptiesBatch(w, p, limit, batch);
    BatchSize(w, limit, batch);
    assert Distinct(batch);
    KeySetSize(batch);
    assert w'.journal.Keys == w.journal.Keys - KeySet(batch);
    assert |w'.journal.Keys| == |w.journal.Keys| - |KeySet(batch)|;
  }

  /** After k successful batches of size `limit`, exactly max(0, m - k * limit) of the m intents
    * are left; so the journal is empty after ceil(m / limit) batches and not before, and then
    * the object store holds exactly the objects of the live resumes. */
  lemma {:induction false} Converges(w: World, p: Pid, limit: nat, batches: seq<seq<Item>>)
    requires Inv(w) && Quiet(w) && AllDue(w) && ValidBatches(w, p, limit, batches)
    ensures var w' := Drained(w, p, limit, batches);
            && Inv(w') && Quiet(w') && AllDue(w') && w'.rows == w.rows
            && |w'.journal| == (if |w.journal| < |batches| * limit then 0 else |w.journal| - |batches| * limit)
            && (|w.journal| <= |batches| * limit ==> w'.journal == map[] && w'.objects == LiveKeys(w))
  {
    var w' := Drained(w, p, limit, batches);
    if batches != [] {
      var n := |batches| - 1;
      Converges(w, p, limit, batches[..n]);
      RoundDrains(Drained(w, p, limit, batches[..n]), p, limit, batches[n]);
      assert |batches| * limit == n * limit + limit;
    }
    if |w.journal| <= |batches| * limit {
      assert w'.journal == map[];
      forall k
        ensures k in w'.objects <==> k in LiveKeys(w)
      {
        if k in LiveKeys(w) {
          var id :| id in w.rows && w.rows[id].Live() && k == KeyOf(id, w.rows[id]);
          assert w'.rows[id].Live();
        }
        if k in w'.objects {
          assert LiveKey(w', k);
          assert KeyOf(k.id, w.rows[k.id]) == k;
        }
      }
    }
  }

  // ---- A batch always exists --------------------------------------------------------------

  lemma {:induction false} FirstOf(w: World, keys: set<Key>) returns (first: Key)
    requires keys != {} && keys <= w.journal.Keys
    ensures first in keys && forall k :: k in keys ==> Before(w.journal[first], w.journal[k])
  {
    var k :| k in keys;
    if keys == {k} {
      first := k;
    } else {
      var rest := FirstOf(w, keys - {k});
      first := if Before(w.journal[k], w.journal[rest]) then k else rest;
      forall other | other in keys
        ensures Before(w.journal[first], w.journal[other])
      {
        if other != k { assert other in keys - {k}; }
      }
    }
  }

  /** The query has an answer for every limit. */
  lemma {:induction false} BatchExists(w: World, limit: nat) returns (batch: seq<Item>)
    ensures IsBatch(w, batch, limit)
  {
    if limit == 0 {
      batch := [];
    } else {
      var shorter := BatchExists(w, limit - 1);
      var left := set k | k in w.journal && Due(w, k) && Item(k, w.journal[k].uid) !in shorter;
      if left == {} || |shorter| < limit - 1 {
        batch := shorter;
        forall k | k in w.journal && Due(w, k)
          ensures Item(k, w.journal[k].uid) in batch
        {
          assert k !in left || |shorter| < limit - 1;
        }
      } else {
        var k := FirstOf(w, left);
        batch := shorter + [Item(k, w.journal[k].uid)];
        assert batch[|shorter|] == Item(k, w.journal[k].uid);
        forall i | 0 <= i < |shorter|
          ensures batch[i].key != k && Before(w.journal[batch[i].key], w.journal[k])
        {
          assert batch[i] == shorter[i] && Due(w, shorter[i].key);
        }
        forall other | other in w.journal && Due(w, other) && Item(other, w.journal[other].uid) !in batch
          ensures forall i :: 0 <= i < |batch| ==> Before(w.journal[batch[i].key], w.journal[other])
        {
          assert other in left;
        }
      }
    }
  }

  /** From any quiet world there is a way to run the reconciler k times. */
  lemma {:induction false} RoundsExist(w: World, p: Pid, limit: nat, k: nat) returns (batches: seq<seq<Item>>)
    requires Inv(w) && Quiet(w) && AllDue(w)
    ensures |batches| == k && ValidBatches(w, p, limit, batches)
  {
    if k == 0 {
      batches := [];
    } else {
      var before := RoundsExist(w, p, limit, k - 1);
      var batch := BatchExists(Drained(w, p, limit, before), limit);
      batches := before + [batch];
      assert batches[..k - 1] == before;
    }
  }

  // ---- Crashes ----------------------------------------------------------------------------

  /** A reconciler that dies after any part of its batch loses no intent: the tables are as they
    * were, only objects that nothing but the journal names are gone, and draining the rest ends
    * exactly where draining the undisturbed world ends. */
  lemma CrashOnlyRepeatsWork(w: World, p: Pid, limit: nat, batch: seq<Item>, outcomes: seq<bool>,
                             again: seq<seq<Item>>, undisturbed: seq<seq<Item>>)
    requires Inv(w) && Quiet(w) && AllDue(w) && IsBatch(w, batch, limit) && |outcomes| <= |batch|
    requires var crashed := Run(w, BatchRun(p, limit, batch, outcomes) + [Crash(p)]);
             && ValidBatches(crashed, p, limit, again) && |w.journal| <= |again| * limit
             && ValidBatches(w, p, limit, undisturbed) && |w.journal| <= |undisturbed| * limit
    ensures var crashed := Run(w, BatchRun(p, limit, batch, outcomes) + [Crash(p)]);
            && Possible(TRUSTED, w, BatchRun(p, limit, batch, outcomes) + [Crash(p)])
            && crashed.rows == w.rows && crashed.journal == w.journal
            && crashed.objects == w.objects - DeletedKeys(batch, outcomes)
            && Drained(crashed, p, limit, again).journal == Drained(w, p, limit, undisturbed).journal
            && Drained(crashed, p, limit, again).objects == Drained(w, p, limit, undisturbed).objects
  {
    BatchRuns(w, p, limit, batch, outcomes);
    Extend(TRUSTED, w, BatchRun(p, limit, batch, outcomes), Crash(p));
    RunIsSafe(w, BatchRun(p, limit, batch, outcomes) + [Crash(p)]);
    var crashed := Run(w, BatchRun(p, limit, batch, outcomes) + [Crash(p)]);
    assert LiveKeys(crashed) == LiveKeys(w);
    Converges(crashed, p, limit, again);
    Converges(w, p, limit, undisturbed);
  }

  /** Two reconcilers running at once never hold the same intent. */
  lemma ReconcilersAreDisjoint(w: World, run: seq<Event>, p: Pid, q: Pid)
    requires Inv(w) && Possible(TRUSTED, w, run) && p != q
    requires var last := Run(w, run);
             p in last.procs && q in last.procs && last.procs[p].Reconcile? && last.procs[q].Reconcile?
    ensures KeySet(Run(w, run).procs[p].batch) !! KeySet(Run(w, run).procs[q].batch)
  {
    RunIsSafe(w, run);
    assert Apart(Run(w, run).procs[p], Run(w, run).procs[q]);
  }

  // ---- Starvation -------------------------------------------------------------------------

  ghost function AfterFailures(w: World, p: Pid, limit: nat, batch: seq<Item>, k: nat): World {
    if k == 0 then w
    else Run(AfterFailures(w, p, limit, batch, k - 1), RoundRun(p, limit, batch, Repeat(false, |batch|)))
  }

  /** Counting attempts does not reorder the queue. */
  lemma SameQueue(w: World, w': World, limit: nat, batch: seq<Item>)
    requires Quiet(w) && Quiet(w') && w'.now == w.now && IsBatch(w, batch, limit)
    requires w'.journal.Keys == w.journal.Keys
    requires forall k :: k in w.journal ==>
               w'.journal[k].uid == w.journal[k].uid && w'.journal[k].availableAt == w.journal[k].availableAt
    ensures IsBatch(w', batch, limit)
  {
    forall k
      ensures Due(w', k) <==> Due(w, k)
    {
    }
  }

  lemma FailureSettles(journal: map<Key, Intent>, batch: seq<Item>, k: Key)
    requires Distinct(batch) && k in journal
    ensures var settled := Settle(journal, batch, Repeat(false, |batch|));
            && k in settled
            && settled[k] == if k in KeySet(batch)
                             then journal[k].(attempts := journal[k].attempts + 1,
                                              lastError := Some(STORAGE_UNAVAILABLE))
                             else journal[k]
  {
    SettleAt(journal, batch, Repeat(false, |batch|), k);
  }

  lemma FailedRoundRepeats(w: World, p: Pid, limit: nat, batch: seq<Item>)
    requires Quiet(w) && IsBatch(w, batch, limit)
    ensures var w' := Run(w, RoundRun(p, limit, batch, Repeat(false, |batch|)));
            && Quiet(w') && IsBatch(w', batch, limit)
            && w'.journal.Keys == w.journal.Keys && w'.objects == w.objects
            && (forall k :: k in w.journal ==>
                  w'.journal[k] == if k in KeySet(batch)
                                   then w.journal[k].(attempts := w.journal[k].attempts + 1,
                                                      lastError := Some(STORAGE_UNAVAILABLE))
                                   else w.journal[k])
  {
    var outcomes := Repeat(false, |batch|);
    RoundRuns(w, p, limit, batch, outcomes);
    var w' := Run(w, RoundRun(p, limit, batch, outcomes));
    assert DeletedKeys(batch, outcomes) == {};
    assert w'.objects == w.objects;
    assert Distinct(batch);
    forall k
      ensures k in w'.journal ==> k in w.journal
    {
      SettleAt(w.journal, batch, outcomes, k);
    }
    forall k | k in w.journal { FailureSettles(w.journal, batch, k); }
    SameQueue(w, w', limit, batch);
  }

  /** Failing intents are not postponed: when the store keeps refusing the first `limit` of them,
    * every later batch is the same one, and no intent behind them is ever tried. */
  lemma {:induction false} FailuresStarve(w: World, p: Pid, limit: nat, batch: seq<Item>, k: nat)
    requires Quiet(w) && IsBatch(w, batch, limit)
    ensures var w' := AfterFailures(w, p, limit, batch, k);
            && Quiet(w') && IsBatch(w', batch, limit)
            && w'.journal.Keys == w.journal.Keys && w'.objects == w.objects
            && (forall key :: key in w.journal && key !in KeySet(batch) ==> w'.journal[key] == w.journal[key])
            && (forall key :: key in w.journal && key in KeySet(batch) ==>
                  w'.journal[key].attempts == w.journal[key].attempts + k)
  {
    if k > 0 {
      FailuresStarve(w, p, limit, batch, k - 1);
      FailedRoundRepeats(AfterFailures(w, p, limit, batch, k - 1), p, limit, batch);
    }
  }
}
