/** Concurrent ingestion of the same provider identity: the advisory lock of `lock_source_identity`
  * in app/repositories/canonical_jobs.py around the lookup, the creation of a job and the insertion
  * of a source in app/jobs/ingestion/service.py, each transaction seeing its own rows and the
  * committed ones. */
module IngestRaces {
  import opened Wrappers
  import opened Listings

  type Tx = nat

  type Slot = (Tx, Identity)

  /** A source row: the job it points to, and whether that job was created for it. */
  datatype Source = Source(job: JobId, created: bool)

  /** A committed job with the identity it was created for. */
  datatype NewJob = NewJob(id: Identity, job: JobId)

  /** `looked` remembers what a transaction's lookup answered until it acts on it; `pending` are the
    * sources, and with them the jobs, inserted but not committed. */
  datatype State = State(
    committed: map<Identity, JobId>,
    jobs: set<NewJob>,
    locks: map<Identity, Tx>,
    looked: map<Slot, Option<JobId>>,
    pending: map<Slot, Source>)

  const START: State := State(map[], {}, map[], map[], map[])

  datatype Event =
    | Lock(tx: Tx, id: Identity)
    | Look(tx: Tx, id: Identity)
    | Write(tx: Tx, id: Identity, source: Source)
    | Undo(tx: Tx, id: Identity)
    | Commit(tx: Tx)
    | Rollback(tx: Tx)

  predicate Holds(s: State, k: Slot) {
    k.1 in s.locks && s.locks[k.1] == k.0
  }

  /** What a transaction reads. */
  function Seen(s: State, k: Slot): Option<JobId> {
    if k in s.pending then Some(s.pending[k].job)
    else if k.1 in s.committed then Some(s.committed[k.1])
    else None
  }

  predicate IsJob(s: State, job: JobId) {
    exists n :: n in s.jobs && n.job == job
  }

  predicate MadeBy(s: State, tx: Tx, job: JobId) {
    exists k :: k in s.pending && k.0 == tx && s.pending[k] == Source(job, true)
  }

  /** A lock waits for its holder; the lookup and the write happen under it; the write acts on the
    * lookup, not on the state, and joins only a job its transaction can see; a commit or a rollback
    * may come at any time. */
  predicate Enabled(s: State, e: Event) {
    match e
    case Lock(tx, id) => id !in s.locks || s.locks[id] == tx
    case Look(tx, id) => Holds(s, (tx, id))
    case Write(tx, id, source) =>
      && Holds(s, (tx, id)) && (tx, id) in s.looked
      && (source.created || IsJob(s, source.job) || MadeBy(s, tx, source.job))
    case Undo(tx, id) => Holds(s, (tx, id))
    case Commit(_) => true
    case Rollback(_) => true
  }

  function Without<T>(m: map<Slot, T>, tx: Tx): map<Slot, T> {
    map k | k in m && k.0 != tx :: m[k]
  }

  function Released(locks: map<Identity, Tx>, tx: Tx): map<Identity, Tx> {
    map id | id in locks && locks[id] != tx :: locks[id]
  }

  /** The sources a transaction inserted. */
  function Inserted(s: State, tx: Tx): map<Identity, JobId> {
    map id | id in Inserting(s, tx) :: s.pending[(tx, id)].job
  }

  function Inserting(s: State, tx: Tx): set<Identity> {
    set k | k in s.pending && k.0 == tx :: k.1
  }

  /** The jobs it created for them. */
  function Created(s: State, tx: Tx): set<NewJob> {
    set k | k in s.pending && k.0 == tx && s.pending[k].created :: NewJob(k.1, s.pending[k].job)
  }

  /** Job and source are flushed one after the other under one savepoint, unseen by others. */
  function Next(s: State, e: Event): State {
    match e
    case Lock(tx, id) => s.(locks := s.locks[id := tx])
    case Look(tx, id) => s.(looked := s.looked[(tx, id) := Seen(s, (tx, id))])
    case Write(tx, id, source) =>
      var found := if (tx, id) in s.looked then s.looked[(tx, id)] else None;
      s.(looked := s.looked - {(tx, id)},
         pending := if found.None? then s.pending[(tx, id) := source] else s.pending)
    case Undo(tx, id) =>
      // A savepoint rolled back before its write: a lock it took itself is given up, and giving up
      // an older one as well only allows more interleavings.
      s.(looked := s.looked - {(tx, id)}, locks := if (tx, id) in s.pending then s.locks else s.locks - {id})
    case Commit(tx) =>
      State(s.committed + Inserted(s, tx), s.jobs + Created(s, tx), Released(s.locks, tx),
            Without(s.looked, tx), Without(s.pending, tx))
    case Rollback(tx) =>
      State(s.committed, s.jobs, Released(s.locks, tx), Without(s.looked, tx), Without(s.pending, tx))
  }

  // ---- The invariants ---------------------------------------------------------------------

  /** Who has looked or inserted holds the lock, lookups are current, and an identity is pending in
    * no transaction once it is committed. */
  ghost predicate Serialized(s: State) {
    && (forall k :: k in s.looked ==> Holds(s, k) && s.looked[k] == Seen(s, k))
    && (forall k :: k in s.pending ==> Holds(s, k) && k.1 !in s.committed)
  }

  /** The committed source of the identity a job was created for points to that job. */
  ghost predicate JobsHaveSources(s: State) {
    forall n :: n in s.jobs ==> n.id in s.committed && s.committed[n.id] == n.job
  }

  /** Every source points to a job that is there when it is committed. */
  ghost predicate SourcesHaveJobs(s: State) {
    && (forall id :: id in s.committed ==> IsJob(s, s.committed[id]))
    && (forall k :: k in s.pending ==> IsJob(s, s.pending[k].job) || MadeBy(s, k.0, s.pending[k].job))
  }

  lemma CommitKeepsSerialized(s: State, tx: Tx)
    requires Serialized(s)
    ensures Serialized(Next(s, Commit(tx)))
  {
    var t := Next(s, Commit(tx));
    forall k | k in t.pending
      ensures Holds(t, k) && k.1 !in t.committed
    {
      assert k in s.pending && k.0 != tx && Holds(s, k);
      assert (tx, k.1) in s.pending ==> Holds(s, (tx, k.1));
    }
    forall k | k in t.looked
      ensures Holds(t, k) && t.looked[k] == Seen(t, k)
    {
      assert k in s.looked && k.0 != tx && Holds(s, k);
      assert (tx, k.1) in s.pending ==> Holds(s, (tx, k.1));
    }
  }

  lemma StepKeepsSerialized(s: State, e: Event)
    requires Serialized(s) && Enabled(s, e)
    ensures Serialized(Next(s, e))
  {
    match e {
      case Commit(tx) => CommitKeepsSerialized(s, tx);
      case Write(tx, id, _) => WriteKeepsSerialized(s, e);
      case _ =>
    }
  }

  lemma WriteKeepsSerialized(s: State, e: Event)
    requires Serialized(s) && Enabled(s, e) && e.Write?
    ensures Serialized(Next(s, e))
  {
    var t := Next(s, e);
    forall k | k in t.looked
      ensures Holds(t, k) && t.looked[k] == Seen(t, k)
    {
      assert k in s.looked && k != (e.tx, e.id);
    }
  }

  /** Committed sources keep their job. */
  lemma StepKeepsCommitted(s: State, e: Event)
    requires Serialized(s)
    ensures forall id :: id in s.committed ==> id in Next(s, e).committed && Next(s, e).committed[id] == s.committed[id]
  {
    if e.Commit? {
      assert forall k :: k in s.pending ==> k.1 !in s.committed;
    }
  }

  lemma StepKeepsJobSources(s: State, e: Event)
    requires Serialized(s) && JobsHaveSources(s)
    ensures JobsHaveSources(Next(s, e))
  {
    StepKeepsCommitted(s, e);
    if e.Commit? {
      var t := Next(s, e);
      forall n | n in Created(s, e.tx)
        ensures n.id in t.committed && t.committed[n.id] == n.job
      {
        var k :| k in s.pending && k.0 == e.tx && s.pending[k].created && n == NewJob(k.1, s.pending[k].job);
        assert k == (e.tx, n.id) && n.id in Inserted(s, e.tx) && Inserted(s, e.tx)[n.id] == n.job;
      }
    }
  }

  lemma CommitKeepsSourceJobs(s: State, tx: Tx)
    requires Serialized(s) && SourcesHaveJobs(s)
    ensures SourcesHaveJobs(Next(s, Commit(tx)))
  {
    var t := Next(s, Commit(tx));
    forall job | IsJob(s, job)
      ensures IsJob(t, job)
    {
      var n :| n in s.jobs && n.job == job;
      assert n in t.jobs;
    }
    forall job | MadeBy(s, tx, job)
      ensures IsJob(t, job)
    {
      var k :| k in s.pending && k.0 == tx && s.pending[k] == Source(job, true);
      assert NewJob(k.1, job) in t.jobs;
    }
    forall id | id in t.committed
      ensures IsJob(t, t.committed[id])
    {
      if id in Inserted(s, tx) { assert (tx, id) in s.pending; } else { assert id in s.committed; }
    }
    forall k | k in t.pending
      ensures IsJob(t, t.pending[k].job) || MadeBy(t, k.0, t.pending[k].job)
    {
      KeepsMaking(s, t, k.0, t.pending[k].job);
    }
  }

  /** What a transaction has made it still has while its pending rows are there. */
  lemma KeepsMaking(s: State, t: State, tx: Tx, job: JobId)
    requires forall k :: k in s.pending && k.0 == tx ==> k in t.pending && t.pending[k] == s.pending[k]
    ensures MadeBy(s, tx, job) ==> MadeBy(t, tx, job)
  {
    if MadeBy(s, tx, job) {
      var k :| k in s.pending && k.0 == tx && s.pending[k] == Source(job, true);
      assert k in t.pending;
    }
  }

  lemma StepKeepsSourceJobs(s: State, e: Event)
    requires Serialized(s) && SourcesHaveJobs(s) && Enabled(s, e)
    ensures SourcesHaveJobs(Next(s, e))
  {
    if e.Commit? {
      CommitKeepsSourceJobs(s, e.tx);
    } else {
      var t := Next(s, e);
      assert forall job :: IsJob(t, job) <==> IsJob(s, job);
      forall k | k in t.pending
        ensures IsJob(t, t.pending[k].job) || MadeBy(t, k.0, t.pending[k].job)
      {
        PendingStays(s, e, k.0);
        KeepsMaking(s, t, k.0, t.pending[k].job);
        if k !in s.pending && e.source.created { assert t.pending[k] == Source(e.source.job, true); }
      }
    }
  }

  lemma PendingStays(s: State, e: Event, tx: Tx)
    requires Serialized(s) && Enabled(s, e) && !e.Commit? && (e.Rollback? ==> e.tx != tx)
    ensures forall k :: k in s.pending && k.0 == tx ==> k in Next(s, e).pending && Next(s, e).pending[k] == s.pending[k]
  {
  }

  // ---- Runs -------------------------------------------------------------------------------

  predicate Possible(s: State, events: seq<Event>)
    decreases |events|
  {
    events == [] || (Enabled(s, events[0]) && Possible(Next(s, events[0]), events[1..]))
  }

  function Run(s: State, events: seq<Event>): State
    decreases |events|
  {
    if events == [] then s else Run(Next(s, events[0]), events[1..])
  }

  /** In every reachable state an identity has at most one source, committed or still pending in one
    * transaction, so the unique constraint never fires; and a committed source keeps its job. */
  lemma {:induction false} OneSourcePerIdentity(s: State, events: seq<Event>)
    requires Serialized(s) && Possible(s, events)
    ensures var t := Run(s, events);
            && Serialized(t)
            && (forall k :: k in t.pending ==> k.1 !in t.committed)
            && (forall j, k :: j in t.pending && k in t.pending && j.1 == k.1 ==> j == k)
            && (forall id :: id in s.committed ==> id in t.committed && t.committed[id] == s.committed[id])
    decreases |events|
  {
    if events != [] {
      StepKeepsSerialized(s, events[0]);
      StepKeepsCommitted(s, events[0]);
      OneSourcePerIdentity(Next(s, events[0]), events[1..]);
    } else {
      forall j, k | j in s.pending && k in s.pending && j.1 == k.1
        ensures j == k
      {
        assert Holds(s, j) && Holds(s, k);
      }
    }
  }

  lemma {:induction false} RunKeepsJobs(s: State, events: seq<Event>)
    requires Serialized(s) && JobsHaveSources(s) && SourcesHaveJobs(s) && Possible(s, events)
    ensures JobsHaveSources(Run(s, events)) && SourcesHaveJobs(Run(s, events))
    decreases |events|
  {
    if events != [] {
      StepKeepsSerialized(s, events[0]);
      StepKeepsJobSources(s, events[0]);
      StepKeepsSourceJobs(s, events[0]);
      RunKeepsJobs(Next(s, events[0]), events[1..]);
    }
  }

  /** In every reachable state at most one committed job was created for an identity, its source points
    * to it, and no source is without a job. */
  lemma OneJobPerIdentity(events: seq<Event>)
    requires Possible(START, events)
    ensures var t := Run(START, events);
            && (forall m, n :: m in t.jobs && n in t.jobs && m.id == n.id ==> m == n)
            && (forall n :: n in t.jobs ==> n.id in t.committed && t.committed[n.id] == n.job)
            && (forall id :: id in t.committed ==> exists n :: n in t.jobs && n.job == t.committed[id])
  {
    RunKeepsJobs(START, events);
    var t := Run(START, events);
    forall id | id in t.committed
      ensures exists n :: n in t.jobs && n.job == t.committed[id]
    {
      assert IsJob(t, t.committed[id]);
    }
  }

  /** Without the lock the same steps collide: both transactions find nothing, both insert, and the
    * second commit would leave two jobs for one identity. */
  lemma UnlockedLookupsCollide(id: Identity, a: JobId, b: JobId) returns (s: State, t: State)
    requires a != b
    ensures s == START.(looked := map[(1, id) := Seen(START, (1, id)), (2, id) := Seen(START, (2, id))])
    ensures t == Next(Next(s, Write(1, id, Source(a, true))), Write(2, id, Source(b, true)))
    ensures Next(t, Commit(1)).committed == map[id := a] && (2, id) in Next(t, Commit(1)).pending
    ensures Next(Next(t, Commit(1)), Commit(2)).jobs == {NewJob(id, a), NewJob(id, b)}
  {
    s := START.(looked := map[(1, id) := Seen(START, (1, id)), (2, id) := Seen(START, (2, id))]);
    t := Next(Next(s, Write(1, id, Source(a, true))), Write(2, id, Source(b, true)));
    assert t.pending == map[(1, id) := Source(a, true), (2, id) := Source(b, true)];
    assert Inserted(t, 1) == map[id := a];
    var t1 := Next(t, Commit(1));
    assert Created(t, 1) == {NewJob(id, a)} by { assert (1, id) in t.pending; }
    assert t1.pending == map[(2, id) := Source(b, true)];
    assert Created(t1, 2) == {NewJob(id, b)} by { assert (2, id) in t1.pending; }
  }
}
