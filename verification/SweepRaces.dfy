/** The freshness sweep against collections, statement by statement: `deactivate_stale_sources`,
  * `touch_sources_seen`, `refresh_source` and `create_source` in app/repositories/canonical_jobs.py, as
  * app/jobs/ingestion/service.py and app/queue/tasks/freshness.py call them.  Each statement reads what
  * is committed when it starts, and its transaction's own rows.  A row written by an open transaction
  * makes other writers wait; a writer that waited re-reads the row it writes, but not what its condition
  * read of other tables.  A flush writes only the columns that differ from what was loaded. */
module SweepRaces {
  import opened Wrappers
  import opened Listings

  type Tx = nat

  datatype Source = Source(job: JobId, active: bool)

  /** How far a collection is with a touch, or with one listing: it looked up the source, loaded the
    * job (none: a new one), stored the job. */
  datatype Stage =
    | Idle
    | Touched(ids: set<Identity>)
    | Looked(id: Identity, was: Option<Source>)
    | Loaded(id: Identity, was: Option<Source>, job: JobId, seen: Option<bool>)
    | Stored(id: Identity, was: Option<Source>, job: JobId)

  /** An open transaction: how many commits there were when what it acts on was first read, and its
    * uncommitted writes.
    *
    * A collection holds the advisory locks `locked` and the rows `jobs` and `rows`; among them it set
    * the jobs `raised` active, and inserted or set active the sources `lit`.  A sweep wrote the stale
    * sources, looked which jobs that leaves without one, and wrote some of those. */
  datatype Work =
    | Collecting(since: nat, stage: Stage, locked: set<Identity>, jobs: set<JobId>, raised: set<JobId>,
                 rows: set<Identity>, lit: map<Identity, JobId>)
    | Sweeping(since: nat, stale: set<Identity>, doomed: Option<set<JobId>>, done: set<JobId>)

  /** The committed rows, the open transactions, and how many have committed. */
  datatype State = State(jobs: map<JobId, bool>, sources: map<Identity, Source>, open: map<Tx, Work>, commits: nat)

  datatype Event =
    | Begin(tx: Tx)
    | LookUp(tx: Tx, id: Identity)
    | LoadJob(tx: Tx, job: JobId, seen: Option<bool>)
    | Refuse(tx: Tx)
    | StoreJob(tx: Tx)
    | StoreSource(tx: Tx)
    | TouchJobs(tx: Tx, ids: set<Identity>)
    | TouchSources(tx: Tx)
    | SweepSources(tx: Tx, stale: set<Identity>)
    | LookForJobs(tx: Tx)
    | Deactivate(tx: Tx, job: JobId)
    | Commit(tx: Tx)
    | Abort(tx: Tx)

  // ---- What is committed, and what a transaction reads ------------------------------------

  predicate HasActive(s: State, job: JobId) {
    exists id :: id in s.sources && s.sources[id] == Source(job, true)
  }

  /** The job has an active source beside these. */
  predicate HasOther(s: State, stale: set<Identity>, job: JobId) {
    exists id :: id in s.sources && s.sources[id] == Source(job, true) && id !in stale
  }

  /** A job is active exactly when one of its sources is, and every source has its job. */
  ghost predicate Consistent(s: State) {
    && (forall id :: id in s.sources ==> s.sources[id].job in s.jobs)
    && (forall job :: job in s.jobs ==> (s.jobs[job] <==> HasActive(s, job)))
  }

  function SourceSeen(s: State, w: Work, id: Identity): Option<Source>
    requires w.Collecting?
  {
    if id in w.lit then Some(Source(w.lit[id], true))
    else if id in s.sources then Some(s.sources[id])
    else None
  }

  predicate IsJob(s: State, w: Work, job: JobId)
    requires w.Collecting?
  {
    job in s.jobs || job in w.raised
  }

  predicate JobSeen(s: State, w: Work, job: JobId)
    requires w.Collecting?
  {
    job in w.raised || (job in s.jobs && s.jobs[job])
  }

  /** The sources a touch finds, with their jobs. */
  function Found(s: State, w: Work, ids: set<Identity>): map<Identity, JobId>
    requires w.Collecting?
  {
    map id | id in ids && SourceSeen(s, w, id).Some? :: SourceSeen(s, w, id).value.job
  }

  // ---- Steps ------------------------------------------------------------------------------

  predicate JobFree(s: State, tx: Tx, job: JobId) {
    forall other :: other in s.open && other != tx ==>
      job !in (if s.open[other].Collecting? then s.open[other].jobs else s.open[other].done)
  }

  predicate SourceFree(s: State, tx: Tx, id: Identity) {
    forall other :: other in s.open && other != tx ==>
      id !in (if s.open[other].Collecting? then s.open[other].rows else s.open[other].stale)
  }

  predicate LockFree(s: State, tx: Tx, id: Identity) {
    forall other :: other in s.open && other != tx && s.open[other].Collecting? ==> id !in s.open[other].locked
  }

  /** A known source leads to its job; otherwise any job is joined or a new one made.  A job this
    * transaction has stored before may be answered from the session, as active. */
  predicate MayLoad(s: State, w: Work, job: JobId, seen: Option<bool>)
    requires w.Collecting? && w.stage.Looked?
  {
    && (w.stage.was.Some? ==> job == w.stage.was.value.job)
    && match seen {
         case None => w.stage.was.None? && !IsJob(s, w, job)
         case Some(active) => IsJob(s, w, job) && (active == JobSeen(s, w, job) || (active && job in w.jobs))
       }
  }

  predicate InCollection(s: State, tx: Tx) {
    tx in s.open && s.open[tx].Collecting?
  }

  predicate InSweep(s: State, tx: Tx) {
    tx in s.open && s.open[tx].Sweeping?
  }

  ghost predicate Enabled(s: State, e: Event) {
    match e
    case Begin(tx) => tx !in s.open
    case LookUp(tx, id) => InCollection(s, tx) && s.open[tx].stage.Idle? && LockFree(s, tx, id)
    case LoadJob(tx, job, seen) => InCollection(s, tx) && s.open[tx].stage.Looked? && MayLoad(s, s.open[tx], job, seen)
    case Refuse(tx) => InCollection(s, tx) && (s.open[tx].stage.Looked? || s.open[tx].stage.Loaded?)
    case StoreJob(tx) =>
      && InCollection(s, tx) && s.open[tx].stage.Loaded? && JobFree(s, tx, s.open[tx].stage.job)
      && (s.open[tx].stage.seen.None? ==> !IsJob(s, s.open[tx], s.open[tx].stage.job))
    case StoreSource(tx) => InCollection(s, tx) && s.open[tx].stage.Stored? && SourceFree(s, tx, s.open[tx].stage.id)
    case TouchJobs(tx, ids) =>
      && InCollection(s, tx) && s.open[tx].stage.Idle?
      && forall job :: job in Found(s, s.open[tx], ids).Values ==> JobFree(s, tx, job)
    case TouchSources(tx) =>
      && InCollection(s, tx) && s.open[tx].stage.Touched?
      && forall id :: id in Found(s, s.open[tx], s.open[tx].stage.ids) ==> SourceFree(s, tx, id)
    case SweepSources(tx, stale) =>
      && tx !in s.open && stale != {}
      && forall id :: id in stale ==> id in s.sources && s.sources[id].active && SourceFree(s, tx, id)
    case LookForJobs(tx) => InSweep(s, tx) && s.open[tx].doomed.None?
    case Deactivate(tx, job) =>
      && InSweep(s, tx) && s.open[tx].doomed.Some? && job in s.open[tx].doomed.value && JobFree(s, tx, job)
    case Commit(tx) =>
      tx in s.open && if s.open[tx].Collecting? then s.open[tx].stage.Idle? else s.open[tx].doomed == Some(s.open[tx].done)
    case Abort(tx) => tx in s.open
  }

  /** The active jobs a sweep of these sources sees without an active source. */
  function Doomed(s: State, stale: set<Identity>): set<JobId> {
    set job | job in s.jobs && s.jobs[job] && !HasOther(s, stale, job)
  }

  /** An open transaction's work after its event. */
  ghost function Worked(s: State, e: Event): Work
    requires Enabled(s, e) && !e.Commit? && !e.Abort?
  {
    match e
    case Begin(tx) => Collecting(s.commits, Idle, {}, {}, {}, {}, map[])
    case LookUp(tx, id) =>
      var w := s.open[tx];
      w.(stage := Looked(id, SourceSeen(s, w, id)), locked := w.locked + {id})
    case LoadJob(tx, job, seen) =>
      var w := s.open[tx];
      w.(stage := Loaded(w.stage.id, w.stage.was, job, seen))
    case Refuse(tx) => s.open[tx].(stage := Idle)
    case StoreJob(tx) =>
      var w := s.open[tx];
      w.(stage := Stored(w.stage.id, w.stage.was, w.stage.job),
         jobs := w.jobs + {w.stage.job},
         raised := if w.stage.seen == Some(true) then w.raised else w.raised + {w.stage.job})
    case StoreSource(tx) =>
      var w := s.open[tx];
      w.(stage := Idle,
         rows := w.rows + {w.stage.id},
         lit := if w.stage.was.Some? && w.stage.was.value.active then w.lit else w.lit[w.stage.id := w.stage.job])
    case TouchJobs(tx, ids) =>
      var w := s.open[tx];
      var found := Found(s, w, ids);
      w.(stage := Touched(ids), jobs := w.jobs + found.Values, raised := w.raised + found.Values)
    case TouchSources(tx) =>
      var w := s.open[tx];
      var found := Found(s, w, w.stage.ids);
      w.(stage := Idle, rows := w.rows + found.Keys, lit := w.lit + found)
    case SweepSources(tx, stale) => Sweeping(s.commits, stale, None, {})
    case LookForJobs(tx) => s.open[tx].(since := s.commits, doomed := Some(Doomed(s, s.open[tx].stale)))
    case Deactivate(tx, job) => s.open[tx].(done := s.open[tx].done + {job})
  }

  /** The rows after this transaction commits. */
  function Committed(s: State, w: Work): State {
    match w
    case Collecting(_, _, _, _, raised, _, lit) =>
      s.(jobs := map job | job in s.jobs.Keys + raised :: job in raised || s.jobs[job],
         sources := map id | id in s.sources.Keys + lit.Keys ::
           if id in lit then Source(lit[id], true) else s.sources[id])
    case Sweeping(_, stale, _, done) =>
      s.(jobs := map job | job in s.jobs :: s.jobs[job] && job !in done,
         sources := map id | id in s.sources :: if id in stale then s.sources[id].(active := false) else s.sources[id])
  }

  ghost function Next(s: State, e: Event): State
    requires Enabled(s, e)
  {
    match e
    case Commit(tx) => Committed(s, s.open[tx]).(open := s.open - {tx}, commits := s.commits + 1)
    case Abort(tx) => s.(open := s.open - {tx})
    case _ => s.(open := s.open[e.tx := Worked(s, e)])
  }

  /** A transaction reads what would be there if it committed now. */
  lemma SeesItsOwn(s: State, w: Work, id: Identity, job: JobId)
    requires w.Collecting?
    ensures var t := Committed(s, w);
            && SourceSeen(s, w, id) == (if id in t.sources then Some(t.sources[id]) else None)
            && (IsJob(s, w, job) <==> job in t.jobs) && (JobSeen(s, w, job) <==> job in t.jobs && t.jobs[job])
  {
  }

  // ---- Open transactions fit the rows -----------------------------------------------------

  /** A source looked up under its advisory lock is still there, or still missing. */
  predicate Known(s: State, w: Work, id: Identity, was: Option<Source>)
    requires w.Collecting?
  {
    id in w.locked && match was {
      case None => SourceSeen(s, w, id).None?
      case Some(source) => SourceSeen(s, w, id).Some? && SourceSeen(s, w, id).value.job == source.job
    }
  }

  predicate StageSound(s: State, w: Work)
    requires w.Collecting?
  {
    match w.stage
    case Looked(id, was) => Known(s, w, id, was) && (was.Some? ==> IsJob(s, w, was.value.job))
    case Loaded(id, was, job, seen) =>
      && Known(s, w, id, was) && (was.Some? ==> job == was.value.job && seen.Some?)
      && (seen.Some? ==> IsJob(s, w, job))
    case Stored(id, was, job) =>
      Known(s, w, id, was) && (was.Some? ==> job == was.value.job) && IsJob(s, w, job)
    case _ => true
  }

  /** No write re-points a source or inserts one twice, and every job written to is there. */
  ghost predicate Sound(s: State, w: Work) {
    match w
    case Collecting(_, _, locked, _, _, _, lit) =>
      && (forall id :: id in lit ==>
            IsJob(s, w, lit[id]) && if id in s.sources then s.sources[id].job == lit[id] else id in locked)
      && StageSound(s, w)
    case Sweeping(_, _, doomed, done) => done <= s.jobs.Keys && (doomed.Some? ==> doomed.value <= s.jobs.Keys)
  }

  ghost predicate Inv(s: State) {
    && (forall id :: id in s.sources ==> s.sources[id].job in s.jobs)
    && (forall tx :: tx in s.open ==> Sound(s, s.open[tx]))
    && (forall tx, other :: InCollection(s, tx) && InCollection(s, other) && tx != other ==>
          s.open[tx].locked !! s.open[other].locked)
  }

  lemma WorkedIsSound(s: State, e: Event)
    requires Inv(s) && Enabled(s, e) && !e.Commit? && !e.Abort?
    ensures Sound(s, Worked(s, e))
  {
  }

  /** Another transaction's commit leaves a sound one sound. */
  lemma CommitKeepsSound(s: State, tx: Tx, other: Tx)
    requires Inv(s) && tx in s.open && other in s.open && tx != other
    ensures Sound(Committed(s, s.open[tx]), s.open[other])
  {
    var t, c, w := Committed(s, s.open[tx]), s.open[tx], s.open[other];
    assert s.jobs.Keys <= t.jobs.Keys && s.sources.Keys <= t.sources.Keys;
    if w.Collecting? {
      forall id | id in s.sources
        ensures t.sources[id].job == s.sources[id].job
      {
      }
      forall id | id in w.locked && id in t.sources
        ensures id in s.sources
      {
        assert InCollection(s, tx) ==> c.locked !! w.locked;
      }
    }
  }

  lemma CommitKeepsInv(s: State, e: Event)
    requires Inv(s) && Enabled(s, e) && e.Commit?
    ensures Inv(Next(s, e))
  {
    var t := Next(s, e);
    forall tx | tx in t.open
      ensures Sound(t, t.open[tx])
    {
      CommitKeepsSound(s, e.tx, tx);
      SoundInSameRows(Committed(s, s.open[e.tx]), t, t.open[tx]);
    }
    CommittedSourcesHaveJobs(s, s.open[e.tx]);
  }

  lemma CommittedSourcesHaveJobs(s: State, w: Work)
    requires (forall id :: id in s.sources ==> s.sources[id].job in s.jobs) && Sound(s, w)
    ensures var t := Committed(s, w); forall id :: id in t.sources ==> t.sources[id].job in t.jobs
  {
  }

  lemma SoundInSameRows(s: State, t: State, w: Work)
    requires s.jobs == t.jobs && s.sources == t.sources && Sound(s, w)
    ensures Sound(t, w)
  {
  }

  /** A transaction's advisory locks stay its own. */
  lemma LocksStayApart(s: State, e: Event)
    requires Inv(s) && Enabled(s, e) && !e.Commit? && !e.Abort?
    ensures var t := Next(s, e);
            forall tx, other :: InCollection(t, tx) && InCollection(t, other) && tx != other ==>
              t.open[tx].locked !! t.open[other].locked
  {
    var t := Next(s, e);
    assert forall tx :: InCollection(t, tx) && tx != e.tx ==> InCollection(s, tx) && t.open[tx] == s.open[tx];
    assert InCollection(t, e.tx) && !e.LookUp? ==> t.open[e.tx].locked == (if e.Begin? then {} else s.open[e.tx].locked);
    assert e.LookUp? ==> InCollection(s, e.tx) && t.open[e.tx].locked == s.open[e.tx].locked + {e.id};
  }

  lemma StepKeepsInv(s: State, e: Event)
    requires Inv(s) && Enabled(s, e)
    ensures Inv(Next(s, e))
  {
    if e.Commit? {
      CommitKeepsInv(s, e);
    } else {
      var t := Next(s, e);
      if !e.Abort? { WorkedIsSound(s, e); LocksStayApart(s, e); }
      forall tx | tx in t.open
        ensures Sound(t, t.open[tx])
      {
        assert Sound(s, t.open[tx]);
        SoundInSameRows(s, t, t.open[tx]);
      }
    }
  }

  // ---- Row locks --------------------------------------------------------------------------

  function JobsHeld(w: Work): set<JobId> {
    if w.Collecting? then w.jobs else w.done
  }

  function SourcesHeld(w: Work): set<Identity> {
    if w.Collecting? then w.rows else w.stale
  }

  /** A transaction writes only rows it holds, and holds the job of a listing it has stored even if it left
    * that as it was. */
  ghost predicate WritesHeld(w: Work) {
    w.Collecting? ==> w.raised <= w.jobs && w.lit.Keys <= w.rows && (w.stage.Stored? ==> w.stage.job in w.jobs)
  }

  /** No row is held by two transactions. */
  ghost predicate Exclusive(s: State) {
    && (forall tx :: tx in s.open ==> WritesHeld(s.open[tx]))
    && (forall tx, other :: tx in s.open && other in s.open && tx != other ==>
          JobsHeld(s.open[tx]) !! JobsHeld(s.open[other]) && SourcesHeld(s.open[tx]) !! SourcesHeld(s.open[other]))
  }

  lemma WorkedHolds(s: State, e: Event)
    requires Exclusive(s) && Enabled(s, e) && !e.Commit? && !e.Abort?
    ensures WritesHeld(Worked(s, e))
    ensures forall job :: job in JobsHeld(Worked(s, e)) ==> JobFree(s, e.tx, job)
    ensures forall id :: id in SourcesHeld(Worked(s, e)) ==> SourceFree(s, e.tx, id)
  {
    if e.tx in s.open {
      assert forall job :: job in JobsHeld(s.open[e.tx]) ==> JobFree(s, e.tx, job);
      assert forall id :: id in SourcesHeld(s.open[e.tx]) ==> SourceFree(s, e.tx, id);
    }
  }

  lemma StepKeepsExclusive(s: State, e: Event)
    requires Exclusive(s) && Enabled(s, e)
    ensures Exclusive(Next(s, e))
  {
    var t := Next(s, e);
    if !e.Commit? && !e.Abort? {
      WorkedHolds(s, e);
      forall other | other in s.open && other != e.tx
        ensures JobsHeld(t.open[e.tx]) !! JobsHeld(s.open[other]) && SourcesHeld(t.open[e.tx]) !! SourcesHeld(s.open[other])
      {
        assert forall job :: job in JobsHeld(s.open[other]) ==> !JobFree(s, e.tx, job);
        assert forall id :: id in SourcesHeld(s.open[other]) ==> !SourceFree(s, e.tx, id);
      }
    }
  }

  /** Over any run no two open transactions have written the same job or the same source. */
  lemma {:induction false} NoTwoWriters(s: State, events: seq<Event>)
    requires Exclusive(s) && Possible(s, events)
    ensures Exclusive(After(s, events))
    ensures forall tx, other :: InCollection(After(s, events), tx) && InCollection(After(s, events), other) && tx != other ==>
              var a, b := After(s, events).open[tx], After(s, events).open[other];
              a.raised !! b.raised && a.lit.Keys !! b.lit.Keys
    ensures forall tx, other :: InCollection(After(s, events), tx) && InSweep(After(s, events), other) ==>
              var a, b := After(s, events).open[tx], After(s, events).open[other];
              a.raised !! b.done && a.lit.Keys !! b.stale
    decreases |events|
  {
    if events == [] {
      WritersApart(s);
    } else {
      StepKeepsExclusive(s, events[0]);
      NoTwoWriters(Next(s, events[0]), events[1..]);
    }
  }

  lemma WritersApart(s: State)
    requires Exclusive(s)
    ensures forall tx, other :: InCollection(s, tx) && InCollection(s, other) && tx != other ==>
              s.open[tx].raised !! s.open[other].raised && s.open[tx].lit.Keys !! s.open[other].lit.Keys
    ensures forall tx, other :: InCollection(s, tx) && InSweep(s, other) ==>
              s.open[tx].raised !! s.open[other].done && s.open[tx].lit.Keys !! s.open[other].stale
  {
    forall tx, other | InCollection(s, tx) && InCollection(s, other) && tx != other
      ensures s.open[tx].raised !! s.open[other].raised && s.open[tx].lit.Keys !! s.open[other].lit.Keys
    {
      assert WritesHeld(s.open[tx]) && WritesHeld(s.open[other]);
      assert JobsHeld(s.open[tx]) !! JobsHeld(s.open[other]) && SourcesHeld(s.open[tx]) !! SourcesHeld(s.open[other]);
    }
    forall tx, other | InCollection(s, tx) && InSweep(s, other)
      ensures s.open[tx].raised !! s.open[other].done && s.open[tx].lit.Keys !! s.open[other].stale
    {
      assert WritesHeld(s.open[tx]);
      assert JobsHeld(s.open[tx]) !! JobsHeld(s.open[other]) && SourcesHeld(s.open[tx]) !! SourcesHeld(s.open[other]);
    }
  }

  // ---- When a commit keeps the rows consistent --------------------------------------------

  predicate LitFor(w: Work, job: JobId)
    requires w.Collecting?
  {
    exists id :: id in w.lit && w.lit[id] == job
  }

  /** What a transaction decided still fits the committed rows.  A collection: the sources it sets
    * active have active jobs, and the jobs it sets active have active sources.  A sweep: the jobs it
    * deactivates have no other active source, and the other jobs of its stale sources have one. */
  ghost predicate StillRight(s: State, w: Work) {
    match w
    case Collecting(_, _, _, _, raised, _, lit) =>
      && (forall id :: id in lit ==> JobSeen(s, w, lit[id]))
      && (forall job :: job in raised ==> LitFor(w, job) || HasActive(s, job))
    case Sweeping(_, stale, _, done) =>
      && (forall job :: job in done ==> !HasOther(s, stale, job))
      && (forall id :: id in stale && id in s.sources && s.sources[id].active && s.sources[id].job !in done ==>
            HasOther(s, stale, s.sources[id].job))
  }

  lemma ActiveAfterCollection(s: State, w: Work, job: JobId)
    requires w.Collecting? && Sound(s, w)
    ensures HasActive(Committed(s, w), job) <==> HasActive(s, job) || LitFor(w, job)
  {
    var t := Committed(s, w);
    if HasActive(s, job) {
      var id :| id in s.sources && s.sources[id] == Source(job, true);
      assert t.sources[id] == Source(job, true);
    }
    if LitFor(w, job) {
      var id :| id in w.lit && w.lit[id] == job;
      assert t.sources[id] == Source(job, true);
    }
  }

  lemma CollectionKeepsConsistentIff(s: State, w: Work)
    requires Consistent(s) && w.Collecting? && Sound(s, w)
    ensures Consistent(Committed(s, w)) <==> StillRight(s, w)
  {
    var t := Committed(s, w);
    forall job { ActiveAfterCollection(s, w, job); }
    assert forall job :: job in t.jobs ==> t.jobs[job] == JobSeen(s, w, job);
    assert forall job :: HasActive(s, job) ==> job in s.jobs;
    if StillRight(s, w) {
      forall job | job in t.jobs
        ensures t.jobs[job] <==> HasActive(t, job)
      {
      }
    }
    if Consistent(t) {
      assert forall id :: id in w.lit ==> LitFor(w, w.lit[id]) && w.lit[id] in t.jobs;
      assert forall job :: job in w.raised ==> job in t.jobs && t.jobs[job];
    }
  }

  lemma ActiveAfterSweep(s: State, w: Work, job: JobId)
    requires w.Sweeping?
    ensures HasActive(Committed(s, w), job) <==> HasOther(s, w.stale, job)
  {
    var t := Committed(s, w);
    if HasActive(t, job) {
      var id :| id in t.sources && t.sources[id] == Source(job, true);
      assert s.sources[id] == Source(job, true) && id !in w.stale;
    }
    if HasOther(s, w.stale, job) {
      var id :| id in s.sources && s.sources[id] == Source(job, true) && id !in w.stale;
      assert t.sources[id] == Source(job, true);
    }
  }

  lemma SweepKeepsConsistentIff(s: State, w: Work)
    requires Consistent(s) && w.Sweeping? && w.done <= s.jobs.Keys
    ensures Consistent(Committed(s, w)) <==> StillRight(s, w)
  {
    var t := Committed(s, w);
    forall job { ActiveAfterSweep(s, w, job); }
    if StillRight(s, w) {
      forall job | job in t.jobs
        ensures t.jobs[job] <==> HasActive(t, job)
      {
        if job !in w.done && HasActive(s, job) {
          var id :| id in s.sources && s.sources[id] == Source(job, true);
          assert id !in w.stale ==> HasOther(s, w.stale, job);
        }
        if HasOther(s, w.stale, job) { assert HasActive(s, job); }
      }
    }
    if Consistent(t) {
      forall id | id in w.stale && id in s.sources && s.sources[id].active && s.sources[id].job !in w.done
        ensures HasOther(s, w.stale, s.sources[id].job)
      {
        assert s.sources[id] == Source(s.sources[id].job, true) && HasActive(s, s.sources[id].job);
        assert t.jobs[s.sources[id].job];
      }
    }
  }

  // ---- Whole runs: the exact condition ----------------------------------------------------

  ghost predicate Possible(s: State, events: seq<Event>)
    decreases |events|
  {
    events == [] || (Enabled(s, events[0]) && Possible(Next(s, events[0]), events[1..]))
  }

  ghost function After(s: State, events: seq<Event>): State
    requires Possible(s, events)
    decreases |events|
  {
    if events == [] then s else After(Next(s, events[0]), events[1..])
  }

  ghost predicate AlwaysConsistent(s: State, events: seq<Event>)
    requires Possible(s, events)
    decreases |events|
  {
    Consistent(s) && (events == [] || AlwaysConsistent(Next(s, events[0]), events[1..]))
  }

  /** The event commits a decision that no longer fits what others have committed since. */
  ghost predicate Overtaken(s: State, e: Event) {
    e.Commit? && e.tx in s.open && !StillRight(s, s.open[e.tx])
  }

  ghost predicate NoneOvertaken(s: State, events: seq<Event>)
    requires Possible(s, events)
    decreases |events|
  {
    events == [] || (!Overtaken(s, events[0]) && NoneOvertaken(Next(s, events[0]), events[1..]))
  }

  lemma SameRows(s: State, t: State)
    requires s.jobs == t.jobs && s.sources == t.sources
    ensures Consistent(s) <==> Consistent(t)
  {
    assert forall job :: HasActive(s, job) <==> HasActive(t, job);
  }

  lemma StepConsistentIff(s: State, e: Event)
    requires Consistent(s) && Inv(s) && Enabled(s, e)
    ensures Consistent(Next(s, e)) <==> !Overtaken(s, e)
  {
    if e.Commit? {
      var w := s.open[e.tx];
      if w.Collecting? { CollectionKeepsConsistentIff(s, w); } else { SweepKeepsConsistentIff(s, w); }
      SameRows(Committed(s, w), Next(s, e));
    } else {
      SameRows(s, Next(s, e));
    }
  }

  /** Under any interleaving of collections and sweeps, every committed state is consistent exactly
    * when none of them commits overtaken. */
  lemma {:induction false} ConsistentIffNoneOvertaken(s: State, events: seq<Event>)
    requires Consistent(s) && Inv(s) && Possible(s, events)
    ensures AlwaysConsistent(s, events) <==> NoneOvertaken(s, events)
    decreases |events|
  {
    if events != [] {
      var t := Next(s, events[0]);
      StepConsistentIff(s, events[0]);
      StepKeepsInv(s, events[0]);
      if Consistent(t) { ConsistentIffNoneOvertaken(t, events[1..]); }
    }
  }

  // ---- Whole runs: a transaction alone is right -------------------------------------------

  /** The job is active for a source that is not written yet. */
  predicate Pending(s: State, w: Work, job: JobId)
    requires w.Collecting?
  {
    match w.stage
    case Touched(ids) => job in Found(s, w, ids).Values
    case Stored(_, _, stored) => job == stored
    case _ => false
  }

  predicate StageCurrent(s: State, w: Work)
    requires w.Collecting?
  {
    match w.stage
    case Idle => true
    case Touched(ids) => forall job :: job in Found(s, w, ids).Values ==> job in w.raised
    case Looked(id, was) => was == SourceSeen(s, w, id)
    case Loaded(id, was, job, seen) => was == SourceSeen(s, w, id) && (seen == Some(true) ==> JobSeen(s, w, job))
    case Stored(id, was, job) => was == SourceSeen(s, w, id) && JobSeen(s, w, job)
  }

  /** What a transaction read is still so. */
  ghost predicate UpToDate(s: State, w: Work) {
    match w
    case Collecting(_, _, _, jobs, raised, _, lit) =>
      && StageCurrent(s, w)
      && (forall job :: job in jobs ==> JobSeen(s, w, job))
      && (forall id :: id in lit ==> JobSeen(s, w, lit[id]))
      && (forall job :: job in raised ==> LitFor(w, job) || HasActive(s, job) || Pending(s, w, job))
    case Sweeping(_, stale, doomed, done) => doomed.Some? ==> doomed.value == Doomed(s, stale)
  }

  ghost predicate Current(s: State) {
    forall tx :: tx in s.open ==> s.open[tx].since <= s.commits && (s.open[tx].since == s.commits ==> UpToDate(s, s.open[tx]))
  }

  lemma StoreSourceIsUpToDate(s: State, e: Event)
    requires Inv(s) && Enabled(s, e) && e.StoreSource? && UpToDate(s, s.open[e.tx])
    ensures UpToDate(s, Worked(s, e))
  {
    var w, v := s.open[e.tx], Worked(s, e);
    var id, was, job := w.stage.id, w.stage.was, w.stage.job;
    assert LitFor(v, job) || HasActive(s, job) by {
      assert id in v.lit ==> v.lit[id] == job;
      assert id in v.lit || (id in s.sources && s.sources[id] == Source(job, true));
    }
    forall other | LitFor(w, other)
      ensures LitFor(v, other)
    {
      var k :| k in w.lit && w.lit[k] == other;
      assert v.lit[k] == other;
    }
  }

  lemma TouchIsUpToDate(s: State, e: Event)
    requires Inv(s) && Enabled(s, e) && e.TouchSources? && UpToDate(s, s.open[e.tx])
    ensures UpToDate(s, Worked(s, e))
  {
    var w, v := s.open[e.tx], Worked(s, e);
    var found := Found(s, w, w.stage.ids);
    assert forall id :: id in found ==> found[id] in found.Values;
    forall job | LitFor(w, job)
      ensures LitFor(v, job)
    {
      var k :| k in w.lit && w.lit[k] == job;
      assert v.lit[k] == job;
    }
    forall job | job in found.Values
      ensures LitFor(v, job)
    {
      var k :| k in found && found[k] == job;
      assert v.lit[k] == job;
    }
  }

  lemma LitForSame(w: Work, v: Work)
    requires w.Collecting? && v.Collecting? && w.lit == v.lit
    ensures forall job :: LitFor(w, job) <==> LitFor(v, job)
  {
  }

  lemma TouchJobsIsUpToDate(s: State, e: Event)
    requires Inv(s) && Enabled(s, e) && e.TouchJobs? && UpToDate(s, s.open[e.tx])
    ensures UpToDate(s, Worked(s, e))
  {
    var w, v := s.open[e.tx], Worked(s, e);
    LitForSame(w, v);
    assert Found(s, v, e.ids) == Found(s, w, e.ids);
  }

  /** The steps of one listing up to its job. */
  lemma ListingIsUpToDate(s: State, e: Event)
    requires Inv(s) && Enabled(s, e) && (e.LookUp? || e.LoadJob? || e.Refuse? || e.StoreJob?)
    requires UpToDate(s, s.open[e.tx])
    ensures UpToDate(s, Worked(s, e))
  {
    LitForSame(s.open[e.tx], Worked(s, e));
  }

  lemma WorkedIsUpToDate(s: State, e: Event)
    requires Inv(s) && Enabled(s, e) && !e.Commit? && !e.Abort?
    requires e.tx in s.open ==> UpToDate(s, s.open[e.tx])
    ensures UpToDate(s, Worked(s, e))
  {
    match e
    case StoreSource(_) => StoreSourceIsUpToDate(s, e);
    case TouchSources(_) => TouchIsUpToDate(s, e);
    case TouchJobs(_, _) => TouchJobsIsUpToDate(s, e);
    case LookUp(_, _) => ListingIsUpToDate(s, e);
    case LoadJob(_, _, _) => ListingIsUpToDate(s, e);
    case Refuse(_) => ListingIsUpToDate(s, e);
    case StoreJob(_) => ListingIsUpToDate(s, e);
    case _ =>
  }

  lemma StepKeepsCurrent(s: State, e: Event)
    requires Inv(s) && Current(s) && Enabled(s, e)
    ensures Current(Next(s, e))
  {
    var t := Next(s, e);
    if !e.Commit? {
      forall tx | tx in t.open && t.open[tx].since == t.commits
        ensures UpToDate(t, t.open[tx])
      {
        if !e.Abort? && tx == e.tx { WorkedIsUpToDate(s, e); }
        assert UpToDate(s, t.open[tx]);
        SameView(s, t, t.open[tx]);
      }
    }
  }

  lemma SameView(s: State, t: State, w: Work)
    requires s.jobs == t.jobs && s.sources == t.sources && UpToDate(s, w)
    ensures UpToDate(t, w)
  {
    assert forall job :: HasActive(s, job) <==> HasActive(t, job);
    match w
    case Collecting(_, stage, _, _, _, _, _) =>
      if stage.Touched? { assert Found(s, w, stage.ids) == Found(t, w, stage.ids); }
    case Sweeping(_, stale, _, _) =>
      assert forall job :: HasOther(s, stale, job) <==> HasOther(t, stale, job);
      assert Doomed(s, stale) == Doomed(t, stale);
  }

  /** A decision nobody has committed since is right. */
  lemma UpToDateIsRight(s: State, e: Event)
    requires Consistent(s) && Enabled(s, e) && e.Commit? && UpToDate(s, s.open[e.tx])
    ensures StillRight(s, s.open[e.tx])
  {
    var w := s.open[e.tx];
    if w.Sweeping? {
      forall id | id in w.stale && id in s.sources && s.sources[id].active && s.sources[id].job !in w.done
        ensures HasOther(s, w.stale, s.sources[id].job)
      {
        assert s.sources[id] == Source(s.sources[id].job, true) && HasActive(s, s.sources[id].job);
      }
    }
  }

  /** Every transaction that commits is the only one to commit since it read what it acts on: a
    * collection since it began, a sweep since it looked for jobs. */
  ghost predicate Undisturbed(s: State, events: seq<Event>)
    requires Possible(s, events)
    decreases |events|
  {
    events == [] || ((events[0].Commit? ==> s.open[events[0].tx].since == s.commits)
                     && Undisturbed(Next(s, events[0]), events[1..]))
  }

  /** Then every committed state is consistent. */
  lemma {:induction false} UndisturbedIsConsistent(s: State, events: seq<Event>)
    requires Consistent(s) && Inv(s) && Current(s) && Possible(s, events) && Undisturbed(s, events)
    ensures AlwaysConsistent(s, events)
    decreases |events|
  {
    if events != [] {
      var e := events[0];
      if e.Commit? { UpToDateIsRight(s, e); }
      StepConsistentIff(s, e);
      StepKeepsInv(s, e);
      StepKeepsCurrent(s, e);
      UndisturbedIsConsistent(Next(s, e), events[1..]);
    }
  }

  // ---- Both kinds of transaction are overtaken --------------------------------------------

  lemma {:induction false} Extend(s: State, events: seq<Event>, e: Event)
    requires Possible(s, events) && Enabled(After(s, events), e)
    ensures Possible(s, events + [e]) && After(s, events + [e]) == Next(After(s, events), e)
    decreases |events|
  {
    if events == [] {
      assert [e] == [e] + [];
    } else {
      Extend(Next(s, events[0]), events[1..], e);
      assert (events + [e])[1..] == events[1..] + [e];
    }
  }

  ghost predicate Leads(s: State, events: seq<Event>, t: State) {
    Possible(s, events) && After(s, events) == t
  }

  ghost predicate Steps(s: State, e: Event, t: State) {
    Enabled(s, e) && Next(s, e) == t
  }

  lemma Then(s: State, events: seq<Event>, t: State, e: Event, u: State)
    requires Leads(s, events, t) && Steps(t, e, u)
    ensures Leads(s, events + [e], u)
  {
    Extend(s, events, e);
  }

  /** Job 0 and its first source, both active or both not, and the source that joins it, if it is there. */
  function Rows(active: bool, was: Identity, joined: map<Identity, Source>, open: map<Tx, Work>, commits: nat): State {
    State(map[0 := active], map[was := Source(0, active)] + joined, open, commits)
  }

  function OneListing(was: Identity): State {
    Rows(true, was, map[], map[], 0)
  }

  /** Job 0 is inactive beside an active source. */
  function Stranded(was: Identity, joins: Identity): State {
    Rows(false, was, map[joins := Source(0, true)], map[], 2)
  }

  lemma StartIsSound(was: Identity)
    ensures Consistent(OneListing(was)) && Inv(OneListing(was)) && Current(OneListing(was))
  {
    assert OneListing(was).sources[was] == Source(0, true);
  }

  lemma StrandedIsInconsistent(was: Identity, joins: Identity)
    ensures !Consistent(Stranded(was, joins))
  {
    assert Stranded(was, joins).sources[joins] == Source(0, true);
  }

  /** A sweep of the first source, which looks while no other is active. */
  function Sweep(was: Identity, doomed: Option<set<JobId>>, done: set<JobId>): Work {
    Sweeping(0, {was}, doomed, done)
  }

  /** The collection of a listing that joins job 0, loaded while it was active. */
  function Joining(stage: Stage, joins: Identity): Work {
    Collecting(0, stage, {joins}, if stage.Loaded? then {} else {0}, {}, if stage.Idle? then {joins} else {},
               if stage.Idle? then map[joins := 0] else map[])
  }

  lemma SweepLooks(was: Identity, open: map<Tx, Work>)
    requires 1 !in open && SourceFree(Rows(true, was, map[], open, 0), 1, was)
    ensures var s := Rows(true, was, map[], open, 0);
            && Steps(s, SweepSources(1, {was}), s.(open := open[1 := Sweep(was, None, {})]))
            && Steps(s.(open := open[1 := Sweep(was, None, {})]), LookForJobs(1), s.(open := open[1 := Sweep(was, Some({0}), {})]))
  {
    var s := Rows(true, was, map[], open, 0);
    var t := s.(open := open[1 := Sweep(was, None, {})]);
    assert Doomed(t, {was}) == {0};
    assert t.open[1 := Sweep(was, Some({0}), {})] == open[1 := Sweep(was, Some({0}), {})];
  }

  lemma SweepDecides(s: State, was: Identity, other: map<Tx, Work>)
    requires s.open == other[1 := Sweep(was, Some({0}), {})] && 1 !in other && JobFree(s, 1, 0)
    ensures Steps(s, Deactivate(1, 0), s.(open := other[1 := Sweep(was, Some({0}), {0})]))
  {
    assert Worked(s, Deactivate(1, 0)) == Sweep(was, Some({0}), {0});
    assert s.open[1 := Sweep(was, Some({0}), {0})] == other[1 := Sweep(was, Some({0}), {0})];
  }

  lemma SweepCommits(was: Identity, joined: map<Identity, Source>, other: map<Tx, Work>, commits: nat)
    requires 1 !in other && was !in joined
    ensures Steps(Rows(true, was, joined, other[1 := Sweep(was, Some({0}), {0})], commits), Commit(1),
                  Rows(false, was, joined, other, commits + 1))
  {
    var s := Rows(true, was, joined, other[1 := Sweep(was, Some({0}), {0})], commits);
    assert Committed(s, s.open[1]).jobs == map[0 := false];
    assert Committed(s, s.open[1]).sources == map[was := Source(0, false)] + joined;
    assert s.open - {1} == other;
  }

  lemma JoinLoads(was: Identity, joins: Identity, other: map<Tx, Work>) returns (begun: State, looked: State)
    requires was != joins && 2 !in other && LockFree(Rows(true, was, map[], other, 0), 2, joins)
    ensures Steps(Rows(true, was, map[], other, 0), Begin(2), begun)
    ensures Steps(begun, LookUp(2, joins), looked)
    ensures Steps(looked, LoadJob(2, 0, Some(true)),
                  Rows(true, was, map[], other[2 := Joining(Loaded(joins, None, 0, Some(true)), joins)], 0))
  {
    var s := Rows(true, was, map[], other, 0);
    begun := s.(open := other[2 := Collecting(0, Idle, {}, {}, {}, {}, map[])]);
    looked := s.(open := other[2 := Collecting(0, Looked(joins, None), {joins}, {}, {}, {}, map[])]);
    assert Worked(begun, LookUp(2, joins)) == looked.open[2];
    assert begun.open[2 := looked.open[2]] == looked.open;
    var loaded := Joining(Loaded(joins, None, 0, Some(true)), joins);
    assert looked.open[2 := loaded] == other[2 := loaded];
  }

  /** The flush of what was loaded writes the source, and of the job no more than when it was seen. */
  lemma JoinStores(active: bool, was: Identity, joins: Identity, other: map<Tx, Work>, commits: nat) returns (stored: State)
    requires 2 !in other && JobFree(Rows(active, was, map[], other, commits), 2, 0)
    requires SourceFree(Rows(active, was, map[], other, commits), 2, joins)
    ensures var loaded := Joining(Loaded(joins, None, 0, Some(true)), joins);
            Steps(Rows(active, was, map[], other[2 := loaded], commits), StoreJob(2), stored)
    ensures Steps(stored, StoreSource(2), Rows(active, was, map[], other[2 := Joining(Idle, joins)], commits))
  {
    var s := Rows(active, was, map[], other, commits);
    stored := s.(open := other[2 := Joining(Stored(joins, None, 0), joins)]);
    var t := s.(open := other[2 := Joining(Loaded(joins, None, 0, Some(true)), joins)]);
    assert Worked(t, StoreJob(2)) == stored.open[2];
    assert t.open[2 := stored.open[2]] == stored.open;
    assert stored.open[2 := Joining(Idle, joins)] == other[2 := Joining(Idle, joins)];
    assert Worked(stored, StoreSource(2)) == Joining(Idle, joins);
  }

  lemma JoinCommits(active: bool, was: Identity, joins: Identity, other: map<Tx, Work>, commits: nat)
    requires was != joins && 2 !in other
    ensures Steps(Rows(active, was, map[], other[2 := Joining(Idle, joins)], commits), Commit(2),
                  Rows(active, was, map[joins := Source(0, true)], other, commits + 1))
  {
    var s := Rows(active, was, map[], other[2 := Joining(Idle, joins)], commits);
    JoinedRows(s, active, was, joins);
    assert s.open[2] == Joining(Idle, joins) && s.open - {2} == other;
  }

  lemma JoinedRows(s: State, active: bool, was: Identity, joins: Identity)
    requires was != joins && s.jobs == map[0 := active] && s.sources == map[was := Source(0, active)] + map[]
    ensures Committed(s, Joining(Idle, joins)).jobs == map[0 := active]
    ensures Committed(s, Joining(Idle, joins)).sources == map[was := Source(0, active)] + map[joins := Source(0, true)]
  {
  }

  lemma LookSweep(was: Identity, events: seq<Event>, open: map<Tx, Work>) returns (more: seq<Event>)
    requires 1 !in open && SourceFree(Rows(true, was, map[], open, 0), 1, was)
    requires Leads(OneListing(was), events, Rows(true, was, map[], open, 0))
    ensures Leads(OneListing(was), more, Rows(true, was, map[], open[1 := Sweep(was, Some({0}), {})], 0))
  {
    var s, swept := OneListing(was), Rows(true, was, map[], open[1 := Sweep(was, None, {})], 0);
    SweepLooks(was, open);
    Then(s, events, Rows(true, was, map[], open, 0), SweepSources(1, {was}), swept);
    more := events + [SweepSources(1, {was})];
    Then(s, more, swept, LookForJobs(1), Rows(true, was, map[], open[1 := Sweep(was, Some({0}), {})], 0));
    more := more + [LookForJobs(1)];
  }

  lemma LoadJoin(was: Identity, joins: Identity, events: seq<Event>, open: map<Tx, Work>) returns (more: seq<Event>)
    requires was != joins && 2 !in open && LockFree(Rows(true, was, map[], open, 0), 2, joins)
    requires Leads(OneListing(was), events, Rows(true, was, map[], open, 0))
    ensures var loaded := Joining(Loaded(joins, None, 0, Some(true)), joins);
            Leads(OneListing(was), more, Rows(true, was, map[], open[2 := loaded], 0))
  {
    var s, loaded := OneListing(was), Joining(Loaded(joins, None, 0, Some(true)), joins);
    var begun, looked := JoinLoads(was, joins, open);
    Then(s, events, Rows(true, was, map[], open, 0), Begin(2), begun);
    more := events + [Begin(2)];
    Then(s, more, begun, LookUp(2, joins), looked);
    more := more + [LookUp(2, joins)];
    Then(s, more, looked, LoadJob(2, 0, Some(true)), Rows(true, was, map[], open[2 := loaded], 0));
    more := more + [LoadJob(2, 0, Some(true))];
  }

  /** A listing joins a job after a sweep looked, and commits first; the sweep acts on what it saw. */
  lemma JoinOvertakesSweep(was: Identity, joins: Identity) returns (events: seq<Event>)
    requires was != joins
    ensures Consistent(OneListing(was)) && Inv(OneListing(was))
    ensures Leads(OneListing(was), events, Stranded(was, joins)) && !Consistent(Stranded(was, joins))
  {
    StartIsSound(was);
    StrandedIsInconsistent(was, joins);
    events := LookSweep(was, [], map[]);
    events := LoadJoin(was, joins, events, map[1 := Sweep(was, Some({0}), {})]);
    events := StoreThenSweep(was, joins, events);
  }

  lemma StoreThenSweep(was: Identity, joins: Identity, events: seq<Event>) returns (more: seq<Event>)
    requires was != joins
    requires Leads(OneListing(was), events,
                   OneListing(was).(open := map[1 := Sweep(was, Some({0}), {}), 2 := Joining(Loaded(joins, None, 0, Some(true)), joins)]))
    ensures Leads(OneListing(was), more, Stranded(was, joins))
  {
    var s, looking := OneListing(was), map[1 := Sweep(was, Some({0}), {})];
    var loaded, joined := Joining(Loaded(joins, None, 0, Some(true)), joins), map[joins := Source(0, true)];
    var stored := JoinStores(true, was, joins, looking, 0);
    Then(s, events, s.(open := looking[2 := loaded]), StoreJob(2), stored);
    Then(s, events + [StoreJob(2)], stored, StoreSource(2), s.(open := looking[2 := Joining(Idle, joins)]));
    more := events + [StoreJob(2)] + [StoreSource(2)];
    JoinCommits(true, was, joins, looking, 0);
    Then(s, more, s.(open := looking[2 := Joining(Idle, joins)]), Commit(2), Rows(true, was, joined, looking, 1));
    more := more + [Commit(2)];
    var decided := map[][1 := Sweep(was, Some({0}), {0})];
    SweepDecides(Rows(true, was, joined, looking, 1), was, map[]);
    Then(s, more, Rows(true, was, joined, looking, 1), Deactivate(1, 0), Rows(true, was, joined, decided, 1));
    SweepCommits(was, joined, map[], 1);
    Then(s, more + [Deactivate(1, 0)], Rows(true, was, joined, decided, 1), Commit(1), Stranded(was, joins));
    more := more + [Deactivate(1, 0)] + [Commit(1)];
  }

  /** A sweep commits after a listing loaded the job it joins; the flush, which saw an active job, does
    * not set it active again. */
  lemma SweepOvertakesJoin(was: Identity, joins: Identity) returns (events: seq<Event>)
    requires was != joins
    ensures Consistent(OneListing(was)) && Inv(OneListing(was))
    ensures Leads(OneListing(was), events, Stranded(was, joins)) && !Consistent(Stranded(was, joins))
  {
    StartIsSound(was);
    StrandedIsInconsistent(was, joins);
    events := LoadJoin(was, joins, [], map[]);
    var loaded := map[2 := Joining(Loaded(joins, None, 0, Some(true)), joins)];
    events := LookSweep(was, events, loaded);
    events := SweepThenStore(was, joins, events);
  }

  lemma SweepThenStore(was: Identity, joins: Identity, events: seq<Event>) returns (more: seq<Event>)
    requires was != joins
    requires var loaded := map[2 := Joining(Loaded(joins, None, 0, Some(true)), joins)];
             Leads(OneListing(was), events, OneListing(was).(open := loaded[1 := Sweep(was, Some({0}), {})]))
    ensures Leads(OneListing(was), more, Stranded(was, joins))
  {
    var s, loaded := OneListing(was), map[2 := Joining(Loaded(joins, None, 0, Some(true)), joins)];
    var looking, decided := loaded[1 := Sweep(was, Some({0}), {})], loaded[1 := Sweep(was, Some({0}), {0})];
    SweepDecides(s.(open := looking), was, loaded);
    Then(s, events, s.(open := looking), Deactivate(1, 0), s.(open := decided));
    SweepCommits(was, map[], loaded, 0);
    Then(s, events + [Deactivate(1, 0)], s.(open := decided), Commit(1), Rows(false, was, map[], loaded, 1));
    more := events + [Deactivate(1, 0)] + [Commit(1)];
    var stored := JoinStores(false, was, joins, map[], 1);
    Then(s, more, Rows(false, was, map[], loaded, 1), StoreJob(2), stored);
    Then(s, more + [StoreJob(2)], stored, StoreSource(2), Rows(false, was, map[], map[2 := Joining(Idle, joins)], 1));
    more := more + [StoreJob(2)] + [StoreSource(2)];
    JoinCommits(false, was, joins, map[], 1);
    Then(s, more, Rows(false, was, map[], map[2 := Joining(Idle, joins)], 1), Commit(2), Stranded(was, joins));
    more := more + [Commit(2)];
  }
}
