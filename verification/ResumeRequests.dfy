/** Whose requests publish and retire a resume, what such a commit writes, and for how long a request
  * protects the object it stores. */
module ResumeRequests {
  import opened Wrappers
  import opened ResumeSaga
  import opened ResumeSafety
  import opened ResumeRetirement

  /** To a stranger a resume does not exist: deletion finds exactly the caller's own rows, replacement
    * those of them that are not deleted, and a request that finds nothing ends there. */
  lemma StrangersFindNothing(w: World, p: Pid, owner: Owner, target: Id, id: Id)
    ensures Next(w, BeginDelete(p, owner, target)) == w.(procs := w.procs[p := Finished(NotFound)])
            <==> target !in w.rows || w.rows[target].owner != owner
    ensures Next(w, BeginReplace(p, owner, target, id)) == w.(procs := w.procs[p := Finished(NotFound)])
            <==> target !in w.rows || w.rows[target].owner != owner || w.rows[target].status == Deleted
  {
    var found := Next(w, BeginDelete(p, owner, target)).procs[p];
    assert found == Finished(NotFound) || found.Loaded? || found.Lookup?;
    var replacing := Next(w, BeginReplace(p, owner, target, id)).procs[p];
    assert replacing == Finished(NotFound) || replacing.Reserve?;
  }

  // ---- Whose requests ---------------------------------------------------------------------

  predicate Begins(e: Event, p: Pid) {
    (e.BeginUpload? || e.BeginReplace? || e.BeginDelete? || e.BeginReconcile?) && e.p == p
  }

  /** The request a process works on: the last one it began. */
  function Request(run: seq<Event>, p: Pid): Option<Event> {
    if run == [] then None
    else if Begins(run[|run| - 1], p) then Some(run[|run| - 1])
    else Request(run[..|run| - 1], p)
  }

  /** The owner asked for this row to be retired. */
  predicate AsksFor(request: Option<Event>, owner: Owner, target: Id) {
    match request
    case Some(BeginDelete(_, o, t)) => o == owner && t == target
    case Some(BeginReplace(_, o, t, _)) => o == owner && t == target
    case _ => false
  }

  /** The owner sent a resume to be stored under this id. */
  predicate Sends(request: Option<Event>, owner: Owner, id: Id) {
    match request
    case Some(BeginUpload(_, o, i)) => o == owner && i == id
    case Some(BeginReplace(_, o, _, i)) => o == owner && i == id
    case _ => false
  }

  /** No request is under way. */
  ghost predicate NobodyAtWork(w: World) {
    forall p :: p in w.procs ==> !w.procs[p].Holding() && !w.procs[p].Pending()
  }

  /** A process holds only rows the owner asked it to retire, and stores only what the owner sent. */
  predicate WorksFor(request: Option<Event>, x: Proc) {
    && (x.Holding() ==> AsksFor(request, x.HeldRow().owner, x.HeldTarget()))
    && (x.Pending() ==> Sends(request, x.owner, x.id))
  }

  /** A process goes on with the same work, or does not hold or store anything any more. */
  predicate HandsOn(x: Proc, y: Proc) {
    || (!y.Holding() && !y.Pending())
    || y == x
    || (x.Pending() && y.Pending() && x.Job() == y.Job() && x.deadline == y.deadline)
    || (x.Lookup? && y.Rejournal? && x.target == y.target && x.seen == y.seen)
  }

  lemma OneMoves(w: World, p: Pid, ok: bool)
    requires p in w.procs
    ensures p in DatabaseStep(w, p, ok).procs && DatabaseStep(w, p, ok).procs == w.procs[p := DatabaseStep(w, p, ok).procs[p]]
  {
  }

  lemma DatabaseHandsOn(w: World, p: Pid, ok: bool)
    requires p in w.procs
    ensures p in DatabaseStep(w, p, ok).procs && HandsOn(w.procs[p], DatabaseStep(w, p, ok).procs[p])
  {
    match w.procs[p]
    case Persist(_, _, _, _, _, _) => assert !DatabaseStep(w, p, ok).procs[p].Pending();
    case _ =>
  }

  lemma StepHandsOn(w: World, e: Event, p: Pid)
    requires Enabled(TRUSTED, w, e) && p in Next(w, e).procs
    ensures if Begins(e, p) then WorksFor(Some(e), Next(w, e).procs[p])
            else p in w.procs && HandsOn(w.procs[p], Next(w, e).procs[p])
  {
    match e
    case Database(q, ok) => OneMoves(w, q, ok); DatabaseHandsOn(w, q, ok);
    case _ =>
  }

  lemma {:induction false} EverybodyWorksForOwners(w: World, run: seq<Event>, p: Pid)
    requires NobodyAtWork(w) && Possible(TRUSTED, w, run) && p in Run(w, run).procs
    ensures WorksFor(Request(run, p), Run(w, run).procs[p])
  {
    if run != [] {
      var before, e := run[..|run| - 1], run[|run| - 1];
      StepHandsOn(Run(w, before), e, p);
      if !Begins(e, p) { EverybodyWorksForOwners(w, before, p); }
    }
  }

  // ---- Over runs --------------------------------------------------------------------------

  /** The event that retires a row belongs to a request its owner began for it. */
  lemma RetiredForItsOwner(w: World, run: seq<Event>, e: Event, id: Id)
    requires Inv(w) && NobodyAtWork(w) && Possible(TRUSTED, w, run) && Enabled(TRUSTED, Run(w, run), e)
    requires var before, after := Run(w, run), Next(Run(w, run), e);
             id in before.rows && before.rows[id].status != Deleted && id in after.rows && after.rows[id].status == Deleted
    ensures !e.Tick? && AsksFor(Request(run, e.p), Run(w, run).rows[id].owner, id)
  {
    var before := Run(w, run);
    RunIsSafe(w, run);
    if Replaces(before, e) || Deletes(before, e) {
      EverybodyWorksForOwners(w, run, e.p);
      assert ProcOk(before, before.procs[e.p]);
      if Replaces(before, e) { ReplacementSwapsOne(before, e); } else { DeletionTakesOne(before, e); }
      assert id in LiveIds(before) && id !in LiveIds(Next(before, e));
    } else {
      assert Publishes(before, e) ==> LiveIds(before) <= LiveIds(Next(before, e)) by {
        if Publishes(before, e) { PublicationAddsOne(before, e); }
      }
      assert id in LiveIds(before);
      if !Publishes(before, e) { OtherEventsKeepRows(before, e); }
    }
  }

  /** The event that inserts a row belongs to a request its owner began for it. */
  lemma PublishedForItsOwner(w: World, run: seq<Event>, e: Event, id: Id)
    requires Inv(w) && NobodyAtWork(w) && Possible(TRUSTED, w, run) && Enabled(TRUSTED, Run(w, run), e)
    requires id !in Run(w, run).rows && id in Next(Run(w, run), e).rows
    ensures !e.Tick? && Sends(Request(run, e.p), Next(Run(w, run), e).rows[id].owner, id)
  {
    var before := Run(w, run);
    RunIsSafe(w, run);
    if Replaces(before, e) || Publishes(before, e) {
      EverybodyWorksForOwners(w, run, e.p);
      assert ProcOk(before, before.procs[e.p]);
    } else if Deletes(before, e) {
      DeleteCommitsIff(before, e.p);
    } else {
      OtherEventsKeepRows(before, e);
    }
  }

  // ---- What a commit writes ---------------------------------------------------------------

  /** A retired row keeps everything but its status, time and version, and its object is due for removal
    * at once. */
  lemma RetirementWrites(w: World, e: Event)
    requires Inv(w) && Enabled(TRUSTED, w, e) && (Replaces(w, e) || Deletes(w, e))
    ensures var target := w.procs[e.p].HeldTarget();
            && target in w.rows
            && var row := w.rows[target];
               && Next(w, e).rows[target] == Row(row.owner, Deleted, row.errorCode, row.version + 1, Some(w.now))
               && Key(row.owner, target) in Next(w, e).journal
               && Next(w, e).journal[Key(row.owner, target)] == Intent(w.nextUid, w.now, 0, None)
  {
    assert ProcOk(w, w.procs[e.p]);
    if Replaces(w, e) { ReplaceCommitsIff(w, e.p); } else { DeleteCommitsIff(w, e.p); }
  }

  /** A published row is PARSED, or PARSE_FAILED with the parser's code, and no intent names its object. */
  lemma PublicationWrites(w: World, e: Event)
    requires Inv(w) && Enabled(TRUSTED, w, e) && (Replaces(w, e) || Publishes(w, e))
    ensures var x := w.procs[e.p];
            && x.id in Next(w, e).rows
            && Next(w, e).rows[x.id] == (match x.outcome
                                         case Rejected(code) => Row(x.owner, ParseFailed, Some(code), 1, None)
                                         case _ => Row(x.owner, Parsed, None, 1, None))
            && Key(x.owner, x.id) in Next(w, e).objects && Key(x.owner, x.id) !in Next(w, e).journal
  {
    assert ProcOk(w, w.procs[e.p]);
    StepIsSafe(w, e);
    if Replaces(w, e) { ReplaceCommitsIff(w, e.p); }
  }

  /** Whoever goes on to remove a retired object knows the intent that names it. */
  lemma RemovalKnowsItsIntent(w: World, p: Pid)
    requires Inv(w) && Enabled(TRUSTED, w, Database(p, true)) && Next(w, Database(p, true)).procs[p].Remove?
    requires !w.procs[p].Persist? || Replaces(w, Database(p, true))
    ensures var y, journal := Next(w, Database(p, true)).procs[p], Next(w, Database(p, true)).journal;
            y.key in journal && journal[y.key].uid == y.uid
  {
    assert ProcOk(w, w.procs[p]);
    if w.procs[p].Persist? { ReplaceCommitsIff(w, p); }
  }

  /** And clearing removes that intent and no other. */
  lemma ClearingDropsIt(w: World, p: Pid)
    requires p in w.procs && w.procs[p].Clear?
    ensures var x, after := w.procs[p], Next(w, Database(p, true));
            && after.journal == (if x.key in w.journal && w.journal[x.key].uid == x.uid then w.journal - {x.key} else w.journal)
            && after.rows == w.rows && after.objects == w.objects && after.procs == w.procs[p := Finished(x.reply)]
  {
  }

  /** Over any run a row is DELETED exactly when it has a deletion time, PARSE_FAILED exactly when it has an
    * error code, and its version is positive and never falls. */
  lemma {:induction false} RowsStayConsistent(w: World, run: seq<Event>, id: Id)
    requires Inv(w) && Possible(TRUSTED, w, run) && id in Run(w, run).rows
    ensures var row := Run(w, run).rows[id];
            && (row.status == Deleted <==> row.deletedAt.Some?) && (row.status == ParseFailed <==> row.errorCode.Some?)
            && row.version >= 1 && (id in w.rows ==> w.rows[id].version <= row.version)
  {
    RunIsSafe(w, run);
    if id in w.rows { VersionsNeverFall(w, run, id); }
  }

  lemma {:induction false} VersionsNeverFall(w: World, run: seq<Event>, id: Id)
    requires Inv(w) && Possible(TRUSTED, w, run) && id in w.rows
    ensures id in Run(w, run).rows && w.rows[id].version <= Run(w, run).rows[id].version
  {
    if run != [] {
      VersionsNeverFall(w, run[..|run| - 1], id);
      RunIsSafe(w, run[..|run| - 1]);
      StepOnRows(Run(w, run[..|run| - 1]), run[|run| - 1]);
    }
  }

  // ---- How long a reservation protects an object ------------------------------------------

  /** When the request of a process began. */
  function BegunAt(w: World, run: seq<Event>, p: Pid): int {
    if run == [] then w.now
    else if Begins(run[|run| - 1], p) then Run(w, run[..|run| - 1]).now
    else BegunAt(w, run[..|run| - 1], p)
  }

  lemma {:induction false} DeadlineIsAQuarterHour(w: World, run: seq<Event>, p: Pid)
    requires NobodyAtWork(w) && Possible(TRUSTED, w, run) && p in Run(w, run).procs && Run(w, run).procs[p].Pending()
    ensures Run(w, run).procs[p].deadline == BegunAt(w, run, p) + 900
  {
    if run != [] {
      var before, e := run[..|run| - 1], run[|run| - 1];
      StepHandsOn(Run(w, before), e, p);
      if !Begins(e, p) { DeadlineIsAQuarterHour(w, before, p); }
    }
  }

  /** For a quarter of an hour after it began no reconciler touches the object a request stores. */
  lemma ObjectIsProtected(w: World, run: seq<Event>, p: Pid)
    requires Inv(w) && NobodyAtWork(w) && Possible(TRUSTED, w, run) && p in Run(w, run).procs
    requires Run(w, run).procs[p].Pending() && !Run(w, run).procs[p].Reserve?
    requires Run(w, run).now < BegunAt(w, run, p) + 900
    ensures var last, key := Run(w, run), Run(w, run).procs[p].NewKey();
            && key in last.journal && last.journal[key].availableAt == BegunAt(w, run, p) + 900
            && !Due(last, key) && !Locked(last, key)
  {
    RunIsSafe(w, run);
    DeadlineIsAQuarterHour(w, run, p);
    assert ProcOk(Run(w, run), Run(w, run).procs[p]);
    var last, key := Run(w, run), Run(w, run).procs[p].NewKey();
    forall q | q in last.procs && last.procs[q].Reconcile?
      ensures forall i :: 0 <= i < |last.procs[q].batch| ==> last.procs[q].batch[i].key != key
    {
      assert ProcOk(last, last.procs[q]);
    }
  }
}
