/** The service methods of app/resumes/service.py, await by await.

  The class holds everything the service talks to.  Before each await of a request the events
  `schedule(n)` of other requests, of reconcilers and of the clock take place, in any number and
  any order; `Faults` decides how each await of the request itself ends.  All contracts hold for
  every schedule and every combination of faults.
 */
module ResumeServices {
  import opened Wrappers
  import opened ResumeSaga
  import opened ResumeSafety
  import opened ResumeRetirement

  /** How a delete of an object ends; a lost response reads as a refusal. */
  datatype Removal = Removed | Refused | ResponseLost

  function RemovalEvent(p: Pid, removal: Removal): Event {
    if removal.ResponseLost? then DeleteLost(p) else Storage(p, removal.Removed?)
  }

  function Successes(removals: seq<Removal>): (r: seq<bool>)
    ensures |r| == |removals| && forall i :: 0 <= i < |r| ==> r[i] == removals[i].Removed?
  {
    seq(|removals|, i requires 0 <= i < |removals| => removals[i].Removed?)
  }

  datatype Faults = Faults(reserve: bool, upload: bool, parse: ParseOutcome, commit: bool,
                           remove: Removal, clear: bool)

  type Schedule = nat -> seq<Event>

  predicate BelongsTo(e: Event, p: Pid) {
    !e.Tick? && e.p == p
  }

  /** Rows are never lost or revived between two moments. */
  ghost predicate RowsLast(w: World, w': World) {
    forall id :: id in w.rows ==>
      && id in w'.rows && w'.rows[id].owner == w.rows[id].owner
      && (w'.rows[id] == w.rows[id] || (w.rows[id].Live() && !w'.rows[id].Live()))
  }

  /** What p can rely on while others run. */
  ghost predicate Meanwhile(w: World, w': World, p: Pid) {
    && Inv(w') && RowsLast(w, w') && w.now <= w'.now
    && p in w.procs && p in w'.procs && w'.procs[p] == w.procs[p]
    && (w.procs[p].Removing() && w.procs[p].key.id !in w.rows ==> w.procs[p].key.id !in w'.rows)
    && (w.procs[p].Reconcile? ==> SameIntents(w, w', w.procs[p].batch))
  }

  /** The intents of a batch are the same in both worlds. */
  ghost predicate SameIntents(w: World, w': World, batch: seq<Item>) {
    forall i :: 0 <= i < |batch| ==>
      && batch[i].key in w.journal && batch[i].key in w'.journal
      && w'.journal[batch[i].key] == w.journal[batch[i].key]
  }

  /** Nobody changes an intent a reconciler holds locked. */
  lemma LockedIntentStays(w: World, e: Event, p: Pid, i: int)
    requires Inv(w) && p in w.procs && Enabled(TRUSTED, w, e) && !BelongsTo(e, p)
    requires w.procs[p].Reconcile? && 0 <= i < |w.procs[p].batch|
    ensures var k := w.procs[p].batch[i].key;
            k in w.journal && k in Next(w, e).journal && Next(w, e).journal[k] == w.journal[k]
  {
    var k := w.procs[p].batch[i].key;
    assert ProcOk(w, w.procs[p]) && Locked(w, k);
    if e.Database? {
      LockedIntentStaysInDatabase(w, e.p, e.ok, k, p, i);
    }
  }

  lemma LockedIntentStaysInDatabase(w: World, q: Pid, ok: bool, k: Key, p: Pid, i: int)
    requires Inv(w) && p in w.procs && Enabled(TRUSTED, w, Database(q, ok)) && q != p
    requires w.procs[p].Reconcile? && 0 <= i < |w.procs[p].batch| && k == w.procs[p].batch[i].key
    requires k in w.journal && Locked(w, k)
    ensures k in DatabaseStep(w, q, ok).journal && DatabaseStep(w, q, ok).journal[k] == w.journal[k]
  {
    var x := w.procs[q];
    if x.Reconcile? {
      if ok { SettlingSparesOthers(w, q, k, p, i); }
    } else {
      assert ok ==> CommitReady(w, x);
    }
  }

  lemma SettlingSparesOthers(w: World, q: Pid, k: Key, p: Pid, i: int)
    requires Inv(w) && p in w.procs && q in w.procs && q != p
    requires w.procs[q].Reconcile? && |w.procs[q].outcomes| == |w.procs[q].batch|
    requires w.procs[p].Reconcile? && 0 <= i < |w.procs[p].batch| && k == w.procs[p].batch[i].key && k in w.journal
    ensures k in DatabaseStep(w, q, true).journal && DatabaseStep(w, q, true).journal[k] == w.journal[k]
  {
    var x := w.procs[q];
    assert ProcOk(w, x) && Apart(x, w.procs[p]);
    SettleAt(w.journal, x.batch, x.outcomes, k);
  }

  /** Nobody publishes a resume under the key another process is about to remove. */
  lemma OthersPublishElsewhere(w: World, e: Event, p: Pid)
    requires Inv(w) && p in w.procs && Enabled(TRUSTED, w, e) && !BelongsTo(e, p)
    requires w.procs[p].Removing() && w.procs[p].key.id !in w.rows
    ensures w.procs[p].key.id !in Next(w, e).rows
  {
    if Publishes(w, e) || Replaces(w, e) {
      assert Apart(w.procs[e.p], w.procs[p]);
      if Replaces(w, e) { ReplacementSwapsOne(w, e); }
    } else if Deletes(w, e) {
      DeletionTakesOne(w, e);
    } else {
      OtherEventsKeepRows(w, e);
    }
  }

  lemma OtherStepKeepsProc(w: World, e: Event, p: Pid)
    requires p in w.procs && Enabled(TRUSTED, w, e) && !BelongsTo(e, p)
    ensures p in Next(w, e).procs && Next(w, e).procs[p] == w.procs[p] && w.now <= Next(w, e).now
  {
    match e
    case Database(q, ok) => assert DatabaseStep(w, q, ok).procs == w.procs[q := DatabaseStep(w, q, ok).procs[q]];
    case Storage(q, ok) => assert StorageStep(w, q, ok).procs == w.procs[q := StorageStep(w, q, ok).procs[q]];
    case _ =>
  }

  lemma OtherStep(w: World, e: Event, p: Pid)
    requires Inv(w) && p in w.procs && Enabled(TRUSTED, w, e) && !BelongsTo(e, p)
    ensures Meanwhile(w, Next(w, e), p)
  {
    OtherStepKeepsProc(w, e, p);
    StepIsSafe(w, e);
    StepOnRows(w, e);
    if w.procs[p].Removing() && w.procs[p].key.id !in w.rows { OthersPublishElsewhere(w, e, p); }
    if w.procs[p].Reconcile? {
      forall i | 0 <= i < |w.procs[p].batch| { LockedIntentStays(w, e, p, i); }
    }
  }

  /** The new row as it was written. */
  ghost predicate PublishedAs(w: World, x: Proc)
    requires x.Persist?
  {
    x.id in w.rows && w.rows[x.id] == FreshRow(x.owner, x.outcome)
  }

  ghost predicate TargetRetired(w: World, flow: Flow) {
    flow.ForReplace? && flow.target in w.rows && !w.rows[flow.target].Live()
  }

  /** A replacement took effect; its row may have been retired since. */
  ghost predicate Replaced(w: World, target: Id, owner: Owner, id: Id) {
    && id in w.rows && w.rows[id].owner == owner
    && (w.rows[id] == Row(owner, Parsed, None, 1, None) || !w.rows[id].Live())
    && target in w.rows && !w.rows[target].Live()
  }

  /** What a storing flow may answer, and what that says about the tables. */
  ghost predicate Answered(w: World, x: Proc, faults: Faults, reply: Option<Reply>)
    requires x.Reserve?
  {
    && (match reply
        case None => faults.upload && x.flow.ForReplace? && TargetRetired(w, x.flow)
                     && x.id in w.rows && w.rows[x.id] == FreshRow(x.owner, Accepted)
        case Some(Stored(i)) => i == x.id && x.flow.ForUpload?
                                && x.id in w.rows && w.rows[x.id] == FreshRow(x.owner, Accepted)
        case Some(ParseRejected) =>
          && faults.parse.Rejected?
          && (if x.flow.ForUpload? then x.id in w.rows && w.rows[x.id] == FreshRow(x.owner, faults.parse)
              else x.id !in w.rows)
        case Some(Conflict) => x.id !in w.rows && TargetRetired(w, x.flow)
        case Some(StorageUnavailable) => x.id !in w.rows && !faults.upload
        case Some(other) => x.id !in w.rows && other in {DatabaseError, ParserUnavailable, Killed})
    && (faults.reserve && faults.upload && faults.parse.Accepted? && faults.commit && reply.Some? ==>
          match reply.value
          case Stored(_) => true
          case Conflict => x.flow.ForReplace?
          case DatabaseError => x.flow.ForReplace? && x.flow.seen.status == ParseFailed
          case other => other == Killed)
  }

  /** The answer for each way the awaits can end; a request killed at its deadline gives none of these. */
  ghost predicate AnswersTo(x: Proc, faults: Faults, reply: Option<Reply>)
    requires x.Reserve?
  {
    if reply == Some(Killed) then true
    else if !faults.reserve then reply == Some(DatabaseError)
    else if !faults.upload then reply == Some(StorageUnavailable)
    else match faults.parse
    case ExecutionFailed => reply == Some(ParserUnavailable)
    case Rejected(_) => reply == Some(if x.flow.ForReplace? || faults.commit then ParseRejected else DatabaseError)
    case Accepted =>
      if !faults.commit then reply == Some(DatabaseError)
      else if x.flow.ForUpload? then reply == Some(Stored(x.id))
      else reply == None || reply == Some(Conflict) || (reply == Some(DatabaseError) && x.flow.seen.status == ParseFailed)
  }

  ghost predicate DeletedTarget(w: World, target: Id) {
    target in w.rows && !w.rows[target].Live()
  }

  /** Every removed object's intent is gone; every other intent of the batch is the one the batch
    * was read with, counted once more and annotated. */
  ghost predicate BatchSettled(was: World, w: World, batch: seq<Item>, removed: seq<bool>)
    requires |batch| == |removed|
  {
    forall i :: 0 <= i < |batch| ==>
      && batch[i].key in was.journal
      && if removed[i]
         then batch[i].key !in w.journal && batch[i].key !in w.objects
         else && batch[i].key in w.journal
              && w.journal[batch[i].key]
                 == was.journal[batch[i].key].(attempts := was.journal[batch[i].key].attempts + 1,
                                               lastError := Some("RESUME_STORAGE_UNAVAILABLE"))
  }

  lemma SettledItem(journal: map<Key, Intent>, batch: seq<Item>, removed: seq<bool>, i: nat)
    requires |batch| == |removed| && i < |batch| && batch[i].key in journal
    requires forall j, k :: 0 <= j < k < |batch| ==> batch[j].key != batch[k].key
    ensures var settled := Settle(journal, batch, removed);
            && (removed[i] <==> batch[i].key !in settled)
            && (!removed[i] ==> settled[batch[i].key]
                                == journal[batch[i].key].(attempts := journal[batch[i].key].attempts + 1,
                                                          lastError := Some("RESUME_STORAGE_UNAVAILABLE")))
  {
    SettleAt(journal, batch, removed, batch[i].key);
    assert forall j :: 0 <= j < |batch| && batch[j].key == batch[i].key ==> j == i;
  }

  lemma SettledBatch(was: World, w: World, batch: seq<Item>, removed: seq<bool>)
    requires BatchOk(w, batch, removed) && |removed| == |batch| && SameIntents(was, w, batch)
    ensures BatchSettled(was, w.(journal := Settle(w.journal, batch, removed)), batch, removed)
  {
    forall i | 0 <= i < |batch| { SettledItem(w.journal, batch, removed, i); }
  }

  lemma CommitSettles(was: World, w: World, p: Pid)
    requires Inv(w) && p in w.procs && w.procs[p].Reconcile? && |w.procs[p].outcomes| == |w.procs[p].batch|
    requires SameIntents(was, w, w.procs[p].batch)
    ensures BatchSettled(was, DatabaseStep(w, p, true), w.procs[p].batch, w.procs[p].outcomes)
  {
    assert ProcOk(w, w.procs[p]);
    SettledBatch(was, w, w.procs[p].batch, w.procs[p].outcomes);
  }

  /** No reconciler holds the reservation of a request that is in time. */
  lemma InTimeIsReady(w: World, p: Pid)
    requires Inv(w) && p in w.procs && w.procs[p].Persist? && w.now < w.procs[p].deadline
    ensures CommitReady(w, w.procs[p])
  {
    assert ProcOk(w, w.procs[p]);
  }

  /** The three ways the final transaction can end, told from where the process goes on. */
  ghost predicate Ended(w: World, x: Proc, y: Proc, ok: bool)
    requires x.Persist?
  {
    if x.id in w.rows then
      && ok && PublishedAs(w, x)
      && (x.flow.ForUpload? ==> y == Finished(if x.outcome.Rejected? then ParseRejected else Stored(x.id)))
      && (x.flow.ForReplace? ==>
            && TargetRetired(w, x.flow)
            && y.Remove? && y.key == KeyOf(x.flow.target, x.flow.seen)
            && y.onFailure == StorageUnavailable && y.onSuccess == Stored(x.id))
    else
      && y.Remove? && y.key == x.NewKey() && y.onFailure == y.onSuccess
      && (y.onSuccess == Conflict || y.onSuccess == DatabaseError)
      && (y.onSuccess == Conflict ==> TargetRetired(w, x.flow))
      && (ok && y.onSuccess == DatabaseError ==> x.flow.ForReplace? && x.flow.seen.status == ParseFailed)
      && (!ok ==> y.onSuccess == DatabaseError)
  }

  lemma PublishStep(w: World, p: Pid, ok: bool)
    requires Inv(w) && p in w.procs && w.procs[p].Persist?
    requires ok ==> w.now < w.procs[p].deadline
    ensures w.procs[p].id !in w.rows
    ensures Ended(DatabaseStep(w, p, ok), w.procs[p], DatabaseStep(w, p, ok).procs[p], ok)
  {
    assert ProcOk(w, w.procs[p]);
    if w.procs[p].flow.ForReplace? { ReplaceCommitsIff(w, p); }
  }

  lemma RowsLastOn(w: World, middle: World, w': World)
    requires RowsLast(w, middle) && RowsLast(middle, w')
    ensures RowsLast(w, w')
  {
  }

  /** A reconciler's call changes no table. */
  lemma ReconcilerCalls(w: World, p: Pid, removal: Removal)
    requires p in w.procs && w.procs[p].Reconcile? && |w.procs[p].outcomes| < |w.procs[p].batch|
    ensures Enabled(TRUSTED, w, RemovalEvent(p, removal))
    ensures var w' := Next(w, RemovalEvent(p, removal));
            && w'.rows == w.rows && w'.journal == w.journal && p in w'.procs
            && w'.procs[p] == Reconcile(w.procs[p].batch, w.procs[p].outcomes + [removal.Removed?])
  {
  }

  class ResumeService {
    var world: World

    constructor (initial: World)
      ensures world == initial
    {
      world := initial;
    }

    /** Whatever the rest of the system does before the next await of p returns. */
    method Interleave(p: Pid, others: seq<Event>)
      requires Inv(world) && p in world.procs
      modifies this
      ensures Meanwhile(old(world), world, p)
    {
      for i := 0 to |others|
        invariant Meanwhile(old(world), world, p)
      {
        var e := others[i];
        if !BelongsTo(e, p) && Enabled(TRUSTED, world, e) {
          OtherStep(world, e, p);
          world := Next(world, e);
        }
      }
    }

    /** One event of the calling request. */
    method Perform(e: Event)
      requires Inv(world) && Enabled(TRUSTED, world, e)
      modifies this
      ensures world == Next(old(world), e) && Inv(world) && RowsLast(old(world), world)
    {
      StepIsSafe(world, e);
      StepOnRows(world, e);
      world := Next(world, e);
    }

    /** A request that reaches its deadline is gone. */
    method Expire(p: Pid) returns (reply: Reply)
      requires Inv(world) && p in world.procs && !world.procs[p].Finished?
      modifies this
      ensures reply == Killed && world == Goto(old(world), p, Finished(Killed)) && Inv(world)
    {
      Perform(Crash(p));
      reply := Killed;
    }

    /** `_clear_cleanup_best_effort`: the outcome is not reported. */
    method ClearCleanupBestEffort(p: Pid, ok: bool, others: seq<Event>) returns (reply: Reply)
      requires Inv(world) && p in world.procs && world.procs[p].Clear?
      modifies this
      ensures Inv(world) && RowsLast(old(world), world)
      ensures reply == old(world.procs[p].reply)
      ensures old(world.procs[p].key.id !in world.rows) ==> old(world.procs[p]).key.id !in world.rows
      ensures p in world.procs && world.procs[p] == Finished(reply)
      ensures old(world.procs[p]).key !in world.objects
    {
      ghost var key := world.procs[p].key;
      Interleave(p, others);
      assert ProcOk(world, world.procs[p]);
      reply := world.procs[p].reply;
      Perform(Database(p, ok && CommitReady(world, world.procs[p])));
    }

    /** The object of `key` goes, then its intent: `_compensate_with_journal`, and the end of
      * `replace` and `delete`.  If the object store refuses, or its answer is lost, the intent stays
      * for as long as the object does. */
    method RemoveWithJournal(p: Pid, removal: Removal, clearOk: bool, schedule: Schedule) returns (reply: Reply)
      requires Inv(world) && p in world.procs && world.procs[p].Remove?
      modifies this
      ensures Inv(world) && RowsLast(old(world), world)
      ensures p in world.procs && world.procs[p] == Finished(reply)
      ensures old(world.procs[p].key.id !in world.rows) ==> old(world.procs[p]).key.id !in world.rows
      ensures reply == if removal.Removed? then old(world.procs[p].onSuccess) else old(world.procs[p].onFailure)
      ensures old(world.procs[p]).key in world.objects ==> old(world.procs[p]).key in world.journal && !removal.Removed?
    {
      ghost var key := world.procs[p].key;
      assert ProcOk(world, world.procs[p]);
      Interleave(p, schedule(4));
      assert ProcOk(world, world.procs[p]);
      Perform(RemovalEvent(p, removal));
      if !removal.Removed? {
        assert !LiveKey(world, key);
        return world.procs[p].reply;
      }
      assert ProcOk(world, world.procs[p]);
      reply := ClearCleanupBestEffort(p, clearOk, schedule(5));
    }

    /** `_reserve_cleanup`. */
    method ReserveCleanup(p: Pid, ok: bool, others: seq<Event>) returns (reserved: bool)
      requires Inv(world) && p in world.procs && world.procs[p].Reserve?
      modifies this
      ensures Inv(world) && RowsLast(old(world), world) && p in world.procs
      ensures old(world.procs[p]).id !in world.rows
      ensures reserved == ok
      ensures var x := old(world.procs[p]);
              if reserved
              then world.procs[p].Store? && (x.flow, x.owner, x.id) == world.procs[p].Job()
                   && world.procs[p].deadline == x.deadline
              else world.procs[p] == Finished(DatabaseError)
    {
      Interleave(p, others);
      assert ProcOk(world, world.procs[p]);
      Perform(Database(p, ok));
      reserved := world.procs[p].Store?;
    }

    /** `storage.upload`, with the clearing of the intent when it raises. */
    method UploadObject(p: Pid, ok: bool, clearOk: bool, schedule: Schedule) returns (failure: Option<Reply>)
      requires Inv(world) && p in world.procs && world.procs[p].Store?
      modifies this
      ensures Inv(world) && RowsLast(old(world), world) && p in world.procs
      ensures old(world.procs[p]).id !in world.rows
      ensures failure.None? ==> ok && world.procs[p].Parse? && world.procs[p].Job() == old(world.procs[p]).Job()
                                && world.procs[p].deadline == old(world.procs[p]).deadline
      ensures failure.Some? ==> world.procs[p] == Finished(failure.value)
                                && failure.value == (if ok then Killed else StorageUnavailable)
      ensures failure == Some(Killed) ==> world.now >= old(world.procs[p]).deadline
    {
      Interleave(p, schedule(1));
      assert ProcOk(world, world.procs[p]);
      if ok && world.now >= world.procs[p].deadline {
        var killed := Expire(p);
        return Some(killed);
      }
      Perform(Storage(p, ok));
      if ok {
        return None;
      }
      var cleared := ClearCleanupBestEffort(p, clearOk, schedule(5));
      return Some(cleared);
    }

    /** `parse_executor.parse`, with the compensation of an attempt that goes no further. */
    method ParseObject(p: Pid, faults: Faults, schedule: Schedule) returns (failure: Option<Reply>)
      requires Inv(world) && p in world.procs && world.procs[p].Parse?
      modifies this
      ensures Inv(world) && RowsLast(old(world), world) && p in world.procs
      ensures old(world.procs[p]).id !in world.rows
      ensures failure.None? ==>
                && world.procs[p].Persist? && world.procs[p].Job() == old(world.procs[p]).Job()
                && world.procs[p].deadline == old(world.procs[p]).deadline
                && world.procs[p].outcome == faults.parse && !faults.parse.ExecutionFailed?
                && (faults.parse.Rejected? ==> world.procs[p].flow.ForUpload?)
      ensures failure.Some? ==> world.procs[p] == Finished(failure.value)
      ensures failure == Some(ParserUnavailable) <==> faults.parse.ExecutionFailed?
      ensures failure == Some(ParseRejected) <==> faults.parse.Rejected? && old(world.procs[p]).flow.ForReplace?
      ensures failure.Some? ==> failure.value in {ParserUnavailable, ParseRejected}
    {
      Interleave(p, schedule(2));
      assert ProcOk(world, world.procs[p]);
      Perform(ParseDone(p, faults.parse));
      if world.procs[p].Persist? {
        return None;
      }
      var compensated := RemoveWithJournal(p, faults.remove, faults.clear, schedule);
      return Some(compensated);
    }

    /** The final transaction of `upload` and `replace`, unless the deadline has passed. */
    method CommitRow(p: Pid, ok: bool, others: seq<Event>) returns (killed: bool)
      requires Inv(world) && p in world.procs && world.procs[p].Persist?
      modifies this
      ensures Inv(world) && RowsLast(old(world), world) && p in world.procs
      ensures killed ==> ok && world.procs[p] == Finished(Killed) && old(world.procs[p]).id !in world.rows
                         && world.now >= old(world.procs[p]).deadline
      ensures !killed ==> Ended(world, old(world.procs[p]), world.procs[p], ok)
    {
      Interleave(p, others);
      killed := ok && world.now >= world.procs[p].deadline;
      if killed {
        assert ProcOk(world, world.procs[p]);
        var reply := Expire(p);
      } else {
        if ok { InTimeIsReady(world, p); }
        PublishStep(world, p, ok);
        Perform(Database(p, ok));
      }
    }

    /** The final transaction of `upload` and `replace`, with its compensation.  A missing reply
      * means the replaced object is still to be removed. */
    method PublishRow(p: Pid, faults: Faults, schedule: Schedule) returns (reply: Option<Reply>)
      requires Inv(world) && p in world.procs && world.procs[p].Persist?
      modifies this
      ensures Inv(world) && RowsLast(old(world), world) && p in world.procs
      ensures reply.Some? ==> world.procs[p] == Finished(reply.value)
      ensures var x := old(world.procs[p]);
              match reply
              case None =>
                && x.flow.ForReplace? && PublishedAs(world, x) && TargetRetired(world, x.flow)
                && world.procs[p].Remove? && world.procs[p].key == KeyOf(x.flow.target, x.flow.seen)
                && world.procs[p].onFailure == StorageUnavailable && world.procs[p].onSuccess == Stored(x.id)
              case Some(Stored(id)) => x.flow.ForUpload? && id == x.id && PublishedAs(world, x) && !x.outcome.Rejected?
              case Some(ParseRejected) => x.flow.ForUpload? && PublishedAs(world, x) && x.outcome.Rejected?
              case Some(Conflict) => x.id !in world.rows && TargetRetired(world, x.flow)
              case Some(other) => x.id !in world.rows && other in {DatabaseError, Killed}
      ensures faults.commit && reply == Some(DatabaseError) ==>
                old(world.procs[p]).flow.ForReplace? && old(world.procs[p]).flow.seen.status == ParseFailed
      ensures reply == Some(Killed) ==> world.now >= old(world.procs[p]).deadline
      ensures !faults.commit ==> reply == Some(DatabaseError)
    {
      ghost var x := world.procs[p];
      var killed := CommitRow(p, faults.commit, schedule(3));
      if world.procs[p].Finished? {
        return Some(world.procs[p].reply);
      }
      if world.procs[p].onFailure != world.procs[p].onSuccess {
        return None;
      }
      var compensated := RemoveWithJournal(p, faults.remove, faults.clear, schedule);
      return Some(compensated);
    }

    /** Reservation and upload of the object. */
    method StoreObject(p: Pid, faults: Faults, schedule: Schedule) returns (failure: Option<Reply>)
      requires Inv(world) && p in world.procs && world.procs[p].Reserve?
      modifies this
      ensures Inv(world) && RowsLast(old(world), world) && p in world.procs
      ensures old(world.procs[p]).id !in world.rows
      ensures failure.None? ==> faults.reserve && faults.upload && world.procs[p].Parse?
                                && world.procs[p].Job() == old(world.procs[p]).Job()
                                && world.procs[p].deadline == old(world.procs[p]).deadline
      ensures failure == Some(Killed) ==> world.now >= old(world.procs[p]).deadline
      ensures failure.Some? ==>
                && world.procs[p] == Finished(failure.value)
                && failure.value == (if !faults.reserve then DatabaseError
                                     else if faults.upload then Killed else StorageUnavailable)
    {
      var reserved := ReserveCleanup(p, faults.reserve, schedule(0));
      if !reserved {
        return Some(DatabaseError);
      }
      failure := UploadObject(p, faults.upload, faults.clear, schedule);
    }

    /** From reservation to publication; a missing reply as in `PublishRow`. */
    method StoreAndPublish(p: Pid, faults: Faults, schedule: Schedule) returns (reply: Option<Reply>)
      requires Inv(world) && p in world.procs && world.procs[p].Reserve?
      modifies this
      ensures Inv(world) && RowsLast(old(world), world) && p in world.procs
      ensures reply.Some? ==> world.procs[p] == Finished(reply.value)
      ensures var x := old(world.procs[p]);
              reply.None? ==>
                && x.flow.ForReplace? && world.procs[p].Remove? && world.procs[p].key == KeyOf(x.flow.target, x.flow.seen)
                && world.procs[p].onFailure == StorageUnavailable && world.procs[p].onSuccess == Stored(x.id)
      ensures Answered(world, old(world.procs[p]), faults, reply)
      ensures AnswersTo(old(world.procs[p]), faults, reply)
      ensures reply == Some(Killed) ==> world.now >= old(world.procs[p]).deadline
    {
      reply := StoreObject(p, faults, schedule);
      if reply.None? {
        reply := ParseObject(p, faults, schedule);
        if reply.None? {
          reply := PublishRow(p, faults, schedule);
        }
      }
    }

    /** `upload`: what each answer says about the tables at that moment. */
    method Upload(p: Pid, owner: Owner, id: Id, faults: Faults, schedule: Schedule) returns (reply: Reply)
      requires Inv(world) && Free(world, p) && id !in world.issued
      modifies this
      ensures Inv(world) && RowsLast(old(world), world)
      ensures p in world.procs && world.procs[p] == Finished(reply)
      ensures match reply
              case Stored(i) =>
                && i == id && id in world.rows && world.rows[id] == Row(owner, Parsed, None, 1, None)
                && Key(owner, id) in world.objects && Key(owner, id) !in world.journal
              case ParseRejected =>
                && faults.parse.Rejected? && id in world.rows
                && world.rows[id] == Row(owner, ParseFailed, Some(faults.parse.code), 1, None)
              case _ => id !in world.rows && reply in {DatabaseError, StorageUnavailable, ParserUnavailable, Killed}
      ensures reply == if reply == Killed then Killed
                       else if !faults.reserve then DatabaseError
                       else if !faults.upload then StorageUnavailable
                       else match faults.parse
                            case ExecutionFailed => ParserUnavailable
                            case Rejected(_) => if faults.commit then ParseRejected else DatabaseError
                            case Accepted => if faults.commit then Stored(id) else DatabaseError
      ensures reply == Killed ==> world.now >= old(world.now) + 900
    {
      Perform(BeginUpload(p, owner, id));
      var published := StoreAndPublish(p, faults, schedule);
      return published.value;
    }

    /** `replace`.  An answer of StorageUnavailable is ambiguous: it is given both when the new
      * object could not be stored and when the replacement committed but the old object could
      * not be removed. */
    method Replace(p: Pid, target: Id, owner: Owner, id: Id, faults: Faults, schedule: Schedule) returns (reply: Reply)
      requires Inv(world) && Free(world, p) && id !in world.issued
      modifies this
      ensures Inv(world) && RowsLast(old(world), world)
      ensures p in world.procs && world.procs[p] == Finished(reply)
      ensures reply == NotFound <==>
                var rows := old(world).rows;
                target !in rows || rows[target].owner != owner || rows[target].status == Deleted
      ensures reply == NotFound ==> world == old(world).(procs := old(world).procs[p := Finished(NotFound)])
      ensures match reply
              case Stored(i) => i == id && Replaced(world, target, owner, id) && Key(owner, target) !in world.objects
              case StorageUnavailable => if faults.upload then Replaced(world, target, owner, id) else id !in world.rows
              case Conflict => id !in world.rows && target in world.rows && !world.rows[target].Live()
              case _ => id !in world.rows && reply in {NotFound, DatabaseError, ParserUnavailable, ParseRejected, Killed}
      ensures reply != NotFound && reply != Killed ==>
                if !faults.reserve then reply == DatabaseError
                else if !faults.upload then reply == StorageUnavailable
                else match faults.parse
                     case ExecutionFailed => reply == ParserUnavailable
                     case Rejected(_) => reply == ParseRejected
                     case Accepted =>
                       || (reply == DatabaseError && (!faults.commit || old(world).rows[target].status == ParseFailed))
                       || (faults.commit && (reply == Conflict || reply == if faults.remove.Removed? then Stored(id) else StorageUnavailable))
      ensures reply == Killed ==> world.now >= old(world.now) + 900
    {
      Perform(BeginReplace(p, owner, target, id));
      if world.procs[p].Finished? {
        return NotFound;
      }
      var published := StoreAndPublish(p, faults, schedule);
      if published.Some? {
        return published.value;
      }
      reply := RemoveReplaced(p, target, owner, id, faults, schedule);
    }

    /** The removal of the object a replacement retired. */
    method RemoveReplaced(p: Pid, target: Id, owner: Owner, id: Id, faults: Faults, schedule: Schedule) returns (reply: Reply)
      requires Inv(world) && p in world.procs && world.procs[p].Remove? && Replaced(world, target, owner, id)
      requires world.procs[p].onFailure == StorageUnavailable && world.procs[p].onSuccess == Stored(id)
      requires world.procs[p].key == Key(owner, target)
      modifies this
      ensures Inv(world) && RowsLast(old(world), world) && p in world.procs && world.procs[p] == Finished(reply)
      ensures Replaced(world, target, owner, id)
      ensures reply == if faults.remove.Removed? then Stored(id) else StorageUnavailable
      ensures reply == Stored(id) ==> Key(owner, target) !in world.objects
    {
      reply := RemoveWithJournal(p, faults.remove, faults.clear, schedule);
    }

    /** The soft delete of a row that was live when it was loaded. */
    method DeleteLive(p: Pid, commit: bool, others: seq<Event>) returns (failure: Option<Reply>)
      requires Inv(world) && p in world.procs && world.procs[p].Loaded?
      modifies this
      ensures Inv(world) && RowsLast(old(world), world) && p in world.procs
      ensures var x := old(world.procs[p]);
              match failure
              case None =>
                && DeletedTarget(world, x.target) && x.seen.status != ParseFailed && world.procs[p].RemovesFor(x.target, x.seen)
              case Some(reply) =>
                && world.procs[p] == Finished(reply)
                && x.target in world.rows
                && (if commit && x.seen.status != ParseFailed
                    then reply == Conflict && !world.rows[x.target].Live()
                    else reply == DatabaseError || (reply == Conflict && !world.rows[x.target].Live()))
      ensures commit ==> (failure == Some(DatabaseError) ==> old(world.procs[p]).seen.status == ParseFailed)
      ensures !commit ==> failure == Some(DatabaseError)
    {
      Interleave(p, others);
      assert ProcOk(world, world.procs[p]);
      DeleteCommitsIff(world, p);
      Perform(Database(p, commit));
      return if world.procs[p].Finished? then Some(world.procs[p].reply) else None;
    }

    /** Deleting again: find the intent of the row. */
    method FindIntent(p: Pid, ok: bool, others: seq<Event>) returns (failure: Option<Reply>)
      requires Inv(world) && p in world.procs && world.procs[p].Lookup?
      modifies this
      ensures Inv(world) && RowsLast(old(world), world) && p in world.procs
      ensures DeletedTarget(world, old(world.procs[p]).target)
      ensures failure.Some? <==> !ok
      ensures failure.Some? ==> failure == Some(DatabaseError) && world.procs[p] == Finished(DatabaseError)
      ensures failure.None? && !world.procs[p].Rejournal? ==> world.procs[p].RemovesFor(old(world.procs[p]).target, old(world.procs[p]).seen)
      ensures failure.None? && world.procs[p].Rejournal? ==>
                world.procs[p].target == old(world.procs[p]).target && world.procs[p].seen == old(world.procs[p]).seen
    {
      Interleave(p, others);
      assert ProcOk(world, world.procs[p]);
      Perform(Database(p, ok));
      return if ok then None else Some(DatabaseError);
    }

    /** ... and write a new one when there is none. */
    method WriteIntent(p: Pid, ok: bool, others: seq<Event>) returns (failure: Option<Reply>)
      requires Inv(world) && p in world.procs && world.procs[p].Rejournal?
      modifies this
      ensures Inv(world) && RowsLast(old(world), world) && p in world.procs
      ensures DeletedTarget(world, old(world.procs[p]).target)
      ensures failure.Some? ==> failure == Some(DatabaseError) && world.procs[p] == Finished(DatabaseError)
      ensures failure.None? ==> world.procs[p].RemovesFor(old(world.procs[p]).target, old(world.procs[p]).seen)
    {
      Interleave(p, others);
      assert ProcOk(world, world.procs[p]);
      Perform(Database(p, ok));
      return if world.procs[p].Finished? then Some(DatabaseError) else None;
    }

    method DeleteAgain(p: Pid, lookup: bool, insert: bool, schedule: Schedule) returns (failure: Option<Reply>)
      requires Inv(world) && p in world.procs && world.procs[p].Lookup?
      modifies this
      ensures Inv(world) && RowsLast(old(world), world) && p in world.procs
      ensures DeletedTarget(world, old(world.procs[p]).target)
      ensures failure.Some? ==> failure == Some(DatabaseError) && world.procs[p] == Finished(DatabaseError)
      ensures !lookup ==> failure.Some?
      ensures failure.None? ==> world.procs[p].RemovesFor(old(world.procs[p]).target, old(world.procs[p]).seen)
    {
      failure := FindIntent(p, lookup, schedule(0));
      if failure.None? && world.procs[p].Rejournal? {
        failure := WriteIntent(p, insert, schedule(1));
      }
    }

    /** The transactions of `delete`, up to the removal of the object. */
    method RetireRow(p: Pid, faults: Faults, schedule: Schedule) returns (failure: Option<Reply>)
      requires Inv(world) && p in world.procs && (world.procs[p].Loaded? || world.procs[p].Lookup?)
      modifies this
      ensures Inv(world) && RowsLast(old(world), world) && p in world.procs
      ensures var x := old(world.procs[p]);
              && x.target in world.rows
              && match failure
                 case None => DeletedTarget(world, x.target) && world.procs[p].RemovesFor(x.target, x.seen)
                 case Some(reply) =>
                   && world.procs[p] == Finished(reply) && (reply == DatabaseError || reply == Conflict)
                   && (reply == Conflict ==> DeletedTarget(world, x.target) && x.Loaded? && faults.commit)
                   && (reply == DatabaseError && x.Loaded? && faults.commit ==> x.seen.status == ParseFailed)
      ensures failure.None? ==> faults.commit
    {
      if world.procs[p].Loaded? {
        failure := DeleteLive(p, faults.commit, schedule(0));
      } else {
        failure := DeleteAgain(p, faults.commit, faults.reserve, schedule);
      }
    }

    /** `delete`, for live rows and for rows whose object may still be around. */
    method Delete(p: Pid, target: Id, owner: Owner, faults: Faults, schedule: Schedule) returns (reply: Reply)
      requires Inv(world) && Free(world, p)
      modifies this
      ensures Inv(world) && RowsLast(old(world), world)
      ensures p in world.procs && world.procs[p] == Finished(reply)
      ensures reply == NotFound <==> target !in old(world).rows || old(world).rows[target].owner != owner
      ensures reply == NotFound ==> world == old(world).(procs := old(world).procs[p := Finished(NotFound)])
      ensures match reply
              case Retired(i) => i == target && DeletedTarget(world, target) && Key(owner, target) !in world.objects
              case StorageUnavailable => DeletedTarget(world, target)
              case Conflict => DeletedTarget(world, target)
              case _ => reply == NotFound || reply == DatabaseError
      ensures faults.commit && reply == DatabaseError ==>
                old(world).rows[target].status == Deleted || old(world).rows[target].status == ParseFailed
      ensures reply == NotFound || reply == DatabaseError
              || (faults.commit && reply == Conflict && old(world).rows[target].status != Deleted)
              || (faults.commit && reply == if faults.remove.Removed? then Retired(target) else StorageUnavailable)
    {
      Perform(BeginDelete(p, owner, target));
      if world.procs[p].Finished? {
        return NotFound;
      }
      var failure := RetireRow(p, faults, schedule);
      if failure.Some? {
        return failure.value;
      }
      reply := RemoveWithJournal(p, faults.remove, faults.clear, schedule);
    }

    /** One pass of the loop: delete one object of the batch. */
    method DeleteOne(p: Pid, batch: seq<Item>, before: seq<bool>, removal: Removal, others: seq<Event>)
      requires Inv(world) && p in world.procs && world.procs[p] == Reconcile(batch, before) && |before| < |batch|
      modifies this
      ensures Inv(world) && RowsLast(old(world), world) && SameIntents(old(world), world, batch)
      ensures p in world.procs && world.procs[p] == Reconcile(batch, before + [removal.Removed?])
    {
      ghost var was := world;
      assert ProcOk(was, was.procs[p]);
      Interleave(p, others);
      ghost var middle := world;
      ReconcilerCalls(world, p, removal);
      Perform(RemovalEvent(p, removal));
      RowsLastOn(was, middle, world);
    }

    /** The loop over the batch; the counters are what it has seen so far. */
    method DeleteBatch(p: Pid, batch: seq<Item>, removals: seq<Removal>, schedule: Schedule)
      returns (removed: nat, failed: nat)
      requires Inv(world) && p in world.procs && world.procs[p] == Reconcile(batch, []) && |removals| == |batch|
      modifies this
      ensures Inv(world) && RowsLast(old(world), world) && SameIntents(old(world), world, batch)
      ensures p in world.procs && world.procs[p] == Reconcile(batch, Successes(removals))
      ensures removed == CountOf(Successes(removals), true) && failed == CountOf(Successes(removals), false)
    {
      removed, failed := 0, 0;
      ghost var was := world;
      var deletes := Successes(removals);
      assert ProcOk(world, world.procs[p]);
      for n := 0 to |batch|
        invariant Inv(world) && RowsLast(was, world) && SameIntents(was, world, batch)
        invariant p in world.procs && world.procs[p] == Reconcile(batch, deletes[..n])
        invariant removed == CountOf(deletes[..n], true) && failed == CountOf(deletes[..n], false)
      {
        assert deletes[..n + 1] == deletes[..n] + [deletes[n]];
        assert deletes[..n + 1][..n] == deletes[..n];
        ghost var middle := world;
        DeleteOne(p, batch, deletes[..n], removals[n], schedule(n));
        RowsLastOn(was, middle, world);
        if removals[n].Removed? {
          removed := removed + 1;
        } else {
          failed := failed + 1;
        }
      }
      assert deletes[..|batch|] == deletes;
    }

    /** `reconcile_storage_cleanups` on the batch its query returned: the counters it reports, and, at
      * its commit, exactly the failed intents of the batch left, each counted once more with the
      * error noted. */
    method ReconcileStorageCleanups(p: Pid, limit: nat, batch: seq<Item>, removals: seq<Removal>, commit: bool,
                                    schedule: Schedule)
      returns (reply: Reply)
      requires Inv(world) && Free(world, p) && IsBatch(world, batch, limit) && |removals| == |batch|
      modifies this
      ensures Inv(world) && RowsLast(old(world), world)
      ensures p in world.procs && world.procs[p] == Finished(reply)
      ensures var removed := Successes(removals);
              && reply == (if commit then Reconciled(CountOf(removed, true), CountOf(removed, false)) else DatabaseError)
              && (commit ==> BatchSettled(old(world), world, batch, removed))
    {
      ghost var was := world;
      Perform(BeginReconcile(p, limit, batch));
      assert SameIntents(was, world, batch) by { assert ProcOk(world, world.procs[p]); }
      var removed, failed := DeleteBatch(p, batch, removals, schedule);
      Interleave(p, schedule(|batch|));
      if commit { CommitSettles(was, world, p); }
      Perform(Database(p, commit));
      return if commit then Reconciled(removed, failed) else DatabaseError;
    }
  }
}
