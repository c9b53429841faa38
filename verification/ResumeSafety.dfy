/** No object is orphaned and no resume is left dangling, over all interleavings. */
module ResumeSafety {
  import opened Wrappers
  import opened ResumeSaga

  /** Every stored object belongs to a live resume or to a cleanup intent. */
  ghost predicate NoOrphan(w: World) {
    forall k :: k in w.objects ==> LiveKey(w, k) || k in w.journal
  }

  /** Every live resume has its object, and no cleanup intent names it. */
  ghost predicate NoDangling(w: World) {
    forall id :: id in w.rows && w.rows[id].Live() ==>
      KeyOf(id, w.rows[id]) in w.objects && KeyOf(id, w.rows[id]) !in w.journal
  }

  ghost predicate RowsConsistent(w: World) {
    forall id :: id in w.rows ==> id in w.issued && ChecksHold(w.rows[id])
  }

  // ---- The inductive invariant ------------------------------------------------------------

  ghost predicate Tables(w: World) {
    && RowsConsistent(w)
    && NoOrphan(w)
    && NoDangling(w)
    && (forall k :: k in w.objects || k in w.journal ==> k.id in w.issued)
  }

  /** The reservation of a request that is still in time protects its key. */
  ghost predicate Reserved(w: World, x: Proc)
    requires x.Store? || x.Parse? || x.Persist?
  {
    w.now < x.deadline ==>
      && x.NewKey() in w.journal
      && w.journal[x.NewKey()].uid == x.uid
      && w.journal[x.NewKey()].availableAt == x.deadline
  }

  ghost predicate PendingOk(w: World, x: Proc)
    requires x.Pending()
  {
    && x.id in w.issued
    && x.id !in w.rows
    && (x.Reserve? ==> x.NewKey() !in w.journal)
    && (x.Reserve? || x.Store? ==> x.NewKey() !in w.objects)
    && (!x.Reserve? ==> Reserved(w, x))
    && ((x.Parse? || x.Persist?) && w.now < x.deadline ==> x.NewKey() in w.objects)
    && (x.Persist? ==> !x.outcome.ExecutionFailed? && (x.flow.ForReplace? ==> x.outcome.Accepted?))
  }

  /** A loaded row is the stored one, or was live and has since been retired. */
  ghost predicate HeldOk(w: World, target: Id, seen: Row) {
    && target in w.rows
    && w.rows[target].owner == seen.owner
    && (w.rows[target] == seen
        || (seen.Live() && !w.rows[target].Live() && seen.version < w.rows[target].version))
  }

  ghost predicate RemovalOk(w: World, x: Proc)
    requires x.Removing()
  {
    && x.key.id in w.issued
    && !LiveKey(w, x.key)
    && (x.Clear? ==> x.key !in w.objects)
  }

  ghost predicate BatchOk(w: World, batch: seq<Item>, outcomes: seq<bool>) {
    && |outcomes| <= |batch|
    && (forall i :: 0 <= i < |batch| ==>
          && batch[i].key in w.journal
          && w.journal[batch[i].key].uid == batch[i].uid
          && w.journal[batch[i].key].availableAt <= w.now)
    && (forall i, j :: 0 <= i < j < |batch| ==> batch[i].key != batch[j].key)
    && (forall i :: 0 <= i < |outcomes| && outcomes[i] ==> batch[i].key !in w.objects)
  }

  ghost predicate ProcOk(w: World, x: Proc) {
    && (x.Pending() ==> PendingOk(w, x))
    && (x.Holding() ==> HeldOk(w, x.HeldTarget(), x.HeldRow()))
    && (x.Loaded? || (x.Pending() && x.flow.ForReplace?) ==> x.HeldRow().Live())
    && (x.Lookup? || x.Rejournal? ==> !x.seen.Live() && !w.rows[x.target].Live())
    && (x.Removing() ==> RemovalOk(w, x))
    && (x.Reconcile? ==> BatchOk(w, x.batch, x.outcomes))
  }

  /** Two processes never work on the same fresh key, and never hold the same intent locked. */
  ghost predicate Apart(x: Proc, y: Proc) {
    && (x.Pending() && y.Pending() ==> x.id != y.id)
    && (x.Pending() && y.Removing() ==> x.id != y.key.id)
    && (x.Reconcile? && y.Reconcile? ==>
          forall i, j :: 0 <= i < |x.batch| && 0 <= j < |y.batch| ==> x.batch[i].key != y.batch[j].key)
  }

  ghost predicate Inv(w: World) {
    && Tables(w)
    && (forall p :: p in w.procs ==> ProcOk(w, w.procs[p]))
    && (forall p, q :: p in w.procs && q in w.procs && p != q ==> Apart(w.procs[p], w.procs[q]))
  }

  // ---- Framing ----------------------------------------------------------------------------

  /** What a step of p must establish; the other processes are as they were. */
  ghost predicate StepOk(w: World, w': World, p: Pid) {
    && Tables(w')
    && p in w'.procs && w'.procs == w.procs[p := w'.procs[p]]
    && ProcOk(w', w'.procs[p])
    && (forall q :: q in w.procs && q != p ==>
          && ProcOk(w', w.procs[q])
          && Apart(w'.procs[p], w.procs[q]) && Apart(w.procs[q], w'.procs[p]))
  }

  lemma StepKeepsInv(w: World, w': World, p: Pid)
    requires Inv(w) && StepOk(w, w', p)
    ensures Inv(w')
  {
    forall a, b | a in w'.procs && b in w'.procs && a != b
      ensures Apart(w'.procs[a], w'.procs[b])
    {
      assert a != p ==> w'.procs[a] == w.procs[a];
      assert b != p ==> w'.procs[b] == w.procs[b];
    }
    forall a | a in w'.procs
      ensures ProcOk(w', w'.procs[a])
    {
      assert a != p ==> w'.procs[a] == w.procs[a];
    }
  }

  /** `ProcOk` speaks of the tables and the clock, not of the other processes. */
  lemma ProcOkReadsTables(w: World, w': World, x: Proc)
    requires ProcOk(w, x) && w'.(procs := w.procs) == w
    ensures ProcOk(w', x)
  {
  }

  /** Moving p alone, to a state that claims no more than the tables show. */
  lemma MoveOnly(w: World, p: Pid, x: Proc)
    requires Inv(w) && ProcOk(w, x)
    requires forall q :: q in w.procs && q != p ==> Apart(x, w.procs[q]) && Apart(w.procs[q], x)
    ensures Inv(Goto(w, p, x))
  {
    StepKeepsInv(w, Goto(w, p, x), p);
  }

  lemma FinishKeepsInv(w: World, p: Pid, reply: Reply)
    requires Inv(w)
    ensures Inv(Goto(w, p, Finished(reply)))
  {
    MoveOnly(w, p, Finished(reply));
  }

  // ---- Beginnings -------------------------------------------------------------------------

  /** Starting either storing flow under a never-issued id. */
  lemma IssueKeepsInv(w: World, p: Pid, flow: Flow, owner: Owner, id: Id)
    requires Inv(w) && Free(w, p) && id !in w.issued
    requires flow.ForReplace? ==> Owned(w, flow.target, owner, false) && flow.seen == w.rows[flow.target]
    ensures Inv(Goto(w.(issued := w.issued + {id}), p, Reserve(flow, owner, id, w.now + RESERVATION)))
  {
    var w1 := w.(issued := w.issued + {id});
    var x := Reserve(flow, owner, id, w.now + RESERVATION);
    assert Tables(w1);
    forall q | q in w.procs && q != p
      ensures ProcOk(w1, w.procs[q]) && Apart(x, w.procs[q]) && Apart(w.procs[q], x)
    {
      assert ProcOk(w, w.procs[q]);
    }
    assert ProcOk(w1, x);
    forall q | q in w.procs
      ensures ProcOk(w1, w.procs[q])
    {
      assert ProcOk(w, w.procs[q]);
    }
    MoveOnly(w1, p, x);
  }

  lemma BeginUploadKeepsInv(w: World, p: Pid, owner: Owner, id: Id)
    requires Inv(w) && Enabled(TRUSTED, w, BeginUpload(p, owner, id))
    ensures Inv(Next(w, BeginUpload(p, owner, id)))
  {
    var w' := Goto(w.(issued := w.issued + {id}), p, Reserve(ForUpload, owner, id, w.now + RESERVATION));
    assert Next(w, BeginUpload(p, owner, id)) == w';
    IssueKeepsInv(w, p, ForUpload, owner, id);
  }

  lemma BeginReplaceKeepsInv(w: World, p: Pid, owner: Owner, target: Id, id: Id)
    requires Inv(w) && Enabled(TRUSTED, w, BeginReplace(p, owner, target, id))
    ensures Inv(Next(w, BeginReplace(p, owner, target, id)))
  {
    if Owned(w, target, owner, false) {
      IssueKeepsInv(w, p, ForReplace(target, w.rows[target]), owner, id);
    } else {
      FinishKeepsInv(w, p, NotFound);
    }
  }

  lemma BeginDeleteKeepsInv(w: World, p: Pid, owner: Owner, target: Id)
    requires Inv(w) && Enabled(TRUSTED, w, BeginDelete(p, owner, target))
    ensures Inv(Next(w, BeginDelete(p, owner, target)))
  {
    MoveOnly(w, p, Next(w, BeginDelete(p, owner, target)).procs[p]);
  }

  lemma BeginReconcileKeepsInv(w: World, p: Pid, limit: nat, batch: seq<Item>)
    requires Inv(w) && Enabled(TRUSTED, w, BeginReconcile(p, limit, batch))
    ensures Inv(Next(w, BeginReconcile(p, limit, batch)))
  {
    var x := Reconcile(batch, []);
    forall q | q in w.procs && q != p
      ensures Apart(x, w.procs[q]) && Apart(w.procs[q], x)
    {
      if w.procs[q].Reconcile? {
        forall i, j | 0 <= i < |batch| && 0 <= j < |w.procs[q].batch|
          ensures batch[i].key != w.procs[q].batch[j].key
        {
          assert Due(w, batch[i].key);
        }
      }
    }
    assert forall i :: 0 <= i < |batch| ==> Due(w, batch[i].key);
    MoveOnly(w, p, x);
  }

  // ---- Object store -----------------------------------------------------------------------

  /** A key that no live resume and no request in time depends on. */
  ghost predicate Expendable(w: World, k: Key) {
    && !LiveKey(w, k)
    && forall q :: q in w.procs && (w.procs[q].Parse? || w.procs[q].Persist?) && w.now < w.procs[q].deadline
         ==> w.procs[q].NewKey() != k
  }

  lemma DeleteObjectKeepsOthers(w: World, k: Key, q: Pid)
    requires Inv(w) && Expendable(w, k) && q in w.procs
    ensures ProcOk(w.(objects := w.objects - {k}), w.procs[q])
  {
    assert ProcOk(w, w.procs[q]);
  }

  lemma DeleteObjectKeepsTables(w: World, k: Key)
    requires Inv(w) && Expendable(w, k)
    ensures Tables(w.(objects := w.objects - {k}))
  {
  }

  lemma StoreKeepsInv(w: World, p: Pid)
    requires Inv(w) && p in w.procs && w.procs[p].Store? && w.now < w.procs[p].deadline
    ensures Inv(StorageStep(w, p, true))
  {
    var x := w.procs[p];
    var w' := StorageStep(w, p, true);
    assert ProcOk(w, x);
    forall q | q in w.procs && q != p
      ensures ProcOk(w', w.procs[q])
    {
      var y := w.procs[q];
      assert ProcOk(w, y) && Apart(x, y) && Apart(y, x);
      if y.Reconcile? {
        forall i | 0 <= i < |y.outcomes| && y.outcomes[i]
          ensures y.batch[i].key !in w'.objects
        {
          assert w.journal[y.batch[i].key].availableAt <= w.now;
        }
      }
    }
    StepKeepsInv(w, w', p);
  }

  lemma StoreFailureKeepsInv(w: World, p: Pid)
    requires Inv(w) && p in w.procs && w.procs[p].Store?
    ensures Inv(StorageStep(w, p, false))
  {
    assert ProcOk(w, w.procs[p]);
    MoveOnly(w, p, StorageStep(w, p, false).procs[p]);
  }

  /** Deleting the object a process is about to remove leaves that process where it was. */
  lemma RemoveObjectKeepsInv(w: World, p: Pid)
    requires Inv(w) && p in w.procs && w.procs[p].Remove?
    ensures Inv(w.(objects := w.objects - {w.procs[p].key}))
  {
    var x := w.procs[p];
    assert ProcOk(w, x);
    forall q | q in w.procs && q != p
      ensures w.procs[q].Pending() ==> w.procs[q].id != x.key.id
    {
      assert Apart(w.procs[q], x);
    }
    DeleteObjectKeepsTables(w, x.key);
    forall q | q in w.procs { DeleteObjectKeepsOthers(w, x.key, q); }
  }

  lemma RemoveKeepsInv(w: World, p: Pid)
    requires Inv(w) && p in w.procs && w.procs[p].Remove?
    ensures Inv(StorageStep(w, p, true))
  {
    var w1 := w.(objects := w.objects - {w.procs[p].key});
    RemoveObjectKeepsInv(w, p);
    assert ProcOk(w1, w1.procs[p]);
    forall q | q in w.procs && q != p
      ensures Apart(StorageStep(w, p, true).procs[p], w.procs[q]) && Apart(w.procs[q], StorageStep(w, p, true).procs[p])
    {
      assert Apart(w1.procs[p], w.procs[q]) && Apart(w.procs[q], w1.procs[p]);
    }
    MoveOnly(w1, p, StorageStep(w, p, true).procs[p]);
  }

  lemma BatchObjectKeepsInv(w: World, p: Pid)
    requires Inv(w) && p in w.procs && w.procs[p].Reconcile? && |w.procs[p].outcomes| < |w.procs[p].batch|
    ensures Inv(w.(objects := w.objects - {w.procs[p].batch[|w.procs[p].outcomes|].key}))
  {
    var x := w.procs[p];
    assert ProcOk(w, x);
    var k := x.batch[|x.outcomes|].key;
    assert w.journal[k].availableAt <= w.now;
    forall q | q in w.procs && (w.procs[q].Parse? || w.procs[q].Persist?) && w.now < w.procs[q].deadline
      ensures w.procs[q].NewKey() != k
    {
      assert ProcOk(w, w.procs[q]);
    }
    assert !LiveKey(w, k);
    DeleteObjectKeepsTables(w, k);
    forall q | q in w.procs { DeleteObjectKeepsOthers(w, k, q); }
  }

  /** One call of a reconciler keeps the invariant, whether it succeeds, is refused, or takes effect
    * without a response. */
  lemma ReconcileStorageKeepsInv(w: World, p: Pid, ok: bool)
    requires Inv(w) && p in w.procs && w.procs[p].Reconcile?
    requires |w.procs[p].outcomes| < |w.procs[p].batch|
    ensures Inv(StorageStep(w, p, ok)) && Inv(DeleteLostStep(w, p))
  {
    var x := w.procs[p];
    BatchObjectKeepsInv(w, p);
    var w1 := w.(objects := w.objects - {x.batch[|x.outcomes|].key});
    NoteOutcome(w, p, false);
    NoteOutcome(w1, p, false);
    NoteOutcome(w1, p, true);
  }

  lemma NoteOutcome(w: World, p: Pid, ok: bool)
    requires Inv(w) && p in w.procs && w.procs[p].Reconcile? && |w.procs[p].outcomes| < |w.procs[p].batch|
    requires ok ==> w.procs[p].batch[|w.procs[p].outcomes|].key !in w.objects
    ensures Inv(Goto(w, p, Reconcile(w.procs[p].batch, w.procs[p].outcomes + [ok])))
  {
    var x := w.procs[p];
    var y := Reconcile(x.batch, x.outcomes + [ok]);
    assert ProcOk(w, x);
    assert BatchOk(w, x.batch, x.outcomes + [ok]);
    forall q | q in w.procs && q != p
      ensures Apart(y, w.procs[q]) && Apart(w.procs[q], y)
    {
      assert Apart(x, w.procs[q]) && Apart(w.procs[q], x);
    }
    MoveOnly(w, p, y);
  }

  lemma DeleteLostKeepsInv(w: World, p: Pid)
    requires Inv(w) && Enabled(TRUSTED, w, DeleteLost(p))
    ensures Inv(Next(w, DeleteLost(p)))
  {
    match w.procs[p]
    case Remove(key, _, onFailure, _) =>
      RemoveObjectKeepsInv(w, p);
      FinishKeepsInv(w.(objects := w.objects - {key}), p, onFailure);
    case Reconcile(_, _) => ReconcileStorageKeepsInv(w, p, false);
  }

  lemma StorageKeepsInv(w: World, p: Pid, ok: bool)
    requires Inv(w) && Enabled(TRUSTED, w, Storage(p, ok))
    ensures Inv(Next(w, Storage(p, ok)))
  {
    match w.procs[p]
    case Store(_, _, _, _, _) => if ok { StoreKeepsInv(w, p); } else { StoreFailureKeepsInv(w, p); }
    case Remove(_, _, onFailure, _) => if ok { RemoveKeepsInv(w, p); } else { FinishKeepsInv(w, p, onFailure); }
    case Reconcile(_, _) => ReconcileStorageKeepsInv(w, p, ok);
  }

  lemma ParseKeepsInv(w: World, p: Pid, outcome: ParseOutcome)
    requires Inv(w) && Enabled(TRUSTED, w, ParseDone(p, outcome))
    ensures Inv(Next(w, ParseDone(p, outcome)))
  {
    assert ProcOk(w, w.procs[p]);
    MoveOnly(w, p, ParseStep(w, p, outcome).procs[p]);
  }

  // ---- Database ---------------------------------------------------------------------------

  lemma ReserveKeepsInv(w: World, p: Pid, ok: bool)
    requires Inv(w) && p in w.procs && w.procs[p].Reserve?
    ensures Inv(DatabaseStep(w, p, ok))
  {
    var x := w.procs[p];
    assert ProcOk(w, x);
    var w' := DatabaseStep(w, p, ok);
    forall q | q in w.procs && q != p
      ensures ProcOk(w', w.procs[q]) && Apart(w'.procs[p], w.procs[q]) && Apart(w.procs[q], w'.procs[p])
    {
      assert ProcOk(w, w.procs[q]) && Apart(x, w.procs[q]) && Apart(w.procs[q], x);
    }
    StepKeepsInv(w, w', p);
  }

  /** An intent without an object can go when no reconciler holds it and no request needs it. */
  lemma DropIntentKeepsOthers(w: World, item: Item, q: Pid)
    requires Inv(w) && q in w.procs && !Locked(w, item.key)
    requires w.procs[q].Pending() ==> w.procs[q].id != item.key.id
    ensures ProcOk(w.(journal := DropIntent(w.journal, item)), w.procs[q])
  {
    var y := w.procs[q];
    assert ProcOk(w, y);
    if y.Reconcile? {
      assert forall i :: 0 <= i < |y.batch| ==> y.batch[i].key != item.key;
    }
  }

  lemma ClearKeepsInv(w: World, p: Pid, ok: bool)
    requires Inv(w) && p in w.procs && w.procs[p].Clear?
    requires ok ==> !Locked(w, w.procs[p].key)
    ensures Inv(DatabaseStep(w, p, ok))
  {
    var x := w.procs[p];
    assert ProcOk(w, x);
    if ok {
      var w' := DatabaseStep(w, p, ok);
      forall q | q in w.procs && q != p
        ensures ProcOk(w', w.procs[q])
      {
        assert Apart(w.procs[q], x);
        DropIntentKeepsOthers(w, Item(x.key, x.uid), q);
      }
      StepKeepsInv(w, w', p);
    } else {
      FinishKeepsInv(w, p, x.reply);
    }
  }

  /** Retiring a live row the session still holds unchanged. */
  lemma RetireKeepsOthers(w: World, target: Id, seen: Row, q: Pid)
    requires Inv(w) && q in w.procs && target in w.rows && w.rows[target] == seen && seen.Live()
    ensures ProcOk(Commit(w, DeleteTx(w, target, seen)), w.procs[q])
  {
    var y := w.procs[q];
    var w' := Commit(w, DeleteTx(w, target, seen));
    assert ProcOk(w, y);
    assert KeyOf(target, seen) !in w.journal;
    if y.Pending() {
      assert y.id != target;
    }
    if y.Reconcile? {
      assert forall i :: 0 <= i < |y.batch| ==> y.batch[i].key != KeyOf(target, seen);
    }
  }

  lemma RetireKeepsTables(w: World, target: Id, seen: Row)
    requires Inv(w) && target in w.rows && w.rows[target] == seen && seen.Live()
    requires ChecksHold(Retire(seen, w.now))
    ensures Tables(Commit(w, DeleteTx(w, target, seen)))
  {
  }

  /** The soft delete that commits. */
  lemma DeletionKeepsInv(w: World, p: Pid)
    requires Inv(w) && p in w.procs && w.procs[p].Loaded?
    requires Flush(w, DeleteTx(w, w.procs[p].target, w.procs[p].seen)).Passes?
    ensures Inv(DatabaseStep(w, p, true))
  {
    var x, w' := w.procs[p], DatabaseStep(w, p, true);
    assert ProcOk(w, x);
    RetireKeepsTables(w, x.target, x.seen);
    forall q | q in w.procs && q != p
      ensures ProcOk(w', w.procs[q]) && Apart(w.procs[q], w'.procs[p])
    {
      RetireKeepsOthers(w, x.target, x.seen, q);
      assert ProcOk(w, w.procs[q]);
    }
    StepKeepsInv(w, w', p);
  }

  lemma LoadedKeepsInv(w: World, p: Pid, ok: bool)
    requires Inv(w) && p in w.procs && w.procs[p].Loaded?
    ensures Inv(DatabaseStep(w, p, ok))
  {
    var x := w.procs[p];
    var tx := DeleteTx(w, x.target, x.seen);
    if ok && Flush(w, tx).Passes? {
      DeletionKeepsInv(w, p);
    } else {
      FinishKeepsInv(w, p, if !ok || Flush(w, tx).Violated? then DatabaseError else Conflict);
    }
  }

  lemma LookupKeepsInv(w: World, p: Pid, ok: bool)
    requires Inv(w) && p in w.procs && w.procs[p].Lookup?
    ensures Inv(DatabaseStep(w, p, ok))
  {
    var x := w.procs[p];
    assert ProcOk(w, x);
    forall q | q in w.procs && q != p
      ensures Apart(w.procs[q], DatabaseStep(w, p, ok).procs[p])
    {
      assert ProcOk(w, w.procs[q]);
    }
    MoveOnly(w, p, DatabaseStep(w, p, ok).procs[p]);
  }

  lemma RejournalKeepsInv(w: World, p: Pid, ok: bool)
    requires Inv(w) && p in w.procs && w.procs[p].Rejournal?
    ensures Inv(DatabaseStep(w, p, ok))
  {
    var x := w.procs[p];
    assert ProcOk(w, x);
    var key := KeyOf(x.target, x.seen);
    if ok && Flush(w, IntentTx(key, w.now)).Passes? {
      var w' := DatabaseStep(w, p, ok);
      forall q | q in w.procs && q != p
        ensures ProcOk(w', w.procs[q]) && Apart(w.procs[q], w'.procs[p])
      {
        assert ProcOk(w, w.procs[q]);
      }
      StepKeepsInv(w, w', p);
    } else {
      FinishKeepsInv(w, p, DatabaseError);
    }
  }

  // ---- Publication ------------------------------------------------------------------------

  /** The world once a new row is published and its reservation dropped. */
  function Publish(w: World, x: Proc): World
    requires x.Persist?
  {
    Commit(w, PersistTx(w, Persist(ForUpload, x.owner, x.id, x.deadline, x.uid, x.outcome)))
  }

  lemma PublishKeepsTables(w: World, p: Pid)
    requires Inv(w) && p in w.procs && w.procs[p].Persist? && w.now < w.procs[p].deadline
    ensures Tables(Publish(w, w.procs[p]))
  {
    assert ProcOk(w, w.procs[p]);
  }

  lemma PublishKeepsOthers(w: World, p: Pid, q: Pid)
    requires Inv(w) && p in w.procs && w.procs[p].Persist? && w.now < w.procs[p].deadline
    requires q in w.procs && q != p
    ensures ProcOk(Publish(w, w.procs[p]), w.procs[q])
  {
    var x, y := w.procs[p], w.procs[q];
    assert ProcOk(w, x) && ProcOk(w, y) && Apart(x, y) && Apart(y, x);
    if y.Reconcile? {
      assert forall i :: 0 <= i < |y.batch| ==> y.batch[i].key != x.NewKey();
    }
  }

  /** After publication only p's own entry is out of date. */
  lemma PublishKeepsInv(w: World, p: Pid, reply: Reply)
    requires Inv(w) && p in w.procs && w.procs[p].Persist? && w.now < w.procs[p].deadline
    ensures Inv(Goto(Publish(w, w.procs[p]), p, Finished(reply)))
  {
    var w' := Goto(Publish(w, w.procs[p]), p, Finished(reply));
    PublishKeepsTables(w, p);
    assert StepOk(w, w', p) by {
      forall q | q in w.procs && q != p
        ensures ProcOk(w', w.procs[q])
      {
        PublishKeepsOthers(w, p, q);
        ProcOkReadsTables(Publish(w, w.procs[p]), w', w.procs[q]);
      }
    }
    StepKeepsInv(w, w', p);
  }

  lemma CompensateKeepsInv(w: World, p: Pid, reply: Reply)
    requires Inv(w) && p in w.procs && (w.procs[p].Parse? || w.procs[p].Persist?)
    ensures Inv(Goto(w, p, Compensate(w.procs[p], reply)))
  {
    assert ProcOk(w, w.procs[p]);
    MoveOnly(w, p, Compensate(w.procs[p], reply));
  }

  /** Retiring a row and going on to remove its object. */
  lemma RetireKeepsInv(w: World, p: Pid, target: Id, seen: Row, reply: Reply)
    requires Inv(w) && p in w.procs && w.procs[p].Finished?
    requires target in w.rows && w.rows[target] == seen && seen.Live() && ChecksHold(Retire(seen, w.now))
    ensures Inv(Goto(Commit(w, DeleteTx(w, target, seen)), p,
                     Remove(KeyOf(target, seen), w.nextUid, StorageUnavailable, reply)))
  {
    var y := Remove(KeyOf(target, seen), w.nextUid, StorageUnavailable, reply);
    var w' := Goto(Commit(w, DeleteTx(w, target, seen)), p, y);
    RetireKeepsTables(w, target, seen);
    assert ProcOk(w', y);
    forall q | q in w.procs && q != p
      ensures ProcOk(w', w.procs[q]) && Apart(w.procs[q], y)
    {
      RetireKeepsOthers(w, target, seen, q);
      assert ProcOk(w, w.procs[q]);
    }
    StepKeepsInv(w, w', p);
  }

  /** A replacement commits as a publication followed by a retirement, in one transaction. */
  lemma ReplaceIsPublishThenRetire(w: World, x: Proc)
    requires x.Persist? && x.flow.ForReplace? && x.flow.target != x.id
    ensures Commit(w, PersistTx(w, x)) == Commit(Publish(w, x), DeleteTx(w, x.flow.target, x.flow.seen))
  {
  }

  lemma ReplaceKeepsInv(w: World, p: Pid)
    requires Inv(w) && p in w.procs && w.procs[p].Persist? && w.now < w.procs[p].deadline
    requires w.procs[p].flow.ForReplace? && Flush(w, PersistTx(w, w.procs[p])).Passes?
    ensures Inv(DatabaseStep(w, p, true))
  {
    var x := w.procs[p];
    assert ProcOk(w, x);
    var target, seen := x.flow.target, x.flow.seen;
    ReplaceIsPublishThenRetire(w, x);
    PublishKeepsInv(w, p, Stored(x.id));
    var w1 := Goto(Publish(w, x), p, Finished(Stored(x.id)));
    RetireKeepsInv(w1, p, target, seen, Stored(x.id));
    assert DatabaseStep(w, p, true)
        == Goto(Commit(w1, DeleteTx(w1, target, seen)), p,
                Remove(KeyOf(target, seen), w1.nextUid, StorageUnavailable, Stored(x.id)));
  }

  lemma PersistKeepsInv(w: World, p: Pid, ok: bool)
    requires Inv(w) && p in w.procs && w.procs[p].Persist?
    requires ok ==> w.now < w.procs[p].deadline
    ensures Inv(DatabaseStep(w, p, ok))
  {
    var x := w.procs[p];
    var flushed := Flush(w, PersistTx(w, x));
    if !ok || !flushed.Passes? {
      CompensateKeepsInv(w, p, if ok && flushed.Stale? then Conflict else DatabaseError);
    } else if x.flow.ForReplace? {
      ReplaceKeepsInv(w, p);
    } else {
      PublishKeepsInv(w, p, if x.outcome.Rejected? then ParseRejected else Stored(x.id));
    }
  }

  // ---- The reconciler's commit ------------------------------------------------------------

  /** What `Settle` does to one entry of the journal. */
  lemma {:induction false} SettleAt(journal: map<Key, Intent>, batch: seq<Item>, outcomes: seq<bool>, k: Key)
    requires |batch| == |outcomes|
    requires forall i, j :: 0 <= i < j < |batch| ==> batch[i].key != batch[j].key
    ensures k in Settle(journal, batch, outcomes) <==>
              k in journal && forall i :: 0 <= i < |batch| && batch[i].key == k ==> !outcomes[i]
    ensures k in Settle(journal, batch, outcomes) ==>
              Settle(journal, batch, outcomes)[k] ==
              if exists i :: 0 <= i < |batch| && batch[i].key == k
              then journal[k].(attempts := journal[k].attempts + 1, lastError := Some("RESUME_STORAGE_UNAVAILABLE"))
              else journal[k]
  {
    if batch != [] {
      var n := |batch| - 1;
      var b, o := batch[..n], outcomes[..n];
      assert forall i :: 0 <= i < n ==> b[i] == batch[i] && o[i] == outcomes[i];
      SettleAt(journal, b, o, k);
      if batch[n].key == k {
        assert !exists i :: 0 <= i < n && b[i].key == k;
      } else {
        assert (exists i :: 0 <= i < n && b[i].key == k) <==> (exists i :: 0 <= i < |batch| && batch[i].key == k);
      }
    }
  }

  lemma ReconcileCommitKeepsInv(w: World, p: Pid, ok: bool)
    requires Inv(w) && p in w.procs && w.procs[p].Reconcile?
    requires |w.procs[p].outcomes| == |w.procs[p].batch|
    ensures Inv(DatabaseStep(w, p, ok))
  {
    var x := w.procs[p];
    var w' := DatabaseStep(w, p, ok);
    assert ProcOk(w, x);
    if ok {
      forall k
        ensures k in w'.journal ==> k in w.journal
        ensures k in w.journal && k !in w'.journal ==> k !in w.objects && w.journal[k].availableAt <= w.now
        ensures k in w'.journal ==> w'.journal[k].uid == w.journal[k].uid
                                    && w'.journal[k].availableAt == w.journal[k].availableAt
      {
        SettleAt(w.journal, x.batch, x.outcomes, k);
      }
      forall q | q in w.procs && q != p
        ensures ProcOk(w', w.procs[q])
      {
        var y := w.procs[q];
        assert ProcOk(w, y) && Apart(x, y);
        if y.Reconcile? {
          forall i | 0 <= i < |y.batch|
            ensures y.batch[i].key in w'.journal
          {
            SettleAt(w.journal, x.batch, x.outcomes, y.batch[i].key);
          }
        }
      }
      StepKeepsInv(w, w', p);
    } else {
      FinishKeepsInv(w, p, DatabaseError);
    }
  }

  lemma DatabaseKeepsInv(w: World, p: Pid, ok: bool)
    requires Inv(w) && Enabled(TRUSTED, w, Database(p, ok))
    ensures Inv(Next(w, Database(p, ok)))
  {
    match w.procs[p]
    case Reserve(_, _, _, _) => ReserveKeepsInv(w, p, ok);
    case Persist(_, _, _, _, _, _) => PersistKeepsInv(w, p, ok);
    case Clear(_, _, _) => ClearKeepsInv(w, p, ok);
    case Loaded(_, _) => LoadedKeepsInv(w, p, ok);
    case Lookup(_, _) => LookupKeepsInv(w, p, ok);
    case Rejournal(_, _) => RejournalKeepsInv(w, p, ok);
    case Reconcile(_, _) => ReconcileCommitKeepsInv(w, p, ok);
  }

  // ---- All steps, all runs ----------------------------------------------------------------

  lemma TickKeepsInv(w: World, seconds: nat)
    requires Inv(w)
    ensures Inv(Next(w, Tick(seconds)))
  {
    var w' := Next(w, Tick(seconds));
    forall p | p in w.procs
      ensures ProcOk(w', w.procs[p])
    {
      assert ProcOk(w, w.procs[p]);
    }
  }

  lemma BeginKeepsInv(w: World, e: Event)
    requires Inv(w) && Enabled(TRUSTED, w, e)
    requires e.BeginUpload? || e.BeginReplace? || e.BeginDelete? || e.BeginReconcile?
    ensures Inv(Next(w, e))
  {
    match e
    case BeginUpload(p, owner, id) => BeginUploadKeepsInv(w, p, owner, id);
    case BeginReplace(p, owner, target, id) => BeginReplaceKeepsInv(w, p, owner, target, id);
    case BeginDelete(p, owner, target) => BeginDeleteKeepsInv(w, p, owner, target);
    case BeginReconcile(p, limit, batch) => BeginReconcileKeepsInv(w, p, limit, batch);
  }

  /** Every event the surroundings allow keeps the invariant. */
  lemma StepIsSafe(w: World, e: Event)
    requires Inv(w) && Enabled(TRUSTED, w, e)
    ensures Inv(Next(w, e))
  {
    match e
    case Tick(seconds) => TickKeepsInv(w, seconds);
    case Database(p, ok) => DatabaseKeepsInv(w, p, ok);
    case Storage(p, ok) => StorageKeepsInv(w, p, ok);
    case ParseDone(p, outcome) => ParseKeepsInv(w, p, outcome);
    case Crash(p) => FinishKeepsInv(w, p, Killed);
    case DeleteLost(p) => DeleteLostKeepsInv(w, p);
    case _ => BeginKeepsInv(w, e);
  }

  /** Safety of every run, whatever interleaves, crashes or fails: no stored object is orphaned,
    * no live resume dangles, and every committed row satisfies both status CHECKs. */
  lemma {:induction false} RunIsSafe(w: World, run: seq<Event>)
    requires Inv(w) && Possible(TRUSTED, w, run)
    ensures Inv(Run(w, run))
    ensures NoOrphan(Run(w, run)) && NoDangling(Run(w, run)) && RowsConsistent(Run(w, run))
  {
    if run != [] {
      RunIsSafe(w, run[..|run| - 1]);
      StepIsSafe(Run(w, run[..|run| - 1]), run[|run| - 1]);
    }
  }

  lemma EmptyIsSafe()
    ensures Inv(EMPTY)
  {
  }
}
