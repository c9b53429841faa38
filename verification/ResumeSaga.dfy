/** The resume storage saga as a transition system.

  Database rows and cleanup intents are transactional; stored objects are not.  Every await of
  `upload`, `replace`, `delete` and `reconcile_storage_cleanups` is one atomic event, and the
  events of any number of requests and reconcilers interleave freely with the passing of time
  and with crashes.  `Next` is total; `Enabled` says which events can happen.
 */
module ResumeSaga {
  import opened Wrappers

  type Id = nat
  type Owner = nat
  type Pid = nat

  /** `build_resume_object_key`: owner-scoped and determined by the resume id. */
  datatype Key = Key(owner: Owner, id: Id)

  datatype Status = Uploaded | Parsing | Parsed | ParseFailed | Deleted

  datatype Row = Row(owner: Owner, status: Status, errorCode: Option<string>, version: nat,
                     deletedAt: Option<int>)
  {
    predicate Live() { status != Deleted }
  }

  /** The CHECK constraints on the status columns of the resumes table. */
  predicate ChecksHold(row: Row) {
    && (row.status == Deleted <==> row.deletedAt.Some?)
    && (row.status == ParseFailed <==> row.errorCode.Some?)
    && row.version > 0
  }

  function KeyOf(id: Id, row: Row): Key {
    Key(row.owner, id)
  }

  /** A durable cleanup intent; `uid` is its primary key. */
  datatype Intent = Intent(uid: nat, availableAt: int, attempts: nat, lastError: Option<string>)

  const RESERVATION: int := 15 * 60
  const STORAGE_UNAVAILABLE: string := "RESUME_STORAGE_UNAVAILABLE"

  /** What a request answers, or how an operation ended. */
  datatype Reply =
    | Stored(id: Id)
    | Retired(id: Id)
    | Reconciled(removed: nat, failed: nat)
    | NotFound
    | ParseRejected
    | StorageUnavailable
    | ParserUnavailable
    | Conflict
    | DatabaseError
    | Killed

  datatype ParseOutcome = Accepted | Rejected(code: string) | ExecutionFailed

  /** The two flows that store a new object; `seen` is the row as the session loaded it. */
  datatype Flow = ForUpload | ForReplace(target: Id, seen: Row)

  /** One cleanup row held by a reconciler. */
  datatype Item = Item(key: Key, uid: nat)

  /** The program counter of a request or reconciler: the await it is suspended at. */
  datatype Proc =
    | Reserve(flow: Flow, owner: Owner, id: Id, deadline: int)
    | Store(flow: Flow, owner: Owner, id: Id, deadline: int, uid: nat)
    | Parse(flow: Flow, owner: Owner, id: Id, deadline: int, uid: nat)
    | Persist(flow: Flow, owner: Owner, id: Id, deadline: int, uid: nat, outcome: ParseOutcome)
    | Remove(key: Key, uid: nat, onFailure: Reply, onSuccess: Reply)
    | Clear(key: Key, uid: nat, reply: Reply)
    | Loaded(target: Id, seen: Row)
    | Lookup(target: Id, seen: Row)
    | Rejournal(target: Id, seen: Row)
    | Reconcile(batch: seq<Item>, outcomes: seq<bool>)
    | Finished(reply: Reply)
  {
    /** True while this process may still store an object under its own fresh key. */
    predicate Pending() { Reserve? || Store? || Parse? || Persist? }

    function NewKey(): Key requires Pending() { Key(owner, id) }

    /** What stays the same from reservation to publication. */
    function Job(): (Flow, Owner, Id) requires Pending() { (flow, owner, id) }

    predicate Removing() { Remove? || Clear? }

    /** About to remove the object of a row that is already soft-deleted. */
    predicate RemovesFor(id: Id, row: Row) {
      Remove? && key == Key(row.owner, id) && onFailure == StorageUnavailable && onSuccess == Retired(id)
    }

    /** True while this process holds the row it means to retire. */
    predicate Holding() {
      Loaded? || Lookup? || Rejournal? || (Pending() && flow.ForReplace?)
    }

    function HeldTarget(): Id requires Holding() { if Pending() then flow.target else target }

    function HeldRow(): Row requires Holding() { if Pending() then flow.seen else seen }
  }

  datatype World = World(
    now: int,
    rows: map<Id, Row>,
    journal: map<Key, Intent>,
    objects: set<Key>,
    procs: map<Pid, Proc>,
    issued: set<Id>,
    nextUid: nat)

  const EMPTY: World := World(0, map[], map[], {}, map[], {}, 0)

  predicate LiveKey(w: World, k: Key) {
    k.id in w.rows && w.rows[k.id].owner == k.owner && w.rows[k.id].Live()
  }

  // ---- Transactions -----------------------------------------------------------------------

  datatype NewRow = NewRow(id: Id, row: Row)
  datatype RowUpdate = RowUpdate(id: Id, seen: Row, next: Row)
  datatype Tx = Tx(insert: Option<NewRow>, update: Option<RowUpdate>, add: Option<Key>,
                   availableAt: int, drop: Option<Item>)
  datatype FlushOutcome = Passes | Stale | Violated

  /** What the database makes of the staged changes: the version check of the mapper, then the
    * CHECK constraints and the unique object key of the journal. */
  function Flush(w: World, tx: Tx): FlushOutcome {
    if tx.update.Some? && !(tx.update.value.id in w.rows
                            && w.rows[tx.update.value.id].version == tx.update.value.seen.version)
    then Stale
    else if || (tx.insert.Some? && !ChecksHold(tx.insert.value.row))
            || (tx.update.Some? && !ChecksHold(tx.update.value.next))
            || (tx.add.Some? && tx.add.value in w.journal)
    then Violated
    else Passes
  }

  function DropIntent(journal: map<Key, Intent>, item: Item): map<Key, Intent> {
    if item.key in journal && journal[item.key].uid == item.uid then journal - {item.key} else journal
  }

  /** The tables after the transaction commits. */
  function Commit(w: World, tx: Tx): World {
    var rows1 := if tx.insert.Some? then w.rows[tx.insert.value.id := tx.insert.value.row] else w.rows;
    var rows2 := if tx.update.Some? then rows1[tx.update.value.id := tx.update.value.next] else rows1;
    var journal1 := if tx.drop.Some? then DropIntent(w.journal, tx.drop.value) else w.journal;
    var journal2 := if tx.add.Some?
                    then journal1[tx.add.value := Intent(w.nextUid, tx.availableAt, 0, None)]
                    else journal1;
    w.(rows := rows2, journal := journal2, nextUid := if tx.add.Some? then w.nextUid + 1 else w.nextUid)
  }

  /** The soft-deleted version of a row: only status, deletion time and version are assigned. */
  function Retire(seen: Row, now: int): Row {
    seen.(status := Deleted, deletedAt := Some(now), version := seen.version + 1)
  }

  function FreshRow(owner: Owner, outcome: ParseOutcome): Row {
    match outcome
    case Rejected(code) => Row(owner, ParseFailed, Some(code), 1, None)
    case _ => Row(owner, Parsed, None, 1, None)
  }

  /** The transaction that publishes a new resume and, for a replacement, retires the old one. */
  function PersistTx(w: World, x: Proc): Tx
    requires x.Persist?
  {
    var row := NewRow(x.id, FreshRow(x.owner, x.outcome));
    var drop := Some(Item(x.NewKey(), x.uid));
    match x.flow
    case ForUpload => Tx(Some(row), None, None, w.now, drop)
    case ForReplace(target, seen) =>
      Tx(Some(row), Some(RowUpdate(target, seen, Retire(seen, w.now))), Some(KeyOf(target, seen)), w.now, drop)
  }

  function DeleteTx(w: World, target: Id, seen: Row): Tx {
    Tx(None, Some(RowUpdate(target, seen, Retire(seen, w.now))), Some(KeyOf(target, seen)), w.now, None)
  }

  function IntentTx(key: Key, availableAt: int): Tx {
    Tx(None, None, Some(key), availableAt, None)
  }

  function ClearTx(w: World, key: Key, uid: nat): Tx {
    Tx(None, None, None, w.now, Some(Item(key, uid)))
  }

  // ---- Reconciliation batches -------------------------------------------------------------

  predicate Locked(w: World, k: Key) {
    exists p, i :: p in w.procs && w.procs[p].Reconcile? && 0 <= i < |w.procs[p].batch|
                   && w.procs[p].batch[i].key == k
  }

  /** A row `list_due_for_update` may return: due, and not locked by another reconciler. */
  predicate Due(w: World, k: Key) {
    k in w.journal && w.journal[k].availableAt <= w.now && !Locked(w, k)
  }

  /** The order of the query: availability time, then primary key. */
  predicate Before(a: Intent, b: Intent) {
    a.availableAt < b.availableAt || (a.availableAt == b.availableAt && a.uid <= b.uid)
  }

  /** The first `limit` due rows in query order. */
  predicate IsBatch(w: World, batch: seq<Item>, limit: nat) {
    && |batch| <= limit
    && (forall i :: 0 <= i < |batch| ==> Due(w, batch[i].key) && w.journal[batch[i].key].uid == batch[i].uid)
    && (forall i, j :: 0 <= i < j < |batch| ==>
          batch[i].key != batch[j].key && Before(w.journal[batch[i].key], w.journal[batch[j].key]))
    && (forall k :: k in w.journal && Due(w, k) ==>
          || Item(k, w.journal[k].uid) in batch
          || (|batch| == limit && forall i :: 0 <= i < |batch| ==> Before(w.journal[batch[i].key], w.journal[k])))
  }

  /** The journal after a reconciler commits: deleted objects lose their intent, failed ones are
    * counted. */
  function Settle(journal: map<Key, Intent>, batch: seq<Item>, outcomes: seq<bool>): map<Key, Intent>
    requires |batch| == |outcomes|
  {
    if batch == [] then journal
    else
      var rest := Settle(journal, batch[..|batch| - 1], outcomes[..|batch| - 1]);
      var k := batch[|batch| - 1].key;
      if outcomes[|batch| - 1] then rest - {k}
      else if k in rest then rest[k := rest[k].(attempts := rest[k].attempts + 1,
                                                lastError := Some(STORAGE_UNAVAILABLE))]
      else rest
  }

  function CountOf(outcomes: seq<bool>, value: bool): nat {
    if outcomes == [] then 0
    else CountOf(outcomes[..|outcomes| - 1], value) + (if outcomes[|outcomes| - 1] == value then 1 else 0)
  }

  // ---- Events -----------------------------------------------------------------------------

  datatype Event =
    | Tick(seconds: nat)
    | BeginUpload(p: Pid, owner: Owner, id: Id)
    | BeginReplace(p: Pid, owner: Owner, target: Id, id: Id)
    | BeginDelete(p: Pid, owner: Owner, target: Id)
    | BeginReconcile(p: Pid, limit: nat, batch: seq<Item>)
    | Database(p: Pid, ok: bool)            // the next commit (or journal lookup) of p
    | Storage(p: Pid, ok: bool)             // the next object-store call of p
    | ParseDone(p: Pid, outcome: ParseOutcome)
    | Crash(p: Pid)
    | DeleteLost(p: Pid)                    // the object is deleted, yet the call raises
    | UploadLost(p: Pid)                    // the object is stored, yet the call raises
    | CommitLost(p: Pid)                    // the transaction commits, yet the call raises

  /** What the code takes for granted about its surroundings. */
  datatype Assumptions = Assumptions(deadlineKept: bool, uploadHonest: bool, commitHonest: bool)

  const TRUSTED: Assumptions := Assumptions(true, true, true)

  predicate Free(w: World, p: Pid) {
    p !in w.procs || w.procs[p].Finished?
  }

  predicate InTime(a: Assumptions, w: World, x: Proc)
    requires x.Store? || x.Persist?
  {
    a.deadlineKept ==> w.now < x.deadline
  }

  /** A commit that deletes a row locked by a reconciler waits for it. */
  predicate CommitReady(w: World, x: Proc) {
    match x
    case Reserve(_, _, _, _) => true
    case Persist(_, _, _, _, _, _) => !Locked(w, x.NewKey())
    case Clear(key, _, _) => !Locked(w, key)
    case Loaded(_, _) => true
    case Lookup(_, _) => true
    case Rejournal(_, _) => true
    case Reconcile(batch, outcomes) => |outcomes| == |batch|
    case _ => false
  }

  predicate Enabled(a: Assumptions, w: World, e: Event) {
    match e
    case Tick(_) => true
    case BeginUpload(p, _, id) => Free(w, p) && id !in w.issued
    case BeginReplace(p, _, _, id) => Free(w, p) && id !in w.issued
    case BeginDelete(p, _, _) => Free(w, p)
    case BeginReconcile(p, limit, batch) => Free(w, p) && IsBatch(w, batch, limit)
    case Database(p, ok) =>
      && p in w.procs
      && (w.procs[p].Reconcile? ==> |w.procs[p].outcomes| == |w.procs[p].batch|)
      && (w.procs[p].Reserve? || w.procs[p].Persist? || w.procs[p].Clear? || w.procs[p].Loaded?
          || w.procs[p].Lookup? || w.procs[p].Rejournal? || w.procs[p].Reconcile?)
      && (ok ==> CommitReady(w, w.procs[p]) && (w.procs[p].Persist? ==> InTime(a, w, w.procs[p])))
    case Storage(p, ok) =>
      && p in w.procs
      && (w.procs[p].Store? || w.procs[p].Remove?
          || (w.procs[p].Reconcile? && |w.procs[p].outcomes| < |w.procs[p].batch|))
      && (ok && w.procs[p].Store? ==> InTime(a, w, w.procs[p]))
    case ParseDone(p, _) => p in w.procs && w.procs[p].Parse?
    case Crash(p) => p in w.procs && !w.procs[p].Finished?
    case DeleteLost(p) =>
      p in w.procs && (w.procs[p].Remove? || (w.procs[p].Reconcile? && |w.procs[p].outcomes| < |w.procs[p].batch|))
    case UploadLost(p) => !a.uploadHonest && p in w.procs && w.procs[p].Store? && InTime(a, w, w.procs[p])
    case CommitLost(p) =>
      && !a.commitHonest && p in w.procs && w.procs[p].Persist?
      && CommitReady(w, w.procs[p]) && InTime(a, w, w.procs[p])
  }

  function Goto(w: World, p: Pid, x: Proc): World {
    w.(procs := w.procs[p := x])
  }

  /** How a failed publication continues: delete the new object, keep the intent if that fails. */
  function Compensate(x: Proc, reply: Reply): Proc
    requires x.Parse? || x.Persist?
  {
    Remove(x.NewKey(), x.uid, reply, reply)
  }

  function DatabaseStep(w: World, p: Pid, ok: bool): World
    requires p in w.procs
  {
    var x := w.procs[p];
    match x
    case Reserve(flow, owner, id, deadline) =>
      var tx := IntentTx(x.NewKey(), deadline);
      if ok && Flush(w, tx).Passes?
      then Goto(Commit(w, tx), p, Store(flow, owner, id, deadline, w.nextUid))
      else Goto(w, p, Finished(DatabaseError))
    case Persist(flow, owner, id, deadline, uid, outcome) =>
      var tx := PersistTx(w, x);
      if !ok then Goto(w, p, Compensate(x, DatabaseError))
      else match Flush(w, tx) {
        case Stale => Goto(w, p, Compensate(x, Conflict))
        case Violated => Goto(w, p, Compensate(x, DatabaseError))
        case Passes =>
          var done := Commit(w, tx);
          match flow {
            case ForUpload =>
              Goto(done, p, Finished(if outcome.Rejected? then ParseRejected else Stored(id)))
            case ForReplace(target, seen) =>
              Goto(done, p, Remove(KeyOf(target, seen), w.nextUid, StorageUnavailable, Stored(id)))
          }
      }
    case Clear(key, uid, reply) =>
      Goto(if ok then Commit(w, ClearTx(w, key, uid)) else w, p, Finished(reply))
    case Loaded(target, seen) =>
      var tx := DeleteTx(w, target, seen);
      if !ok then Goto(w, p, Finished(DatabaseError))
      else match Flush(w, tx) {
        case Stale => Goto(w, p, Finished(Conflict))
        case Violated => Goto(w, p, Finished(DatabaseError))
        case Passes =>
          Goto(Commit(w, tx), p, Remove(KeyOf(target, seen), w.nextUid, StorageUnavailable, Retired(target)))
      }
    case Lookup(target, seen) =>
      var key := KeyOf(target, seen);
      if !ok then Goto(w, p, Finished(DatabaseError))
      else if key in w.journal
      then Goto(w, p, Remove(key, w.journal[key].uid, StorageUnavailable, Retired(target)))
      else Goto(w, p, Rejournal(target, seen))
    case Rejournal(target, seen) =>
      var key := KeyOf(target, seen);
      var tx := IntentTx(key, w.now);
      if ok && Flush(w, tx).Passes?
      then Goto(Commit(w, tx), p, Remove(key, w.nextUid, StorageUnavailable, Retired(target)))
      else Goto(w, p, Finished(DatabaseError))
    case Reconcile(batch, outcomes) =>
      if ok && |outcomes| == |batch|
      then Goto(w.(journal := Settle(w.journal, batch, outcomes)), p,
                Finished(Reconciled(CountOf(outcomes, true), CountOf(outcomes, false))))
      else Goto(w, p, Finished(DatabaseError))
    case _ => w
  }

  function StorageStep(w: World, p: Pid, ok: bool): World
    requires p in w.procs
  {
    var x := w.procs[p];
    match x
    case Store(flow, owner, id, deadline, uid) =>
      if ok
      then Goto(w.(objects := w.objects + {x.NewKey()}), p, Parse(flow, owner, id, deadline, uid))
      else Goto(w, p, Clear(x.NewKey(), uid, StorageUnavailable))
    case Remove(key, uid, onFailure, onSuccess) =>
      if ok
      then Goto(w.(objects := w.objects - {key}), p, Clear(key, uid, onSuccess))
      else Goto(w, p, Finished(onFailure))
    case Reconcile(batch, outcomes) =>
      if |outcomes| < |batch|
      then Goto(if ok then w.(objects := w.objects - {batch[|outcomes|].key}) else w, p,
                Reconcile(batch, outcomes + [ok]))
      else w
    case _ => w
  }

  /** A delete whose response is lost: the program takes it for refused. */
  function DeleteLostStep(w: World, p: Pid): World
    requires p in w.procs
  {
    match w.procs[p]
    case Remove(key, _, _, _) => StorageStep(w.(objects := w.objects - {key}), p, false)
    case Reconcile(batch, outcomes) =>
      if |outcomes| < |batch| then StorageStep(w.(objects := w.objects - {batch[|outcomes|].key}), p, false) else w
    case _ => w
  }

  function ParseStep(w: World, p: Pid, outcome: ParseOutcome): World
    requires p in w.procs
  {
    var x := w.procs[p];
    match x
    case Parse(flow, owner, id, deadline, uid) =>
      if outcome.ExecutionFailed? then Goto(w, p, Compensate(x, ParserUnavailable))
      else if outcome.Rejected? && flow.ForReplace? then Goto(w, p, Compensate(x, ParseRejected))
      else Goto(w, p, Persist(flow, owner, id, deadline, uid, outcome))
    case _ => w
  }

  /** `get_owned`, without and with the deleted rows. */
  predicate Owned(w: World, target: Id, owner: Owner, includeDeleted: bool) {
    target in w.rows && w.rows[target].owner == owner && (includeDeleted || w.rows[target].Live())
  }

  function Next(w: World, e: Event): World {
    match e
    case Tick(seconds) => w.(now := w.now + seconds)
    case BeginUpload(p, owner, id) =>
      Goto(w.(issued := w.issued + {id}), p, Reserve(ForUpload, owner, id, w.now + RESERVATION))
    case BeginReplace(p, owner, target, id) =>
      if Owned(w, target, owner, false)
      then Goto(w.(issued := w.issued + {id}), p,
                Reserve(ForReplace(target, w.rows[target]), owner, id, w.now + RESERVATION))
      else Goto(w, p, Finished(NotFound))
    case BeginDelete(p, owner, target) =>
      if !Owned(w, target, owner, true) then Goto(w, p, Finished(NotFound))
      else if w.rows[target].Live() then Goto(w, p, Loaded(target, w.rows[target]))
      else Goto(w, p, Lookup(target, w.rows[target]))
    case BeginReconcile(p, _, batch) => Goto(w, p, Reconcile(batch, []))
    case Database(p, ok) => if p in w.procs then DatabaseStep(w, p, ok) else w
    case Storage(p, ok) => if p in w.procs then StorageStep(w, p, ok) else w
    case ParseDone(p, outcome) => if p in w.procs then ParseStep(w, p, outcome) else w
    case Crash(p) => Goto(w, p, Finished(Killed))
    case DeleteLost(p) => if p in w.procs then DeleteLostStep(w, p) else w
    case UploadLost(p) =>
      if p in w.procs && w.procs[p].Store? then
        var x := w.procs[p];
        Goto(w.(objects := w.objects + {x.NewKey()}), p, Clear(x.NewKey(), x.uid, StorageUnavailable))
      else w
    case CommitLost(p) =>
      if p in w.procs && w.procs[p].Persist? && Flush(w, PersistTx(w, w.procs[p])).Passes? then
        Goto(Commit(w, PersistTx(w, w.procs[p])), p, Compensate(w.procs[p], DatabaseError))
      else w
  }

  // ---- Runs -------------------------------------------------------------------------------

  function Run(w: World, run: seq<Event>): World {
    if run == [] then w else Next(Run(w, run[..|run| - 1]), run[|run| - 1])
  }

  /** Every event of the run is possible where it happens. */
  predicate Possible(a: Assumptions, w: World, run: seq<Event>) {
    run == [] || (Possible(a, w, run[..|run| - 1]) && Enabled(a, Run(w, run[..|run| - 1]), run[|run| - 1]))
  }
}
