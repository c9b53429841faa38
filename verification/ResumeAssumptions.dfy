/** Each of the three assumptions behind the safety theorem is needed: dropping any one of them
  * alone admits a short run that loses track of an object or a resume. */
module ResumeAssumptions {
  import opened Wrappers
  import opened ResumeSaga
  import opened ResumeSafety

  /** One more event at the end of a run. */
  lemma Extend(a: Assumptions, w: World, run: seq<Event>, e: Event)
    requires Possible(a, w, run) && Enabled(a, Run(w, run), e)
    ensures Possible(a, w, run + [e]) && Run(w, run + [e]) == Next(Run(w, run), e)
  {
    assert (run + [e])[..|run + [e]| - 1] == run;
  }

  /** A request by owner 7 reserves key 0 and stops just before it stores the object. */
  lemma ReserveFirst(a: Assumptions) returns (run: seq<Event>, w: World)
    ensures Possible(a, EMPTY, run) && w == Run(EMPTY, run)
    ensures w == World(0, map[], map[Key(7, 0) := Intent(0, RESERVATION, 0, None)], {},
                       map[0 := Store(ForUpload, 7, 0, RESERVATION, 0)], {0}, 1)
  {
    run := [];
    Extend(a, EMPTY, run, BeginUpload(0, 7, 0));
    run := run + [BeginUpload(0, 7, 0)];
    Extend(a, EMPTY, run, Database(0, true));
    run := run + [Database(0, true)];
    w := Run(EMPTY, run);
  }

  lemma ExpiredIsBatch(w: World)
    requires w.now == RESERVATION && w.journal == map[Key(7, 0) := Intent(0, RESERVATION, 0, None)]
    requires forall p :: p in w.procs ==> !w.procs[p].Reconcile?
    ensures IsBatch(w, [Item(Key(7, 0), 0)], 1)
  {
    var batch := [Item(Key(7, 0), 0)];
    assert batch[0] == Item(Key(7, 0), 0);
    assert Due(w, Key(7, 0));
  }

  ghost predicate Expiring(w: World) {
    && w.now == 0 && w.journal == map[Key(7, 0) := Intent(0, RESERVATION, 0, None)]
    && w.procs.Keys == {0} && !w.procs[0].Reconcile?
  }

  const EXPIRED: seq<Item> := [Item(Key(7, 0), 0)]

  /** The world while a reconciler holds the expired reservation of key 0. */
  function Taken(w: World, outcomes: seq<bool>, objects: set<Key>): World {
    World(RESERVATION, w.rows, w.journal, objects, w.procs[1 := Reconcile(EXPIRED, outcomes)], w.issued, w.nextUid)
  }

  lemma TakeStep(a: Assumptions, w: World)
    requires Expiring(w)
    ensures var w1 := Next(w, Tick(RESERVATION as nat));
            Enabled(a, w1, BeginReconcile(1, 1, EXPIRED))
            && Next(w1, BeginReconcile(1, 1, EXPIRED)) == Taken(w, [], w.objects)
  {
    ExpiredIsBatch(Next(w, Tick(RESERVATION as nat)));
  }

  lemma TakenStep(a: Assumptions, w: World)
    ensures Enabled(a, Taken(w, [], w.objects), Storage(1, true))
    ensures Next(Taken(w, [], w.objects), Storage(1, true)) == Taken(w, [true], w.objects - {Key(7, 0)})
  {
    assert [] + [true] == [true];
    assert w.procs[1 := Reconcile(EXPIRED, [])][1 := Reconcile(EXPIRED, [true])]
        == w.procs[1 := Reconcile(EXPIRED, [true])];
  }

  /** A reconciler takes the expired reservation of key 0 and deletes its object. */
  lemma TakeExpired(a: Assumptions, run0: seq<Event>, w0: World) returns (run: seq<Event>)
    requires Possible(a, EMPTY, run0) && w0 == Run(EMPTY, run0) && Expiring(w0)
    ensures Possible(a, EMPTY, run) && Run(EMPTY, run) == Taken(w0, [true], w0.objects - {Key(7, 0)})
  {
    TakeStep(a, w0);
    TakenStep(a, w0);
    Extend(a, EMPTY, run0, Tick(RESERVATION as nat));
    run := run0 + [Tick(RESERVATION as nat)];
    Extend(a, EMPTY, run, BeginReconcile(1, 1, EXPIRED));
    run := run + [BeginReconcile(1, 1, EXPIRED)];
    Extend(a, EMPTY, run, Storage(1, true));
    run := run + [Storage(1, true)];
  }

  lemma SettledStep(a: Assumptions, w: World, objects: set<Key>)
    requires Expiring(w)
    ensures var w1 := Taken(w, [true], objects);
            && Enabled(a, w1, Database(1, true))
            && Next(w1, Database(1, true))
               == World(RESERVATION, w.rows, map[], objects, w.procs[1 := Finished(Reconciled(1, 0))], w.issued, w.nextUid)
  {
    assert EXPIRED[..0] == [] && [true][..0] == [];
    assert Settle(w.journal, EXPIRED, [true]) == map[];
    assert CountOf([true], true) == 1 && CountOf([true], false) == 0;
    assert w.procs[1 := Reconcile(EXPIRED, [true])][1 := Finished(Reconciled(1, 0))]
        == w.procs[1 := Finished(Reconciled(1, 0))];
  }

  /** ... and commits. */
  lemma ReconcileExpired(a: Assumptions, run0: seq<Event>, w0: World) returns (run: seq<Event>, w: World)
    requires Possible(a, EMPTY, run0) && w0 == Run(EMPTY, run0) && Expiring(w0)
    ensures Possible(a, EMPTY, run) && w == Run(EMPTY, run)
    ensures w == World(RESERVATION, w0.rows, map[], w0.objects - {Key(7, 0)},
                       w0.procs[1 := Finished(Reconciled(1, 0))], w0.issued, w0.nextUid)
  {
    run := TakeExpired(a, run0, w0);
    SettledStep(a, w0, w0.objects - {Key(7, 0)});
    Extend(a, EMPTY, run, Database(1, true));
    run := run + [Database(1, true)];
    w := Run(EMPTY, run);
  }

  /** A request that outlives its reservation can store an object nobody will ever delete. */
  lemma LateUploadOrphans() returns (run: seq<Event>)
    ensures Possible(Assumptions(false, true, true), EMPTY, run) && !NoOrphan(Run(EMPTY, run))
  {
    var a := Assumptions(false, true, true);
    var run0, w0 := ReserveFirst(a);
    var run1, w1 := ReconcileExpired(a, run0, w0);
    Extend(a, EMPTY, run1, Storage(0, true));
    run := run1 + [Storage(0, true)];
    assert Key(7, 0) in Run(EMPTY, run).objects;
  }

  /** The request stores its object in time and has it parsed. */
  lemma StoreInTime(a: Assumptions) returns (run: seq<Event>, w: World)
    ensures Possible(a, EMPTY, run) && w == Run(EMPTY, run)
    ensures w == World(0, map[], map[Key(7, 0) := Intent(0, RESERVATION, 0, None)], {Key(7, 0)},
                       map[0 := Persist(ForUpload, 7, 0, RESERVATION, 0, Accepted)], {0}, 1)
  {
    var w0;
    run, w0 := ReserveFirst(a);
    Extend(a, EMPTY, run, Storage(0, true));
    run := run + [Storage(0, true)];
    Extend(a, EMPTY, run, ParseDone(0, Accepted));
    run := run + [ParseDone(0, Accepted)];
    w := Run(EMPTY, run);
  }

  /** A request that outlives its reservation can publish a resume whose object is already gone. */
  lemma LateCommitDangles() returns (run: seq<Event>)
    ensures Possible(Assumptions(false, true, true), EMPTY, run) && !NoDangling(Run(EMPTY, run))
  {
    var a := Assumptions(false, true, true);
    var run0, w0 := StoreInTime(a);
    var run1, w1 := ReconcileExpired(a, run0, w0);
    assert !Locked(w1, Key(7, 0));
    Extend(a, EMPTY, run1, Database(0, true));
    run := run1 + [Database(0, true)];
    assert Run(EMPTY, run).rows[0].Live();
  }

  /** An upload that raises after the object was stored orphans it: the intent is cleared. */
  lemma LostUploadOrphans() returns (run: seq<Event>)
    ensures Possible(Assumptions(true, false, true), EMPTY, run) && !NoOrphan(Run(EMPTY, run))
  {
    var a := Assumptions(true, false, true);
    var run0, w0 := ReserveFirst(a);
    Extend(a, EMPTY, run0, UploadLost(0));
    run := run0 + [UploadLost(0)];
    assert !Locked(Run(EMPTY, run), Key(7, 0));
    Extend(a, EMPTY, run, Database(0, true));
    run := run + [Database(0, true)];
    assert Key(7, 0) in Run(EMPTY, run).objects;
  }

  /** The request compensates although its row is live. */
  lemma LostCommitSteps(w: World)
    requires w == World(0, map[], map[Key(7, 0) := Intent(0, RESERVATION, 0, None)], {Key(7, 0)},
                        map[0 := Persist(ForUpload, 7, 0, RESERVATION, 0, Accepted)], {0}, 1)
    ensures var a := Assumptions(true, true, false);
            && Enabled(a, w, CommitLost(0))
            && Enabled(a, Next(w, CommitLost(0)), Storage(0, true))
            && !NoDangling(Next(Next(w, CommitLost(0)), Storage(0, true)))
  {
    assert !Locked(w, Key(7, 0));
    assert Next(Next(w, CommitLost(0)), Storage(0, true)).rows[0].Live();
  }

  /** A commit that raises after it took effect dangles: compensation deletes the live object. */
  lemma LostCommitDangles() returns (run: seq<Event>)
    ensures Possible(Assumptions(true, true, false), EMPTY, run) && !NoDangling(Run(EMPTY, run))
  {
    var a := Assumptions(true, true, false);
    var run0, w0 := StoreInTime(a);
    LostCommitSteps(w0);
    Extend(a, EMPTY, run0, CommitLost(0));
    run := run0 + [CommitLost(0)];
    Extend(a, EMPTY, run, Storage(0, true));
    run := run + [Storage(0, true)];
  }
}
