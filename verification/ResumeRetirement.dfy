/** Optimistic versioning makes the retirement of a resume happen at most once. */
module ResumeRetirement {
  import opened Wrappers
  import opened ResumeSaga
  import opened ResumeSafety
  import opened ResumeAssumptions

  /** A stored row may keep its value or be retired; it is never lost and never revived. */
  ghost predicate RowEvolves(before: Row, after: Row) {
    || after == before
    || (before.Live() && before.status != ParseFailed && exists at :: after == Retire(before, at))
  }

  ghost predicate RowsEvolve(w: World, w': World) {
    forall id :: id in w.rows ==> id in w'.rows && RowEvolves(w.rows[id], w'.rows[id])
  }

  // ---- Exactly when a retirement commits --------------------------------------------------

  /** A delete of a loaded row passes the database exactly when nobody changed the row since and
    * it is not PARSE_FAILED: the error code is not cleared, so the CHECK rejects that row. */
  lemma DeleteCommitsIff(w: World, p: Pid)
    requires Inv(w) && p in w.procs && w.procs[p].Loaded?
    ensures var x := w.procs[p];
            var flushed := Flush(w, DeleteTx(w, x.target, x.seen));
            && (flushed.Passes? <==> w.rows[x.target] == x.seen && x.seen.status != ParseFailed)
            && (flushed.Stale? <==> !w.rows[x.target].Live())
            && (flushed.Violated? <==> w.rows[x.target] == x.seen && x.seen.status == ParseFailed)
  {
    var x := w.procs[p];
    assert ProcOk(w, x);
  }

  /** An upload whose content the parser rejects, up to its commit. */
  lemma StoreRejected(code: string) returns (run: seq<Event>)
    ensures Possible(TRUSTED, EMPTY, run)
    ensures Run(EMPTY, run) == World(0, map[], map[Key(7, 0) := Intent(0, RESERVATION, 0, None)], {Key(7, 0)},
                                     map[0 := Persist(ForUpload, 7, 0, RESERVATION, 0, Rejected(code))], {0}, 1)
  {
    var w;
    run, w := ReserveFirst(TRUSTED);
    Extend(TRUSTED, EMPTY, run, Storage(0, true));
    run := run + [Storage(0, true)];
    Extend(TRUSTED, EMPTY, run, ParseDone(0, Rejected(code)));
    run := run + [ParseDone(0, Rejected(code))];
  }

  lemma PublishRejected(code: string) returns (run: seq<Event>)
    ensures Possible(TRUSTED, EMPTY, run)
    ensures Run(EMPTY, run) == World(0, map[0 := Row(7, ParseFailed, Some(code), 1, None)], map[], {Key(7, 0)},
                                     map[0 := Finished(ParseRejected)], {0}, 1)
  {
    run := StoreRejected(code);
    assert !Locked(Run(EMPTY, run), Key(7, 0));
    Extend(TRUSTED, EMPTY, run, Database(0, true));
    run := run + [Database(0, true)];
  }

  /** Such a row arises: a rejected upload stores it, and its owner's delete fails at the commit. */
  lemma ParseFailedDeleteFails(code: string) returns (run: seq<Event>)
    ensures Possible(TRUSTED, EMPTY, run)
    ensures var w := Run(EMPTY, run);
            && w.rows == map[0 := Row(7, ParseFailed, Some(code), 1, None)] && w.objects == {Key(7, 0)}
            && w.procs == map[0 := Finished(ParseRejected), 1 := Finished(DatabaseError)]
  {
    run := PublishRejected(code);
    Extend(TRUSTED, EMPTY, run, BeginDelete(1, 7, 0));
    run := run + [BeginDelete(1, 7, 0)];
    Extend(TRUSTED, EMPTY, run, Database(1, true));
    run := run + [Database(1, true)];
  }

  /** The same for a replacement: the new row always satisfies the CHECKs, the old one decides. */
  lemma ReplaceCommitsIff(w: World, p: Pid)
    requires Inv(w) && p in w.procs && w.procs[p].Persist? && w.procs[p].flow.ForReplace?
    ensures var x := w.procs[p];
            var flushed := Flush(w, PersistTx(w, x));
            && (flushed.Passes? <==> w.rows[x.flow.target] == x.flow.seen && x.flow.seen.status != ParseFailed)
            && (flushed.Stale? <==> !w.rows[x.flow.target].Live())
            && (flushed.Violated? <==> w.rows[x.flow.target] == x.flow.seen && x.flow.seen.status == ParseFailed)
  {
    var x := w.procs[p];
    assert ProcOk(w, x);
  }

  /** The loser of a race changes no row: its version check fails, a delete answers with a
    * conflict and a replacement goes on to delete its own new object. */
  lemma LoserChangesNoRow(w: World, p: Pid)
    requires Inv(w) && p in w.procs
    requires w.procs[p].Loaded? || (w.procs[p].Persist? && w.procs[p].flow.ForReplace?)
    requires !w.rows[w.procs[p].HeldTarget()].Live()
    ensures var w' := DatabaseStep(w, p, true);
            && w'.rows == w.rows && w'.journal == w.journal && w'.objects == w.objects
            && w'.procs[p] == if w.procs[p].Loaded? then Finished(Conflict)
                              else Remove(w.procs[p].NewKey(), w.procs[p].uid, Conflict, Conflict)
  {
    assert ProcOk(w, w.procs[p]);
  }

  // ---- One step ---------------------------------------------------------------------------

  /** Live resumes, counted by id. */
  ghost function LiveIds(w: World): set<Id> {
    set id | id in w.rows && w.rows[id].Live()
  }

  /** This event commits a new resume next to the existing ones. */
  predicate Publishes(w: World, e: Event) {
    && e.Database? && e.ok && e.p in w.procs && w.procs[e.p].Persist?
    && w.procs[e.p].flow.ForUpload? && Flush(w, PersistTx(w, w.procs[e.p])).Passes?
  }

  /** This event commits a replacement. */
  predicate Replaces(w: World, e: Event) {
    && e.Database? && e.ok && e.p in w.procs && w.procs[e.p].Persist?
    && w.procs[e.p].flow.ForReplace? && Flush(w, PersistTx(w, w.procs[e.p])).Passes?
  }

  /** This event commits a soft delete. */
  predicate Deletes(w: World, e: Event) {
    && e.Database? && e.ok && e.p in w.procs && w.procs[e.p].Loaded?
    && Flush(w, DeleteTx(w, w.procs[e.p].target, w.procs[e.p].seen)).Passes?
  }

  lemma PublicationAddsOne(w: World, e: Event)
    requires Inv(w) && Enabled(TRUSTED, w, e) && Publishes(w, e)
    ensures w.procs[e.p].id !in w.rows && LiveIds(Next(w, e)) == LiveIds(w) + {w.procs[e.p].id}
  {
    assert ProcOk(w, w.procs[e.p]);
  }

  lemma ReplacementSwapsOne(w: World, e: Event)
    requires Inv(w) && Enabled(TRUSTED, w, e) && Replaces(w, e)
    ensures w.procs[e.p].id !in w.rows && w.procs[e.p].flow.target in LiveIds(w)
    ensures LiveIds(Next(w, e)) == LiveIds(w) - {w.procs[e.p].flow.target} + {w.procs[e.p].id}
  {
    assert ProcOk(w, w.procs[e.p]);
    ReplaceCommitsIff(w, e.p);
  }

  lemma DeletionTakesOne(w: World, e: Event)
    requires Inv(w) && Enabled(TRUSTED, w, e) && Deletes(w, e)
    ensures w.procs[e.p].target in LiveIds(w) && LiveIds(Next(w, e)) == LiveIds(w) - {w.procs[e.p].target}
  {
    assert ProcOk(w, w.procs[e.p]);
    DeleteCommitsIff(w, e.p);
  }

  /** No other event touches the resumes table. */
  lemma OtherEventsKeepRows(w: World, e: Event)
    requires Enabled(TRUSTED, w, e) && !Publishes(w, e) && !Replaces(w, e) && !Deletes(w, e)
    ensures Next(w, e).rows == w.rows
  {
    match e
    case Database(p, ok) => assert DatabaseStep(w, p, ok).rows == w.rows;
    case Storage(p, ok) => assert StorageStep(w, p, ok).rows == w.rows;
    case DeleteLost(p) => assert DeleteLostStep(w, p).rows == w.rows;
    case _ =>
  }

  lemma StepOnRows(w: World, e: Event)
    requires Inv(w) && Enabled(TRUSTED, w, e)
    ensures RowsEvolve(w, Next(w, e))
  {
    if Publishes(w, e) {
      PublicationAddsOne(w, e);
    } else if Replaces(w, e) {
      ReplacementSwapsOne(w, e);
      assert ProcOk(w, w.procs[e.p]);
      ReplaceCommitsIff(w, e.p);
    } else if Deletes(w, e) {
      DeleteCommitsIff(w, e.p);
    } else {
      OtherEventsKeepRows(w, e);
    }
  }

  lemma StepOnCount(w: World, e: Event)
    requires Inv(w) && Enabled(TRUSTED, w, e)
    ensures |LiveIds(Next(w, e))| + (if Deletes(w, e) then 1 else 0)
            == |LiveIds(w)| + (if Publishes(w, e) then 1 else 0)
  {
    if Publishes(w, e) {
      PublicationAddsOne(w, e);
    } else if Replaces(w, e) {
      ReplacementSwapsOne(w, e);
    } else if Deletes(w, e) {
      DeletionTakesOne(w, e);
    } else {
      OtherEventsKeepRows(w, e);
      assert LiveIds(Next(w, e)) == LiveIds(w);
    }
  }

  // ---- All runs ---------------------------------------------------------------------------

  function CountEvents(kind: (World, Event) -> bool, w: World, run: seq<Event>): nat {
    if run == [] then 0
    else CountEvents(kind, w, run[..|run| - 1])
         + (if kind(Run(w, run[..|run| - 1]), run[|run| - 1]) then 1 else 0)
  }

  /** Conservation: over any run the number of live resumes grows by the uploads that committed
    * and shrinks by the deletes that committed; replacements leave it unchanged. */
  lemma {:induction false} LiveResumesConserved(w: World, run: seq<Event>)
    requires Inv(w) && Possible(TRUSTED, w, run)
    ensures |LiveIds(Run(w, run))| + CountEvents(Deletes, w, run) == |LiveIds(w)| + CountEvents(Publishes, w, run)
  {
    if run != [] {
      var before := run[..|run| - 1];
      LiveResumesConserved(w, before);
      RunIsSafe(w, before);
      StepOnCount(Run(w, before), run[|run| - 1]);
    }
  }

  /** Over any run a row is retired at most once: a deleted row stays as it is for ever, and so
    * does a PARSE_FAILED row, which no delete or replacement can retire. */
  lemma {:induction false} SettledRowsAreFinal(w: World, run: seq<Event>, id: Id)
    requires Inv(w) && Possible(TRUSTED, w, run)
    requires id in w.rows && (!w.rows[id].Live() || w.rows[id].status == ParseFailed)
    ensures id in Run(w, run).rows && Run(w, run).rows[id] == w.rows[id]
  {
    if run != [] {
      var before := run[..|run| - 1];
      SettledRowsAreFinal(w, before, id);
      RunIsSafe(w, before);
      StepOnRows(Run(w, before), run[|run| - 1]);
    }
  }

  /** Two requests that loaded the same row: once either has retired it, then for the rest of
    * the run the other can only lose. */
  lemma OneWinner(w: World, e: Event, run: seq<Event>, q: Pid)
    requires Inv(w) && Enabled(TRUSTED, w, e) && (Replaces(w, e) || Deletes(w, e))
    requires Possible(TRUSTED, Next(w, e), run)
    requires var last := Run(Next(w, e), run);
             && q in last.procs
             && (last.procs[q].Loaded? || (last.procs[q].Persist? && last.procs[q].flow.ForReplace?))
             && last.procs[q].HeldTarget() == w.procs[e.p].HeldTarget()
    ensures DatabaseStep(Run(Next(w, e), run), q, true).rows == Run(Next(w, e), run).rows
  {
    var target := w.procs[e.p].HeldTarget();
    StepIsSafe(w, e);
    assert target in Next(w, e).rows && !Next(w, e).rows[target].Live() by {
      StepOnRows(w, e);
      if Replaces(w, e) { ReplacementSwapsOne(w, e); } else { DeletionTakesOne(w, e); }
      assert target in LiveIds(w) && target !in LiveIds(Next(w, e));
    }
    SettledRowsAreFinal(Next(w, e), run, target);
    RunIsSafe(Next(w, e), run);
    LoserChangesNoRow(Run(Next(w, e), run), q);
  }
}
