/** The bounded thread executor of app/resumes/execution.py: a semaphore whose permits follow the
  * worker threads, not the callers waiting for them. */
module ParseExecutor {
  import opened Facts
  import opened Wrappers

  type CallId = nat

  /** A worker thread: running, or how it ended. */
  datatype Worker = Running | Succeeded | DomainError | RaisedTimeout | RaisedOther

  datatype Result = Parsed | ApplicationError | ExecutionError | Cancelled

  /** A call of `parse`: waiting for a permit, awaiting its worker, gone while the done-callback
    * of its worker still owes the release, or over. */
  datatype Call =
    | Waiting
    | Awaiting(worker: Worker)
    | Deferred(worker: Worker, result: Result)
    | Closed(result: Result)
  {
    predicate HoldsSlot() { Awaiting? || Deferred? }
    predicate Unfinished() { HoldsSlot() && worker.Running? }
  }

  datatype State = State(permits: nat, calls: map<CallId, Call>)

  datatype Event =
    | Arrive(c: CallId)
    | Acquire(c: CallId)
    | WorkerEnds(c: CallId, worker: Worker)
    | Deliver(c: CallId)        // the await of the worker returns or raises
    | TimeOut(c: CallId)
    | Cancel(c: CallId)
    | Callback(c: CallId)       // _release_worker_slot

  predicate Enabled(s: State, e: Event) {
    match e
    case Arrive(c) => c !in s.calls
    case Acquire(c) => c in s.calls && s.calls[c].Waiting? && s.permits > 0
    case WorkerEnds(c, worker) => c in s.calls && s.calls[c].Unfinished() && !worker.Running?
    case Deliver(c) => c in s.calls && s.calls[c].Awaiting? && !s.calls[c].worker.Running?
    case TimeOut(c) => c in s.calls && s.calls[c].Awaiting?
    case Cancel(c) => c in s.calls && (s.calls[c].Waiting? || s.calls[c].Awaiting?)
    case Callback(c) => c in s.calls && s.calls[c].Deferred? && !s.calls[c].worker.Running?
  }

  /** How a finished worker is reported; its own TimeoutError takes the deferred path. */
  function Outcome(worker: Worker): Result {
    match worker
    case Succeeded => Parsed
    case DomainError => ApplicationError
    case _ => ExecutionError
  }

  function Next(s: State, e: Event): State {
    if !Enabled(s, e) then s
    else match e
      case Arrive(c) => s.(calls := s.calls[c := Waiting])
      case Acquire(c) => State(s.permits - 1, s.calls[c := Awaiting(Running)])
      case WorkerEnds(c, worker) =>
        s.(calls := s.calls[c := if s.calls[c].Awaiting? then Awaiting(worker) else Deferred(worker, s.calls[c].result)])
      case Deliver(c) =>
        if s.calls[c].worker.RaisedTimeout? then s.(calls := s.calls[c := Deferred(RaisedTimeout, ExecutionError)])
        else State(s.permits + 1, s.calls[c := Closed(Outcome(s.calls[c].worker))])
      case TimeOut(c) => s.(calls := s.calls[c := Deferred(s.calls[c].worker, ExecutionError)])
      case Cancel(c) =>
        s.(calls := s.calls[c := if s.calls[c].Waiting? then Closed(Cancelled) else Deferred(s.calls[c].worker, Cancelled)])
      case Callback(c) => State(s.permits + 1, s.calls[c := Closed(s.calls[c].result)])
  }

  function Holders(s: State): set<CallId> {
    set c | c in s.calls && s.calls[c].HoldsSlot()
  }

  function UnfinishedWorkers(s: State): set<CallId> {
    set c | c in s.calls && s.calls[c].Unfinished()
  }

  /** Conservation of permits. */
  ghost predicate Conserved(s: State, maxConcurrency: nat) {
    s.permits + |Holders(s)| == maxConcurrency
  }

  predicate Acquires(s: State, e: Event, c: CallId) {
    Enabled(s, e) && e == Acquire(c)
  }

  /** This event gives the permit of c back. */
  predicate Releases(s: State, e: Event, c: CallId) {
    Enabled(s, e) && ((e == Deliver(c) && !s.calls[c].worker.RaisedTimeout?) || e == Callback(c))
  }

  /** One step: the holders change by exactly the call that acquires or releases, the permits move
    * the other way, and a release only happens once the worker has ended. */
  lemma StepMovesOneSlot(s: State, e: Event)
    ensures var s' := Next(s, e);
            && (Acquires(s, e, e.c) ==> Holders(s') == Holders(s) + {e.c} && e.c !in Holders(s) && s'.permits == s.permits - 1)
            && (Releases(s, e, e.c) ==>
                  && Holders(s') == Holders(s) - {e.c} && e.c in Holders(s) && s'.permits == s.permits + 1
                  && e.c !in UnfinishedWorkers(s) && s'.calls[e.c].Closed?)
            && (!Acquires(s, e, e.c) && !Releases(s, e, e.c) ==> Holders(s') == Holders(s) && s'.permits == s.permits)
  {
  }

  function Run(s: State, run: seq<Event>): State {
    if run == [] then s else Next(Run(s, run[..|run| - 1]), run[|run| - 1])
  }

  function Start(maxConcurrency: nat): State {
    State(maxConcurrency, map[])
  }

  /** In every run free permits and held slots add up to the limit, so no more than
    * `maxConcurrency` worker threads are ever unfinished; when nobody holds a slot all are free. */
  lemma {:induction false} SlotsAreConserved(maxConcurrency: nat, run: seq<Event>)
    ensures var s := Run(Start(maxConcurrency), run);
            && Conserved(s, maxConcurrency)
            && |UnfinishedWorkers(s)| <= maxConcurrency
            && (Holders(s) == {} ==> s.permits == maxConcurrency)
  {
    var s := Run(Start(maxConcurrency), run);
    if run != [] {
      SlotsAreConserved(maxConcurrency, run[..|run| - 1]);
      StepMovesOneSlot(Run(Start(maxConcurrency), run[..|run| - 1]), run[|run| - 1]);
    } else {
      assert Holders(s) == {};
    }
    SubsetSize(UnfinishedWorkers(s), Holders(s));
  }

  /** In every run a waiting call can enter exactly while fewer slots are held than there are. */
  lemma EntersIff(maxConcurrency: nat, run: seq<Event>, c: CallId)
    ensures var s := Run(Start(maxConcurrency), run);
            c in s.calls && s.calls[c].Waiting? ==> (Enabled(s, Acquire(c)) <==> |Holders(s)| < maxConcurrency)
  {
    SlotsAreConserved(maxConcurrency, run);
  }

  /** The steps that give a slot back: its worker ends, if it has not yet, and what ended it is delivered
    * to the caller, or the callback runs, or both. */
  function WayOut(call: Call, c: CallId): seq<Event>
    requires call.HoldsSlot()
  {
    (if call.worker.Running? then [WorkerEnds(c, Succeeded)] else [])
    + (if call.Awaiting? then [Deliver(c)] else [])
    + (if call.Deferred? || call.worker.RaisedTimeout? then [Callback(c)] else [])
  }

  lemma RunOfTwo(s: State, e: Event, f: Event)
    ensures Run(s, [e]) == Next(s, e) && Run(s, [e, f]) == Next(Next(s, e), f)
  {
    assert [e][..0] == [] && [e, f][..1] == [e];
  }

  lemma DeferredComesBack(s: State, c: CallId)
    requires c in s.calls && s.calls[c].Deferred?
    ensures !s.calls[c].worker.Running? ==>
              Next(s, Callback(c)) == State(s.permits + 1, s.calls[c := Closed(s.calls[c].result)])
    ensures s.calls[c].worker.Running? ==>
              Next(s, WorkerEnds(c, Succeeded)) == s.(calls := s.calls[c := Deferred(Succeeded, s.calls[c].result)])
  {
  }

  lemma AwaitedComesBack(s: State, c: CallId)
    requires c in s.calls && s.calls[c].Awaiting?
    ensures s.calls[c].worker.Running? ==>
              Next(s, WorkerEnds(c, Succeeded)) == s.(calls := s.calls[c := Awaiting(Succeeded)])
    ensures s.calls[c].worker.RaisedTimeout? ==>
              Next(s, Deliver(c)) == s.(calls := s.calls[c := Deferred(RaisedTimeout, ExecutionError)])
    ensures !s.calls[c].worker.Running? && !s.calls[c].worker.RaisedTimeout? ==>
              Next(s, Deliver(c)) == State(s.permits + 1, s.calls[c := Closed(InTheEnd(s.calls[c]))])
  {
  }

  /** No slot is lost: once its worker ends, however the call went, it is free again after at most one more
    * step and a callback, and other calls are as they were. */
  lemma SlotComesBack(s: State, c: CallId)
    requires c in s.calls && s.calls[c].HoldsSlot()
    ensures |WayOut(s.calls[c], c)| <= 2
    ensures Run(s, WayOut(s.calls[c], c)) == State(s.permits + 1, s.calls[c := Closed(InTheEnd(s.calls[c]))])
  {
    var call, way := s.calls[c], WayOut(s.calls[c], c);
    if call.Deferred? { DeferredComesBack(s, c); } else { AwaitedComesBack(s, c); }
    var next := Next(s, way[0]);
    if |way| == 1 {
      RunOfTwo(s, way[0], way[0]);
      assert way == [way[0]];
    } else {
      if next.calls[c].Deferred? { DeferredComesBack(next, c); } else { AwaitedComesBack(next, c); }
      RunOfTwo(s, way[0], way[1]);
      assert way == [way[0], way[1]];
    }
  }

  /** What a call that holds a slot comes to. */
  function InTheEnd(call: Call): Result
    requires call.HoldsSlot()
  {
    match call
    case Deferred(_, result) => result
    case Awaiting(DomainError) => ApplicationError
    case Awaiting(worker) => if worker == Running || worker == Succeeded then Parsed else ExecutionError
  }

  /** A caller can go away at any time: from the queue it leaves nothing behind, and from a worker it leaves
    * the slot to the callback. */
  lemma CallersCanLeave(s: State, c: CallId)
    requires c in s.calls && (s.calls[c].Waiting? || s.calls[c].Awaiting?)
    ensures Enabled(s, Cancel(c)) && Next(s, Cancel(c)).permits == s.permits
    ensures Next(s, Cancel(c)).calls
         == s.calls[c := if s.calls[c].Waiting? then Closed(Cancelled) else Deferred(s.calls[c].worker, Cancelled)]
  {
  }

  function CountEvents(kind: (State, Event) -> bool, s: State, run: seq<Event>): nat {
    if run == [] then 0
    else CountEvents(kind, s, run[..|run| - 1])
         + (if kind(Run(s, run[..|run| - 1]), run[|run| - 1]) then 1 else 0)
  }

  /** Every permit is given back exactly once: a call acquires at most one, and has released as
    * many as it acquired exactly when it is no longer holding it. */
  lemma {:induction false} ReleasedExactlyOnce(maxConcurrency: nat, run: seq<Event>, c: CallId)
    ensures var s := Run(Start(maxConcurrency), run);
            var acquired := CountEvents((t, e) => Acquires(t, e, c), Start(maxConcurrency), run);
            var released := CountEvents((t, e) => Releases(t, e, c), Start(maxConcurrency), run);
            && acquired == released + (if c in Holders(s) then 1 else 0)
            && acquired == (if c in s.calls && (s.calls[c].HoldsSlot() || released == 1) then 1 else 0)
            && (c in s.calls && s.calls[c].Waiting? ==> acquired == 0)
  {
    if run != [] {
      ReleasedExactlyOnce(maxConcurrency, run[..|run| - 1], c);
      StepMovesOneSlot(Run(Start(maxConcurrency), run[..|run| - 1]), run[|run| - 1]);
    }
  }

  // ---- The method -------------------------------------------------------------------------

  /** How the await of the worker ends, and whether the caller goes away while still queueing. */
  datatype Ending = WorkerFirst(worker: Worker) | TimesOut | CallerCancelled | CancelledInQueue

  class BoundedThreadResumeParseExecutor {
    const maxConcurrency: nat
    var state: State

    constructor (maxConcurrency: nat)
      ensures this.maxConcurrency == maxConcurrency && state == Start(maxConcurrency)
      ensures Conserved(state, maxConcurrency)
    {
      this.maxConcurrency := maxConcurrency;
      state := Start(maxConcurrency);
      new;
      assert Holders(state) == {};
    }

    /** What other callers and worker threads do meanwhile. */
    method Interleave(c: CallId, others: seq<Event>)
      requires Conserved(state, maxConcurrency) && c in state.calls
      modifies this
      ensures Conserved(state, maxConcurrency) && c in state.calls && state.calls[c] == old(state.calls[c])
    {
      for i := 0 to |others|
        invariant Conserved(state, maxConcurrency) && c in state.calls && state.calls[c] == old(state.calls[c])
      {
        if others[i].c != c {
          StepMovesOneSlot(state, others[i]);
          state := Next(state, others[i]);
        }
      }
    }

    method Perform(e: Event)
      requires Conserved(state, maxConcurrency) && Enabled(state, e)
      modifies this
      ensures Conserved(state, maxConcurrency) && state == Next(old(state), e)
    {
      StepMovesOneSlot(state, e);
      state := Next(state, e);
    }

    /** `parse`; no result while the call is still queueing.  The slot is free again on return
      * exactly when the worker had ended by itself; after a timeout or a cancellation it stays
      * taken until the done-callback of the worker runs. */
    method Parse(c: CallId, ending: Ending, beforeSlot: seq<Event>, duringWork: seq<Event>) returns (result: Option<Result>)
      requires Conserved(state, maxConcurrency) && c !in state.calls
      requires ending.WorkerFirst? ==> !ending.worker.Running?
      modifies this
      ensures Conserved(state, maxConcurrency) && c in state.calls
      ensures result.None? ==> state.calls[c].Waiting? && state.permits == 0
      ensures result.Some? ==>
                match ending
                case CancelledInQueue => result.value == Cancelled && state.calls[c] == Closed(Cancelled)
                case WorkerFirst(worker) =>
                  && (result.value == Parsed <==> worker == Succeeded)
                  && (result.value == ApplicationError <==> worker == DomainError)
                  && (result.value == ExecutionError <==> worker == RaisedTimeout || worker == RaisedOther)
                  && state.calls[c] == if worker.RaisedTimeout? then Deferred(worker, ExecutionError) else Closed(result.value)
                case TimesOut => result.value == ExecutionError && state.calls[c] == Deferred(Running, ExecutionError)
                case CallerCancelled => result.value == Cancelled && state.calls[c] == Deferred(Running, Cancelled)
    {
      Perform(Arrive(c));
      Interleave(c, beforeSlot);
      if ending.CancelledInQueue? {
        Perform(Cancel(c));
        return Some(Cancelled);
      }
      if state.permits == 0 {
        return None;
      }
      Perform(Acquire(c));
      Interleave(c, duringWork);
      match ending {
        case WorkerFirst(worker) =>
          Perform(WorkerEnds(c, worker));
          Perform(Deliver(c));
          result := Some(Outcome(worker));
        case TimesOut =>
          Perform(TimeOut(c));
          result := Some(ExecutionError);
        case CallerCancelled =>
          Perform(Cancel(c));
          result := Some(Cancelled);
      }
    }
  }
}
