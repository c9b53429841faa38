/** What every operation on the catalog keeps, over whole runs. */
module CatalogInvariants {
  import opened Wrappers
  import opened Text
  import opened Titles
  import opened Listings
  import opened CanonicalMerge
  import opened Deduplication
  import opened Catalogs

  // ---- Runs -------------------------------------------------------------------------------

  datatype Operation =
    | Ingest(listing: Listing, answers: Answers, now: Time)
    | Touch(source: string, ids: set<string>, now: Time)
    | Sweep(source: string, threshold: Time, safetyStart: Time)

  ghost predicate Possible(c: Catalog, op: Operation) {
    SourcesHaveJobs(c) && (op.Ingest? ==> Faithful(c, op.listing, op.answers))
  }

  ghost function Apply(fold: Fold, c: Catalog, op: Operation): Catalog
    requires Possible(c, op)
  {
    match op
    case Ingest(l, a, now) =>
      var next := Ingested(fold, c, l, a, now);
      if next.Some? then next.value else c
    case Touch(source, ids, now) => Touched(c, source, ids, now)
    case Sweep(source, threshold, safetyStart) => Swept(c, source, threshold, safetyStart)
  }

  ghost predicate Runs(fold: Fold, c: Catalog, ops: seq<Operation>)
    decreases |ops|
  {
    ops == [] || (Possible(c, ops[0]) && Runs(fold, Apply(fold, c, ops[0]), ops[1..]))
  }

  ghost function After(fold: Fold, c: Catalog, ops: seq<Operation>): Catalog
    requires Runs(fold, c, ops)
    decreases |ops|
  {
    if ops == [] then c else After(fold, Apply(fold, c, ops[0]), ops[1..])
  }

  // ---- The graph --------------------------------------------------------------------------

  predicate HasSource(c: Catalog, job: JobId) {
    exists id :: id in c.sources && Observes(c, id, job)
  }

  /** Every source has its job and every job a source; a job is active exactly when one of its
    * sources is; and no committed row violates a CHECK constraint. */
  ghost predicate Connected(c: Catalog) {
    && SourcesHaveJobs(c)
    && (forall job :: job in c.jobs ==>
          && HasSource(c, job)
          && (c.jobs[job].active <==> HasActiveSource(c, job))
          && Accepted(c.jobs[job].content))
  }

  /** What an accepted ingestion does to the graph: it writes one source and its job, both seen now
    * and active, and re-points nothing. */
  ghost predicate Writes(c: Catalog, d: Catalog, id: Identity, now: Time) {
    && id in d.sources && d.sources[id].job in d.jobs
    && var o, mine := d.sources[id], d.sources[id].job;
       var job := d.jobs[mine];
       && d == Catalog(c.jobs[mine := job], c.sources[id := o])
       && o.active && job.active && o.lastSeen == o.scrapedAt == job.lastSeen == now
       && (if id in c.sources then c.sources[id].job == mine && c.sources[id].firstSeen == o.firstSeen && mine in c.jobs
           else o.firstSeen == now)
       && (if mine in c.jobs then
             && c.jobs[mine].firstSeen == job.firstSeen && NothingEmptied(c.jobs[mine].content, job.content)
             && (Accepted(c.jobs[mine].content) ==> Accepted(job.content))
           else job.firstSeen == now && Accepted(job.content))
  }

  lemma RefreshEmptiesNothing(c: Content, l: Listing)
    requires Normalized(l)
    ensures NothingEmptied(c, Refreshed(c, l))
  {
  }

  lemma IngestWrites(fold: Fold, c: Catalog, l: Listing, a: Answers, now: Time)
    requires SourcesHaveJobs(c) && Faithful(c, l, a) && Ingested(fold, c, l, a, now).Some?
    ensures Writes(c, Ingested(fold, c, l, a, now).value, l.identity, now)
  {
    var d := Ingested(fold, c, l, a, now).value;
    if l.identity in c.sources {
      RefreshEmptiesNothing(c.jobs[c.sources[l.identity].job].content, l);
    }
  }

  lemma WriteKeepsConnected(c: Catalog, d: Catalog, id: Identity, now: Time)
    requires Connected(c) && Writes(c, d, id, now)
    ensures Connected(d)
  {
    var mine := d.sources[id].job;
    assert Observes(d, id, mine);
    forall job | job in d.jobs && job != mine
      ensures HasSource(d, job) && (d.jobs[job].active <==> HasActiveSource(d, job))
    {
      SameSources(c, d, job);
    }
  }

  lemma SameSources(c: Catalog, d: Catalog, job: JobId)
    requires forall id :: Observes(d, id, job) <==> Observes(c, id, job)
    requires forall id :: Observes(d, id, job) && id in c.sources ==> d.sources[id] == c.sources[id]
    ensures HasSource(c, job) <==> HasSource(d, job)
    ensures HasActiveSource(c, job) <==> HasActiveSource(d, job)
  {
  }

  lemma TouchKeepsConnected(c: Catalog, source: string, ids: set<string>, now: Time)
    requires Connected(c)
    ensures Connected(Touched(c, source, ids, now))
  {
    var d := Touched(c, source, ids, now);
    forall job | job in d.jobs
      ensures HasSource(d, job) && (d.jobs[job].active <==> HasActiveSource(d, job))
    {
      assert forall id :: Observes(d, id, job) <==> Observes(c, id, job);
      var any :| any in c.sources && Observes(c, any, job);
      assert Observes(d, any, job);
      if ListsOne(c, job, source, ids) {
        var id :| id in c.sources && Observes(c, id, job) && Among(id, source, ids);
        assert Observes(d, id, job) && d.sources[id].active;
      } else {
        SameSources(c, d, job);
      }
    }
  }

  lemma SweepKeepsConnected(c: Catalog, source: string, threshold: Time, safetyStart: Time)
    requires Connected(c)
    ensures Connected(Swept(c, source, threshold, safetyStart))
  {
    var next := Catalog(c.jobs, SourcesSwept(c, source, threshold));
    var d := Swept(c, source, threshold, safetyStart);
    if d != c {
      forall job | job in d.jobs
        ensures HasSource(d, job) && (d.jobs[job].active <==> HasActiveSource(d, job))
      {
        var any :| any in c.sources && Observes(c, any, job);
        assert Observes(d, any, job);
        assert forall id :: Observes(d, id, job) <==> Observes(next, id, job);
        SameSources(next, d, job);
        if HasActiveSource(next, job) {
          var id :| id in next.sources && Observes(next, id, job) && next.sources[id].active;
          assert Observes(c, id, job) && c.sources[id].active;
        }
      }
    }
  }

  lemma StepKeepsConnected(fold: Fold, c: Catalog, op: Operation)
    requires Connected(c) && Possible(c, op)
    ensures Connected(Apply(fold, c, op))
  {
    match op {
      case Ingest(l, a, now) =>
        if Ingested(fold, c, l, a, now).Some? {
          IngestWrites(fold, c, l, a, now);
          WriteKeepsConnected(c, Apply(fold, c, op), l.identity, now);
        }
      case Touch(source, ids, now) =>
        TouchKeepsConnected(c, source, ids, now);
      case Sweep(source, threshold, safetyStart) =>
        SweepKeepsConnected(c, source, threshold, safetyStart);
    }
  }

  /** From an empty catalog every run keeps the graph connected, whatever the clock did. */
  lemma {:induction false} RunKeepsConnected(fold: Fold, c: Catalog, ops: seq<Operation>)
    requires Connected(c) && Runs(fold, c, ops)
    ensures Connected(After(fold, c, ops))
    decreases |ops|
  {
    if ops != [] {
      StepKeepsConnected(fold, c, ops[0]);
      RunKeepsConnected(fold, Apply(fold, c, ops[0]), ops[1..]);
    }
  }

  // ---- Identities -------------------------------------------------------------------------

  /** Known identities keep their job, jobs keep their creation time, and no field of a job but its
    * normalised title loses a value. */
  ghost predicate Extends(c: Catalog, d: Catalog) {
    && (forall id :: id in c.sources ==>
          id in d.sources && d.sources[id].job == c.sources[id].job && d.sources[id].firstSeen == c.sources[id].firstSeen)
    && (forall job :: job in c.jobs ==>
          && job in d.jobs && d.jobs[job].firstSeen == c.jobs[job].firstSeen
          && NothingEmptied(c.jobs[job].content, d.jobs[job].content))
  }

  lemma SameContent(c: Catalog, d: Catalog)
    requires c.jobs.Keys <= d.jobs.Keys
    requires forall job :: job in c.jobs ==> d.jobs[job].content == c.jobs[job].content
    ensures forall job :: job in c.jobs ==> NothingEmptied(c.jobs[job].content, d.jobs[job].content)
  {
    forall job | job in c.jobs
      ensures NothingEmptied(c.jobs[job].content, d.jobs[job].content)
    {
      EmptiesNothing(c.jobs[job].content);
    }
  }

  lemma EmptiesNothing(c: Content)
    ensures NothingEmptied(c, c)
  {
  }

  lemma WriteExtends(c: Catalog, d: Catalog, id: Identity, now: Time)
    requires Writes(c, d, id, now)
    ensures Extends(c, d)
  {
    forall job | job in c.jobs
      ensures NothingEmptied(c.jobs[job].content, d.jobs[job].content)
    {
      if job != d.sources[id].job { EmptiesNothing(c.jobs[job].content); }
    }
  }

  /** Nothing but activity flags differ. */
  ghost predicate DifferInActivity(c: Catalog, d: Catalog) {
    && c.jobs.Keys == d.jobs.Keys && c.sources.Keys == d.sources.Keys
    && (forall job :: job in c.jobs ==> d.jobs[job] == c.jobs[job].(active := d.jobs[job].active))
    && (forall id :: id in c.sources ==> d.sources[id] == c.sources[id].(active := d.sources[id].active))
  }

  lemma SweepChangesActivity(c: Catalog, source: string, threshold: Time, safetyStart: Time)
    ensures DifferInActivity(c, Swept(c, source, threshold, safetyStart))
  {
  }

  lemma ActivityExtends(c: Catalog, d: Catalog)
    requires DifferInActivity(c, d)
    ensures Extends(c, d)
  {
    SameContent(c, d);
  }

  lemma TouchExtends(c: Catalog, source: string, ids: set<string>, now: Time)
    ensures Extends(c, Touched(c, source, ids, now))
  {
    SameContent(c, Touched(c, source, ids, now));
  }

  lemma StepExtends(fold: Fold, c: Catalog, op: Operation)
    requires Possible(c, op)
    ensures Extends(c, Apply(fold, c, op))
  {
    match op {
      case Ingest(l, a, now) =>
        if Ingested(fold, c, l, a, now).Some? {
          IngestWrites(fold, c, l, a, now);
          WriteExtends(c, Apply(fold, c, op), l.identity, now);
        } else {
          ActivityExtends(c, c);
        }
      case Touch(source, ids, now) =>
        TouchExtends(c, source, ids, now);
      case Sweep(source, threshold, safetyStart) =>
        SweepChangesActivity(c, source, threshold, safetyStart);
        ActivityExtends(c, Swept(c, source, threshold, safetyStart));
    }
  }

  /** The map from source identity to job only grows and never re-points, over any run. */
  lemma {:induction false} RunExtends(fold: Fold, c: Catalog, ops: seq<Operation>)
    requires Runs(fold, c, ops)
    ensures Extends(c, After(fold, c, ops))
    decreases |ops|
  {
    if ops != [] {
      StepExtends(fold, c, ops[0]);
      RunExtends(fold, Apply(fold, c, ops[0]), ops[1..]);
      ExtendsOn(c, Apply(fold, c, ops[0]), After(fold, c, ops));
    }
  }

  /** The normalised title of a job is emptied by one step exactly when a listing known for that job
    * is ingested again, accepted, and renames it to a title with an empty normal form. */
  lemma StepEmptiesTitleIff(fold: Fold, c: Catalog, op: Operation, job: JobId)
    requires Possible(c, op) && job in c.jobs && c.jobs[job].content.normalizedTitle != ""
    ensures job in Apply(fold, c, op).jobs
    ensures Apply(fold, c, op).jobs[job].content.normalizedTitle == "" <==>
              && op.Ingest? && Observes(c, op.listing.identity, job)
              && Accepted(Refreshed(c.jobs[job].content, op.listing))
              && Renames(op.listing) && op.listing.normalizedTitle == ""
  {
    match op {
      case Ingest(l, a, now) =>
        TitleEmptiedIff(c.jobs[job].content, l);
      case Touch(_, _, _) =>
      case Sweep(source, threshold, safetyStart) =>
        SweepChangesActivity(c, source, threshold, safetyStart);
    }
  }

  lemma ExtendsOn(c: Catalog, d: Catalog, e: Catalog)
    requires Extends(c, d) && Extends(d, e)
    ensures Extends(c, e)
  {
  }

  /** The same provider already lists the job under the listing's URL. */
  ghost predicate SharesUrl(c: Catalog, l: Listing, job: JobId) {
    l.url.Some? && exists id :: Observes(c, id, job) && id.source == l.identity.source && c.sources[id].url == l.url
  }

  /** The job is the first candidate of the same employer that is the same opening. */
  ghost predicate FirstSameOpening(fold: Fold, c: Catalog, l: Listing, job: JobId, candidates: seq<JobId>) {
    && job in c.jobs && c.jobs[job].active
    && l.company.Some? && l.normalizedCompany.Some? && c.jobs[job].content.companyId == l.normalizedCompany
    && c.jobs[job].content.normalizedTitle == l.normalizedTitle
    && SameOpening(fold, c.jobs[job], l)
    && forall other :: other in candidates && other in c.jobs && other != job && SameOpening(fold, c.jobs[other], l) ==>
                         Before(c, job, other)
  }

  /** A new listing joins an existing job exactly when a database query named one: the same
    * provider lists that job under the same URL, or else, no URL matching, it is the first
    * candidate that is the same opening. */
  lemma JoinsOnlyTheSameOpening(fold: Fold, c: Catalog, l: Listing, a: Answers)
    requires SourcesHaveJobs(c) && Faithful(c, l, a)
    ensures var joined := Joined(fold, c, l, a);
            && (joined.Some? && a.byUrl.Some? ==> SharesUrl(c, l, joined.value))
            && (joined.Some? && a.byUrl.None? ==> FirstSameOpening(fold, c, l, joined.value, a.candidates)
                                                  && forall job :: !SharesUrl(c, l, job))
            && (joined.None? ==> forall job :: !SharesUrl(c, l, job))
            && (joined.None? ==> forall job :: job in a.candidates ==> !SameOpening(fold, c.jobs[job], l))
  {
    if a.byUrl.None? && Joined(fold, c, l, a).Some? {
      var job := Joined(fold, c, l, a).value;
      var i :| 0 <= i < |a.candidates| && a.candidates[i] == job
               && forall k :: 0 <= k < i ==> !SameOpening(fold, c.jobs[a.candidates[k]], l);
      FirstIsBefore(fold, c, l, a, i);
    }
  }

  lemma FirstIsBefore(fold: Fold, c: Catalog, l: Listing, a: Answers, i: nat)
    requires Faithful(c, l, a) && i < |a.candidates| && SameOpening(fold, c.jobs[a.candidates[i]], l)
    requires forall k :: 0 <= k < i ==> !SameOpening(fold, c.jobs[a.candidates[k]], l)
    ensures FirstSameOpening(fold, c, l, a.candidates[i], a.candidates)
  {
  }

  /** Only an employer with ten or more active jobs of that title can have the same opening missed:
    * when nothing is joined and fewer candidates came back, none of its jobs is one. */
  lemma NothingIsMissed(fold: Fold, c: Catalog, l: Listing, a: Answers, job: JobId)
    requires SourcesHaveJobs(c) && Faithful(c, l, a) && Joined(fold, c, l, a).None? && |a.candidates| < CANDIDATES
    requires CompanyOf(l).Some? && job in c.jobs && c.jobs[job].content.companyId == CompanyOf(l)
    ensures !SameOpening(fold, c.jobs[job], l)
  {
    if SameOpening(fold, c.jobs[job], l) {
      assert IsCandidate(c, CompanyOf(l).value, l.normalizedTitle, job);
      assert job in a.candidates;
      JoinsOnlyTheSameOpening(fold, c, l, a);
    }
  }

  /** The job an accepted ingestion records is the one it joined, or the one it created. */
  lemma RecordsTheJoinedJob(fold: Fold, c: Catalog, l: Listing, a: Answers, now: Time)
    requires SourcesHaveJobs(c) && Faithful(c, l, a) && l.identity !in c.sources && Ingested(fold, c, l, a, now).Some?
    ensures var job := Ingested(fold, c, l, a, now).value.sources[l.identity].job;
            if job in c.jobs then Joined(fold, c, l, a) == Some(job) else job == a.newId && Joined(fold, c, l, a).None?
  {
  }

  /** Joining leaves the job's content as it was: it is only seen again. */
  lemma JoiningKeepsContent(fold: Fold, c: Catalog, l: Listing, a: Answers, now: Time)
    requires Connected(c) && Faithful(c, l, a) && l.identity !in c.sources && Joined(fold, c, l, a).Some?
    ensures var job := Joined(fold, c, l, a).value;
            var d := Ingested(fold, c, l, a, now);
            d.Some? && d.value.jobs == c.jobs[job := c.jobs[job].(lastSeen := now, active := true)]
  {
  }

  // ---- The same listing again -------------------------------------------------------------

  predicate SameButTimes(c: Catalog, d: Catalog) {
    && c.jobs.Keys == d.jobs.Keys && c.sources.Keys == d.sources.Keys
    && (forall job :: job in c.jobs ==> d.jobs[job] == c.jobs[job].(lastSeen := d.jobs[job].lastSeen))
    && (forall id :: id in c.sources ==>
          d.sources[id] == c.sources[id].(lastSeen := d.sources[id].lastSeen, scrapedAt := d.sources[id].scrapedAt))
  }

  /** Ingesting a listing again changes only timestamps, once it has created its job or refreshed it
    * (a listing that joined a job still has its first refresh to come). */
  lemma IngestingAgain(fold: Fold, c: Catalog, l: Listing, a: Answers, now: Time, again: Answers, later: Time)
    requires Connected(c) && Faithful(c, l, a) && Ingested(fold, c, l, a, now).Some?
    requires l.identity in c.sources || Joined(fold, c, l, a).None?
    requires SourcesHaveJobs(Ingested(fold, c, l, a, now).value) && Faithful(Ingested(fold, c, l, a, now).value, l, again)
    ensures var d := Ingested(fold, c, l, a, now).value;
            var e := Ingested(fold, d, l, again, later);
            e.Some? && SameButTimes(d, e.value)
  {
    WrittenContentIsSettled(fold, c, l, a, now);
    SettledAgain(fold, Ingested(fold, c, l, a, now).value, l, again, later);
  }

  /** A listing is settled when refreshing with it again would change no content. */
  ghost predicate Settled(c: Catalog, l: Listing) {
    && SourcesHaveJobs(c) && l.identity in c.sources
    && var o := c.sources[l.identity];
       var job := c.jobs[o.job];
       && Refreshed(job.content, l) == job.content && Accepted(job.content) && job.active
       && SeenAgain(o, l, 0) == o.(lastSeen := 0, scrapedAt := 0)
  }

  lemma WrittenContentIsSettled(fold: Fold, c: Catalog, l: Listing, a: Answers, now: Time)
    requires Connected(c) && Faithful(c, l, a) && Ingested(fold, c, l, a, now).Some?
    requires l.identity in c.sources || Joined(fold, c, l, a).None?
    ensures Settled(Ingested(fold, c, l, a, now).value, l)
  {
    if l.identity in c.sources {
      SameListingAgain(c.jobs[c.sources[l.identity].job].content, l);
    } else {
      SameListingAgain(Created(l), l);
    }
  }

  lemma SettledAgain(fold: Fold, c: Catalog, l: Listing, a: Answers, now: Time)
    requires Settled(c, l) && Faithful(c, l, a)
    ensures var d := Ingested(fold, c, l, a, now);
            d.Some? && SameButTimes(c, d.value)
  {
    var o := c.sources[l.identity];
    assert SeenAgain(o, l, now) == o.(lastSeen := now, scrapedAt := now);
  }

  // ---- Times ------------------------------------------------------------------------------

  predicate LastSeenBy(c: Catalog, job: JobId, t: Time) {
    exists id :: id in c.sources && Observes(c, id, job) && c.sources[id].lastSeen == t
  }

  predicate FirstSeenBy(c: Catalog, job: JobId, t: Time) {
    exists id :: id in c.sources && Observes(c, id, job) && c.sources[id].firstSeen == t
  }

  /** A source lies within its job's span and was not scraped after it was last seen. */
  predicate SourceTimed(c: Catalog, id: Identity) {
    && id in c.sources && c.sources[id].job in c.jobs
    && var o, job := c.sources[id], c.jobs[c.sources[id].job];
       job.firstSeen <= o.firstSeen <= o.scrapedAt <= o.lastSeen <= job.lastSeen
  }

  /** A job's span reaches from its oldest source to its most recent one, and not into the future. */
  predicate JobTimed(c: Catalog, job: JobId, now: Time) {
    && job in c.jobs
    && LastSeenBy(c, job, c.jobs[job].lastSeen) && FirstSeenBy(c, job, c.jobs[job].firstSeen)
    && c.jobs[job].lastSeen <= now
  }

  ghost predicate Timed(c: Catalog, now: Time) {
    && (forall id :: id in c.sources ==> SourceTimed(c, id))
    && (forall job :: job in c.jobs ==> JobTimed(c, job, now))
  }

  ghost predicate SightingsKept(c: Catalog, d: Catalog, job: JobId, t: Time) {
    forall id :: Observes(c, id, job) && c.sources[id].lastSeen == t ==> id in d.sources && d.sources[id].lastSeen == t
  }

  /** Unchanged stamps of a job's extreme sources carry over. */
  lemma StampsCarryOver(c: Catalog, d: Catalog, job: JobId, t: Time)
    requires forall id :: Observes(c, id, job) ==> Observes(d, id, job) && d.sources[id].firstSeen == c.sources[id].firstSeen
    ensures FirstSeenBy(c, job, t) ==> FirstSeenBy(d, job, t)
    ensures SightingsKept(c, d, job, t) && LastSeenBy(c, job, t) ==> LastSeenBy(d, job, t)
  {
    if FirstSeenBy(c, job, t) {
      var id :| id in c.sources && Observes(c, id, job) && c.sources[id].firstSeen == t;
      assert Observes(d, id, job);
    }
    if SightingsKept(c, d, job, t) && LastSeenBy(c, job, t) {
      var id :| id in c.sources && Observes(c, id, job) && c.sources[id].lastSeen == t;
      assert Observes(d, id, job);
    }
  }

  lemma WriteKeepsSourceTimed(c: Catalog, d: Catalog, id: Identity, before: Time, now: Time, other: Identity)
    requires Timed(c, before) && before <= now && Writes(c, d, id, now) && other in d.sources
    ensures SourceTimed(d, other)
  {
    var mine := d.sources[id].job;
    if mine in c.jobs { assert JobTimed(c, mine, before); }
    if other in c.sources { assert SourceTimed(c, other); }
  }

  lemma WriteKeepsJobTimed(c: Catalog, d: Catalog, id: Identity, before: Time, now: Time, job: JobId)
    requires Timed(c, before) && before <= now && Writes(c, d, id, now) && job in d.jobs
    ensures JobTimed(d, job, now)
  {
    assert Observes(d, id, d.sources[id].job);
    if job in c.jobs {
      assert JobTimed(c, job, before);
      StampsCarryOver(c, d, job, c.jobs[job].firstSeen);
      if job != d.sources[id].job { StampsCarryOver(c, d, job, c.jobs[job].lastSeen); }
    }
  }

  lemma WriteKeepsTimed(c: Catalog, d: Catalog, id: Identity, before: Time, now: Time)
    requires Timed(c, before) && before <= now && Writes(c, d, id, now)
    ensures Timed(d, now)
  {
    forall other | other in d.sources
      ensures SourceTimed(d, other)
    {
      WriteKeepsSourceTimed(c, d, id, before, now, other);
    }
    forall job | job in d.jobs
      ensures JobTimed(d, job, now)
    {
      WriteKeepsJobTimed(c, d, id, before, now, job);
    }
  }

  lemma TouchOrders(c: Catalog, source: string, ids: set<string>, before: Time, now: Time, id: Identity)
    requires Timed(c, before) && before <= now && id in c.sources
    ensures var d := Touched(c, source, ids, now);
            SourceTimed(d, id)
  {
    assert SourceTimed(c, id) && Observes(c, id, c.sources[id].job) && JobTimed(c, c.sources[id].job, before);
  }

  lemma TouchedJobIsTimed(c: Catalog, source: string, ids: set<string>, before: Time, now: Time, job: JobId)
    requires Timed(c, before) && before <= now && job in c.jobs
    ensures var d := Touched(c, source, ids, now);
            JobTimed(d, job, now)
  {
    assert JobTimed(c, job, before);
    var d := Touched(c, source, ids, now);
    StampsCarryOver(c, d, job, c.jobs[job].firstSeen);
    if ListsOne(c, job, source, ids) {
      var id :| id in c.sources && Observes(c, id, job) && Among(id, source, ids);
      assert Observes(d, id, job);
    } else {
      StampsCarryOver(c, d, job, c.jobs[job].lastSeen);
    }
  }

  lemma TouchKeepsTimed(c: Catalog, source: string, ids: set<string>, before: Time, now: Time)
    requires Timed(c, before) && before <= now
    ensures Timed(Touched(c, source, ids, now), now)
  {
    var d := Touched(c, source, ids, now);
    forall id | id in d.sources
      ensures SourceTimed(d, id)
    {
      TouchOrders(c, source, ids, before, now, id);
    }
    forall job | job in d.jobs
      ensures JobTimed(d, job, now)
    {
      TouchedJobIsTimed(c, source, ids, before, now, job);
    }
  }

  lemma ActivityKeepsTimed(c: Catalog, d: Catalog, now: Time)
    requires Timed(c, now) && DifferInActivity(c, d)
    ensures Timed(d, now)
  {
    forall id | id in d.sources
      ensures SourceTimed(d, id)
    {
      assert SourceTimed(c, id);
    }
    forall job | job in d.jobs
      ensures JobTimed(d, job, now)
    {
      assert JobTimed(c, job, now);
      StampsCarryOver(c, d, job, c.jobs[job].firstSeen);
      StampsCarryOver(c, d, job, c.jobs[job].lastSeen);
    }
  }

  /** The clock of the next operation does not go back. */
  predicate InOrder(ops: seq<Operation>, since: Time)
    decreases |ops|
  {
    ops == [] || (if ops[0].Sweep? then InOrder(ops[1..], since) else since <= ops[0].now && InOrder(ops[1..], ops[0].now))
  }

  lemma TimedLater(c: Catalog, now: Time, later: Time)
    requires Timed(c, now) && now <= later
    ensures Timed(c, later)
  {
  }

  lemma StepKeepsTimed(fold: Fold, c: Catalog, op: Operation, before: Time, now: Time)
    requires Timed(c, before) && before <= now && Possible(c, op) && (!op.Sweep? ==> op.now == now)
    ensures Timed(Apply(fold, c, op), now)
  {
    TimedLater(c, before, now);
    match op {
      case Ingest(l, a, _) =>
        if Ingested(fold, c, l, a, now).Some? {
          IngestWrites(fold, c, l, a, now);
          WriteKeepsTimed(c, Apply(fold, c, op), l.identity, before, now);
        }
      case Touch(source, ids, _) =>
        TouchKeepsTimed(c, source, ids, before, now);
      case Sweep(source, threshold, safetyStart) =>
        SweepChangesActivity(c, source, threshold, safetyStart);
        ActivityKeepsTimed(c, Swept(c, source, threshold, safetyStart), now);
    }
  }

  /** Over any run whose observation times do not decrease the timestamps stay consistent. */
  lemma {:induction false} RunKeepsTimed(fold: Fold, c: Catalog, ops: seq<Operation>, since: Time) returns (now: Time)
    requires Timed(c, since) && Runs(fold, c, ops) && InOrder(ops, since)
    ensures since <= now && Timed(After(fold, c, ops), now)
    decreases |ops|
  {
    if ops == [] {
      now := since;
    } else {
      var next := if ops[0].Sweep? then since else ops[0].now;
      StepKeepsTimed(fold, c, ops[0], since, next);
      now := RunKeepsTimed(fold, Apply(fold, c, ops[0]), ops[1..], next);
    }
  }

  /** Without that, a late touch moves a job's last sighting back behind its other source's. */
  lemma LateTouchBreaksTimes(content: Content, o: Observation)
    requires o == Observation(0, None, None, None, 3, 5, 5, "", true, map[])
    ensures var first, second := Identity("dice", "1"), Identity("linkedin", "2");
            var c := Catalog(map[0 := Job(content, 3, 5, true)], map[first := o, second := o]);
            Timed(c, 5) && forall now :: !Timed(Touched(c, "dice", {"1"}, 4), now)
  {
    var first, second := Identity("dice", "1"), Identity("linkedin", "2");
    var c := Catalog(map[0 := Job(content, 3, 5, true)], map[first := o, second := o]);
    assert Observes(c, first, 0) && Observes(c, second, 0) && first != second;
    var d := Touched(c, "dice", {"1"}, 4);
    assert ListsOne(c, 0, "dice", {"1"});
    assert d.jobs[0].lastSeen == 4 && d.sources[second].lastSeen == 5 && d.sources[second].job == 0;
  }

  // ---- The sweep --------------------------------------------------------------------------

  /** A sweep deactivates nothing but the stale sources of its provider, and nothing at all when the
    * provider has not been seen since the safety window began. */
  lemma SweepIsConfined(c: Catalog, source: string, threshold: Time, safetyStart: Time)
    ensures var d := Swept(c, source, threshold, safetyStart);
            forall id :: id in c.sources ==>
                           id in d.sources
                           && d.sources[id] == if IsStale(c, id, source, threshold) && Healthy(c, source, safetyStart)
                                               then c.sources[id].(active := false) else c.sources[id]
    ensures Swept(c, source, threshold, safetyStart).sources.Keys == c.sources.Keys
  {
    assert SourcesSwept(c, source, threshold).Keys == c.sources.Keys;
  }

  /** The provider's most recent sighting. */
  ghost predicate Freshest(c: Catalog, id: Identity, source: string) {
    && id in c.sources && id.source == source
    && forall other :: other in c.sources && other.source == source ==> c.sources[other].lastSeen <= c.sources[id].lastSeen
  }

  /** A sweep can deactivate even the freshest listing of a provider exactly when that listing was
    * last seen within the safety window and still before the threshold; so never while the window
    * starts no earlier than the threshold. */
  lemma SweepSparesTheFreshest(c: Catalog, source: string, threshold: Time, safetyStart: Time, id: Identity)
    requires Freshest(c, id, source) && c.sources[id].active
    ensures var d := Swept(c, source, threshold, safetyStart);
            && id in d.sources
            && (!d.sources[id].active <==> safetyStart <= c.sources[id].lastSeen < threshold)
            && (threshold <= safetyStart ==> d.sources[id].active)
  {
    SweepIsConfined(c, source, threshold, safetyStart);
  }
}
