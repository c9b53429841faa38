/** The canonical job catalog and the three operations that change it: ingestion of one listing,
  * touching listings seen again, and the sweep of stale ones.  From
  * app/repositories/canonical_jobs.py and app/jobs/ingestion/service.py. */
module Catalogs {
  import opened Wrappers
  import opened Text
  import opened Titles
  import opened Listings
  import opened CanonicalMerge
  import opened Deduplication

  datatype Catalog = Catalog(jobs: map<JobId, Job>, sources: map<Identity, Observation>)

  const EMPTY: Catalog := Catalog(map[], map[])

  predicate Observes(c: Catalog, id: Identity, job: JobId) {
    id in c.sources && c.sources[id].job == job
  }

  /** The foreign key of job_sources. */
  predicate SourcesHaveJobs(c: Catalog) {
    forall id :: id in c.sources ==> c.sources[id].job in c.jobs
  }

  // ---- Queries ----------------------------------------------------------------------------

  /** `find_job_by_source_url`: some job the same provider lists under that URL. */
  ghost predicate AnswersUrl(c: Catalog, source: string, url: Option<string>, answer: Option<JobId>) {
    if answer.Some? then
      url.Some? && exists id :: Observes(c, id, answer.value) && id.source == source && c.sources[id].url == url
    else
      url.Some? ==> forall id :: id in c.sources && id.source == source ==> c.sources[id].url != url
  }

  predicate IsCandidate(c: Catalog, company: string, title: string, job: JobId) {
    && job in c.jobs && c.jobs[job].active
    && c.jobs[job].content.companyId == Some(company) && c.jobs[job].content.normalizedTitle == title
  }

  /** Latest posting first, undated ones last, then by identifier. */
  predicate Before(c: Catalog, a: JobId, b: JobId)
    requires a in c.jobs && b in c.jobs
  {
    var p, q := c.jobs[a].content.postedAt, c.jobs[b].content.postedAt;
    if p.Some? && q.Some? && p != q then p.value > q.value
    else if p.Some? != q.Some? then p.Some?
    else a < b
  }

  const CANDIDATES := 10

  /** `find_dedup_candidates`: the first ten candidates in order. */
  ghost predicate AnswersCandidates(c: Catalog, company: string, title: string, answer: seq<JobId>) {
    && |answer| <= CANDIDATES
    && (forall i :: 0 <= i < |answer| ==> IsCandidate(c, company, title, answer[i]))
    && (forall i, j :: 0 <= i < j < |answer| ==> Before(c, answer[i], answer[j]))
    && (forall job :: IsCandidate(c, company, title, job) && job !in answer ==>
          |answer| == CANDIDATES && forall i :: 0 <= i < |answer| ==> Before(c, answer[i], job))
  }

  /** What the database answers while one listing is ingested. */
  datatype Answers = Answers(byUrl: Option<JobId>, candidates: seq<JobId>, newId: JobId)

  /** The listing comes from the normaliser, and the database answers truthfully. */
  ghost predicate Faithful(c: Catalog, l: Listing, a: Answers) {
    && Normalized(l)
    && AnswersUrl(c, l.identity.source, l.url, a.byUrl)
    && (if CompanyOf(l).Some? then AnswersCandidates(c, CompanyOf(l).value, l.normalizedTitle, a.candidates)
        else a.candidates == [])
    && a.newId !in c.jobs
  }

  // ---- Ingestion --------------------------------------------------------------------------

  /** The first candidate the deduplicator merges with. */
  function FirstMatch(fold: Fold, c: Catalog, candidates: seq<JobId>, l: Listing): (r: Option<JobId>)
    requires forall i :: 0 <= i < |candidates| ==> candidates[i] in c.jobs
    ensures r.None? ==> forall i :: 0 <= i < |candidates| ==> !SameOpening(fold, c.jobs[candidates[i]], l)
    ensures r.Some? ==>
              exists i :: 0 <= i < |candidates| && candidates[i] == r.value && SameOpening(fold, c.jobs[r.value], l)
                          && forall k :: 0 <= k < i ==> !SameOpening(fold, c.jobs[candidates[k]], l)
  {
    if candidates == [] then None
    else
      var last := |candidates| - 1;
      var earlier := FirstMatch(fold, c, candidates[..last], l);
      if earlier.Some? then earlier
      else if SameOpening(fold, c.jobs[candidates[last]], l) then Some(candidates[last])
      else None
  }

  /** The existing job a new listing joins. */
  ghost function Joined(fold: Fold, c: Catalog, l: Listing, a: Answers): (r: Option<JobId>)
    requires SourcesHaveJobs(c) && Faithful(c, l, a)
    ensures r.Some? ==> r.value in c.jobs
  {
    if a.byUrl.Some? then a.byUrl else FirstMatch(fold, c, a.candidates, l)
  }

  function NewObservation(job: JobId, l: Listing, now: Time): Observation {
    Observation(job, l.url, l.postedAt, l.sourceUpdatedAt, now, now, now, l.contentHash, true, l.rawData)
  }

  function SeenAgain(o: Observation, l: Listing, now: Time): Observation {
    Observation(o.job, PreferText(l.url, o.url), l.postedAt.Or(o.postedAt), l.sourceUpdatedAt.Or(o.sourceUpdatedAt),
                o.firstSeen, now, now, l.contentHash, true, if l.rawData != map[] then l.rawData else o.rawData)
  }

  /** The catalog after one ingestion, or nothing when a CHECK constraint rejects it. */
  ghost function Ingested(fold: Fold, c: Catalog, l: Listing, a: Answers, now: Time): Option<Catalog>
    requires SourcesHaveJobs(c) && Faithful(c, l, a)
  {
    if l.identity in c.sources then
      var o := c.sources[l.identity];
      var job := c.jobs[o.job];
      if !Accepted(Refreshed(job.content, l)) then None
      else Some(Catalog(c.jobs[o.job := Job(Refreshed(job.content, l), job.firstSeen, now, true)],
                        c.sources[l.identity := SeenAgain(o, l, now)]))
    else
      var joined := Joined(fold, c, l, a);
      if joined.Some? then
        Some(Catalog(c.jobs[joined.value := c.jobs[joined.value].(lastSeen := now, active := true)],
                     c.sources[l.identity := NewObservation(joined.value, l, now)]))
      else if !Accepted(Created(l)) then None
      else Some(Catalog(c.jobs[a.newId := Job(Created(l), now, now, true)],
                        c.sources[l.identity := NewObservation(a.newId, l, now)]))
  }

  datatype Action = New | Reobserved | Changed

  /** What an ingestion reports. */
  ghost function Reported(fold: Fold, c: Catalog, l: Listing, a: Answers, now: Time): Option<Action>
    requires SourcesHaveJobs(c) && Faithful(c, l, a)
  {
    if Ingested(fold, c, l, a, now).None? then None
    else if l.identity !in c.sources then Some(New)
    else if c.sources[l.identity].contentHash == l.contentHash then Some(Reobserved)
    else Some(Changed)
  }

  // ---- Touching and sweeping --------------------------------------------------------------

  predicate ListsOne(c: Catalog, job: JobId, source: string, ids: set<string>) {
    exists id :: id in c.sources && Observes(c, id, job) && Among(id, source, ids)
  }

  function Touched(c: Catalog, source: string, ids: set<string>, now: Time): Catalog {
    Catalog(map job | job in c.jobs ::
              if ListsOne(c, job, source, ids) then c.jobs[job].(lastSeen := now, active := true) else c.jobs[job],
            map id | id in c.sources ::
              if Among(id, source, ids) then c.sources[id].(lastSeen := now, active := true) else c.sources[id])
  }

  predicate HasActiveSource(c: Catalog, job: JobId) {
    exists id :: id in c.sources && Observes(c, id, job) && c.sources[id].active
  }

  /** The provider has been seen within the safety window. */
  predicate Healthy(c: Catalog, source: string, safetyStart: Time) {
    exists id :: id in c.sources && id.source == source && c.sources[id].lastSeen >= safetyStart
  }

  predicate IsStale(c: Catalog, id: Identity, source: string, threshold: Time) {
    id in c.sources && id.source == source && c.sources[id].active && c.sources[id].lastSeen < threshold
  }

  function SourcesSwept(c: Catalog, source: string, threshold: Time): map<Identity, Observation> {
    map id | id in c.sources ::
      if IsStale(c, id, source, threshold) then c.sources[id].(active := false) else c.sources[id]
  }

  function JobsSynced(c: Catalog): map<JobId, Job> {
    map job | job in c.jobs ::
      if c.jobs[job].active && !HasActiveSource(c, job) then c.jobs[job].(active := false) else c.jobs[job]
  }

  function Swept(c: Catalog, source: string, threshold: Time, safetyStart: Time): Catalog {
    if !Healthy(c, source, safetyStart) then c
    else
      var next := Catalog(c.jobs, SourcesSwept(c, source, threshold));
      if next.sources == c.sources then c else Catalog(JobsSynced(next), next.sources)
  }

  // ---- The repository ---------------------------------------------------------------------

  class CanonicalJobRepository {
    var jobs: map<JobId, Job>
    var sources: map<Identity, Observation>

    constructor ()
      ensures State() == EMPTY
    {
      jobs, sources := map[], map[];
    }

    function State(): Catalog
      reads this
    {
      Catalog(jobs, sources)
    }

    method TouchSourcesSeen(source: string, ids: set<string>, now: Time) returns (count: nat)
      modifies this
      ensures State() == Touched(old(State()), source, ids, now)
      ensures count == |set id | id in old(sources) && Among(id, source, ids)|
    {
      if ids == {} {
        assert jobs == Touched(State(), source, ids, now).jobs;
        assert sources == Touched(State(), source, ids, now).sources;
        assert (set id | id in sources && Among(id, source, ids)) == {};
        return 0;
      }
      var before := State();
      jobs := map job | job in before.jobs ::
        if ListsOne(before, job, source, ids) then before.jobs[job].(lastSeen := now, active := true)
        else before.jobs[job];
      sources := map id | id in before.sources ::
        if Among(id, source, ids) then before.sources[id].(lastSeen := now, active := true) else before.sources[id];
      return |set id | id in before.sources && Among(id, source, ids)|;
    }

    method DeactivateStaleSources(source: string, threshold: Time, safetyStart: Time) returns (count: nat)
      modifies this
      ensures State() == Swept(old(State()), source, threshold, safetyStart)
      ensures count == if Healthy(old(State()), source, safetyStart)
                       then |set id | id in old(sources) && IsStale(old(State()), id, source, threshold)| else 0
    {
      if !Healthy(State(), source, safetyStart) {
        return 0;
      }
      var before := State();
      var stale := set id | id in before.sources && IsStale(before, id, source, threshold);
      sources := SourcesSwept(before, source, threshold);
      count := |stale|;
      if count > 0 {
        var id :| id in stale;
        assert sources[id] != before.sources[id];
        jobs := JobsSynced(State());
      } else {
        assert sources == before.sources by {
          assert forall id :: id in before.sources ==> id !in stale;
        }
      }
    }

    /** `create_job`; the flush fails when a CHECK constraint does. */
    method CreateJob(id: JobId, l: Listing, now: Time) returns (ok: bool)
      requires id !in jobs
      modifies this`jobs
      ensures ok == Accepted(Created(l))
      ensures jobs == if ok then old(jobs)[id := Job(Created(l), now, now, true)] else old(jobs)
    {
      if !Accepted(Created(l)) {
        return false;
      }
      jobs := jobs[id := Job(Created(l), now, now, true)];
      return true;
    }

    /** `create_source`. */
    method CreateSource(l: Listing, job: JobId, now: Time)
      requires l.identity !in sources
      modifies this`sources
      ensures sources == old(sources)[l.identity := NewObservation(job, l, now)]
    {
      sources := sources[l.identity := NewObservation(job, l, now)];
    }

    /** `mark_canonical_seen`. */
    method MarkSeen(job: JobId, now: Time)
      requires job in jobs
      modifies this`jobs
      ensures jobs == old(jobs)[job := old(jobs)[job].(lastSeen := now, active := true)]
    {
      jobs := jobs[job := jobs[job].(lastSeen := now, active := true)];
    }

    /** `refresh_source`: field by field, then one flush that a CHECK constraint may refuse. */
    method RefreshSource(l: Listing, now: Time, contentChanged: bool) returns (ok: bool)
      requires l.identity in sources && sources[l.identity].job in jobs
      requires contentChanged == (sources[l.identity].contentHash != l.contentHash)
      modifies this
      ensures var o := old(sources)[l.identity];
              var job := old(jobs)[o.job];
              && ok == Accepted(Refreshed(job.content, l))
              && jobs == (if ok then old(jobs)[o.job := Job(Refreshed(job.content, l), job.firstSeen, now, true)]
                          else old(jobs))
              && sources == (if ok then old(sources)[l.identity := SeenAgain(o, l, now)] else old(sources))
    {
      var source := sources[l.identity];
      var canonical := jobs[source.job];
      source := source.(lastSeen := now, scrapedAt := now, active := true);
      canonical := canonical.(lastSeen := now, active := true);
      source := source.(url := PreferText(l.url, source.url));
      source := source.(postedAt := l.postedAt.Or(source.postedAt));
      source := source.(sourceUpdatedAt := l.sourceUpdatedAt.Or(source.sourceUpdatedAt));
      if l.rawData != map[] {
        source := source.(rawData := l.rawData);
      }
      if contentChanged {
        source := source.(contentHash := l.contentHash);
      }
      var content := RefreshContent(canonical.content, l);
      if !Accepted(content) {
        return false;
      }
      jobs := jobs[source.job := canonical.(content := content)];
      sources := sources[l.identity := source];
      return true;
    }
  }

  /** The content half of `refresh_source`, assignment by assignment. */
  method RefreshContent(stored: Content, l: Listing) returns (c: Content)
    ensures c == Refreshed(stored, l)
  {
    c := stored.(companyId := CompanyOf(l).Or(stored.companyId));
    if Renames(l) {
      c := c.(title := l.title, normalizedTitle := l.normalizedTitle);
    }
    if HasText(l.location) {
      c := c.(location := l.location, normalizedLocation := l.normalizedLocation);
    }
    if l.skills != [] {
      c := c.(skills := l.skills);
    }
    c := c.(description := PreferText(l.description, c.description),
            employmentType := PreferText(l.employmentType, c.employmentType),
            remoteType := Either(Either(l.remoteType, RemoteType(l.remote)), c.remoteType),
            experienceMin := l.experienceMin.Or(c.experienceMin),
            experienceMax := l.experienceMax.Or(c.experienceMax),
            experienceText := PreferText(l.experienceText, c.experienceText),
            roleFamily := l.roleFamily,
            salaryText := PreferText(l.salaryText, c.salaryText));
    c := c.(salaryMin := l.salaryMin.Or(c.salaryMin), salaryMax := l.salaryMax.Or(c.salaryMax),
            salaryCurrency := Either(l.salaryCurrency, c.salaryCurrency),
            salaryPeriod := Either(l.salaryPeriod, c.salaryPeriod));
    c := c.(postedAt := l.postedAt.Or(c.postedAt), sourceUpdatedAt := l.sourceUpdatedAt.Or(c.sourceUpdatedAt));
    if Truthy(l.normalizedCompany) && Truthy(l.normalizedLocation) && l.postedAt.Some? {
      c := c.(hash := FingerprintOf(l));
    }
  }

  // ---- The ingestion service --------------------------------------------------------------

  class CanonicalJobIngestionService {
    const repository: CanonicalJobRepository
    const fold: Fold

    constructor (repository: CanonicalJobRepository, fold: Fold)
      ensures this.repository == repository && this.fold == fold
    {
      this.repository, this.fold := repository, fold;
    }

    /** The search of `ingest` for a job to join: the same provider's URL, else the first candidate
      * the deduplicator accepts. */
    method FindJob(l: Listing, a: Answers) returns (canonical: Option<JobId>)
      requires SourcesHaveJobs(repository.State()) && Faithful(repository.State(), l, a)
      ensures canonical == Joined(fold, repository.State(), l, a)
    {
      ghost var c := repository.State();
      canonical := a.byUrl;
      var decided := a.byUrl.Some?;
      if !decided && CompanyOf(l).Some? {
        assert forall i :: 0 <= i < |a.candidates| ==> a.candidates[i] in c.jobs;
        for i := 0 to |a.candidates|
          invariant canonical.None?
          invariant FirstMatch(fold, c, a.candidates[..i], l).None?
        {
          FirstMatchSnoc(fold, c, a.candidates, i, l);
          var candidate := a.candidates[i];
          var decision := EvaluateCrossSourceCandidate(fold, candidate, repository.jobs[candidate], l);
          if decision.shouldMerge {
            canonical := Some(candidate);
            FirstMatchExtends(fold, c, a.candidates, i + 1, l);
            break;
          }
        }
        assert a.candidates[..|a.candidates|] == a.candidates;
      }
    }

    /** `ingest`, in the savepoint of its caller: a rejected listing leaves the catalog as it was. */
    method Ingest(l: Listing, a: Answers, now: Time) returns (action: Option<Action>)
      requires SourcesHaveJobs(repository.State()) && Faithful(repository.State(), l, a)
      modifies repository
      ensures var was := old(repository.State());
              var next := Ingested(fold, was, l, a, now);
              && repository.State() == (if next.Some? then next.value else was)
              && action == Reported(fold, was, l, a, now)
              && (action.Some? <==> next.Some?)
              && (action == Some(New) ==> l.identity !in was.sources)
              && (action == Some(Reobserved) ==>
                    l.identity in was.sources && was.sources[l.identity].contentHash == l.contentHash)
              && (action == Some(Changed) ==>
                    l.identity in was.sources && was.sources[l.identity].contentHash != l.contentHash)
      ensures action.Some? ==>
                && l.identity in repository.sources
                && repository.sources[l.identity].contentHash == l.contentHash
                && repository.sources[l.identity].lastSeen == repository.sources[l.identity].scrapedAt == now
    {
      if l.identity in repository.sources {
        var contentChanged := repository.sources[l.identity].contentHash != l.contentHash;
        var ok := repository.RefreshSource(l, now, contentChanged);
        return if !ok then None else Some(if contentChanged then Changed else Reobserved);
      }
      var canonical := FindJob(l, a);
      if canonical.None? {
        var ok := repository.CreateJob(a.newId, l, now);
        if !ok {
          return None;
        }
        canonical := Some(a.newId);
      } else {
        repository.MarkSeen(canonical.value, now);
      }
      repository.CreateSource(l, canonical.value, now);
      return Some(New);
    }

    /** `touch_seen`: each identifier is touched once, however often it is listed. */
    method TouchSeen(source: string, ids: seq<string>, now: Time) returns (count: nat)
      modifies repository
      ensures repository.State() == Touched(old(repository.State()), source, (set id | id in ids), now)
      ensures count == |set id | id in old(repository.sources) && Among(id, source, (set known | known in ids))|
    {
      count := repository.TouchSourcesSeen(source, (set id | id in ids), now);
    }
  }

  lemma FirstMatchSnoc(fold: Fold, c: Catalog, candidates: seq<JobId>, i: nat, l: Listing)
    requires i < |candidates| && forall k :: 0 <= k < |candidates| ==> candidates[k] in c.jobs
    requires FirstMatch(fold, c, candidates[..i], l).None?
    ensures FirstMatch(fold, c, candidates[..i + 1], l)
         == if SameOpening(fold, c.jobs[candidates[i]], l) then Some(candidates[i]) else None
  {
    assert candidates[..i + 1][..i] == candidates[..i];
  }

  lemma {:induction false} FirstMatchExtends(fold: Fold, c: Catalog, candidates: seq<JobId>, n: nat, l: Listing)
    requires n <= |candidates| && forall i :: 0 <= i < |candidates| ==> candidates[i] in c.jobs
    requires FirstMatch(fold, c, candidates[..n], l).Some?
    ensures FirstMatch(fold, c, candidates, l) == FirstMatch(fold, c, candidates[..n], l)
    decreases |candidates|
  {
    if n < |candidates| {
      var last := |candidates| - 1;
      assert candidates[..last][..n] == candidates[..n];
      FirstMatchExtends(fold, c, candidates[..last], n, l);
    } else {
      assert candidates[..n] == candidates;
    }
  }
}
