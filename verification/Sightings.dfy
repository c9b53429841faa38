/** What the row of a provider's listing holds, over whole runs: the slots that `refresh_source` writes
  * beside the content of the job, and what an ingestion reports. */
module Sightings {
  import opened Wrappers
  import opened Text
  import opened Titles
  import opened Listings
  import opened CanonicalMerge
  import opened Deduplication
  import opened Catalogs
  import opened CatalogInvariants

  /** The parts of a source row that a listing can change. */
  datatype Part = Link | PostedOn | RevisedOn | Hash | Raw

  /** Whether a listing has something to write in the part of a known source. */
  predicate BringsPart(part: Part, l: Listing) {
    match part
    case Link => HasText(l.url)
    case PostedOn => l.postedAt.Some?
    case RevisedOn => l.sourceUpdatedAt.Some?
    case Hash => true
    case Raw => l.rawData != map[]
  }

  /** The part is as the listing has it. */
  predicate Tells(part: Part, o: Observation, l: Listing) {
    match part
    case Link => o.url == l.url
    case PostedOn => o.postedAt == l.postedAt
    case RevisedOn => o.sourceUpdatedAt == l.sourceUpdatedAt
    case Hash => o.contentHash == l.contentHash
    case Raw => o.rawData == l.rawData
  }

  predicate SamePart(part: Part, a: Observation, b: Observation) {
    match part
    case Link => a.url == b.url
    case PostedOn => a.postedAt == b.postedAt
    case RevisedOn => a.sourceUpdatedAt == b.sourceUpdatedAt
    case Hash => a.contentHash == b.contentHash
    case Raw => a.rawData == b.rawData
  }

  // ---- One ingestion ----------------------------------------------------------------------

  /** An accepted ingestion leaves the hash it was given, and each other part too if the source is new or
    * the listing brings something for it. */
  lemma IngestTells(fold: Fold, c: Catalog, l: Listing, a: Answers, now: Time, part: Part)
    requires SourcesHaveJobs(c) && Faithful(c, l, a) && Ingested(fold, c, l, a, now).Some?
    ensures var d := Ingested(fold, c, l, a, now).value;
            && l.identity in d.sources && d.sources[l.identity].contentHash == l.contentHash
            && if l.identity in c.sources && !BringsPart(part, l)
               then SamePart(part, d.sources[l.identity], c.sources[l.identity])
               else Tells(part, d.sources[l.identity], l)
  {
  }

  /** So the same listing again, if it is accepted, is reported as observed again, and one with another
    * hash as changed. */
  lemma AgainIsReobserved(fold: Fold, c: Catalog, l: Listing, a: Answers, now: Time, next: Listing, b: Answers, later: Time)
    requires SourcesHaveJobs(c) && Faithful(c, l, a) && Ingested(fold, c, l, a, now).Some?
    requires var d := Ingested(fold, c, l, a, now).value;
             SourcesHaveJobs(d) && Faithful(d, next, b) && next.identity == l.identity && Ingested(fold, d, next, b, later).Some?
    ensures Reported(fold, Ingested(fold, c, l, a, now).value, next, b, later)
         == Some(if next.contentHash == l.contentHash then Reobserved else Changed)
  {
    IngestTells(fold, c, l, a, now, Hash);
  }

  // ---- Runs -------------------------------------------------------------------------------

  /** The listings of one identity that a run ingested. */
  ghost function Told(fold: Fold, c: Catalog, ops: seq<Operation>, id: Identity): seq<Listing>
    requires Runs(fold, c, ops)
    decreases |ops|
  {
    if ops == [] then []
    else
      (if Tells1(fold, c, ops[0], id) then [ops[0].listing] else []) + Told(fold, Apply(fold, c, ops[0]), ops[1..], id)
  }

  /** The operation ingests a listing of the identity, and it is accepted. */
  ghost predicate Tells1(fold: Fold, c: Catalog, op: Operation, id: Identity)
    requires Possible(c, op)
  {
    op.Ingest? && op.listing.identity == id && Ingested(fold, c, op.listing, op.answers, op.now).Some?
  }

  function LastToTell(part: Part, listings: seq<Listing>): (r: Option<Listing>)
    ensures r.None? ==> forall i :: 0 <= i < |listings| ==> !BringsPart(part, listings[i])
    ensures r.Some? ==> exists i :: 0 <= i < |listings| && listings[i] == r.value && BringsPart(part, listings[i])
                                    && forall k :: i < k < |listings| ==> !BringsPart(part, listings[k])
  {
    if listings == [] then None
    else
      var later := LastToTell(part, listings[1..]);
      if later.Some? then later
      else if BringsPart(part, listings[0]) then Some(listings[0])
      else None
  }

  /** The part is that of the last listing that brings something for it; if none does it is as before, and
    * in a new row that of the listing that made it. */
  ghost predicate TellsLatest(c: Catalog, d: Catalog, told: seq<Listing>, id: Identity, part: Part) {
    && (id in d.sources <==> id in c.sources || told != [])
    && (id in d.sources ==>
          var latest := LastToTell(part, told);
          if latest.Some? then Tells(part, d.sources[id], latest.value)
          else if id in c.sources then SamePart(part, d.sources[id], c.sources[id])
          else Tells(part, d.sources[id], told[0]))
  }

  lemma OneOperation(fold: Fold, c: Catalog, op: Operation, id: Identity, part: Part)
    requires Possible(c, op)
    ensures TellsLatest(c, Apply(fold, c, op), if Tells1(fold, c, op, id) then [op.listing] else [], id, part)
  {
    match op
    case Ingest(l, a, now) => IngestTellsLatest(fold, c, l, a, now, id, part);
    case Touch(source, ids, now) => TouchTellsNothing(c, source, ids, now, id, part);
    case Sweep(source, threshold, safetyStart) => SweepTellsNothing(c, source, threshold, safetyStart, id, part);
  }

  lemma IngestTellsLatest(fold: Fold, c: Catalog, l: Listing, a: Answers, now: Time, id: Identity, part: Part)
    requires SourcesHaveJobs(c) && Faithful(c, l, a)
    ensures var d := Ingested(fold, c, l, a, now);
            if d.Some? then TellsLatest(c, d.value, if l.identity == id then [l] else [], id, part)
            else TellsLatest(c, c, [], id, part)
  {
    if Ingested(fold, c, l, a, now).Some? {
      IngestTells(fold, c, l, a, now, part);
      IngestWrites(fold, c, l, a, now);
      assert [l][1..] == [];
    }
  }

  lemma TouchTellsNothing(c: Catalog, source: string, ids: set<string>, now: Time, id: Identity, part: Part)
    ensures TellsLatest(c, Touched(c, source, ids, now), [], id, part)
  {
  }

  lemma SweepTellsNothing(c: Catalog, source: string, threshold: Time, safetyStart: Time, id: Identity, part: Part)
    ensures TellsLatest(c, Swept(c, source, threshold, safetyStart), [], id, part)
  {
  }

  lemma OperationThenRun(c: Catalog, d: Catalog, e: Catalog, first: seq<Listing>, rest: seq<Listing>, id: Identity, part: Part)
    requires |first| <= 1 && TellsLatest(c, d, first, id, part) && TellsLatest(d, e, rest, id, part)
    ensures TellsLatest(c, e, first + rest, id, part)
  {
    if first == [] {
      assert first + rest == rest;
    } else {
      assert (first + rest)[1..] == rest && (first + rest)[0] == first[0] && first[1..] == [];
    }
  }

  /** After any run of ingestions, touches and sweeps. */
  lemma {:induction false} LatestListingWins(fold: Fold, c: Catalog, ops: seq<Operation>, id: Identity, part: Part)
    requires Runs(fold, c, ops)
    ensures TellsLatest(c, After(fold, c, ops), Told(fold, c, ops, id), id, part)
    decreases |ops|
  {
    if ops != [] {
      var d := Apply(fold, c, ops[0]);
      OneOperation(fold, c, ops[0], id, part);
      LatestListingWins(fold, d, ops[1..], id, part);
      OperationThenRun(c, d, After(fold, d, ops[1..]), if Tells1(fold, c, ops[0], id) then [ops[0].listing] else [],
                       Told(fold, d, ops[1..], id), id, part);
    }
  }

  // ---- Touches and sweeps -----------------------------------------------------------------

  /** A touch marks the listed sources of the provider, and the jobs they are observations of, as seen now
    * and active, and changes nothing else. */
  lemma TouchIs(c: Catalog, source: string, ids: set<string>, now: Time)
    ensures var d := Touched(c, source, ids, now);
            && d.sources.Keys == c.sources.Keys && d.jobs.Keys == c.jobs.Keys
            && (forall id :: id in c.sources ==>
                  d.sources[id] == if id.source == source && id.sourceJobId in ids
                                   then c.sources[id].(lastSeen := now, active := true) else c.sources[id])
            && (forall job :: job in c.jobs ==>
                  d.jobs[job] == if exists id :: id in c.sources && c.sources[id].job == job
                                                 && id.source == source && id.sourceJobId in ids
                                 then c.jobs[job].(lastSeen := now, active := true) else c.jobs[job])
  {
    forall job | job in c.jobs
      ensures ListsOne(c, job, source, ids) <==>
                exists id :: id in c.sources && c.sources[id].job == job && id.source == source && id.sourceJobId in ids
    {
      if id :| id in c.sources && c.sources[id].job == job && id.source == source && id.sourceJobId in ids {
        assert Observes(c, id, job) && Among(id, source, ids);
      }
    }
  }

  /** A listing touched at the threshold or later survives the next sweep, and so does its job. */
  lemma TouchedSurvivesSweep(c: Catalog, source: string, ids: set<string>, now: Time, threshold: Time, safetyStart: Time,
                             id: Identity)
    requires SourcesHaveJobs(c) && id in c.sources && id.source == source && id.sourceJobId in ids && threshold <= now
    ensures var swept := Swept(Touched(c, source, ids, now), source, threshold, safetyStart);
            && swept.sources[id] == c.sources[id].(lastSeen := now, active := true)
            && swept.jobs[c.sources[id].job] == c.jobs[c.sources[id].job].(lastSeen := now, active := true)
  {
    var d := Touched(c, source, ids, now);
    TouchIs(c, source, ids, now);
    var next := Catalog(d.jobs, SourcesSwept(d, source, threshold));
    assert next.sources[id] == d.sources[id];
    assert Observes(next, id, c.sources[id].job) && HasActiveSource(next, c.sources[id].job);
  }

  /** Otherwise, of a healthy provider, it is inactive after the sweep, and its job is if no other source
    * keeps it; nothing but activity changes. */
  lemma StaleIsSwept(c: Catalog, source: string, threshold: Time, safetyStart: Time, id: Identity)
    requires SourcesHaveJobs(c) && id in c.sources && id.source == source && c.sources[id].lastSeen < threshold
    requires exists other :: other in c.sources && other.source == source && c.sources[other].lastSeen >= safetyStart
    ensures var swept := Swept(c, source, threshold, safetyStart);
            && swept.sources[id] == c.sources[id].(active := false)
            && var job := c.sources[id].job;
               (c.sources[id].active ==>
                  swept.jobs[job] == if exists other :: other in c.sources && c.sources[other].job == job && c.sources[other].active
                                                        && !(other.source == source && c.sources[other].lastSeen < threshold)
                                     then c.jobs[job] else c.jobs[job].(active := false))
  {
    var job, next := c.sources[id].job, Catalog(c.jobs, SourcesSwept(c, source, threshold));
    assert Healthy(c, source, safetyStart);
    if c.sources[id].active {
      assert next.sources[id] != c.sources[id];
      if HasActiveSource(next, job) {
        var other :| other in next.sources && Observes(next, other, job) && next.sources[other].active;
        assert c.sources[other].job == job && c.sources[other].active;
      }
      if other :| other in c.sources && c.sources[other].job == job && c.sources[other].active
                  && !(other.source == source && c.sources[other].lastSeen < threshold) {
        assert Observes(next, other, job) && next.sources[other].active;
      }
    }
  }

  // ---- Candidates -------------------------------------------------------------------------

  /** Candidates come latest posting first, undated ones last, and by identifier where that does not
    * decide: a strict total order. */
  lemma CandidateOrder(c: Catalog, a: JobId, b: JobId)
    requires a in c.jobs && b in c.jobs
    ensures var p, q := c.jobs[a].content.postedAt, c.jobs[b].content.postedAt;
            && (p.Some? && q.Some? && p.value > q.value ==> Before(c, a, b))
            && (p.Some? && q.None? ==> Before(c, a, b))
            && (p == q ==> (Before(c, a, b) <==> a < b))
            && (Before(c, a, b) ==> !Before(c, b, a))
            && (a != b ==> Before(c, a, b) || Before(c, b, a))
  {
  }

  /** An active job of the employer under that very title is missing among the candidates only behind ten
    * others. */
  lemma MissingCandidate(c: Catalog, company: string, title: string, answer: seq<JobId>, job: JobId)
    requires AnswersCandidates(c, company, title, answer) && job in c.jobs && job !in answer
    requires var content := c.jobs[job].content;
             c.jobs[job].active && content.companyId == Some(company) && content.normalizedTitle == title
    ensures |answer| == 10 && forall other :: other in answer ==> other in c.jobs && Before(c, other, job)
  {
    assert IsCandidate(c, company, title, job);
  }
}
