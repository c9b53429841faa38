/** The dual write of one collected batch to the legacy table and to the canonical catalog:
  * `persist_raw_jobs` of app/jobs/collection.py, and what keeps the two tables equal. */
module Collection {
  import opened Wrappers
  import opened Text
  import opened Titles
  import opened Listings
  import opened CanonicalMerge
  import opened LegacyJobs
  import opened Deduplication
  import opened Catalogs
  import opened CatalogInvariants
  import opened Discovery

  datatype Tables = Tables(rows: Rows, catalog: Catalog)

  /** One collected job: its normalised form, unless normalisation raises, and what the clock and
    * the database answer while it is stored. */
  datatype Item = Item(listing: Option<Listing>, answers: Answers, now: Time)

  datatype Outcome = Stored(status: Status, canonical: bool) | Refused | Unreadable

  predicate Readable(target: string, item: Item) {
    item.listing.Some? && item.listing.value.identity.source == target
  }

  ghost predicate Sound(t: Tables) {
    ValidRows(t.rows) && Connected(t.catalog)
  }

  ghost predicate Storable(target: string, t: Tables, item: Item) {
    Sound(t) && (Readable(target, item) ==> Faithful(t.catalog, item.listing.value, item.answers))
  }

  /** The tables after one item: the legacy write first, in its own savepoint; only if it is taken
    * the canonical one, in another. */
  ghost function Stored1(fold: Fold, target: string, t: Tables, item: Item): (Tables, Outcome)
    requires Storable(target, t, item)
  {
    if !Readable(target, item) then (t, Unreadable)
    else
      var l := item.listing.value;
      var row := NewRow(t.rows, l, item.now);
      if !RowAccepted(row) then (t, Refused)
      else
        var next := Ingested(fold, t.catalog, l, item.answers, item.now);
        (Tables(t.rows[l.identity := row], if next.Some? then next.value else t.catalog),
         Stored(StatusOf(t.rows, l), next.Some?))
  }

  ghost function StatusOf(rows: Rows, l: Listing): Status
    requires ValidRows(rows)
  {
    if l.identity !in rows then Inserted
    else if rows[l.identity][ContentHash] == Words(l.contentHash) then Skipped
    else Updated
  }

  function TouchedTables(t: Tables, source: string, ids: set<string>, legacyNow: Time, now: Time): Tables {
    Tables(TouchRows(t.rows, source, ids, legacyNow), Touched(t.catalog, source, ids, now))
  }

  ghost predicate BatchRuns(fold: Fold, target: string, t: Tables, items: seq<Item>)
    decreases |items|
  {
    items == [] ||
    (Storable(target, t, items[0]) && BatchRuns(fold, target, Stored1(fold, target, t, items[0]).0, items[1..]))
  }

  ghost function StoredAll(fold: Fold, target: string, t: Tables, items: seq<Item>): (r: (Tables, seq<Outcome>))
    requires BatchRuns(fold, target, t, items)
    ensures |r.1| == |items|
    decreases |items|
  {
    if items == [] then (t, [])
    else
      var first := Stored1(fold, target, t, items[0]);
      var rest := StoredAll(fold, target, first.0, items[1..]);
      (rest.0, [first.1] + rest.1)
  }

  datatype Counts =
    Counts(normalized: nat, inserted: nat, updated: nat, skipped: nat, failed: nat, canonicalFailed: nat)

  function Count(outcomes: seq<Outcome>): Counts {
    if outcomes == [] then Counts(0, 0, 0, 0, 0, 0)
    else Counted(Count(outcomes[..|outcomes| - 1]), outcomes[|outcomes| - 1])
  }

  function Counted(n: Counts, outcome: Outcome): Counts {
    match outcome
    case Unreadable => n.(failed := n.failed + 1)
    case Refused => n.(normalized := n.normalized + 1, failed := n.failed + 1)
    case Stored(status, canonical) =>
      var m := n.(normalized := n.normalized + 1,
                  canonicalFailed := n.canonicalFailed + if canonical then 0 else 1);
      match status
      case Inserted => m.(inserted := m.inserted + 1)
      case Updated => m.(updated := m.updated + 1)
      case Skipped => m.(skipped := m.skipped + 1)
  }

  /** The counts of a batch add up: each item is inserted, updated, skipped or failed, and a
    * canonical failure is never also counted as a failure. */
  lemma {:induction false} CountsAddUp(outcomes: seq<Outcome>)
    ensures var n := Count(outcomes);
            && n.inserted + n.updated + n.skipped + n.failed == |outcomes|
            && n.inserted + n.updated + n.skipped <= n.normalized <= |outcomes|
            && n.canonicalFailed <= n.inserted + n.updated + n.skipped
            && (n.canonicalFailed == 0 <==> forall i :: 0 <= i < |outcomes| && outcomes[i].Stored? ==> outcomes[i].canonical)
  {
    if outcomes != [] {
      var before, last := outcomes[..|outcomes| - 1], outcomes[|outcomes| - 1];
      CountsAddUp(before);
      assert forall i :: 0 <= i < |before| ==> outcomes[i] == before[i];
    }
  }

  /** How many items ended this way, in either table. */
  function Ended(outcomes: seq<Outcome>, status: Status): nat {
    multiset(outcomes)[Stored(status, true)] + multiset(outcomes)[Stored(status, false)]
  }

  /** Each number of the report counts the items that ended so. */
  lemma {:induction false} CountsAre(outcomes: seq<Outcome>)
    ensures var n, all := Count(outcomes), multiset(outcomes);
            && n.inserted == Ended(outcomes, Inserted) && n.updated == Ended(outcomes, Updated)
            && n.skipped == Ended(outcomes, Skipped) && n.failed == all[Refused] + all[Unreadable]
            && n.normalized == |outcomes| - all[Unreadable]
            && n.canonicalFailed == all[Stored(Inserted, false)] + all[Stored(Updated, false)] + all[Stored(Skipped, false)]
  {
    if outcomes != [] {
      var before, last := outcomes[..|outcomes| - 1], outcomes[|outcomes| - 1];
      CountsAre(before);
      assert outcomes == before + [last];
      assert multiset(outcomes) == multiset(before) + multiset{last};
    }
  }

  /** How one item ends: it is unreadable, or of another source; it is refused by the legacy table; or it is
    * stored there, as new, as the same content or as changed, and perhaps not in the catalog. */
  lemma EndOfItem(fold: Fold, target: string, t: Tables, item: Item)
    requires Storable(target, t, item)
    ensures var end, after := Stored1(fold, target, t, item).1, Stored1(fold, target, t, item).0;
            && (end == Unreadable <==> item.listing == None || item.listing.value.identity.source != target)
            && (end.Stored? ==> after.rows.Keys == t.rows.Keys + {item.listing.value.identity})
            && (!end.Stored? ==> after == t)
            && (end == Refused <==> end != Unreadable && !RowAccepted(NewRow(t.rows, item.listing.value, item.now)))
            && (end.Stored? ==>
                  var l := item.listing.value;
                  && (end.status == Inserted <==> l.identity !in t.rows)
                  && (end.status == Skipped <==>
                        l.identity in t.rows && t.rows[l.identity][ContentHash] == Words(l.contentHash))
                  && (!end.canonical ==> after.catalog == t.catalog)
                  && (end.canonical ==> l.identity in after.catalog.sources))
  {
  }

  class CollectionCoordinator {
    const repository: GlobalJobRepository
    const canonical: CanonicalJobIngestionService

    constructor (repository: GlobalJobRepository, canonical: CanonicalJobIngestionService)
      ensures this.repository == repository && this.canonical == canonical
    {
      this.repository, this.canonical := repository, canonical;
    }

    ghost function State(): Tables
      reads repository, canonical.repository
    {
      Tables(repository.rows, canonical.repository.State())
    }

    method PersistItem(target: string, item: Item) returns (outcome: Outcome)
      requires Storable(target, State(), item)
      modifies repository, canonical.repository
      ensures (State(), outcome) == Stored1(canonical.fold, target, old(State()), item)
    {
      if item.listing.None? || item.listing.value.identity.source != target {
        return Unreadable;
      }
      var l := item.listing.value;
      var status := repository.UpsertWithOutcome(l, item.now);
      if status.None? {
        return Refused;
      }
      var action := canonical.Ingest(l, item.answers, item.now);
      return Stored(status.value, action.Some?);
    }

    /** `persist_raw_jobs`: one bad item never undoes another. */
    method PersistRawJobs(target: string, items: seq<Item>) returns (counts: Counts)
      requires BatchRuns(canonical.fold, target, State(), items)
      modifies repository, canonical.repository
      ensures var r := StoredAll(canonical.fold, target, old(State()), items);
              State() == r.0 && counts == Count(r.1)
    {
      counts := Counts(0, 0, 0, 0, 0, 0);
      ghost var outcomes := [];
      assert items[0..] == items;
      assert forall rest: seq<Outcome> :: outcomes + rest == rest;
      for i := 0 to |items|
        invariant BatchRuns(canonical.fold, target, State(), items[i..])
        invariant var rest := StoredAll(canonical.fold, target, State(), items[i..]);
                  StoredAll(canonical.fold, target, old(State()), items) == (rest.0, outcomes + rest.1)
        invariant counts == Count(outcomes)
      {
        assert items[i..][1..] == items[i + 1..];
        var outcome := PersistItem(target, items[i]);
        counts := Counted(counts, outcome);
        assert (outcomes + [outcome])[..|outcomes|] == outcomes;
        ghost var rest := StoredAll(canonical.fold, target, State(), items[i + 1..]);
        assert outcomes + ([outcome] + rest.1) == (outcomes + [outcome]) + rest.1;
        outcomes := outcomes + [outcome];
      }
      assert outcomes + [] == outcomes;
    }

    /** `run` on what discovery found and what fetching the details of the rest returned: every
      * distinct candidate is either touched in both tables, because its details are recent, or
      * handed to the detail fetch, never both. */
    method Run(source: string, candidates: seq<Candidate>, now: Time, legacyNow: Time, touchNow: Time, items: seq<Item>)
      returns (counts: Counts, discovered: nat, skippedRecent: nat, details: seq<Candidate>)
      requires Sound(State())
      requires BatchRuns(canonical.fold, source,
                         TouchedTables(State(), source, RecentIds(State(), source, candidates, now), legacyNow, touchNow), items)
      modifies repository, canonical.repository
      ensures var recent := RecentIds(old(State()), source, candidates, now);
              var touched := TouchedTables(old(State()), source, recent, legacyNow, touchNow);
              var r := StoredAll(canonical.fold, source, touched, items);
              && State() == r.0 && counts == Count(r.1)
              && skippedRecent == |recent| && discovered == |FirstIds(candidates)|
              && discovered == skippedRecent + |details|
              && (forall c :: c in details <==> Last(candidates, c.id) == Some(c) && c.id !in recent)
    {
      ghost var t := State();
      ghost var recent := RecentIds(t, source, candidates, now);
      var unique := UniqueCandidates(candidates);
      var recentIds, detail := SelectRecent(source, unique, now);
      SelectionIs(t, source, candidates, unique, recentIds, detail, now);
      if recentIds != [] {
        var legacyCount := repository.TouchSeen(source, recentIds, legacyNow);
        var canonicalCount := canonical.TouchSeen(source, recentIds, touchNow);
      } else {
        TouchingNothing(t, source, legacyNow, touchNow);
      }
      counts := PersistRawJobs(source, items);
      discovered, skippedRecent, details := |unique|, |recentIds|, detail;
    }

    /** The two selections of `run`. */
    method SelectRecent(source: string, unique: seq<Candidate>, now: Time)
      returns (recentIds: seq<string>, detail: seq<Candidate>)
      requires Sound(State()) && DistinctIds(unique)
      ensures Selected(State(), source, unique, recentIds, detail, now)
    {
      recentIds, detail := [], [];
      for i := 0 to |unique|
        invariant Selected(State(), source, unique[..i], recentIds, detail, now)
      {
        var c := unique[i];
        assert unique[..i + 1] == unique[..i] + [c];
        assert forall b :: b in unique[..i] ==> b.id != c.id;
        SelectOne(State(), source, unique[..i], recentIds, detail, now, c);
        if Recent(Tables(repository.rows, canonical.repository.State()), Identity(source, c.id), now) {
          recentIds := recentIds + [c.id];
        } else {
          detail := detail + [c];
        }
      }
      assert unique[..|unique|] == unique;
    }
  }

  ghost predicate DistinctIds(unique: seq<Candidate>) {
    forall i, j :: 0 <= i < j < |unique| ==> unique[i].id != unique[j].id
  }

  /** Each candidate is in exactly one of the two selections. */
  ghost predicate Selected(t: Tables, source: string, unique: seq<Candidate>, recentIds: seq<string>,
                           detail: seq<Candidate>, now: Time)
    requires ValidRows(t.rows)
  {
    && |recentIds| + |detail| == |unique| && Distinct(recentIds)
    && (forall id :: id in recentIds ==> Recent(t, Identity(source, id), now) && exists c :: c in unique && c.id == id)
    && (forall c :: c in detail ==> c in unique && !Recent(t, Identity(source, c.id), now))
    && (forall c :: c in unique ==> if Recent(t, Identity(source, c.id), now) then c.id in recentIds else c in detail)
  }

  /** One more candidate goes to one of the two. */
  lemma SelectOne(t: Tables, source: string, unique: seq<Candidate>, recentIds: seq<string>, detail: seq<Candidate>,
                  now: Time, c: Candidate)
    requires ValidRows(t.rows) && Selected(t, source, unique, recentIds, detail, now)
    requires forall b :: b in unique ==> b.id != c.id
    ensures if Recent(t, Identity(source, c.id), now)
            then Selected(t, source, unique + [c], recentIds + [c.id], detail, now)
            else Selected(t, source, unique + [c], recentIds, detail + [c], now)
  {
    assert forall b :: b in unique + [c] <==> b in unique || b == c;
    assert c in unique + [c];
  }

  lemma SelectionIs(t: Tables, source: string, candidates: seq<Candidate>, unique: seq<Candidate>,
                    recentIds: seq<string>, detail: seq<Candidate>, now: Time)
    requires Sound(t) && |unique| == |FirstIds(candidates)| && Selected(t, source, unique, recentIds, detail, now)
    requires forall i :: 0 <= i < |unique| ==>
               unique[i].id == FirstIds(candidates)[i] && Last(candidates, unique[i].id) == Some(unique[i])
    ensures var recent := RecentIds(t, source, candidates, now);
            && (set id | id in recentIds) == recent && |recentIds| == |recent|
            && forall c: Candidate :: c in detail <==> Last(candidates, c.id) == Some(c) && c.id !in recent
  {
    var ids, recent := FirstIds(candidates), RecentIds(t, source, candidates, now);
    forall id | id in recent
      ensures id in recentIds
    {
      var i :| 0 <= i < |ids| && ids[i] == id;
      assert unique[i] in unique;
    }
    assert (set id | id in recentIds) == recent;
    DistinctSize(recentIds);
    forall c: Candidate | Last(candidates, c.id) == Some(c) && c.id !in recent
      ensures c in detail
    {
      var i :| 0 <= i < |ids| && ids[i] == c.id;
      assert unique[i] in unique && unique[i] == c;
    }
  }

  lemma TouchingNothing(t: Tables, source: string, legacyNow: Time, now: Time)
    ensures TouchedTables(t, source, {}, legacyNow, now) == t
  {
    var u := TouchedTables(t, source, {}, legacyNow, now);
    assert u.rows == t.rows && u.catalog.jobs == t.catalog.jobs && u.catalog.sources == t.catalog.sources;
  }

  // ---- A collection run -------------------------------------------------------------------

  /** A row refreshed within six hours whose details are known is not fetched again. */
  predicate Recent(t: Tables, id: Identity, now: Time)
    requires forall known :: known in t.rows ==> t.rows[known].Keys == COLUMNS
  {
    && id in t.rows && ScrapedSince(t.rows[id], now - SIX_HOURS)
    && (Complete(t.rows[id]) || (id in t.catalog.sources && DetailFetched(t.catalog.sources[id])))
  }

  ghost function RecentIds(t: Tables, source: string, candidates: seq<Candidate>, now: Time): set<string>
    requires ValidRows(t.rows)
  {
    set id | id in FirstIds(candidates) && Recent(t, Identity(source, id), now)
  }

  predicate IsFilled(v: Value) {
    v.Words? && Strip(v.text) != ""
  }

  /** When a listing's details count as recent: its legacy row was scraped in the last six hours, and either
    * that row names company, place, URL, description, type and date, or the catalog has a payload that is
    * no migration stub. */
  lemma RecentIff(t: Tables, id: Identity, now: Time)
    requires ValidRows(t.rows)
    ensures Recent(t, id, now) <==>
              && id in t.rows
              && (exists n :: t.rows[id][ScrapedAt] == Number(n) && n >= now - 21600)
              && (|| (&& IsFilled(t.rows[id][CompanyName]) && IsFilled(t.rows[id][Location]) && IsFilled(t.rows[id][JobUrl])
                      && IsFilled(t.rows[id][Description]) && IsFilled(t.rows[id][EmploymentType])
                      && t.rows[id][PostedAt] != Null)
                  || (id in t.catalog.sources && t.catalog.sources[id].rawData != map[]
                      && "legacy_global_job_id" !in t.catalog.sources[id].rawData))
  {
  }

  /** Once a listing is stored in a row that has all its details, whether it brought them or the row
    * had them before, it is not fetched again for exactly six hours. */
  lemma StoredDetailsAreRecent(rows: Rows, c: Catalog, l: Listing, stored: Time, now: Time)
    requires ValidRows(rows)
    requires Complete(NewRow(rows, l, stored)) || (l.identity in rows && Complete(rows[l.identity]))
    ensures Recent(Tables(rows[l.identity := NewRow(rows, l, stored)], c), l.identity, now) <==> now - SIX_HOURS <= stored
  {
    WritesScrapedAt(rows, l, stored);
    if l.identity in rows && Complete(rows[l.identity]) {
      MergeKeepsComplete(rows[l.identity], l, stored);
    }
  }

  /** What is skipped as recent is among the candidates, and its row was scraped in the last six hours. */
  lemma SkippedWereFetched(t: Tables, source: string, candidates: seq<Candidate>, now: Time, id: string)
    requires ValidRows(t.rows) && id in RecentIds(t, source, candidates, now)
    ensures exists c :: c in candidates && c.id == id
    ensures Identity(source, id) in t.rows && exists n :: t.rows[Identity(source, id)][ScrapedAt] == Number(n) && n >= now - 21600
  {
    assert Last(candidates, id).value in candidates;
    RecentIff(t, Identity(source, id), now);
  }

  /** A touch of both tables leaves each with the time its own clock read. */
  lemma TouchedInBoth(t: Tables, source: string, ids: set<string>, legacyNow: Time, now: Time, id: string)
    requires ValidRows(t.rows) && id in ids && Identity(source, id) in t.rows && Identity(source, id) in t.catalog.sources
    ensures var u := TouchedTables(t, source, ids, legacyNow, now);
            && u.rows[Identity(source, id)][LastSeenAt] == Number(legacyNow)
            && u.rows[Identity(source, id)][IsActive] == Flag(true)
            && u.catalog.sources[Identity(source, id)].lastSeen == now && u.catalog.sources[Identity(source, id)].active
  {
  }

  // ---- The two tables ---------------------------------------------------------------------

  /** What the canonical row holds in the columns both tables carry under the same merge rule. */
  function Common(field: Field, c: Content): Option<Value> {
    match field
    case Description => Some(OfText(c.description))
    case Location => Some(OfText(c.location))
    case EmploymentType => Some(OfText(c.employmentType))
    case Skills => Some(List(c.skills))
    case ExperienceMinYears => Some(OfNumber(c.experienceMin))
    case ExperienceMaxYears => Some(OfNumber(c.experienceMax))
    case ExperienceText => Some(OfText(c.experienceText))
    case SalaryText => Some(OfText(c.salaryText))
    case PostedAt => Some(OfNumber(c.postedAt))
    case RoleFamily => Some(Words(c.roleFamily))
    case _ => None
  }

  predicate Agree(row: Row, c: Content)
    requires row.Keys == COLUMNS
  {
    forall field :: field in COLUMNS && Common(field, c).Some? ==> row[field] == Common(field, c).value
  }

  lemma CreatedAgree(l: Listing, now: Time)
    ensures Agree(ValuesOf(l, now), Created(l))
  {
  }

  lemma TextColumn(field: Field, incoming: Option<string>, stored: Option<string>)
    requires RuleOf(field).KeepIfBlank?
    ensures Chosen(field, OfText(incoming), OfText(stored)) == OfText(PreferText(incoming, stored))
  {
  }

  lemma ColumnAgrees(field: Field, stored: Value, c: Content, l: Listing, now: Time)
    requires Common(field, c) == Some(stored)
    ensures Common(field, Refreshed(c, l)) == Some(Chosen(field, ValueOf(field, l, now), stored))
  {
    match field {
      case Description => TextColumn(field, l.description, c.description);
      case Location => TextColumn(field, l.location, c.location);
      case EmploymentType => TextColumn(field, l.employmentType, c.employmentType);
      case ExperienceText => TextColumn(field, l.experienceText, c.experienceText);
      case SalaryText => TextColumn(field, l.salaryText, c.salaryText);
      case _ =>
    }
  }

  lemma RefreshedAgree(row: Row, c: Content, l: Listing, now: Time)
    requires row.Keys == COLUMNS && Agree(row, c)
    ensures Agree(Merged(row, ValuesOf(l, now)), Refreshed(c, l))
  {
    var merged := Merged(row, ValuesOf(l, now));
    forall field | field in COLUMNS && Common(field, Refreshed(c, l)).Some?
      ensures merged[field] == Common(field, Refreshed(c, l)).value
    {
      assert Common(field, c).Some?;
      ColumnAgrees(field, row[field], c, l, now);
    }
  }

  /** Agreeing rows pass the experience constraints together. */
  lemma AgreeOnExperience(row: Row, c: Content)
    requires row.Keys == COLUMNS && Agree(row, c)
    ensures RowAccepted(row) <==> ExperienceAccepted(c.experienceMin, c.experienceMax)
  {
    assert row[ExperienceMinYears] == Common(ExperienceMinYears, c).value;
    assert row[ExperienceMaxYears] == Common(ExperienceMaxYears, c).value;
  }

  /** The listing is the only one observed on its job. */
  ghost predicate Unshared(c: Catalog, id: Identity) {
    id in c.sources && forall other :: Observes(c, other, c.sources[id].job) ==> other == id
  }

  predicate AgreeAt(t: Tables, id: Identity) {
    && id in t.rows && t.rows[id].Keys == COLUMNS
    && id in t.catalog.sources && t.catalog.sources[id].job in t.catalog.jobs
    && Agree(t.rows[id], t.catalog.jobs[t.catalog.sources[id].job].content)
  }

  /** Both tables know the same identities, and agree on each that shares its job with no other. */
  ghost predicate InStep(t: Tables) {
    && Sound(t) && t.rows.Keys == t.catalog.sources.Keys
    && forall id :: Unshared(t.catalog, id) ==> AgreeAt(t, id)
  }

  /** From agreeing tables, a canonical write that follows a legacy write is refused exactly when the
    * salary bounds it would store cross: the one constraint the legacy table lacks. */
  lemma CanonicalFailsOnlyOnSalary(fold: Fold, t: Tables, l: Listing, a: Answers, now: Time)
    requires InStep(t) && Faithful(t.catalog, l, a) && RowAccepted(NewRow(t.rows, l, now))
    requires l.identity in t.rows ==> Unshared(t.catalog, l.identity)
    ensures var c := t.catalog;
            Ingested(fold, c, l, a, now).None? <==>
              if l.identity in t.rows then
                var content := c.jobs[c.sources[l.identity].job].content;
                !Ordered(l.salaryMin.Or(content.salaryMin), l.salaryMax.Or(content.salaryMax))
              else Joined(fold, c, l, a).None? && !Ordered(l.salaryMin, l.salaryMax)
  {
    if l.identity in t.rows {
      assert AgreeAt(t, l.identity);
      var content := t.catalog.jobs[t.catalog.sources[l.identity].job].content;
      RefreshedAgree(t.rows[l.identity], content, l, now);
      AgreeOnExperience(NewRow(t.rows, l, now), Refreshed(content, l));
    } else {
      CreatedAgree(l, now);
      AgreeOnExperience(NewRow(t.rows, l, now), Created(l));
    }
  }

  lemma WriteKeepsInStep(fold: Fold, t: Tables, u: Tables, l: Listing, a: Answers, now: Time)
    requires InStep(t) && Faithful(t.catalog, l, a) && Ingested(fold, t.catalog, l, a, now) == Some(u.catalog)
    requires RowAccepted(NewRow(t.rows, l, now)) && u.rows == t.rows[l.identity := NewRow(t.rows, l, now)]
    ensures InStep(u)
  {
    IngestWrites(fold, t.catalog, l, a, now);
    WriteKeepsConnected(t.catalog, u.catalog, l.identity, now);
    RowsStayValid(t.rows, l.identity, u.rows[l.identity]);
    forall id | Unshared(u.catalog, id)
      ensures AgreeAt(u, id)
    {
      if id == l.identity {
        WrittenListingAgrees(fold, t, u.catalog, l, a, now);
      } else {
        OtherListingAgrees(t, u, l.identity, now, id);
      }
    }
  }

  lemma RowsStayValid(rows: Rows, id: Identity, row: Row)
    requires ValidRows(rows) && row.Keys == COLUMNS && RowAccepted(row)
    ensures ValidRows(rows[id := row])
  {
  }

  lemma OtherListingAgrees(t: Tables, u: Tables, written: Identity, now: Time, id: Identity)
    requires InStep(t) && Writes(t.catalog, u.catalog, written, now) && Unshared(u.catalog, id) && id != written
    requires id in t.rows && id in u.rows && u.rows[id] == t.rows[id]
    ensures AgreeAt(u, id)
  {
    assert Observes(u.catalog, written, u.catalog.sources[written].job);
    assert u.catalog.sources[id].job != u.catalog.sources[written].job;
    OthersStayUnshared(t.catalog, u.catalog, written, now, id);
    assert AgreeAt(t, id);
  }

  lemma WrittenListingAgrees(fold: Fold, t: Tables, d: Catalog, l: Listing, a: Answers, now: Time)
    requires InStep(t) && Faithful(t.catalog, l, a) && Ingested(fold, t.catalog, l, a, now) == Some(d)
    requires Unshared(d, l.identity) && d.sources[l.identity].job in d.jobs
    ensures Agree(NewRow(t.rows, l, now), d.jobs[d.sources[l.identity].job].content)
  {
    var c := t.catalog;
    IngestWrites(fold, c, l, a, now);
    if l.identity in c.sources {
      RefreshedListingAgrees(fold, t, d, l, a, now);
    } else {
      OnlySourceIsNew(c, d, l.identity, now);
      CreatedAgree(l, now);
    }
  }

  lemma RefreshedListingAgrees(fold: Fold, t: Tables, d: Catalog, l: Listing, a: Answers, now: Time)
    requires InStep(t) && Faithful(t.catalog, l, a) && Ingested(fold, t.catalog, l, a, now) == Some(d)
    requires l.identity in t.catalog.sources && Unshared(d, l.identity) && d.sources[l.identity].job in d.jobs
    ensures Agree(NewRow(t.rows, l, now), d.jobs[d.sources[l.identity].job].content)
  {
    var c := t.catalog;
    IngestWrites(fold, c, l, a, now);
    OthersStayUnshared(c, d, l.identity, now, l.identity);
    assert AgreeAt(t, l.identity);
    RefreshedAgree(t.rows[l.identity], c.jobs[c.sources[l.identity].job].content, l, now);
  }

  lemma OthersStayUnshared(c: Catalog, d: Catalog, written: Identity, now: Time, id: Identity)
    requires Connected(c) && Writes(c, d, written, now) && Unshared(d, id) && id in c.sources
    ensures Unshared(c, id) && d.sources[id].job == c.sources[id].job
  {
    assert forall other :: Observes(c, other, c.sources[id].job) ==> Observes(d, other, d.sources[id].job);
  }

  /** A job whose only source is new was not there before. */
  lemma OnlySourceIsNew(c: Catalog, d: Catalog, written: Identity, now: Time)
    requires Connected(c) && Writes(c, d, written, now) && Unshared(d, written) && written !in c.sources
    ensures d.sources[written].job !in c.jobs
  {
    var mine := d.sources[written].job;
    assert forall other :: Observes(c, other, mine) ==> Observes(d, other, mine);
    assert !HasSource(c, mine);
  }

  // ---- Whole runs -------------------------------------------------------------------------

  datatype Event =
    | Persist(target: string, item: Item)
    | TouchBoth(source: string, ids: set<string>, legacyNow: Time, now: Time)
    | SweepStale(source: string, threshold: Time, safetyStart: Time)

  ghost predicate CanHappen(t: Tables, e: Event) {
    Sound(t) && (e.Persist? ==> Storable(e.target, t, e.item))
  }

  ghost function Next(fold: Fold, t: Tables, e: Event): Tables
    requires CanHappen(t, e)
  {
    match e
    case Persist(target, item) => Stored1(fold, target, t, item).0
    case TouchBoth(source, ids, legacyNow, now) => TouchedTables(t, source, ids, legacyNow, now)
    case SweepStale(source, threshold, safetyStart) =>
      t.(catalog := Swept(t.catalog, source, threshold, safetyStart))
  }

  /** The event did not end in a legacy write whose canonical write failed. */
  ghost predicate CanonicalKeptUp(fold: Fold, t: Tables, e: Event)
    requires CanHappen(t, e)
  {
    e.Persist? ==>
      var outcome := Stored1(fold, e.target, t, e.item).1;
      outcome.Stored? ==> outcome.canonical
  }

  ghost predicate Succeeds(fold: Fold, t: Tables, events: seq<Event>)
    decreases |events|
  {
    events == [] ||
    (&& CanHappen(t, events[0]) && CanonicalKeptUp(fold, t, events[0])
     && Succeeds(fold, Next(fold, t, events[0]), events[1..]))
  }

  ghost function Final(fold: Fold, t: Tables, events: seq<Event>): Tables
    requires Succeeds(fold, t, events)
    decreases |events|
  {
    if events == [] then t else Final(fold, Next(fold, t, events[0]), events[1..])
  }

  /** Same identities, jobs and content, and equal rows but for the two columns a touch writes. */
  ghost predicate SameAgreement(t: Tables, u: Tables) {
    && t.rows.Keys == u.rows.Keys && t.catalog.sources.Keys == u.catalog.sources.Keys
    && (forall id :: id in t.rows ==>
          u.rows[id].Keys == t.rows[id].Keys
          && forall field :: field in t.rows[id] && !field.LastSeenAt? && !field.IsActive? ==>
                               u.rows[id][field] == t.rows[id][field])
    && (forall id :: id in t.catalog.sources ==> u.catalog.sources[id].job == t.catalog.sources[id].job)
    && (forall job :: job in t.catalog.jobs ==>
          job in u.catalog.jobs && u.catalog.jobs[job].content == t.catalog.jobs[job].content)
  }

  lemma SameAgreementInStep(t: Tables, u: Tables)
    requires InStep(t) && Connected(u.catalog) && SameAgreement(t, u)
    ensures InStep(u)
  {
    forall id | id in u.rows
      ensures u.rows[id].Keys == COLUMNS && RowAccepted(u.rows[id])
    {
      assert u.rows[id][ExperienceMinYears] == t.rows[id][ExperienceMinYears];
      assert u.rows[id][ExperienceMaxYears] == t.rows[id][ExperienceMaxYears];
    }
    forall id | Unshared(u.catalog, id)
      ensures AgreeAt(u, id)
    {
      SameAgreementAt(t, u, id);
    }
  }

  lemma SameAgreementAt(t: Tables, u: Tables, id: Identity)
    requires InStep(t) && SameAgreement(t, u) && Unshared(u.catalog, id)
    ensures AgreeAt(u, id)
  {
    assert forall other :: Observes(t.catalog, other, t.catalog.sources[id].job) ==>
                             Observes(u.catalog, other, u.catalog.sources[id].job);
    assert Unshared(t.catalog, id) && AgreeAt(t, id);
    AgreementCarries(t.rows[id], u.rows[id], t.catalog.jobs[t.catalog.sources[id].job].content);
  }

  lemma AgreementCarries(was: Row, now: Row, c: Content)
    requires was.Keys == now.Keys == COLUMNS && Agree(was, c)
    requires forall field :: field in was && !field.LastSeenAt? && !field.IsActive? ==> now[field] == was[field]
    ensures Agree(now, c)
  {
    forall field | field in COLUMNS && Common(field, c).Some?
      ensures now[field] == Common(field, c).value
    {
      assert field in was && !field.LastSeenAt? && !field.IsActive?;
    }
  }

  lemma TouchKeepsAgreement(t: Tables, source: string, ids: set<string>, legacyNow: Time, now: Time)
    requires Sound(t)
    ensures SameAgreement(t, TouchedTables(t, source, ids, legacyNow, now))
  {
  }

  lemma EventKeepsInStep(fold: Fold, t: Tables, e: Event)
    requires InStep(t) && CanHappen(t, e) && CanonicalKeptUp(fold, t, e)
    ensures InStep(Next(fold, t, e))
  {
    match e {
      case Persist(target, item) =>
        if Readable(target, item) && RowAccepted(NewRow(t.rows, item.listing.value, item.now)) {
          WriteKeepsInStep(fold, t, Next(fold, t, e), item.listing.value, item.answers, item.now);
        }
      case TouchBoth(source, ids, legacyNow, now) =>
        TouchKeepsConnected(t.catalog, source, ids, now);
        TouchKeepsAgreement(t, source, ids, legacyNow, now);
        SameAgreementInStep(t, Next(fold, t, e));
      case SweepStale(source, threshold, safetyStart) =>
        SweepKeepsConnected(t.catalog, source, threshold, safetyStart);
        SweepChangesActivity(t.catalog, source, threshold, safetyStart);
        SameAgreementInStep(t, Next(fold, t, e));
    }
  }

  /** The two merge implementations agree: after every run in which no canonical write failed, the
    * legacy row and the canonical row of every listing that shares its job with no other are equal
    * in all common fields. */
  lemma {:induction false} RunKeepsInStep(fold: Fold, t: Tables, events: seq<Event>)
    requires InStep(t) && Succeeds(fold, t, events)
    ensures InStep(Final(fold, t, events))
    decreases |events|
  {
    if events != [] {
      EventKeepsInStep(fold, t, events[0]);
      RunKeepsInStep(fold, Next(fold, t, events[0]), events[1..]);
    }
  }

  lemma EmptyTablesAreInStep()
    ensures InStep(Tables(map[], EMPTY))
  {
  }

  /** Both provisos are needed.  When the canonical write after a legacy one is refused, a known listing
    * that has its job to itself still agrees exactly when the legacy write changed no common column;
    * a new listing is then in the legacy table only. */
  lemma RefusedWriteDisagrees(fold: Fold, target: string, t: Tables, item: Item)
    requires InStep(t) && Storable(target, t, item)
    requires Stored1(fold, target, t, item).1.Stored? && !Stored1(fold, target, t, item).1.canonical
    ensures var u, id := Stored1(fold, target, t, item).0, item.listing.value.identity;
            if id !in t.rows then id in u.rows && id !in u.catalog.sources
            else Unshared(t.catalog, id) ==> (AgreeAt(u, id) <==> SameCommonColumns(t.rows[id], u.rows[id]))
  {
    var u, id := Stored1(fold, target, t, item).0, item.listing.value.identity;
    assert u.catalog == t.catalog;
    if id in t.rows && Unshared(t.catalog, id) {
      assert AgreeAt(t, id);
      AgreeIffSame(t.rows[id], u.rows[id], t.catalog.jobs[t.catalog.sources[id].job].content);
    }
  }

  /** The columns of the comparison are the same ones for every content. */
  predicate IsCommon(field: Field) {
    match field
    case Description | Location | EmploymentType | Skills | ExperienceMinYears | ExperienceMaxYears
       | ExperienceText | SalaryText | PostedAt | RoleFamily => true
    case _ => false
  }

  predicate SameCommonColumns(a: Row, b: Row)
    requires a.Keys == b.Keys == COLUMNS
  {
    forall field :: field in COLUMNS && IsCommon(field) ==> a[field] == b[field]
  }

  lemma AgreeIffSame(a: Row, b: Row, c: Content)
    requires a.Keys == b.Keys == COLUMNS && Agree(a, c)
    ensures Agree(b, c) <==> SameCommonColumns(a, b)
  {
    assert forall field :: field in COLUMNS ==> (IsCommon(field) <==> Common(field, c).Some?);
    assert forall field :: field in COLUMNS && IsCommon(field) ==> a[field] == Common(field, c).value;
  }

  /** A listing with nothing but a description and salary bounds. */
  function Plain(description: Option<string>, salaryMin: Option<int>, salaryMax: Option<int>): Listing {
    Listing(Identity("dice", "1"), "Clerk", "clerk", "other", None, None, None, None, None, description, None, None,
            None, None, [], None, None, None, None, None, salaryMin, salaryMax, None, None, "hash", map[])
  }

  function PlainItem(l: Listing, newId: JobId): Item {
    Item(Some(l), Answers(None, [], newId), 0)
  }

  lemma FirstPlainWrite(fold: Fold)
    ensures var t, item := Tables(map[], EMPTY), PlainItem(Plain(None, None, Some(10)), 0);
            && Storable("dice", t, item)
            && var l := item.listing.value;
               Stored1(fold, "dice", t, item)
               == (Tables(map[l.identity := ValuesOf(l, 0)],
                          Catalog(map[0 := Job(Created(l), 0, 0, true)], map[l.identity := NewObservation(0, l, 0)])),
                   Stored(Inserted, true))
  {
    var t, item := Tables(map[], EMPTY), PlainItem(Plain(None, None, Some(10)), 0);
    var l := item.listing.value;
    assert Joined(fold, EMPTY, l, item.answers).None?;
    assert RowAccepted(ValuesOf(l, 0));
    assert map[][l.identity := ValuesOf(l, 0)] == map[l.identity := ValuesOf(l, 0)];
  }

  lemma TwoItems(fold: Fold, target: string, t: Tables, a: Item, b: Item)
    requires Storable(target, t, a) && Storable(target, Stored1(fold, target, t, a).0, b)
    ensures BatchRuns(fold, target, t, [a, b])
    ensures var first := Stored1(fold, target, t, a);
            var second := Stored1(fold, target, first.0, b);
            StoredAll(fold, target, t, [a, b]) == (second.0, [first.1, second.1])
  {
    var u := Stored1(fold, target, t, a).0;
    assert [a, b][1..] == [b] && [b][1..] == [];
    assert BatchRuns(fold, target, u, [b]);
    var second := Stored1(fold, target, u, b);
    var none: seq<Item>, nothing: seq<Outcome> := [], [];
    assert StoredAll(fold, target, second.0, none) == (second.0, nothing);
    assert [second.1] + nothing == [second.1];
    assert StoredAll(fold, target, u, [b]) == (second.0, [second.1]);
    assert [Stored1(fold, target, t, a).1] + [second.1] == [Stored1(fold, target, t, a).1, second.1];
  }

  lemma SecondLegacyWrite(rows: Rows, description: string)
    requires Strip(description) != "" && ValidRows(rows)
    requires var l := Plain(None, None, Some(10)); rows == map[l.identity := ValuesOf(l, 0)]
    ensures var l := Plain(Some(description), Some(20), None);
            var row := NewRow(rows, l, 0);
            RowAccepted(row) && row[Description] == Words(description) && StatusOf(rows, l) == Skipped
  {
    var l := Plain(Some(description), Some(20), None);
    var row := NewRow(rows, l, 0);
    assert row[ExperienceMinYears] == Null && row[ExperienceMaxYears] == Null;
    assert IsText(OfText(l.description));
  }

  lemma SecondCanonicalWrite(fold: Fold, c: Catalog, description: string)
    requires var l := Plain(None, None, Some(10));
             c == Catalog(map[0 := Job(Created(l), 0, 0, true)], map[l.identity := NewObservation(0, l, 0)])
    ensures var item := PlainItem(Plain(Some(description), Some(20), None), 1);
            && Faithful(c, item.listing.value, item.answers)
            && Ingested(fold, c, item.listing.value, item.answers, 0).None?
  {
    var l := Plain(Some(description), Some(20), None);
    assert !Ordered(Refreshed(c.jobs[0].content, l).salaryMin, Refreshed(c.jobs[0].content, l).salaryMax);
  }

  /** It happens: a lower salary bound above the stored upper one, with a new description, reaches the
    * legacy table only. */
  lemma RefusedWriteHappens(fold: Fold, description: string)
    requires Strip(description) != ""
    ensures var first, second := PlainItem(Plain(None, None, Some(10)), 0), PlainItem(Plain(Some(description), Some(20), None), 1);
            && BatchRuns(fold, "dice", Tables(map[], EMPTY), [first, second])
            && var r := StoredAll(fold, "dice", Tables(map[], EMPTY), [first, second]);
               r.1 == [Stored(Inserted, true), Stored(Skipped, false)] && !AgreeAt(r.0, Identity("dice", "1"))
  {
    var first, second := PlainItem(Plain(None, None, Some(10)), 0), PlainItem(Plain(Some(description), Some(20), None), 1);
    var empty := Tables(map[], EMPTY);
    FirstPlainWrite(fold);
    EmptyTablesAreInStep();
    EventKeepsInStep(fold, empty, Persist("dice", first));
    var t := Stored1(fold, "dice", empty, first).0;
    SecondLegacyWrite(t.rows, description);
    SecondCanonicalWrite(fold, t.catalog, description);
    TwoItems(fold, "dice", empty, first, second);
    DescriptionDiffers(Stored1(fold, "dice", t, second).0, Identity("dice", "1"), description);
  }

  lemma DescriptionDiffers(u: Tables, id: Identity, description: string)
    requires id in u.rows && u.rows[id].Keys == COLUMNS && u.rows[id][Description] == Words(description)
    requires id in u.catalog.sources && u.catalog.sources[id].job in u.catalog.jobs
    requires u.catalog.jobs[u.catalog.sources[id].job].content.description == None
    ensures !AgreeAt(u, id)
  {
    assert Description in COLUMNS && Common(Description, u.catalog.jobs[u.catalog.sources[id].job].content) == Some(Null);
  }

  /** And a listing that joins a job keeps its own text in the legacy table only. */
  lemma SharedJobDisagrees(fold: Fold, c: Catalog, l: Listing, a: Answers, now: Time)
    requires Connected(c) && Faithful(c, l, a) && l.identity !in c.sources && Joined(fold, c, l, a).Some?
    requires l.description != c.jobs[Joined(fold, c, l, a).value].content.description
    ensures var d := Ingested(fold, c, l, a, now);
            d.Some? && !Agree(ValuesOf(l, now), d.value.jobs[d.value.sources[l.identity].job].content)
  {
    assert ValuesOf(l, now)[Description] == OfText(l.description);
  }
}
