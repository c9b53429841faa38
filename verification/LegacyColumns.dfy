/** What each column of a legacy row holds, over whole runs of upserts and touches. */
module LegacyColumns {
  import opened Wrappers
  import opened Text
  import opened Listings
  import opened LegacyJobs

  // ---- Columns and listings ---------------------------------------------------------------

  /** Whether a listing has something to write in the column of a stored row. */
  predicate Brings(field: Field, l: Listing) {
    match field
    case CompanyName => HasText(l.company)
    case Location => HasText(l.location)
    case JobUrl => HasText(l.url)
    case Description => HasText(l.description)
    case SalaryText => HasText(l.salaryText)
    case EmploymentType => HasText(l.employmentType)
    case ExperienceText => HasText(l.experienceText)
    case Remote => l.remote.Some?
    case PostedAt => l.postedAt.Some?
    case ExperienceMinYears => l.experienceMin.Some?
    case ExperienceMaxYears => l.experienceMax.Some?
    case Skills => l.skills != []
    case _ => true
  }

  /** The column says of the text what the listing says. */
  predicate SaysText(v: Value, t: Option<string>) {
    (v == Null && t == None) || (v.Words? && t == Some(v.text))
  }

  predicate SaysNumber(v: Value, n: Option<int>) {
    (v == Null && n == None) || (v.Number? && n == Some(v.n))
  }

  /** The column holds what the listing says, written at this time. */
  predicate Shows(field: Field, v: Value, l: Listing, now: Time) {
    match field
    case Source => v == Words(l.identity.source)
    case ExternalJobId => v == Words(l.identity.sourceJobId)
    case JobTitle => v == Words(l.title)
    case NormalizedTitle => v == Words(l.normalizedTitle)
    case RoleFamily => v == Words(l.roleFamily)
    case CompanyName => SaysText(v, l.company)
    case Location => SaysText(v, l.location)
    case JobUrl => SaysText(v, l.url)
    case Description => SaysText(v, l.description)
    case SalaryText => SaysText(v, l.salaryText)
    case EmploymentType => SaysText(v, l.employmentType)
    case ExperienceText => SaysText(v, l.experienceText)
    case Remote => (v == Null && l.remote == None) || (v.Flag? && l.remote == Some(v.b))
    case Skills => v == List(l.skills)
    case PostedAt => SaysNumber(v, l.postedAt)
    case ExperienceMinYears => SaysNumber(v, l.experienceMin)
    case ExperienceMaxYears => SaysNumber(v, l.experienceMax)
    case ScrapedAt => v == Number(now)
    case LastSeenAt => v == Number(now)
    case IsActive => v == Flag(true)
    case ContentHash => v == Words(l.contentHash)
  }

  /** One taken upsert: a column shows the listing if the row is new or the listing brings something for
    * it, and is as before otherwise. */
  lemma UpsertShows(rows: Rows, l: Listing, now: Time, field: Field)
    requires ValidRows(rows)
    ensures var row := NewRow(rows, l, now);
            if l.identity in rows && !Brings(field, l) then row[field] == rows[l.identity][field]
            else Shows(field, row[field], l, now)
  {
  }

  /** Years as a column holds them. */
  function YearsIn(rows: Rows, id: Identity, field: Field): Option<int>
    requires ValidRows(rows)
  {
    if id in rows && rows[id][field].Number? then Some(rows[id][field].n) else None
  }

  /** An upsert is taken exactly when the bounds of the experience range, incoming where given and stored
    * otherwise, are not negative and not crossed. */
  lemma UpsertTakenIff(rows: Rows, l: Listing, now: Time)
    requires ValidRows(rows)
    ensures var low := l.experienceMin.Or(YearsIn(rows, l.identity, ExperienceMinYears));
            var high := l.experienceMax.Or(YearsIn(rows, l.identity, ExperienceMaxYears));
            RowAccepted(NewRow(rows, l, now)) <==>
              && (low.Some? ==> low.value >= 0) && (high.Some? ==> high.value >= 0)
              && (low.Some? && high.Some? ==> low.value <= high.value)
  {
  }

  // ---- Runs -------------------------------------------------------------------------------

  datatype Operation =
    | Upsert(listing: Listing, now: Time)
    | Touch(source: string, ids: set<string>, now: Time)

  function After(rows: Rows, op: Operation): Rows
    requires forall id :: id in rows ==> rows[id].Keys == COLUMNS
  {
    match op
    case Upsert(l, now) => AfterWrite(rows, (l, now))
    case Touch(source, ids, now) => TouchRows(rows, source, ids, now)
  }

  lemma OperationKeepsValid(rows: Rows, op: Operation)
    requires ValidRows(rows)
    ensures ValidRows(After(rows, op))
  {
  }

  ghost function AfterAll(rows: Rows, ops: seq<Operation>): Rows
    requires ValidRows(rows)
    decreases |ops|
  {
    OperationsKeepValid(rows, ops);
    if ops == [] then rows else AfterAll(After(rows, ops[0]), ops[1..])
  }

  lemma OperationsKeepValid(rows: Rows, ops: seq<Operation>)
    requires ValidRows(rows)
    ensures ops != [] ==> ValidRows(After(rows, ops[0]))
  {
    if ops != [] { OperationKeepsValid(rows, ops[0]); }
  }

  /** What happened to one row: a listing was stored in it, or it was touched. */
  datatype Mark = Wrote(listing: Listing, now: Time) | Seen(now: Time)

  /** The mark an operation leaves on a row: an upsert the database takes marks its own, a touch those of
    * the listed identifiers that are there. */
  ghost function MarkOf(rows: Rows, op: Operation, id: Identity): Option<Mark>
    requires ValidRows(rows)
  {
    match op
    case Upsert(l, now) =>
      if l.identity == id && RowAccepted(NewRow(rows, l, now)) then Some(Wrote(l, now)) else None
    case Touch(source, ids, now) =>
      if id in rows && id.source == source && id.sourceJobId in ids then Some(Seen(now)) else None
  }

  ghost function Marks(rows: Rows, ops: seq<Operation>, id: Identity): seq<Mark>
    requires ValidRows(rows)
    decreases |ops|
  {
    OperationsKeepValid(rows, ops);
    if ops == [] then []
    else
      var mark := MarkOf(rows, ops[0], id);
      (if mark.Some? then [mark.value] else []) + Marks(After(rows, ops[0]), ops[1..], id)
  }

  /** A touch brings the last sighting and activity, and claims nothing else. */
  predicate MarkBrings(field: Field, mark: Mark) {
    match mark
    case Wrote(l, _) => Brings(field, l)
    case Seen(_) => field.LastSeenAt? || field.IsActive?
  }

  predicate MarkShows(field: Field, v: Value, mark: Mark) {
    match mark
    case Wrote(l, now) => Shows(field, v, l, now)
    case Seen(now) => (field.LastSeenAt? ==> v == Number(now)) && (field.IsActive? ==> v == Flag(true))
  }

  function LastToBring(field: Field, marks: seq<Mark>): (r: Option<Mark>)
    ensures r.None? ==> forall i :: 0 <= i < |marks| ==> !MarkBrings(field, marks[i])
    ensures r.Some? ==> exists i :: 0 <= i < |marks| && marks[i] == r.value && MarkBrings(field, marks[i])
                                    && forall k :: i < k < |marks| ==> !MarkBrings(field, marks[k])
  {
    if marks == [] then None
    else
      var later := LastToBring(field, marks[1..]);
      if later.Some? then later
      else if MarkBrings(field, marks[0]) then Some(marks[0])
      else None
  }

  lemma TouchShows(rows: Rows, source: string, ids: set<string>, now: Time, id: Identity, field: Field)
    requires ValidRows(rows) && id in rows
    ensures var next := TouchRows(rows, source, ids, now);
            && id in next && next[id].Keys == COLUMNS
            && next[id][field] == if id.source != source || id.sourceJobId !in ids then rows[id][field]
                                  else if field.LastSeenAt? then Number(now)
                                  else if field.IsActive? then Flag(true)
                                  else rows[id][field]
  {
  }

  ghost predicate OneStep(rows: Rows, next: Rows, mark: Option<Mark>, id: Identity, field: Field)
    requires ValidRows(rows) && ValidRows(next)
  {
    && (id in next <==> id in rows || mark.Some?)
    && (id in next && mark.None? ==> next[id] == rows[id])
    && (id in next && mark.Some? ==>
          if id in rows && !MarkBrings(field, mark.value) then next[id][field] == rows[id][field]
          else MarkShows(field, next[id][field], mark.value))
  }

  lemma OneUpsert(rows: Rows, op: Operation, id: Identity, field: Field)
    requires ValidRows(rows) && ValidRows(After(rows, op)) && op.Upsert?
    ensures OneStep(rows, After(rows, op), MarkOf(rows, op, id), id, field)
  {
    var l, now := op.listing, op.now;
    var row := NewRow(rows, l, now);
    UpsertShows(rows, l, now, field);
    if RowAccepted(row) { RowIsStored(rows, l, now, row, id, field); }
  }

  lemma RowIsStored(rows: Rows, l: Listing, now: Time, row: Row, id: Identity, field: Field)
    requires ValidRows(rows) && row.Keys == COLUMNS && ValidRows(rows[l.identity := row])
    requires if l.identity in rows && !Brings(field, l) then row[field] == rows[l.identity][field] else Shows(field, row[field], l, now)
    ensures OneStep(rows, rows[l.identity := row], if l.identity == id then Some(Wrote(l, now)) else None, id, field)
  {
  }

  lemma OneTouch(rows: Rows, op: Operation, id: Identity, field: Field)
    requires ValidRows(rows) && ValidRows(After(rows, op)) && op.Touch?
    ensures OneStep(rows, After(rows, op), MarkOf(rows, op, id), id, field)
  {
    if id in rows { TouchShows(rows, op.source, op.ids, op.now, id, field); }
  }

  /** The column shows the last mark that brings something for it; if none does it is as before, and in
    * a new row it shows the listing that made it. */
  ghost predicate ShowsLatest(rows: Rows, final: Rows, marks: seq<Mark>, id: Identity, field: Field)
    requires ValidRows(rows) && ValidRows(final)
  {
    && (id in final <==> id in rows || marks != [])
    && (id in final ==>
          var latest := LastToBring(field, marks);
          if latest.Some? then MarkShows(field, final[id][field], latest.value)
          else if id in rows then final[id][field] == rows[id][field]
          else MarkShows(field, final[id][field], marks[0]))
  }

  lemma StepThenRun(rows: Rows, next: Rows, final: Rows, mark: Option<Mark>, marks: seq<Mark>, id: Identity, field: Field)
    requires ValidRows(rows) && ValidRows(next) && ValidRows(final)
    requires OneStep(rows, next, mark, id, field) && ShowsLatest(next, final, marks, id, field)
    ensures ShowsLatest(rows, final, (if mark.Some? then [mark.value] else []) + marks, id, field)
  {
    if mark.Some? {
      var all := [mark.value] + marks;
      assert all[1..] == marks && all[0] == mark.value;
    } else {
      assert [] + marks == marks;
    }
  }

  /** So after any run of upserts and touches. */
  lemma {:induction false} LatestMarkWins(rows: Rows, ops: seq<Operation>, id: Identity, field: Field)
    requires ValidRows(rows)
    ensures ValidRows(AfterAll(rows, ops)) && ShowsLatest(rows, AfterAll(rows, ops), Marks(rows, ops, id), id, field)
    decreases |ops|
  {
    if ops != [] {
      var next := After(rows, ops[0]);
      OperationKeepsValid(rows, ops[0]);
      if ops[0].Upsert? { OneUpsert(rows, ops[0], id, field); } else { OneTouch(rows, ops[0], id, field); }
      LatestMarkWins(next, ops[1..], id, field);
      StepThenRun(rows, next, AfterAll(next, ops[1..]), MarkOf(rows, ops[0], id), Marks(next, ops[1..], id), id, field);
    }
  }
}
