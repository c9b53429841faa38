/** The legacy global_jobs row and its merge by field name: app/repositories/jobs.py, under the
  * CHECK constraints of app/domain/jobs.py. */
module LegacyJobs {
  import opened Wrappers
  import opened Text
  import opened Listings
  import opened CanonicalMerge

  datatype Field =
    | Source | ExternalJobId | JobTitle | NormalizedTitle | RoleFamily | CompanyName | Location | JobUrl
    | Description | SalaryText | EmploymentType | Remote | Skills | PostedAt
    | ExperienceMinYears | ExperienceMaxYears | ExperienceText
    | ScrapedAt | LastSeenAt | IsActive | ContentHash

  datatype Value = Null | Words(text: string) | Number(n: int) | Flag(b: bool) | List(items: seq<string>)

  type Row = map<Field, Value>

  function OfText(t: Option<string>): Value {
    if t.Some? then Words(t.value) else Null
  }

  function OfNumber(n: Option<int>): Value {
    if n.Some? then Number(n.value) else Null
  }

  function OfFlag(b: Option<bool>): Value {
    if b.Some? then Flag(b.value) else Null
  }

  predicate IsText(v: Value) {
    v.Words? && Strip(v.text) != ""
  }

  const COLUMNS: set<Field> := set field: Field | true

  function ValueOf(field: Field, l: Listing, now: Time): Value {
    match field
    case Source => Words(l.identity.source)
    case ExternalJobId => Words(l.identity.sourceJobId)
    case JobTitle => Words(l.title)
    case NormalizedTitle => Words(l.normalizedTitle)
    case RoleFamily => Words(l.roleFamily)
    case CompanyName => OfText(l.company)
    case Location => OfText(l.location)
    case JobUrl => OfText(l.url)
    case Description => OfText(l.description)
    case SalaryText => OfText(l.salaryText)
    case EmploymentType => OfText(l.employmentType)
    case Remote => OfFlag(l.remote)
    case Skills => List(l.skills)
    case PostedAt => OfNumber(l.postedAt)
    case ExperienceMinYears => OfNumber(l.experienceMin)
    case ExperienceMaxYears => OfNumber(l.experienceMax)
    case ExperienceText => OfText(l.experienceText)
    case ScrapedAt | LastSeenAt => Number(now)
    case IsActive => Flag(true)
    case ContentHash => Words(l.contentHash)
  }

  /** The values an upsert writes. */
  function ValuesOf(l: Listing, now: Time): (values: Row)
    ensures values.Keys == COLUMNS
  {
    map field | field in COLUMNS :: ValueOf(field, l, now)
  }

  /** How the merge treats a column: blank text, an absent value and an empty list do not replace
    * what is stored; the other columns are overwritten. */
  datatype Rule = KeepIfBlank | KeepIfNull | KeepIfEmpty | Overwrite

  function RuleOf(field: Field): Rule {
    match field
    case CompanyName | Location | JobUrl | Description | SalaryText | EmploymentType | ExperienceText => KeepIfBlank
    case Remote | PostedAt | ExperienceMinYears | ExperienceMaxYears => KeepIfNull
    case Skills => KeepIfEmpty
    case _ => Overwrite
  }

  /** Whether a value counts as one under the rule. */
  predicate Counts(rule: Rule, v: Value) {
    match rule
    case KeepIfBlank => IsText(v)
    case KeepIfNull => !v.Null?
    case KeepIfEmpty => v != List([]) && !v.Null?
    case Overwrite => true
  }

  /** The value one column ends with. */
  function Chosen(field: Field, incoming: Value, stored: Value): Value {
    if Counts(RuleOf(field), incoming) then incoming else stored
  }

  function Merged(row: Row, values: Row): Row
    requires values.Keys <= row.Keys
  {
    map field | field in row :: if field in values then Chosen(field, values[field], row[field]) else row[field]
  }

  // ---- The CHECK constraints --------------------------------------------------------------

  predicate NotNegative(v: Value) {
    v.Number? ==> v.n >= 0
  }

  predicate RowAccepted(row: Row)
    requires COLUMNS <= row.Keys
  {
    var low, high := row[ExperienceMinYears], row[ExperienceMaxYears];
    NotNegative(low) && NotNegative(high) && (low.Number? && high.Number? ==> low.n <= high.n)
  }

  // ---- The repository ---------------------------------------------------------------------

  datatype Status = Inserted | Updated | Skipped

  type Rows = map<Identity, Row>

  ghost predicate ValidRows(rows: Rows) {
    forall id :: id in rows ==> rows[id].Keys == COLUMNS && RowAccepted(rows[id])
  }

  /** The row an upsert leaves, if the database takes it. */
  function NewRow(rows: Rows, l: Listing, now: Time): (row: Row)
    requires forall id :: id in rows ==> rows[id].Keys == COLUMNS
    ensures row.Keys == COLUMNS
  {
    if l.identity in rows then Merged(rows[l.identity], ValuesOf(l, now)) else ValuesOf(l, now)
  }

  /** `_merge_values`: column by column, each decided from its own stored value. */
  method MergeValues(existing: Row, values: Row) returns (row: Row)
    requires values.Keys <= existing.Keys
    ensures row == Merged(existing, values)
  {
    row := existing;
    var left := values.Keys;
    while left != {}
      invariant left <= values.Keys && row.Keys == existing.Keys
      invariant forall field :: field in existing ==>
                  row[field] == if field in values && field !in left
                                then Chosen(field, values[field], existing[field]) else existing[field]
      decreases |left|
    {
      var key :| key in left;
      left := left - {key};
      var value := values[key];
      if RuleOf(key).KeepIfBlank? {
        value := if IsText(value) then value else row[key];
      } else if RuleOf(key).KeepIfNull? && value.Null? {
        value := row[key];
      } else if key == Skills && (value == List([]) || value.Null?) {
        value := row[Skills];
      }
      row := row[key := value];
    }
  }

  function TouchRows(rows: Rows, source: string, ids: set<string>, now: Time): Rows {
    map id | id in rows ::
      if Among(id, source, ids) then rows[id][LastSeenAt := Number(now)][IsActive := Flag(true)] else rows[id]
  }

  class GlobalJobRepository {
    var rows: Rows

    ghost predicate Valid()
      reads this
    {
      ValidRows(rows)
    }

    constructor ()
      ensures rows == map[] && Valid()
    {
      rows := map[];
    }

    /** `touch_seen`: discovery without a claim that details were scraped. */
    method TouchSeen(source: string, ids: seq<string>, now: Time) returns (count: nat)
      requires Valid()
      modifies this
      ensures Valid() && rows == TouchRows(old(rows), source, (set id | id in ids), now)
      ensures count == |set id | id in old(rows) && Among(id, source, (set known | known in ids))|
    {
      var listed := set id | id in ids;
      if ids == [] {
        assert rows == TouchRows(rows, source, listed, now);
        assert (set id | id in rows && Among(id, source, listed)) == {};
        return 0;
      }
      count := |set id | id in rows && Among(id, source, listed)|;
      rows := TouchRows(rows, source, listed, now);
    }

    /** `upsert_with_outcome` in its savepoint: a row the database rejects is put back. */
    method UpsertWithOutcome(l: Listing, now: Time) returns (status: Option<Status>)
      requires Valid()
      modifies this
      ensures Valid()
      ensures status.Some? <==> RowAccepted(NewRow(old(rows), l, now))
      ensures rows == if status.Some? then old(rows)[l.identity := NewRow(old(rows), l, now)] else old(rows)
      ensures status.Some? ==>
                status.value == if l.identity !in old(rows) then Inserted
                                else if old(rows)[l.identity][ContentHash] == Words(l.contentHash) then Skipped
                                else Updated
    {
      var savepoint := rows;
      if l.identity !in rows {
        rows := rows[l.identity := ValuesOf(l, now)];
        status := Some(Inserted);
      } else if rows[l.identity][ContentHash] == Words(l.contentHash) {
        var row := MergeValues(rows[l.identity], ValuesOf(l, now));
        rows := rows[l.identity := row];
        status := Some(Skipped);
      } else {
        var row := MergeValues(rows[l.identity], ValuesOf(l, now));
        rows := rows[l.identity := row];
        status := Some(Updated);
      }
      if !RowAccepted(rows[l.identity]) {
        rows := savepoint;
        status := None;
      }
    }
  }

  // ---- What is emptied --------------------------------------------------------------------

  /** Whether a column holds a value. */
  predicate Holds(field: Field, v: Value) {
    if RuleOf(field).Overwrite? then !v.Null? && v != Words("") else Counts(RuleOf(field), v)
  }

  /** No column the merge protects is emptied. */
  ghost predicate KeptByRule(a: Row, b: Row) {
    && a.Keys == b.Keys
    && forall field :: field in a && !RuleOf(field).Overwrite? && Holds(field, a[field]) ==> Holds(field, b[field])
  }

  /** No column at all is emptied, but for the normalised title. */
  ghost predicate RowKept(a: Row, b: Row) {
    && a.Keys == b.Keys
    && forall field :: field in a && !field.NormalizedTitle? && Holds(field, a[field]) ==> Holds(field, b[field])
  }

  type Write = (Listing, Time)

  function AfterWrite(rows: Rows, write: Write): Rows
    requires forall id :: id in rows ==> rows[id].Keys == COLUMNS
  {
    var row := NewRow(rows, write.0, write.1);
    if RowAccepted(row) then rows[write.0.identity := row] else rows
  }

  function RunRows(rows: Rows, writes: seq<Write>): Rows
    requires forall id :: id in rows ==> rows[id].Keys == COLUMNS
    decreases |writes|
  {
    if writes == [] then rows else RunRows(AfterWrite(rows, writes[0]), writes[1..])
  }

  ghost predicate AllNormalized(writes: seq<Write>) {
    forall write :: write in writes ==> Normalized(write.0)
  }

  /** Over any run of upserts rows stay, the experience range stays ordered and no column the merge
    * protects is emptied; nor is any other but the normalised title, of normalised listings. */
  lemma {:induction false} RunKeepsRows(rows: Rows, writes: seq<Write>)
    requires ValidRows(rows)
    ensures ValidRows(RunRows(rows, writes))
    ensures forall id :: id in rows ==> id in RunRows(rows, writes) && KeptByRule(rows[id], RunRows(rows, writes)[id])
    ensures AllNormalized(writes) ==> forall id :: id in rows ==> RowKept(rows[id], RunRows(rows, writes)[id])
    decreases |writes|
  {
    if writes == [] {
      forall id | id in rows { RowKeptItself(rows[id]); }
    } else {
      var next := AfterWrite(rows, writes[0]);
      assert writes[0] in writes && forall write :: write in writes[1..] ==> write in writes;
      RunKeepsRows(next, writes[1..]);
      forall id | id in rows
        ensures id in RunRows(rows, writes) && KeptByRule(rows[id], RunRows(rows, writes)[id])
        ensures AllNormalized(writes) ==> RowKept(rows[id], RunRows(rows, writes)[id])
      {
        WriteKeepsRow(rows, writes[0], id);
        KeptOn(rows[id], next[id], RunRows(rows, writes)[id]);
      }
    }
  }

  lemma RowKeptItself(row: Row)
    ensures KeptByRule(row, row) && RowKept(row, row)
  {
  }

  lemma KeptOn(a: Row, b: Row, c: Row)
    ensures KeptByRule(a, b) && KeptByRule(b, c) ==> KeptByRule(a, c)
    ensures RowKept(a, b) && RowKept(b, c) ==> RowKept(a, c)
  {
  }

  lemma WriteKeepsRow(rows: Rows, write: Write, id: Identity)
    requires ValidRows(rows) && id in rows
    ensures id in AfterWrite(rows, write) && KeptByRule(rows[id], AfterWrite(rows, write)[id])
    ensures Normalized(write.0) ==> RowKept(rows[id], AfterWrite(rows, write)[id])
  {
    RowKeptItself(rows[id]);
    if write.0.identity == id { MergeKeepsRow(rows[id], write.0, write.1); }
  }

  lemma MergeKeepsRow(row: Row, l: Listing, now: Time)
    requires row.Keys == COLUMNS
    ensures KeptByRule(row, Merged(row, ValuesOf(l, now)))
    ensures Normalized(l) ==> RowKept(row, Merged(row, ValuesOf(l, now)))
  {
    var merged := Merged(row, ValuesOf(l, now));
    assert forall field :: field in row ==> merged[field] == Chosen(field, ValueOf(field, l, now), row[field]);
    if Normalized(l) {
      assert forall field :: field in row && RuleOf(field).Overwrite? && !field.NormalizedTitle? ==>
                               Holds(field, ValueOf(field, l, now));
    }
  }

  /** The last listing of the identity that a run stored. */
  function LastStored(rows: Rows, writes: seq<Write>, id: Identity): Option<Listing>
    requires forall known :: known in rows ==> rows[known].Keys == COLUMNS
    decreases |writes|
  {
    if writes == [] then None
    else
      var later := LastStored(AfterWrite(rows, writes[0]), writes[1..], id);
      if later.Some? then later
      else if writes[0].0.identity == id && RowAccepted(NewRow(rows, writes[0].0, writes[0].1)) then Some(writes[0].0)
      else None
  }

  /** The exception exactly: after any run the normalised title is that of the last stored listing,
    * whatever it is, so it ends empty exactly when that one's is. */
  lemma {:induction false} NormalizedTitleIsTheLast(rows: Rows, writes: seq<Write>, id: Identity)
    requires ValidRows(rows) && id in rows
    ensures id in RunRows(rows, writes) && RunRows(rows, writes)[id].Keys == COLUMNS
    ensures RunRows(rows, writes)[id][NormalizedTitle]
         == match LastStored(rows, writes, id)
            case Some(l) => Words(l.normalizedTitle)
            case None => rows[id][NormalizedTitle]
    decreases |writes|
  {
    if writes != [] {
      var l, now := writes[0].0, writes[0].1;
      NormalizedTitleIsTheLast(AfterWrite(rows, writes[0]), writes[1..], id);
      if l.identity == id { WritesNormalizedTitle(rows, l, now); }
    }
  }

  lemma WritesNormalizedTitle(rows: Rows, l: Listing, now: Time)
    requires ValidRows(rows)
    ensures NewRow(rows, l, now)[NormalizedTitle] == Words(l.normalizedTitle)
  {
  }

  // ---- Complete rows ----------------------------------------------------------------------

  /** `_has_complete_core_details`. */
  predicate Complete(row: Row)
    requires row.Keys == COLUMNS
  {
    && IsText(row[CompanyName]) && IsText(row[Location]) && IsText(row[JobUrl]) && IsText(row[Description])
    && IsText(row[EmploymentType]) && !row[PostedAt].Null?
  }

  predicate ScrapedSince(row: Row, t: Time)
    requires row.Keys == COLUMNS
  {
    row[ScrapedAt].Number? && row[ScrapedAt].n >= t
  }

  lemma KeptComplete(a: Row, b: Row)
    requires a.Keys == COLUMNS && KeptByRule(a, b) && Complete(a)
    ensures Complete(b)
  {
    assert forall field :: field in {CompanyName, Location, JobUrl, Description, EmploymentType} ==>
                             RuleOf(field).KeepIfBlank? && Holds(field, a[field]);
    assert Holds(PostedAt, a[PostedAt]);
  }

  lemma MergeKeepsComplete(row: Row, l: Listing, now: Time)
    requires row.Keys == COLUMNS && Complete(row)
    ensures Complete(Merged(row, ValuesOf(l, now)))
  {
    MergeKeepsRow(row, l, now);
    KeptComplete(row, Merged(row, ValuesOf(l, now)));
  }

  lemma WritesScrapedAt(rows: Rows, l: Listing, now: Time)
    requires ValidRows(rows)
    ensures NewRow(rows, l, now)[ScrapedAt] == Number(now)
  {
  }

  /** A row that has all core details once keeps them over any run. */
  lemma CompleteRowsStayComplete(rows: Rows, writes: seq<(Listing, Time)>, id: Identity)
    requires ValidRows(rows) && id in rows && Complete(rows[id])
    ensures id in RunRows(rows, writes) && RunRows(rows, writes)[id].Keys == COLUMNS && Complete(RunRows(rows, writes)[id])
  {
    RunKeepsRows(rows, writes);
    KeptComplete(rows[id], RunRows(rows, writes)[id]);
  }
}
