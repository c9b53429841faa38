/** How a listing becomes, and later refreshes, the content of a canonical job:
  * `create_job` and `refresh_source` of app/repositories/canonical_jobs.py, under the CHECK
  * constraints of the jobs table in app/domain/jobs.py. */
module CanonicalMerge {
  import opened Wrappers
  import opened Text
  import opened Titles
  import opened Listings

  const DAY: int := 86400

  function RemoteType(remote: Option<bool>): Option<string> {
    if remote.None? then None else Some(if remote.value then "remote" else "on_site")
  }

  /** `incoming or existing` on optional text. */
  function Either(incoming: Option<string>, existing: Option<string>): Option<string> {
    if Truthy(incoming) then incoming else existing
  }

  function TextOrEmpty(value: Option<string>): string {
    if value.Some? then value.value else ""
  }

  function FingerprintOf(l: Listing): Fingerprint {
    Fingerprint(TextOrEmpty(l.normalizedCompany), l.normalizedTitle, TextOrEmpty(l.normalizedLocation),
                if l.postedAt.Some? then Some(l.postedAt.value / DAY) else None)
  }

  const UNKNOWN := "Unknown "

  function Created(l: Listing): Content {
    Content(CompanyOf(l), l.title, l.normalizedTitle, l.description, l.location, l.normalizedLocation,
            l.employmentType, Either(l.remoteType, RemoteType(l.remote)), l.skills,
            l.experienceMin, l.experienceMax, l.experienceText, l.roleFamily, l.salaryText,
            l.salaryMin, l.salaryMax, l.salaryCurrency, l.salaryPeriod, l.postedAt, l.sourceUpdatedAt,
            FingerprintOf(l))
  }

  function Refreshed(c: Content, l: Listing): Content {
    var named := Renames(l);
    var placed := HasText(l.location);
    Content(CompanyOf(l).Or(c.companyId),
            if named then l.title else c.title,
            if named then l.normalizedTitle else c.normalizedTitle,
            PreferText(l.description, c.description),
            if placed then l.location else c.location,
            if placed then l.normalizedLocation else c.normalizedLocation,
            PreferText(l.employmentType, c.employmentType),
            Either(Either(l.remoteType, RemoteType(l.remote)), c.remoteType),
            if l.skills != [] then l.skills else c.skills,
            l.experienceMin.Or(c.experienceMin), l.experienceMax.Or(c.experienceMax),
            PreferText(l.experienceText, c.experienceText),
            l.roleFamily,
            PreferText(l.salaryText, c.salaryText),
            l.salaryMin.Or(c.salaryMin), l.salaryMax.Or(c.salaryMax),
            Either(l.salaryCurrency, c.salaryCurrency), Either(l.salaryPeriod, c.salaryPeriod),
            l.postedAt.Or(c.postedAt), l.sourceUpdatedAt.Or(c.sourceUpdatedAt),
            if Truthy(l.normalizedCompany) && Truthy(l.normalizedLocation) && l.postedAt.Some? then FingerprintOf(l)
            else c.hash)
  }

  // ---- The CHECK constraints --------------------------------------------------------------

  predicate Ordered(low: Option<int>, high: Option<int>) {
    low.None? || high.None? || low.value <= high.value
  }

  predicate NonNegative(value: Option<int>) {
    value.None? || value.value >= 0
  }

  predicate ExperienceAccepted(low: Option<int>, high: Option<int>) {
    NonNegative(low) && NonNegative(high) && Ordered(low, high)
  }

  predicate Accepted(c: Content) {
    ExperienceAccepted(c.experienceMin, c.experienceMax) && Ordered(c.salaryMin, c.salaryMax)
  }

  /** A bound that comes without its opposite and lies beyond the stored opposite one. */
  predicate Crosses(low: Option<int>, high: Option<int>, storedLow: Option<int>, storedHigh: Option<int>) {
    || (low.Some? && high.None? && storedHigh.Some? && storedHigh.value < low.value)
    || (high.Some? && low.None? && storedLow.Some? && high.value < storedLow.value)
  }

  /** A refresh of an accepted row is rejected exactly when the listing alone would be, or one of
    * its ranges is one-sided and crosses the stored opposite bound. */
  lemma RejectedIff(c: Content, l: Listing)
    requires Accepted(c)
    ensures !Accepted(Refreshed(c, l)) <==>
            || !Accepted(Created(l))
            || Crosses(l.experienceMin, l.experienceMax, c.experienceMin, c.experienceMax)
            || Crosses(l.salaryMin, l.salaryMax, c.salaryMin, c.salaryMax)
  {
  }

  predicate BothOrNeither(low: Option<int>, high: Option<int>) {
    low.Some? <==> high.Some?
  }

  /** So ranges that are complete and ordered, or absent, are never rejected. */
  lemma CompleteRangesAreAccepted(c: Content, l: Listing)
    requires Accepted(c) && Accepted(Created(l))
    requires BothOrNeither(l.experienceMin, l.experienceMax) && BothOrNeither(l.salaryMin, l.salaryMax)
    ensures Accepted(Refreshed(c, l))
  {
    RejectedIff(c, l);
  }

  // ---- What is emptied --------------------------------------------------------------------

  /** Every field of `a` that holds a value still holds one in `b`; the normalised title, which can
    * be emptied, is treated below. */
  predicate NothingEmptied(a: Content, b: Content) {
    && (a.companyId.Some? ==> b.companyId.Some?)
    && (a.title != "" ==> b.title != "")
    && (HasText(a.description) ==> HasText(b.description))
    && (HasText(a.location) ==> HasText(b.location))
    && (Truthy(a.normalizedLocation) ==> Truthy(b.normalizedLocation))
    && (a.roleFamily != "" ==> b.roleFamily != "")
    && (HasText(a.employmentType) ==> HasText(b.employmentType))
    && (Truthy(a.remoteType) ==> Truthy(b.remoteType))
    && (a.skills != [] ==> b.skills != [])
    && (a.experienceMin.Some? ==> b.experienceMin.Some?)
    && (a.experienceMax.Some? ==> b.experienceMax.Some?)
    && (HasText(a.experienceText) ==> HasText(b.experienceText))
    && (HasText(a.salaryText) ==> HasText(b.salaryText))
    && (a.salaryMin.Some? ==> b.salaryMin.Some?)
    && (a.salaryMax.Some? ==> b.salaryMax.Some?)
    && (Truthy(a.salaryCurrency) ==> Truthy(b.salaryCurrency))
    && (Truthy(a.salaryPeriod) ==> Truthy(b.salaryPeriod))
    && (a.postedAt.Some? ==> b.postedAt.Some?)
    && (a.sourceUpdatedAt.Some? ==> b.sourceUpdatedAt.Some?)
  }

  /** One write under the savepoint: a rejected one leaves the row. */
  function Written(c: Content, l: Listing): Content {
    if Accepted(Refreshed(c, l)) then Refreshed(c, l) else c
  }

  function WrittenAll(c: Content, listings: seq<Listing>): Content
    decreases |listings|
  {
    if listings == [] then c else WrittenAll(Written(c, listings[0]), listings[1..])
  }

  /** Over any run of refreshes the ranges stay ordered and no field but the normalised title loses
    * its value. */
  lemma {:induction false} RunsEmptyNothing(c: Content, listings: seq<Listing>)
    requires Accepted(c) && forall l :: l in listings ==> Normalized(l)
    ensures NothingEmptied(c, WrittenAll(c, listings)) && Accepted(WrittenAll(c, listings))
    decreases |listings|
  {
    if listings != [] {
      assert listings[0] in listings && forall l :: l in listings[1..] ==> l in listings;
      TextOfPlace(listings[0]);
      assert NothingEmptied(c, Written(c, listings[0]));
      RunsEmptyNothing(Written(c, listings[0]), listings[1..]);
    }
  }

  lemma TextOfPlace(l: Listing)
    requires Normalized(l)
    ensures HasText(l.location) ==> Truthy(l.normalizedLocation)
  {
  }

  /** The listing renames a row it refreshes. */
  predicate Renames(l: Listing) {
    l.title != "" && !(UNKNOWN <= l.title)
  }

  /** A refresh empties a stored normalised title exactly when the listing renames the row and its
    * title has an empty normal form. */
  lemma TitleEmptiedIff(c: Content, l: Listing)
    requires c.normalizedTitle != ""
    ensures Refreshed(c, l).normalizedTitle == "" <==> Renames(l) && l.normalizedTitle == ""
    ensures Renames(l) <==> l.title != "" && !(|l.title| >= 8 && l.title[..8] == "Unknown ")
  {
  }

  /** Over any run, the normalised title ends empty exactly when the last accepted listing that
    * renames the row has an empty normal form, or none does and it was empty. */
  lemma RunEmptiesTitleIff(c: Content, listings: seq<Listing>)
    ensures var latest := LastToBring(Title, Taken(c, listings));
            WrittenAll(c, listings).normalizedTitle == ""
            <==> (if latest.Some? then latest.value.normalizedTitle == "" else c.normalizedTitle == "")
  {
    LatestValueWins(Title, c, listings);
  }

  /** An input that does it: the title is accepted, but nothing of it stays in its normal form. */
  lemma PunctuationEmptiesTitle(fold: Fold, isWord: WordSet, c: Content, l: Listing)
    requires Sensible(isWord) && fold("!!!") == "!!!" && !isWord('!')
    requires l.title == "!!!" && l.normalizedTitle == NormalizeTitle(fold, isWord, l.title)
    requires Accepted(c) && Accepted(Refreshed(c, l))
    ensures Written(c, l).title == "!!!" && Written(c, l).normalizedTitle == ""
  {
    EmptyFormIff(fold, isWord, "!!!");
    assert !(UNKNOWN <= "!!!") by { assert UNKNOWN[0] == 'U' && "!!!"[0] == '!'; }
  }

  // ---- The same listing again -------------------------------------------------------------

  /** After a listing created a row or refreshed it, the same listing changes nothing more. */
  lemma SameListingAgain(c: Content, l: Listing)
    ensures Refreshed(Created(l), l) == Created(l)
    ensures Refreshed(Refreshed(c, l), l) == Refreshed(c, l)
  {
  }

  // ---- Where each value comes from --------------------------------------------------------

  /** The parts of a row that are written together. */
  datatype Slot =
    | Employer | Title | Wording | Place | Engagement | Remoteness | SkillList
    | YearsFrom | YearsTo | YearsText | Family | SalaryWords | SalaryFrom | SalaryTo | Currency | Period
    | Posted | Revised | Print

  /** Whether a listing has something to write in the slot. */
  predicate Brings(slot: Slot, l: Listing) {
    match slot
    case Employer => CompanyOf(l).Some?
    case Title => Renames(l)
    case Wording => HasText(l.description)
    case Place => HasText(l.location)
    case Engagement => HasText(l.employmentType)
    case Remoteness => Truthy(l.remoteType) || l.remote.Some?
    case SkillList => l.skills != []
    case YearsFrom => l.experienceMin.Some?
    case YearsTo => l.experienceMax.Some?
    case YearsText => HasText(l.experienceText)
    case Family => true
    case SalaryWords => HasText(l.salaryText)
    case SalaryFrom => l.salaryMin.Some?
    case SalaryTo => l.salaryMax.Some?
    case Currency => Truthy(l.salaryCurrency)
    case Period => Truthy(l.salaryPeriod)
    case Posted => l.postedAt.Some?
    case Revised => l.sourceUpdatedAt.Some?
    case Print => Truthy(l.normalizedCompany) && Truthy(l.normalizedLocation) && l.postedAt.Some?
  }

  predicate Same(slot: Slot, a: Content, b: Content) {
    match slot
    case Employer => a.companyId == b.companyId
    case Title => a.title == b.title && a.normalizedTitle == b.normalizedTitle
    case Wording => a.description == b.description
    case Place => a.location == b.location && a.normalizedLocation == b.normalizedLocation
    case Engagement => a.employmentType == b.employmentType
    case Remoteness => a.remoteType == b.remoteType
    case SkillList => a.skills == b.skills
    case YearsFrom => a.experienceMin == b.experienceMin
    case YearsTo => a.experienceMax == b.experienceMax
    case YearsText => a.experienceText == b.experienceText
    case Family => a.roleFamily == b.roleFamily
    case SalaryWords => a.salaryText == b.salaryText
    case SalaryFrom => a.salaryMin == b.salaryMin
    case SalaryTo => a.salaryMax == b.salaryMax
    case Currency => a.salaryCurrency == b.salaryCurrency
    case Period => a.salaryPeriod == b.salaryPeriod
    case Posted => a.postedAt == b.postedAt
    case Revised => a.sourceUpdatedAt == b.sourceUpdatedAt
    case Print => a.hash == b.hash
  }

  /** The slot is as the listing has it.  A remote type not given is derived from the remote flag, and a
    * hash is computed from the employer, the title, the place and the day of posting. */
  predicate Carries(slot: Slot, c: Content, l: Listing) {
    match slot
    case Employer => c.companyId == if l.company == None then None else l.normalizedCompany
    case Title => c.title == l.title && c.normalizedTitle == l.normalizedTitle
    case Wording => c.description == l.description
    case Place => c.location == l.location && c.normalizedLocation == l.normalizedLocation
    case Engagement => c.employmentType == l.employmentType
    case Remoteness =>
      if l.remoteType.Some? && l.remoteType.value != "" then c.remoteType == l.remoteType
      else match l.remote {
             case None => c.remoteType == None
             case Some(remote) => c.remoteType == Some(if remote then "remote" else "on_site")
           }
    case SkillList => c.skills == l.skills
    case YearsFrom => c.experienceMin == l.experienceMin
    case YearsTo => c.experienceMax == l.experienceMax
    case YearsText => c.experienceText == l.experienceText
    case Family => c.roleFamily == l.roleFamily
    case SalaryWords => c.salaryText == l.salaryText
    case SalaryFrom => c.salaryMin == l.salaryMin
    case SalaryTo => c.salaryMax == l.salaryMax
    case Currency => c.salaryCurrency == l.salaryCurrency
    case Period => c.salaryPeriod == l.salaryPeriod
    case Posted => c.postedAt == l.postedAt
    case Revised => c.sourceUpdatedAt == l.sourceUpdatedAt
    case Print =>
      && c.hash.title == l.normalizedTitle
      && c.hash.company == (if l.normalizedCompany.Some? then l.normalizedCompany.value else "")
      && c.hash.location == (if l.normalizedLocation.Some? then l.normalizedLocation.value else "")
      && (if l.postedAt.Some? then c.hash.date == Some(l.postedAt.value / 86400) else c.hash.date == None)
  }

  /** A new row carries its listing in every slot. */
  lemma CreatedCarries(slot: Slot, l: Listing)
    ensures Carries(slot, Created(l), l)
  {
  }

  /** The listings of a run that the database accepted. */
  function Taken(c: Content, listings: seq<Listing>): seq<Listing>
    decreases |listings|
  {
    if listings == [] then []
    else
      (if Accepted(Refreshed(c, listings[0])) then [listings[0]] else [])
      + Taken(Written(c, listings[0]), listings[1..])
  }

  function LastToBring(slot: Slot, listings: seq<Listing>): (r: Option<Listing>)
    ensures r.None? ==> forall i :: 0 <= i < |listings| ==> !Brings(slot, listings[i])
    ensures r.Some? ==> exists i :: 0 <= i < |listings| && listings[i] == r.value && Brings(slot, listings[i])
                                    && forall k :: i < k < |listings| ==> !Brings(slot, listings[k])
  {
    if listings == [] then None
    else
      var last := |listings| - 1;
      if Brings(slot, listings[last]) then Some(listings[last]) else LastToBring(slot, listings[..last])
  }

  lemma {:induction false} LastOfLonger(slot: Slot, first: Listing, rest: seq<Listing>)
    ensures LastToBring(slot, [first] + rest)
         == LastToBring(slot, rest).Or(if Brings(slot, first) then Some(first) else None)
  {
    var all := [first] + rest;
    if rest == [] {
      assert all[..0] == [];
    } else {
      var last := |rest| - 1;
      assert all[..|rest|] == [first] + rest[..last];
      LastOfLonger(slot, first, rest[..last]);
    }
  }

  lemma RefreshedSlot(slot: Slot, c: Content, l: Listing)
    ensures if Brings(slot, l) then Carries(slot, Refreshed(c, l), l) else Same(slot, Refreshed(c, l), c)
  {
  }

  lemma SameCarries(slot: Slot, a: Content, b: Content, l: Listing)
    requires Same(slot, a, b) && Carries(slot, b, l)
    ensures Carries(slot, a, l)
  {
  }

  /** The slot is as the last of these listings that brings something for it has it, or as before if none
    * does. */
  predicate FollowsLatest(slot: Slot, before: Content, after: Content, taken: seq<Listing>) {
    var latest := LastToBring(slot, taken);
    if latest.Some? then Carries(slot, after, latest.value) else Same(slot, after, before)
  }

  lemma SameOn(slot: Slot, a: Content, b: Content, c: Content)
    requires Same(slot, a, b) && Same(slot, b, c)
    ensures Same(slot, a, c)
  {
  }

  lemma OneMoreFollows(slot: Slot, c: Content, next: Content, after: Content, l: Listing, taken: seq<Listing>)
    requires if Brings(slot, l) then Carries(slot, next, l) else Same(slot, next, c)
    requires FollowsLatest(slot, next, after, taken)
    ensures FollowsLatest(slot, c, after, [l] + taken)
  {
    LastOfLonger(slot, l, taken);
    if LastToBring(slot, taken).None? {
      if Brings(slot, l) { SameCarries(slot, after, next, l); } else { SameOn(slot, after, next, c); }
    }
  }

  /** So after any run: a title never parts from its normalised form, nor a location from its own. */
  lemma {:induction false} LatestValueWins(slot: Slot, c: Content, listings: seq<Listing>)
    ensures FollowsLatest(slot, c, WrittenAll(c, listings), Taken(c, listings))
    decreases |listings|
  {
    if listings != [] {
      var l, next := listings[0], Written(c, listings[0]);
      LatestValueWins(slot, next, listings[1..]);
      if Accepted(Refreshed(c, l)) {
        RefreshedSlot(slot, c, l);
        OneMoreFollows(slot, c, next, WrittenAll(c, listings), l, Taken(next, listings[1..]));
      } else {
        assert [] + Taken(next, listings[1..]) == Taken(next, listings[1..]);
      }
    }
  }
}
