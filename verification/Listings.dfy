/** What the collectors hand over, and the rows of the canonical job graph: NormalizedJob of
  * app/jobs/ingestion/normalization.py and the tables of app/domain/jobs.py.  Times are seconds,
  * money is hundredths, and a company is its normalised name, which its table keeps unique. */
module Listings {
  import opened Text
  import opened Wrappers

  type Time = int

  type JobId = nat

  datatype Identity = Identity(source: string, sourceJobId: string)

  /** One of a provider's listed identifiers. */
  predicate Among(id: Identity, source: string, ids: set<string>) {
    id.source == source && id.sourceJobId in ids
  }

  datatype Listing = Listing(
    identity: Identity, title: string, normalizedTitle: string, roleFamily: string,
    company: Option<string>, normalizedCompany: Option<string>,
    location: Option<string>, normalizedLocation: Option<string>, url: Option<string>,
    description: Option<string>, salaryText: Option<string>, employmentType: Option<string>,
    remote: Option<bool>, remoteType: Option<string>, skills: seq<string>,
    postedAt: Option<Time>, sourceUpdatedAt: Option<Time>,
    experienceMin: Option<int>, experienceMax: Option<int>, experienceText: Option<string>,
    salaryMin: Option<int>, salaryMax: Option<int>,
    salaryCurrency: Option<string>, salaryPeriod: Option<string>,
    contentHash: string, rawData: map<string, string>)

  /** What `normalize_job` guarantees of every listing: its identity, title, role family and content
    * hash are not empty, and its location has a normal form exactly when it is given. */
  predicate Normalized(l: Listing) {
    && l.identity.source != "" && l.identity.sourceJobId != "" && l.title != "" && l.roleFamily != ""
    && l.contentHash != "" && (Truthy(l.location) <==> Truthy(l.normalizedLocation))
  }

  /** The four fields a canonical hash is computed from. */
  datatype Fingerprint = Fingerprint(company: string, title: string, location: string, date: Option<int>)

  /** The mutable content of a canonical job. */
  datatype Content = Content(
    companyId: Option<string>, title: string, normalizedTitle: string, description: Option<string>,
    location: Option<string>, normalizedLocation: Option<string>,
    employmentType: Option<string>, remoteType: Option<string>, skills: seq<string>,
    experienceMin: Option<int>, experienceMax: Option<int>, experienceText: Option<string>,
    roleFamily: string, salaryText: Option<string>, salaryMin: Option<int>, salaryMax: Option<int>,
    salaryCurrency: Option<string>, salaryPeriod: Option<string>,
    postedAt: Option<Time>, sourceUpdatedAt: Option<Time>, hash: Fingerprint)

  datatype Job = Job(content: Content, firstSeen: Time, lastSeen: Time, active: bool)

  /** One provider's observation of a job. */
  datatype Observation = Observation(
    job: JobId, url: Option<string>, postedAt: Option<Time>, sourceUpdatedAt: Option<Time>,
    firstSeen: Time, lastSeen: Time, scrapedAt: Time, contentHash: string, active: bool,
    rawData: map<string, string>)

  /** `_resolve_company`: both names must be present. */
  function CompanyOf(listing: Listing): Option<string> {
    if listing.company.Some? then listing.normalizedCompany else None
  }
}
