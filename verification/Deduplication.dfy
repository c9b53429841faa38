/** When a new listing may reuse a canonical job of another provider:
  * app/jobs/ingestion/deduplication.py, with confidence in tenths. */
module Deduplication {
  import opened Wrappers
  import opened Text
  import opened Titles
  import opened Listings

  datatype Evidence =
    | ExactTitle | ExactLocation | BothNoLocation | PartialLocation | ExactType
    | ExactDescription | SubsetDescription | ClosePostedDate

  datatype Reason =
    | CandidateInactive | MissingIncomingCompany | LocationMismatch | EmploymentTypeMismatch
    | CompositeHighConfidence | InsufficientEvidence

  datatype Decision =
    Decision(job: JobId, confidence: nat, reason: Reason, evidence: seq<Evidence>, shouldMerge: bool)

  const THREE_DAYS: int := 86400 * 3

  // ---- The conditions ---------------------------------------------------------------------

  predicate SameTitle(candidate: Content, incoming: Listing) {
    candidate.normalizedTitle == incoming.normalizedTitle
  }

  predicate SameLocation(candidate: Content, incoming: Listing) {
    Truthy(candidate.normalizedLocation) && candidate.normalizedLocation == incoming.normalizedLocation
  }

  predicate LocationsConflict(candidate: Content, incoming: Listing) {
    && Truthy(candidate.normalizedLocation) && Truthy(incoming.normalizedLocation)
    && candidate.normalizedLocation != incoming.normalizedLocation
  }

  predicate SameType(candidate: Content, incoming: Listing) {
    Truthy(candidate.employmentType) && candidate.employmentType == incoming.employmentType
  }

  predicate TypesConflict(candidate: Content, incoming: Listing) {
    && Truthy(candidate.employmentType) && Truthy(incoming.employmentType)
    && candidate.employmentType != incoming.employmentType
  }

  predicate SameDescription(fold: Fold, candidate: Content, incoming: Listing) {
    && Truthy(candidate.description) && Truthy(incoming.description)
    && fold(candidate.description.value) == fold(incoming.description.value)
  }

  /** One description, both being over a hundred characters, contains the other. */
  predicate NestedDescription(fold: Fold, candidate: Content, incoming: Listing) {
    && Truthy(candidate.description) && Truthy(incoming.description)
    && var one, two := fold(candidate.description.value), fold(incoming.description.value);
       |one| > 100 && |two| > 100 && (Infix(one, two) || Infix(two, one))
  }

  predicate ClosePosting(candidate: Content, incoming: Listing) {
    && candidate.postedAt.Some? && incoming.postedAt.Some?
    && -THREE_DAYS <= candidate.postedAt.value - incoming.postedAt.value <= THREE_DAYS
  }

  predicate Eligible(candidate: Job, incoming: Listing) {
    candidate.active && (candidate.content.companyId.None? || Truthy(incoming.normalizedCompany))
  }

  /** The whole decision in one formula: no conflict, the exact title, and beside it either a
    * matching description or the same place with the same type or a close posting date. */
  predicate SameOpening(fold: Fold, candidate: Job, incoming: Listing) {
    var c := candidate.content;
    && Eligible(candidate, incoming)
    && SameTitle(c, incoming) && !LocationsConflict(c, incoming) && !TypesConflict(c, incoming)
    && (|| SameDescription(fold, c, incoming) || NestedDescription(fold, c, incoming)
        || (SameLocation(c, incoming) && (SameType(c, incoming) || ClosePosting(c, incoming))))
  }

  /** Two texts that are given and equal, and two that are given and differ. */
  predicate Match(a: Option<string>, b: Option<string>) {
    a.Some? && a.value != "" && a == b
  }

  predicate Differ(a: Option<string>, b: Option<string>) {
    a.Some? && b.Some? && a.value != "" && b.value != "" && a.value != b.value
  }

  /** The formula on the columns: the employer is known on both sides or neither; places and types match
    * where both are given; titles are equal; and beside them the folded descriptions are equal, or are
    * over a hundred characters and one within the other, or the places match and with them the types or,
    * to three days, the dates. */
  lemma SameOpeningIff(fold: Fold, job: Job, l: Listing)
    ensures var c := job.content;
            SameOpening(fold, job, l) <==>
              && job.active && (c.companyId.Some? ==> l.normalizedCompany.Some? && l.normalizedCompany.value != "")
              && c.normalizedTitle == l.normalizedTitle
              && !Differ(c.normalizedLocation, l.normalizedLocation) && !Differ(c.employmentType, l.employmentType)
              && (|| (Match(c.normalizedLocation, l.normalizedLocation)
                      && (|| Match(c.employmentType, l.employmentType)
                          || (c.postedAt.Some? && l.postedAt.Some?
                              && l.postedAt.value - 259200 <= c.postedAt.value <= l.postedAt.value + 259200)))
                  || (c.description.Some? && l.description.Some? && c.description.value != "" && l.description.value != ""
                      && var a, b := fold(c.description.value), fold(l.description.value);
                         a == b || (|a| >= 101 && |b| >= 101 && (Within(a, b) || Within(b, a)))))
  {
    if job.content.description.Some? && l.description.Some? {
      WithinIff(fold(job.content.description.value), fold(l.description.value));
      WithinIff(fold(l.description.value), fold(job.content.description.value));
    }
  }

  /** `part in whole`. */
  ghost predicate Within(part: string, whole: string) {
    exists front, back :: whole == front + part + back
  }

  lemma WithinIff(part: string, whole: string)
    ensures Infix(part, whole) <==> Within(part, whole)
  {
    if Infix(part, whole) {
      var i :| 0 <= i <= |whole| && part <= whole[i..];
      assert whole == whole[..i] + part + whole[i + |part|..];
    }
    if front, back :| whole == front + part + back {
      assert part <= whole[|front|..];
    }
  }

  ghost function IdentityTenths(c: Content, incoming: Listing): nat {
    (if SameTitle(c, incoming) then 4 else 0)
    + (if SameLocation(c, incoming) then 2 else 0)
    + (if SameType(c, incoming) then 1 else 0)
  }

  /** The confidence of a candidate that is not refused outright. */
  ghost function Tenths(fold: Fold, c: Content, incoming: Listing): nat {
    IdentityTenths(c, incoming)
    + (if SameDescription(fold, c, incoming) then 5 else if NestedDescription(fold, c, incoming) then 3 else 0)
    + (if ClosePosting(c, incoming) then 1 else 0)
  }

  /** What a piece of evidence weighs, in tenths. */
  function Weight(e: Evidence): nat {
    match e
    case ExactTitle => 4
    case ExactLocation => 2
    case ExactType => 1
    case ExactDescription => 5
    case SubsetDescription => 3
    case ClosePostedDate => 1
    case _ => 0
  }

  function Weights(evidence: seq<Evidence>): nat {
    if evidence == [] then 0 else Weight(evidence[0]) + Weights(evidence[1..])
  }

  lemma {:induction false} WeightsJoin(a: seq<Evidence>, b: seq<Evidence>)
    ensures Weights(a + b) == Weights(a) + Weights(b)
  {
    if a == [] {
      assert a + b == b;
    } else {
      assert (a + b)[1..] == a[1..] + b;
      WeightsJoin(a[1..], b);
    }
  }

  lemma WeightsOfOne(evidence: seq<Evidence>, e: Evidence)
    ensures Weights(evidence + [e]) == Weights(evidence) + Weight(e)
  {
    WeightsJoin(evidence, [e]);
    assert [e][1..] == [];
  }

  /** Each of the first three sections reports its finding exactly when it holds. */
  ghost predicate ExplainsIdentity(evidence: seq<Evidence>, c: Content, incoming: Listing) {
    && (ExactTitle in evidence <==> SameTitle(c, incoming))
    && (ExactLocation in evidence <==> SameLocation(c, incoming))
    && (BothNoLocation in evidence <==> !Truthy(c.normalizedLocation) && !Truthy(incoming.normalizedLocation))
    && (PartialLocation in evidence <==> Truthy(c.normalizedLocation) != Truthy(incoming.normalizedLocation))
    && (ExactType in evidence <==> SameType(c, incoming))
  }

  /** So does each of the last two. */
  ghost predicate ExplainsSupport(evidence: seq<Evidence>, fold: Fold, c: Content, incoming: Listing) {
    && (ExactDescription in evidence <==> SameDescription(fold, c, incoming))
    && (SubsetDescription in evidence <==> !SameDescription(fold, c, incoming) && NestedDescription(fold, c, incoming))
    && (ClosePostedDate in evidence <==> ClosePosting(c, incoming))
  }

  /** Seven tenths and the exact title amount to the formula. */
  lemma SevenTenths(fold: Fold, candidate: Job, incoming: Listing)
    requires Eligible(candidate, incoming)
    requires !LocationsConflict(candidate.content, incoming) && !TypesConflict(candidate.content, incoming)
    ensures Tenths(fold, candidate.content, incoming) >= 7 && SameTitle(candidate.content, incoming)
            <==> SameOpening(fold, candidate, incoming)
  {
  }

  // ---- The decision -----------------------------------------------------------------------

  /** The sections on title and location. */
  method WeighTitleAndPlace(c: Content, incoming: Listing) returns (conflict: bool, evidence: seq<Evidence>, confidence: nat)
    ensures conflict == LocationsConflict(c, incoming)
    ensures ExactTitle in evidence <==> SameTitle(c, incoming)
    ensures ExactLocation in evidence <==> SameLocation(c, incoming)
    ensures BothNoLocation in evidence <==> !Truthy(c.normalizedLocation) && !Truthy(incoming.normalizedLocation)
    ensures PartialLocation in evidence <==> Truthy(c.normalizedLocation) != Truthy(incoming.normalizedLocation)
    ensures forall e :: e in evidence ==> e in {ExactTitle, ExactLocation, BothNoLocation, PartialLocation}
    ensures confidence == Weights(evidence)
    ensures confidence == (if SameTitle(c, incoming) then 4 else 0) + (if SameLocation(c, incoming) then 2 else 0)
  {
    conflict, evidence, confidence := false, [], 0;
    if c.normalizedTitle == incoming.normalizedTitle {
      WeightsOfOne(evidence, ExactTitle);
      evidence := evidence + [ExactTitle];
      confidence := 4;
    }
    if Truthy(c.normalizedLocation) && Truthy(incoming.normalizedLocation) {
      if c.normalizedLocation == incoming.normalizedLocation {
        WeightsOfOne(evidence, ExactLocation);
        evidence := evidence + [ExactLocation];
        confidence := confidence + 2;
      } else {
        conflict := true;
      }
    } else if !Truthy(c.normalizedLocation) && !Truthy(incoming.normalizedLocation) {
      WeightsOfOne(evidence, BothNoLocation);
      evidence := evidence + [BothNoLocation];
    } else {
      WeightsOfOne(evidence, PartialLocation);
      evidence := evidence + [PartialLocation];
    }
  }

  /** The sections on title, location and employment type, which may refuse outright. */
  method WeighIdentity(c: Content, incoming: Listing)
    returns (refusal: Option<Reason>, evidence: seq<Evidence>, confidence: nat)
    ensures refusal == if LocationsConflict(c, incoming) then Some(LocationMismatch)
                       else if TypesConflict(c, incoming) then Some(EmploymentTypeMismatch) else None
    ensures refusal.None? ==> ExplainsIdentity(evidence, c, incoming) && confidence == IdentityTenths(c, incoming)
    ensures refusal.None? ==> confidence == Weights(evidence)
    ensures forall e :: e in evidence ==> e !in {ExactDescription, SubsetDescription, ClosePostedDate}
  {
    var conflict;
    conflict, evidence, confidence := WeighTitleAndPlace(c, incoming);
    if conflict {
      return Some(LocationMismatch), evidence, 0;
    }
    refusal := None;
    if Truthy(c.employmentType) && Truthy(incoming.employmentType) {
      if c.employmentType == incoming.employmentType {
        WeightsOfOne(evidence, ExactType);
        evidence := evidence + [ExactType];
        confidence := confidence + 1;
      } else {
        return Some(EmploymentTypeMismatch), evidence, 0;
      }
    }
  }

  /** The sections on descriptions and posting dates. */
  method WeighSupport(fold: Fold, c: Content, incoming: Listing) returns (evidence: seq<Evidence>, confidence: nat)
    ensures ExplainsSupport(evidence, fold, c, incoming)
    ensures forall e :: e in evidence ==> e in {ExactDescription, SubsetDescription, ClosePostedDate}
    ensures confidence == Tenths(fold, c, incoming) - IdentityTenths(c, incoming) == Weights(evidence)
  {
    evidence, confidence := [], 0;
    if Truthy(c.description) && Truthy(incoming.description) {
      var one, two := fold(c.description.value), fold(incoming.description.value);
      if one == two {
        WeightsOfOne(evidence, ExactDescription);
        evidence := evidence + [ExactDescription];
        confidence := confidence + 5;
      } else if |one| > 100 && |two| > 100 {
        if Infix(one, two) || Infix(two, one) {
          WeightsOfOne(evidence, SubsetDescription);
          evidence := evidence + [SubsetDescription];
          confidence := confidence + 3;
        }
      }
    }
    if c.postedAt.Some? && incoming.postedAt.Some? {
      var delta := c.postedAt.value - incoming.postedAt.value;
      if (if delta < 0 then -delta else delta) <= THREE_DAYS {
        WeightsOfOne(evidence, ClosePostedDate);
        evidence := evidence + [ClosePostedDate];
        confidence := confidence + 1;
      }
    }
  }

  /** `evaluate_cross_source_candidate`: a merge is decided exactly for the same opening, and each
    * reported reason says which test decided. */
  method EvaluateCrossSourceCandidate(fold: Fold, job: JobId, candidate: Job, incoming: Listing)
    returns (decision: Decision)
    ensures decision.job == job
    ensures decision.shouldMerge <==> SameOpening(fold, candidate, incoming)
    ensures decision.confidence == if decision.reason.CompositeHighConfidence? || decision.reason.InsufficientEvidence?
                                   then Tenths(fold, candidate.content, incoming) else 0
    ensures decision.reason == if !candidate.active then CandidateInactive
                               else if !Eligible(candidate, incoming) then MissingIncomingCompany
                               else if LocationsConflict(candidate.content, incoming) then LocationMismatch
                               else if TypesConflict(candidate.content, incoming) then EmploymentTypeMismatch
                               else if decision.shouldMerge then CompositeHighConfidence
                               else InsufficientEvidence
    ensures decision.reason.CompositeHighConfidence? || decision.reason.InsufficientEvidence? ==>
              && ExplainsIdentity(decision.evidence, candidate.content, incoming)
              && ExplainsSupport(decision.evidence, fold, candidate.content, incoming)
              && decision.confidence == Weights(decision.evidence)
  {
    if !candidate.active {
      return Decision(job, 0, CandidateInactive, [], false);
    }
    var c := candidate.content;
    if c.companyId.Some? && !Truthy(incoming.normalizedCompany) {
      return Decision(job, 0, MissingIncomingCompany, [], false);
    }
    var refusal, evidence, confidence := WeighIdentity(c, incoming);
    if refusal.Some? {
      return Decision(job, 0, refusal.value, evidence, false);
    }
    var support, more := WeighSupport(fold, c, incoming);
    WeightsJoin(evidence, support);
    evidence, confidence := evidence + support, confidence + more;
    SevenTenths(fold, candidate, incoming);
    if confidence >= 7 && ExactTitle in evidence {
      return Decision(job, confidence, CompositeHighConfidence, evidence, true);
    }
    return Decision(job, confidence, InsufficientEvidence, evidence, false);
  }
}
