/** What a collection run makes of its discovered candidates: the selection in app/jobs/collection.py
  * and `detail_fetched_by_source_id` of app/repositories/canonical_jobs.py. */
module Discovery {
  import opened Wrappers
  import opened Listings

  datatype Candidate = Candidate(id: string, title: string, url: Option<string>)

  const SIX_HOURS: int := 6 * 3600

  /** A detail payload that is not a migration stub. */
  predicate DetailFetched(o: Observation) {
    o.rawData != map[] && "legacy_global_job_id" !in o.rawData
  }

  /** The last candidate with an identifier. */
  function Last(candidates: seq<Candidate>, id: string): (r: Option<Candidate>)
    ensures r.Some? ==> r.value in candidates && r.value.id == id
    ensures r.None? ==> forall c :: c in candidates ==> c.id != id
  {
    if candidates == [] then None
    else
      var n := |candidates| - 1;
      if candidates[n].id == id then Some(candidates[n]) else Last(candidates[..n], id)
  }

  ghost predicate Distinct(ids: seq<string>) {
    forall i, j :: 0 <= i < j < |ids| ==> ids[i] != ids[j]
  }

  /** The identifiers in order of first appearance. */
  function FirstIds(candidates: seq<Candidate>): (ids: seq<string>)
    ensures Distinct(ids)
    ensures forall id :: id in ids <==> Last(candidates, id).Some?
  {
    if candidates == [] then []
    else
      var n := |candidates| - 1;
      var before := FirstIds(candidates[..n]);
      if candidates[n].id in before then before else before + [candidates[n].id]
  }

  /** The candidate at this position is the first with the identifier. */
  ghost predicate FirstAt(candidates: seq<Candidate>, i: nat, id: string) {
    && i < |candidates| && candidates[i].id == id
    && forall j :: 0 <= j < i ==> candidates[j].id != id
  }

  ghost predicate FoundAt(candidates: seq<Candidate>, ids: seq<string>, at: seq<nat>) {
    && |at| == |ids| && (forall i, j :: 0 <= i < j < |at| ==> at[i] < at[j])
    && forall i :: 0 <= i < |at| ==> FirstAt(candidates, at[i], ids[i])
  }

  lemma OneMoreFound(candidates: seq<Candidate>, ids: seq<string>, at: seq<nat>)
    requires candidates != [] && FoundAt(candidates[..|candidates| - 1], ids, at)
    ensures FoundAt(candidates, ids, at)
    ensures var n := |candidates| - 1;
            FirstAt(candidates, n, candidates[n].id) ==> FoundAt(candidates, ids + [candidates[n].id], at + [n])
  {
    var n := |candidates| - 1;
    forall i | 0 <= i < |at|
      ensures FirstAt(candidates, at[i], ids[i]) && at[i] < n
    {
      assert FirstAt(candidates[..n], at[i], ids[i]);
    }
  }

  /** Each identifier stands where it is first found. */
  lemma {:induction false} FirstIdsInOrder(candidates: seq<Candidate>) returns (at: seq<nat>)
    ensures FoundAt(candidates, FirstIds(candidates), at)
  {
    if candidates == [] {
      at := [];
    } else {
      var n := |candidates| - 1;
      at := FirstIdsInOrder(candidates[..n]);
      OneMoreFound(candidates, FirstIds(candidates[..n]), at);
      if candidates[n].id !in FirstIds(candidates[..n]) {
        at := at + [n];
        forall j | 0 <= j < n
          ensures candidates[j].id != candidates[n].id
        {
          assert candidates[..n][j] in candidates[..n];
        }
      }
    }
  }

  lemma {:induction false} DistinctSize(ids: seq<string>)
    requires Distinct(ids)
    ensures |set id | id in ids| == |ids|
  {
    if ids != [] {
      var n := |ids| - 1;
      DistinctSize(ids[..n]);
      assert (set id | id in ids) == (set id | id in ids[..n]) + {ids[n]};
    }
  }

  /** A dictionary keyed by identifier keeps the first position and the last candidate of each. */
  method UniqueCandidates(candidates: seq<Candidate>) returns (unique: seq<Candidate>)
    ensures |unique| == |FirstIds(candidates)|
    ensures forall i :: 0 <= i < |unique| ==>
              unique[i].id == FirstIds(candidates)[i] && Last(candidates, unique[i].id) == Some(unique[i])
  {
    var order: seq<string>, byId: map<string, Candidate> := [], map[];
    for n := 0 to |candidates|
      invariant order == FirstIds(candidates[..n])
      invariant forall id :: id in byId <==> id in order
      invariant forall id :: id in byId ==> Last(candidates[..n], id) == Some(byId[id])
    {
      assert candidates[..n + 1][..n] == candidates[..n];
      var c := candidates[n];
      if c.id !in byId {
        order := order + [c.id];
      }
      byId := byId[c.id := c];
    }
    assert candidates[..|candidates|] == candidates;
    unique := seq(|order|, i requires 0 <= i < |order| => byId[order[i]]);
  }
}
