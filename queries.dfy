/** The read-only projections of the admin routes: the pending-voters list
    and the public results list, each over a collection enumerated in the
    store's natural order. */
module Queries {
  import opened Wrappers
  import opened Documents

  /** Every id the enumeration yields has a record. */
  predicate Covers<V>(order: seq<ObjectId>, m: map<ObjectId, V>) {
    forall i :: 0 <= i < |order| ==> order[i] in m
  }

  /** No id occurs twice. */
  predicate Distinct(s: seq<ObjectId>) {
    forall i, j :: 0 <= i < j < |s| ==> s[i] != s[j]
  }

  function VoterSummaryOf(id: ObjectId, u: User): VoterSummary {
    VoterSummary(id.hex, u.name, u.email)
  }

  function ElectionSummaryOf(id: ObjectId, e: Election): ElectionSummary {
    ElectionSummary(id.hex, e.title, e.district)
  }

  /** `candidate.get("votes", 0)`. */
  function TallyOf(c: Candidate): Tally {
    Tally(c.name, c.party, c.votes.GetOr(0))
  }

  function Tallies(cs: seq<Candidate>): seq<Tally> {
    seq(|cs|, i requires 0 <= i < |cs| => TallyOf(cs[i]))
  }

  function ResultOf(id: ObjectId, e: Election): ElectionResult {
    ElectionResult(id.hex, e.title, e.district, Tallies(e.candidates), e.winner)
  }

  /** The users whose approval flag is false, projected to id/name/email,
      in enumeration order. */
  function PendingVoters(users: map<ObjectId, User>, order: seq<ObjectId>): (r: seq<VoterSummary>)
    requires Covers(order, users)
    ensures |r| <= |order|
    ensures forall v :: v in r ==>
      ObjectId(v.id) in order && !users[ObjectId(v.id)].isApproved
      && v == VoterSummaryOf(ObjectId(v.id), users[ObjectId(v.id)])
    ensures Distinct(order) ==> forall i, j :: 0 <= i < j < |r| ==> r[i].id != r[j].id
  {
    if order == [] then []
    else
      var id := order[0];
      (if users[id].isApproved then [] else [VoterSummaryOf(id, users[id])])
      + PendingVoters(users, order[1..])
  }

  /** Every enumerated user that is not approved is listed. */
  lemma {:induction false} PendingVotersComplete(users: map<ObjectId, User>, order: seq<ObjectId>, id: ObjectId)
    requires Covers(order, users)
    requires id in order && !users[id].isApproved
    ensures VoterSummaryOf(id, users[id]) in PendingVoters(users, order)
  {
    if order[0] != id {
      PendingVotersComplete(users, order[1..], id);
    }
  }

  /** A user is listed exactly when it is enumerated and not approved. */
  lemma PendingVotersExact(users: map<ObjectId, User>, order: seq<ObjectId>)
    requires Covers(order, users)
    ensures forall id :: id in users ==>
      (VoterSummaryOf(id, users[id]) in PendingVoters(users, order) <==> id in order && !users[id].isApproved)
  {
    forall id | id in users && id in order && !users[id].isApproved
      ensures VoterSummaryOf(id, users[id]) in PendingVoters(users, order)
    {
      PendingVotersComplete(users, order, id);
    }
  }

  /** After a user is approved it no longer appears among the pending voters,
      and every other user is listed exactly when it was before. */
  lemma ApprovalLeavesPending(users: map<ObjectId, User>, order: seq<ObjectId>, id: ObjectId)
    requires Covers(order, users) && id in users
    ensures var approved := users[id := users[id].(isApproved := true)];
      && (forall v :: v in PendingVoters(approved, order) ==> v.id != id.hex)
      && (forall other :: other in users && other != id ==>
            (VoterSummaryOf(other, users[other]) in PendingVoters(approved, order)
             <==> VoterSummaryOf(other, users[other]) in PendingVoters(users, order)))
  {
    var approved := users[id := users[id].(isApproved := true)];
    PendingVotersExact(users, order);
    PendingVotersExact(approved, order);
  }

  /** The elections whose status is "completed", each projected to
      id/title/district/candidates/winner with every vote count defaulted,
      in enumeration order. */
  function CompletedResults(elections: map<ObjectId, Election>, order: seq<ObjectId>): (r: seq<ElectionResult>)
    requires Covers(order, elections)
    ensures |r| <= |order|
    ensures forall x :: x in r ==>
      ObjectId(x.id) in order && elections[ObjectId(x.id)].status == Completed
      && x == ResultOf(ObjectId(x.id), elections[ObjectId(x.id)])
    ensures Distinct(order) ==> forall i, j :: 0 <= i < j < |r| ==> r[i].id != r[j].id
  {
    if order == [] then []
    else
      var id := order[|order| - 1];
      CompletedResults(elections, order[..|order| - 1])
      + (if elections[id].status == Completed then [ResultOf(id, elections[id])] else [])
  }

  /** Every enumerated completed election is listed. */
  lemma {:induction false} CompletedResultsComplete(elections: map<ObjectId, Election>, order: seq<ObjectId>, id: ObjectId)
    requires Covers(order, elections)
    requires id in order && elections[id].status == Completed
    ensures ResultOf(id, elections[id]) in CompletedResults(elections, order)
  {
    if order[|order| - 1] != id {
      CompletedResultsComplete(elections, order[..|order| - 1], id);
    }
  }

  /** Every candidate in the results carries a vote count: the stored one
      when there is one, 0 otherwise; and it is non-negative whenever the
      stored counts are. */
  lemma ResultVotes(e: Election, id: ObjectId, k: nat)
    requires k < |e.candidates|
    ensures var t := ResultOf(id, e).candidates;
      && |t| == |e.candidates|
      && t[k].name == e.candidates[k].name && t[k].party == e.candidates[k].party
      && (e.candidates[k].votes.Some? ==> t[k].votes == e.candidates[k].votes.value)
      && (e.candidates[k].votes.None? ==> t[k].votes == 0)
      && (e.candidates[k].votes.Some? && e.candidates[k].votes.value >= 0 ==> t[k].votes >= 0)
  {
  }
}
