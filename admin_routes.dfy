/** The admin blueprint's handlers over the two collections. Every handler
    but `ViewResults` runs behind the admin gate; a refused request leaves
    the store untouched. */
module AdminRoutes {
  import opened Wrappers
  import opened Documents
  import opened Queries
  import opened AdminGate

  /** `order` lists every key of the collection exactly once: the order in
      which the store's cursor yields the documents. */
  predicate Enumerates(order: seq<ObjectId>, keys: set<ObjectId>) {
    && Distinct(order)
    && (forall x :: x in order ==> x in keys)
    && (forall x :: x in keys ==> x in order)
  }

  /** The enumeration after one document is deleted. */
  function Without(s: seq<ObjectId>, x: ObjectId): (r: seq<ObjectId>)
    ensures forall y :: y in r <==> y in s && y != x
    ensures Distinct(s) ==> Distinct(r)
  {
    if s == [] then []
    else if s[0] == x then Without(s[1..], x)
    else
      assert Distinct(s) ==> s[0] !in s[1..];
      [s[0]] + Without(s[1..], x)
  }

  /** bson's `ObjectId(text)`: the id a text denotes, or None when the text
      is not a valid id and the constructor raises `InvalidId`. */
  type IdParser = string -> Option<ObjectId>

  /** Python's `not value` on a request field: absent or empty. */
  predicate Blank(field: Option<string>) {
    field.None? || field.value == ""
  }

  /** `datetime.strptime(text, "%Y-%m-%dT%H:%M")`, where `parse` is the
      library's parser and an absent field cannot be parsed at all. */
  function ParseTime(field: Option<string>, parse: string -> Option<DateTime>): Option<DateTime> {
    if field.None? then None else parse(field.value)
  }

  /** Every stored vote count of the election is non-negative. */
  predicate WellFormed(e: Election) {
    forall i :: 0 <= i < |e.candidates| ==> e.candidates[i].votes.GetOr(0) >= 0
  }

  /** Published vote counts are never negative while the stored ones are not. */
  lemma PublishedVotesNonNegative(elections: map<ObjectId, Election>, order: seq<ObjectId>)
    requires Covers(order, elections)
    requires forall id :: id in elections ==> WellFormed(elections[id])
    ensures forall x :: x in CompletedResults(elections, order) ==>
      forall k :: 0 <= k < |x.candidates| ==> x.candidates[k].votes >= 0
  {
    forall x, k | x in CompletedResults(elections, order) && 0 <= k < |x.candidates|
      ensures x.candidates[k].votes >= 0
    {
      var e := elections[ObjectId(x.id)];
      assert WellFormed(e);
      ResultVotes(e, ObjectId(x.id), k);
    }
  }

  /** `declare_results`: the collaborator that computes the winner is the
      `declare` oracle; its answer goes back as it is, with 200 when it holds
      a "message" key and 400 otherwise. */
  function DeclareResults(
    header: Option<string>, decode: string -> DecodeResult,
    electionId: Option<string>, declare: Option<string> -> map<string, Json>): (r: Response)
    ensures !Admitted(header, decode) ==> r == Authorize(header, decode).response
    ensures Admitted(header, decode) ==>
      && r.body == Payload(declare(electionId))
      && (r.status == 200 || r.status == 400)
      && (r.status == 200 <==> "message" in declare(electionId))
  {
    var g := Authorize(header, decode);
    if g.Halt? then g.response
    else
      var result := declare(electionId);
      Response(if "message" in result then 200 else 400, Payload(result))
  }

  /** The `users` and `elections` collections. */
  class Store {
    var users: map<ObjectId, User>
    var userOrder: seq<ObjectId>
    var elections: map<ObjectId, Election>
    var electionOrder: seq<ObjectId>

    ghost predicate Valid()
      reads this
    {
      && Enumerates(userOrder, users.Keys)
      && Enumerates(electionOrder, elections.Keys)
      && forall id :: id in elections ==> WellFormed(elections[id])
    }

    constructor (users: map<ObjectId, User>, userOrder: seq<ObjectId>,
                 elections: map<ObjectId, Election>, electionOrder: seq<ObjectId>)
      requires Enumerates(userOrder, users.Keys) && Enumerates(electionOrder, elections.Keys)
      requires forall id :: id in elections ==> WellFormed(elections[id])
      ensures Valid()
      ensures this.users == users && this.userOrder == userOrder
      ensures this.elections == elections && this.electionOrder == electionOrder
    {
      this.users := users;
      this.userOrder := userOrder;
      this.elections := elections;
      this.electionOrder := electionOrder;
    }

    /** `get_elections`: every election, in store order, projected to
        id/title/district. */
    method GetElections(header: Option<string>, decode: string -> DecodeResult) returns (r: Response)
      requires Valid()
      ensures !Admitted(header, decode) ==> r == Authorize(header, decode).response
      ensures Admitted(header, decode) ==>
        && r.status == 200 && r.body.ElectionList?
        && |r.body.elections| == |electionOrder|
        && forall i :: 0 <= i < |electionOrder| ==>
             r.body.elections[i] == ElectionSummaryOf(electionOrder[i], elections[electionOrder[i]])
    {
      var g := Authorize(header, decode);
      if g.Halt? {
        return g.response;
      }
      var list: seq<ElectionSummary> := [];
      var i := 0;
      while i < |electionOrder|
        invariant 0 <= i <= |electionOrder|
        invariant |list| == i
        invariant forall k :: 0 <= k < i ==>
          list[k] == ElectionSummaryOf(electionOrder[k], elections[electionOrder[k]])
      {
        var id := electionOrder[i];
        var e := elections[id];
        list := list + [ElectionSummary(id.hex, e.title, e.district)];
        i := i + 1;
      }
      r := Response(200, ElectionList(list));
    }

    /** `approve_voter`: sets the approval flag of one user. */
    method ApproveVoter(header: Option<string>, decode: string -> DecodeResult, toId: IdParser,
                        voterId: Option<string>)
      returns (r: Response)
      requires Valid()
      modifies this
      ensures Valid()
      ensures !Admitted(header, decode) ==> r == Authorize(header, decode).response && unchanged(this)
      ensures Admitted(header, decode) && Blank(voterId) ==>
        r == Response(400, Message("Voter ID is required")) && unchanged(this)
      ensures Admitted(header, decode) && !Blank(voterId) && toId(voterId.value).None? ==>
        r == Response(500, InternalError) && unchanged(this)
      ensures Admitted(header, decode) && !Blank(voterId) && toId(voterId.value).Some?
              && toId(voterId.value).value !in old(users) ==>
        r == Response(404, Message("User not found")) && unchanged(this)
      ensures Admitted(header, decode) && !Blank(voterId) && toId(voterId.value).Some?
              && toId(voterId.value).value in old(users) ==>
        var id := toId(voterId.value).value;
        && r == Response(200, Message("Voter approved successfully"))
        && users == old(users)[id := old(users)[id].(isApproved := true)]
        && userOrder == old(userOrder)
        && elections == old(elections) && electionOrder == old(electionOrder)
    {
      var g := Authorize(header, decode);
      if g.Halt? {
        return g.response;
      }
      if voterId.None? || voterId.value == "" {
        return Response(400, Message("Voter ID is required"));
      }
      var parsed := toId(voterId.value);
      if parsed.None? {
        return Response(500, InternalError);
      }
      var id := parsed.value;
      if id !in users {
        return Response(404, Message("User not found"));
      }
      users := users[id := users[id].(isApproved := true)];
      r := Response(200, Message("Voter approved successfully"));
    }

    /** `reject_voter`: deletes the user if there is one. */
    method RejectVoter(header: Option<string>, decode: string -> DecodeResult, toId: IdParser,
                       voterId: Option<string>)
      returns (r: Response)
      requires Valid()
      modifies this
      ensures Valid()
      ensures !Admitted(header, decode) ==> r == Authorize(header, decode).response && unchanged(this)
      ensures Admitted(header, decode) && Blank(voterId) ==>
        r == Response(400, Message("Voter ID is required")) && unchanged(this)
      ensures Admitted(header, decode) && !Blank(voterId) && toId(voterId.value).None? ==>
        r == Response(500, InternalError) && unchanged(this)
      ensures Admitted(header, decode) && !Blank(voterId) && toId(voterId.value).Some? ==>
        var id := toId(voterId.value).value;
        && r == Response(200, Message("Voter rejected and removed"))
        && users == old(users) - {id}
        && userOrder == Without(old(userOrder), id)
        && elections == old(elections) && electionOrder == old(electionOrder)
    {
      var g := Authorize(header, decode);
      if g.Halt? {
        return g.response;
      }
      if voterId.None? || voterId.value == "" {
        return Response(400, Message("Voter ID is required"));
      }
      var parsed := toId(voterId.value);
      if parsed.None? {
        return Response(500, InternalError);
      }
      var id := parsed.value;
      users := users - {id};
      userOrder := Without(userOrder, id);
      r := Response(200, Message("Voter rejected and removed"));
    }

    /** `create_election`: both timestamps are parsed before anything is
        inserted; a failed parse is an exception the handler does not catch. */
    method CreateElection(
      header: Option<string>, decode: string -> DecodeResult,
      title: Option<string>, district: Option<string>,
      startTime: Option<string>, endTime: Option<string>,
      parse: string -> Option<DateTime>, newId: ObjectId)
      returns (r: Response)
      requires Valid()
      requires newId !in elections  // the id the store assigns on insert is fresh
      modifies this
      ensures Valid()
      ensures !Admitted(header, decode) ==> r == Authorize(header, decode).response && unchanged(this)
      ensures Admitted(header, decode) && (ParseTime(startTime, parse).None? || ParseTime(endTime, parse).None?) ==>
        r == Response(500, InternalError) && unchanged(this)
      ensures Admitted(header, decode) && ParseTime(startTime, parse).Some? && ParseTime(endTime, parse).Some? ==>
        var created := Election(title, district, [], ParseTime(startTime, parse).value,
                                ParseTime(endTime, parse).value, Ongoing, None);
        && r == Response(201, Message("Election created successfully"))
        && elections == old(elections)[newId := created]
        && elections.Keys == old(elections).Keys + {newId}
        && electionOrder == old(electionOrder) + [newId]
        && users == old(users) && userOrder == old(userOrder)
    {
      var g := Authorize(header, decode);
      if g.Halt? {
        return g.response;
      }
      var start := ParseTime(startTime, parse);
      if start.None? {
        return Response(500, InternalError);
      }
      var end := ParseTime(endTime, parse);
      if end.None? {
        return Response(500, InternalError);
      }
      elections := elections[newId := Election(title, district, [], start.value, end.value, Ongoing, None)];
      electionOrder := electionOrder + [newId];
      r := Response(201, Message("Election created successfully"));
    }

    /** `get_pending_voters`: the users not yet approved, as id/name/email. */
    function GetPendingVoters(header: Option<string>, decode: string -> DecodeResult): (r: Response)
      reads this
      requires Valid()
      ensures !Admitted(header, decode) ==> r == Authorize(header, decode).response
      ensures Admitted(header, decode) ==>
        && r.status == 200 && r.body.PendingList?
        && (forall id :: id in users ==>
              (VoterSummaryOf(id, users[id]) in r.body.pendingVoters <==> !users[id].isApproved))
        && (forall v :: v in r.body.pendingVoters ==>
              ObjectId(v.id) in users && v == VoterSummaryOf(ObjectId(v.id), users[ObjectId(v.id)]))
        && (forall i, j :: 0 <= i < j < |r.body.pendingVoters| ==>
              r.body.pendingVoters[i].id != r.body.pendingVoters[j].id)
    {
      PendingVotersExact(users, userOrder);
      AdminRequired(header, decode, Response(200, PendingList(PendingVoters(users, userOrder))))
    }

    /** `add_candidate`: appends a candidate with no votes to one election.
        An absent id matches no election; an invalid one raises. */
    method AddCandidate(
      header: Option<string>, decode: string -> DecodeResult, toId: IdParser,
      electionId: Option<string>, name: Option<string>, party: Option<string>)
      returns (r: Response)
      requires Valid()
      modifies this
      ensures Valid()
      ensures !Admitted(header, decode) ==> r == Authorize(header, decode).response && unchanged(this)
      ensures Admitted(header, decode) && electionId.Some? && toId(electionId.value).None? ==>
        r == Response(500, InternalError) && unchanged(this)
      ensures Admitted(header, decode)
              && (electionId.None? || (toId(electionId.value).Some? && toId(electionId.value).value !in old(elections))) ==>
        r == Response(404, Message("Election not found")) && unchanged(this)
      ensures Admitted(header, decode) && electionId.Some? && toId(electionId.value).Some?
              && toId(electionId.value).value in old(elections) ==>
        var id := toId(electionId.value).value;
        var before := old(elections)[id].candidates;
        && r == Response(200, Message("Candidate added successfully"))
        && elections == old(elections)[id := old(elections)[id].(candidates := before + [Candidate(name, party, Some(0))])]
        && |elections[id].candidates| == |before| + 1
        && elections[id].candidates[..|before|] == before
        && elections[id].candidates[|before|] == Candidate(name, party, Some(0))
        && electionOrder == old(electionOrder)
        && users == old(users) && userOrder == old(userOrder)
    {
      var g := Authorize(header, decode);
      if g.Halt? {
        return g.response;
      }
      if electionId.None? {
        // ObjectId(None) generates a new id, which no stored election has
        return Response(404, Message("Election not found"));
      }
      var parsed := toId(electionId.value);
      if parsed.None? {
        return Response(500, InternalError);
      }
      if parsed.value !in elections {
        return Response(404, Message("Election not found"));
      }
      var id := parsed.value;
      var e := elections[id];
      elections := elections[id := e.(candidates := e.candidates + [Candidate(name, party, Some(0))])];
      r := Response(200, Message("Candidate added successfully"));
    }

    /** `view_results` (public): the completed elections with a vote count on
        every candidate. */
    method ViewResults() returns (r: Response)
      requires Valid()
      ensures r == Response(200, ResultList(CompletedResults(elections, electionOrder)))
      ensures forall x :: x in r.body.results ==>
        forall k :: 0 <= k < |x.candidates| ==> x.candidates[k].votes >= 0
    {
      var results: seq<ElectionResult> := [];
      var i := 0;
      while i < |electionOrder|
        invariant 0 <= i <= |electionOrder|
        invariant results == CompletedResults(elections, electionOrder[..i])
      {
        var id := electionOrder[i];
        var e := elections[id];
        if e.status == Completed {
          var tallies: seq<Tally> := [];
          var j := 0;
          while j < |e.candidates|
            invariant 0 <= j <= |e.candidates|
            invariant |tallies| == j
            invariant forall k :: 0 <= k < j ==> tallies[k] == TallyOf(e.candidates[k])
          {
            var c := e.candidates[j];
            tallies := tallies + [Tally(c.name, c.party, c.votes.GetOr(0))];
            j := j + 1;
          }
          assert tallies == Tallies(e.candidates);
          results := results + [ElectionResult(id.hex, e.title, e.district, tallies, e.winner)];
        }
        assert electionOrder[..i + 1][..i] == electionOrder[..i];
        i := i + 1;
      }
      assert electionOrder[..i] == electionOrder;
      r := Response(200, ResultList(results));
      PublishedVotesNonNegative(elections, electionOrder);
    }
  }
}
