/** The records kept in the `users` and `elections` collections, the views
    the handlers project them to, and the HTTP responses they return. */
module Documents {
  import opened Wrappers

  /** A JSON value, for the parts of a document the handlers pass through
      without looking inside (token claims, a recorded winner, the result of
      the results-declaration collaborator). */
  datatype Json =
    | JNull
    | JBool(b: bool)
    | JInt(i: int)
    | JStr(s: string)
    | JArray(items: seq<Json>)
    | JObject(fields: map<string, Json>)

  /** A document's `_id`; `hex` is its text form, what `str(_id)` gives and
      what `ObjectId(text)` reads back. */
  datatype ObjectId = ObjectId(hex: string)

  /** A parsed timestamp. Parsing itself is supplied by the caller. */
  datatype DateTime = DateTime(year: int, month: int, day: int, hour: int, minute: int)

  /** A registered voter. */
  datatype User = User(name: string, email: string, isApproved: bool)

  /** A candidate entry embedded in an election; `votes` is None when the
      stored entry has no `votes` field. Name and party are None for JSON null. */
  datatype Candidate = Candidate(name: Option<string>, party: Option<string>, votes: Option<int>)

  const Ongoing := "ongoing"
  const Completed := "completed"

  datatype Election = Election(
    title: Option<string>,
    district: Option<string>,
    candidates: seq<Candidate>,
    startTime: DateTime,
    endTime: DateTime,
    status: string,
    winner: Option<Json>)

  /** Entry of the pending-voters list: `_id`, `name`, `email`. */
  datatype VoterSummary = VoterSummary(id: string, name: string, email: string)

  /** Entry of the elections list: `_id`, `title`, `district`. */
  datatype ElectionSummary = ElectionSummary(id: string, title: Option<string>, district: Option<string>)

  /** A candidate as the public results show it: always with a vote count. */
  datatype Tally = Tally(name: Option<string>, party: Option<string>, votes: int)

  /** Entry of the public results list. */
  datatype ElectionResult = ElectionResult(
    id: string,
    title: Option<string>,
    district: Option<string>,
    candidates: seq<Tally>,
    winner: Option<Json>)

  /** The JSON body of a response. */
  datatype Body =
    | Message(message: string)
    | InvalidToken(message: string, token: string)
    | InternalError                                   // an exception no handler catches
    | ElectionList(elections: seq<ElectionSummary>)
    | PendingList(pendingVoters: seq<VoterSummary>)
    | ResultList(results: seq<ElectionResult>)
    | Payload(fields: map<string, Json>)

  datatype Response = Response(status: int, body: Body)
}
