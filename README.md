# Admin routes of an online voting backend, in Dafny

This project models the administrative blueprint of a small voting platform
(`bd/routes/admin_routes.py`): the `admin_required` gate that admits only
bearer tokens whose `role` claim is `"admin"`, and the handlers that approve
and reject voters, create elections, add candidates, list elections and
pending voters, declare results and (publicly) view completed results over
the `users` and `elections` collections.

Layout:

- `wrappers.dfy` — `Option`.
- `text.dfy` — Python's `str.startswith` and `str.split(sep)`, with `Join` as
  the inverse of `Split`.
- `documents.dfy` — the stored records (`User`, `Election`, `Candidate`), the
  projected views, JSON values and `Response(status, body)`.
- `queries.dfy` — the pure projections: pending voters and completed results.
- `admin_gate.dfy` — the gate as a decision function `Authorize` and the
  decorator `AdminRequired`.
- `admin_routes.dfy` — the `Store` class (two maps plus the natural order in
  which the store's cursor yields their documents) whose methods are the
  handlers, and `DeclareResults`.

Modelling choices:

- The token library (`jwt.decode`) is the `decode` oracle, giving `Expired`,
  `Invalid`, or the claim set. Timestamp parsing (`datetime.strptime`) is the
  `parse` oracle. The winner computation is the `declare` oracle.
- Ids are opaque `ObjectId(hex)` values, and `str(_id)` is `hex`. Reading an
  id from request text (bson's `ObjectId(text)`) is the `toId` oracle of type
  `IdParser`. It gives None where bson raises `InvalidId`, which nothing
  catches (500). How it reads hex digits, case-insensitively for instance,
  is left to the oracle.
- Every gated handler takes the `Authorization` header and `decode`, and runs
  only when `Authorize` says `Proceed`. A refused request leaves the store
  unchanged.
- An exception the handler does not catch becomes Flask's generic 500:
  `Response(500, InternalError)`.
- `insert_one` picks a fresh `_id`. `CreateElection` takes it as `newId`,
  required to be unused.

Behaviour of the code worth knowing:

- Claims without a `role` key make `data["role"]` raise `KeyError`. Neither
  `except` clause catches it, so the gate answers 500.
- A missing or unparsable `start_time`/`end_time` makes `strptime` raise, and
  nothing catches it. The result is 500. Both parses
  happen before the insert, so nothing is inserted.
- The "Invalid token" refusal also returns the token (after stripping) in the
  body.
- With the `"Bearer "` prefix, the token is `header.split(" ")[1]`: the text up
  to the next space, so `"Bearer a b"` decodes `"a"`.
- A missing `election_id` in `add_candidate` gives 404. `ObjectId(None)`
  generates a new id, which matches no election.
- Voter moderation is by id only. The by-email variants are not in this file.

## Model

| member | source | states |
|---|---|---|
| `Text.Split` | bd/routes/admin_routes.py:25 | `str.split(" ")` yields at least one piece and no piece contains the separator |
| `Text.JoinSplit` | bd/routes/admin_routes.py:25 | splitting loses nothing: joining the pieces with the separator gives the header back |
| `Text.SplitAfterWord` | bd/routes/admin_routes.py:24-25 | a separator-free word followed by the separator is the first piece, and the rest splits independently (so `split(" ")[1]` exists after the prefix) |
| `AdminGate.Authorize` | bd/routes/admin_routes.py:17-37 | the gate proceeds exactly when a non-empty header's token decodes to claims whose role is `"admin"`; every refusal is a 403 or a 500 |
| `AdminGate.AdminRequired` | bd/routes/admin_routes.py:13-41 | the decorated handler's response is passed through unchanged when admitted; otherwise the gate's own response is returned |
| `AdminGate.BearerToken` | bd/routes/admin_routes.py:24-25 | with the `"Bearer "` prefix the token is the text after it up to the first space, and it contains no space |
| `AdminGate.RefusalIgnoresHandler` | bd/routes/admin_routes.py:19-37 | a refused request gets the same 403/500 response whatever the handler would have answered (the handler's result never leaks) |
| `AdminGate.MissingToken` | bd/routes/admin_routes.py:19-20 | an absent or empty header gives 403 "Token missing" for every decoder |
| `AdminGate.RefusalTable` | bd/routes/admin_routes.py:29-37 | expired gives 403 "Token expired"; invalid gives 403 "Invalid token" with the token; a non-admin role gives 403 "Unauthorized"; no role claim gives 500 |
| `AdminRoutes.Store.GetElections` | bd/routes/admin_routes.py:44-53 | admitted: 200 with one entry per election, in store order, each the id/title/district of that election; refused: the gate's response |
| `AdminRoutes.Store.ApproveVoter` | bd/routes/admin_routes.py:81-96 | blank id gives 400 and no change; an id `toId` rejects gives 500 and no change; an unknown id gives 404 and no change; otherwise 200, only that user's `isApproved` becomes true, and nothing else changes |
| `AdminRoutes.Store.RejectVoter` | bd/routes/admin_routes.py:98-109 | blank id gives 400 and no change; an id `toId` rejects gives 500 and no change; otherwise 200 and the users become the old users minus that id (a no-op when absent); elections unchanged |
| `AdminRoutes.Without` | bd/routes/admin_routes.py:108 | the enumeration after a delete holds exactly the other ids and stays duplicate-free |
| `AdminRoutes.Store.CreateElection` | bd/routes/admin_routes.py:110-136 | if either timestamp fails to parse: 500 and nothing inserted; otherwise 201 and exactly one new election under the fresh id, with empty candidates, status "ongoing" and the parsed times; users unchanged |
| `AdminRoutes.Store.GetPendingVoters` | bd/routes/admin_routes.py:140-148 | admitted: 200 and a stored user is listed exactly when it is not approved, and at most once; every entry is the id/name/email of a stored user |
| `Queries.PendingVoters` | bd/routes/admin_routes.py:144-146 | every listed entry is the id/name/email projection of an enumerated user whose approval flag is false; over a duplicate-free enumeration no id is listed twice |
| `Queries.PendingVotersComplete` | bd/routes/admin_routes.py:144-146 | every enumerated unapproved user is listed |
| `Queries.PendingVotersExact` | bd/routes/admin_routes.py:144-146 | a user is listed if and only if it is enumerated and not approved |
| `Queries.ApprovalLeavesPending` | bd/routes/admin_routes.py:95-146 | after approving a user, no pending entry carries its id, and every other user is listed exactly as before |
| `AdminRoutes.Store.AddCandidate` | bd/routes/admin_routes.py:163-181 | absent or unknown election id gives 404 and no change; an id `toId` rejects gives 500 and no change; otherwise 200, that election's candidate list grows by one, keeps its earlier entries, ends with (name, party, votes 0), and nothing else changes |
| `AdminRoutes.DeclareResults` | bd/routes/admin_routes.py:203-212 | admitted: the collaborator's result is the body as-is, and the status is 200 exactly when it has a "message" key, 400 otherwise |
| `AdminRoutes.Store.ViewResults` | bd/routes/admin_routes.py:265-280 | 200 with exactly the completed-results projection of the elections in store order, computed by the nested loops that default vote counts; every published vote count is non-negative |
| `Queries.CompletedResults` | bd/routes/admin_routes.py:269-278 | every listed result is the projection of an enumerated election whose status is "completed"; over a duplicate-free enumeration no id is listed twice |
| `Queries.CompletedResultsComplete` | bd/routes/admin_routes.py:269-272 | every enumerated completed election is listed |
| `Queries.ResultVotes` | bd/routes/admin_routes.py:277-278 | each published candidate keeps its stored vote count, gets 0 when there is none, and keeps its name and party |
| `AdminRoutes.PublishedVotesNonNegative` | bd/routes/admin_routes.py:269-278 | while stored vote counts are non-negative, every published vote count is non-negative |

## Left out

- JWT decoding, HS256 signature checking and the signing key: a foreign cryptographic library, here the `decode` oracle.
- `datetime.strptime` with `"%Y-%m-%dT%H:%M"`: library parsing, here the `parse` oracle.
- Winner selection and the state change made by `Election.declare_results`: that collaborator is in `models/election_model`, which is not part of this model. `DeclareResults` therefore changes no state, and repeated declaration is not modelled.
- Stored `_id` values are not checked to be well-formed: the model keys on whatever ids the store holds.
- A JSON body that is not an object (`null`, a list, a number): `data.get` raises, a 500 in the source. Here request fields arrive already extracted.
- Request fields whose JSON value is not a string (a falsy `0` or `false` as `voterId`, a number as title): request fields are `Option<string>`, with None for absent or null.
- `request.json` failing on a non-JSON body, `jsonify`, and the `_id` to `str` conversion (the identity on `hex` here).
- Records missing `name`, `email`, `is_approved` or `candidates`, and vote counts that are not integers: the record types always carry these fields.
- The generic `except Exception` to 500 path of `get_elections`, and store connection errors: store I/O.
- Store order for `find`: an unspecified cursor order in MongoDB, modelled as one fixed enumeration per collection that inserts append to and deletes remove from.
- `print` debugging, `check_password_hash` and the admin credentials imported at the top: no behaviour in the modelled handlers.
- The commented-out handlers: dead code.
- Concurrent requests and read-modify-write races: the model is sequential.
