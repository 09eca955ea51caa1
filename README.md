# Online voting: the decision layer

This project models the request handlers of an Express/Sequelize online voting
application, with the tables they read and write held as an in-memory store.
Administrators sign up, log in by email and manage elections, the
questions of an election, the options of a question and the voters registered
for an election. Voters log in to one election by voter id and cast a ballot
through a public page.

The model covers:

- the two passport login strategies, the session record `{id, role}` and how
  it is resolved back;
- the role gate every handler applies;
- the start gate of the public page and the voted/ended branch of the vote page;
- the cast loop that turns `question-` body keys into votes;
- the step-by-step PUT handlers and the owner-scoped DELETE;
- the Elections table (`models/elections.js`) as a class over a map;
- the administrator validation rules (`models/users.js`) as a pure validator.

Modules, one file each:

| file | module | models |
|---|---|---|
| wrappers.dfy | Wrappers | `Option` |
| text.dfy | Text | decimal text of ids, `String.prototype.indexOf`, `split`, `at(-1)` |
| keys.dfy | BallotKeys | the `question-<id>` ballot keys |
| users.dfy | Users | models/users.js and the record the signup handler builds |
| elections.dfy | Elections | models/elections.js |
| ledger.dfy | Ledger | rows of the Questions, Options, Voters and Votes tables |
| ballot.dfy | Ballot | the body of a cast and the votes it yields |
| auth.dfy | Auth | login strategies, session (de)serialisation, role gates |
| app.dfy | App | the handlers, over the `Store` class |

Assumptions about code that is not part of this model:

- The Votes, Voters, Questions and Options model files are not part of this
  model. Each operation app.js calls on them is given only the meaning its use
  implies:
  - `haveAlreadyVoted(eid, vid)` holds when the ledger has a vote whose
    election and voter texts are those ids.
  - `createVote` appends one vote with the four values it is handed.
  - `createQuestion`, `createOption` and `createVoter` insert one row with the
    given columns under the route's parent. `createVoter` stores some function of
    the password it is handed, a parameter `hash`; the voter login compares
    against that value as a bcrypt hash.
  - `update*` sets one column.
  - `remove(id, parentId)` deletes the row with that id only when it sits
    under that parent.
- `findOne` returns the matching row with the least id.
- bcrypt's `hash` and `compare` are function parameters.
- The validator.js predicates `notEmpty`, `isAlpha` and `isEmail` are function
  parameters.
- Route parameters arrive already decoded as natural numbers. Body values are
  strings. A PUT body's `start`/`end` are booleans.

## Model

| member | source | states |
|---|---|---|
| Text.DecimalText | app.js:773 | the text of an id is a non-empty run of digits |
| Text.DecimalRoundTrip | app.js:773 | reading the decimal text of an id gives back the id |
| Text.DecimalTextInjective | app.js:773 | distinct ids have distinct texts, so comparing ids by text is comparing ids |
| Text.IndexFrom | app.js:816 | the index found is the first occurrence at or after the start, and -1 exactly when there is none |
| Text.IndexOfFound | app.js:816 | `indexOf` is not -1 exactly when the pattern occurs somewhere |
| Text.Split | app.js:818 | `split` always yields at least one piece |
| Text.JoinSplit | app.js:818 | joining the pieces with the separator gives back the string |
| Text.SplitPiecesAvoidSeparator | app.js:818 | no piece contains the separator |
| Text.SplitWithoutSeparator | app.js:818 | a string without the separator splits into itself alone |
| Text.SplitConcat | app.js:818 | splitting around one separator splits each side separately |
| Text.LastPieceAfterSeparator | app.js:818 | `at(-1)` of the pieces is whatever follows the last separator |
| BallotKeys.DecimalTextHasNoDash | app.js:818 | an id's text contains no dash |
| BallotKeys.QuestionIdHasNoDash | app.js:818 | the parsed question id never contains a dash |
| BallotKeys.QuestionKeyParses | app.js:816-823 | any key ending in `question-<q>` is a question key and parses to q |
| BallotKeys.QuestionKeyRoundTrip | app.js:816-823 | `question-<q>` is a question key whose id text is that of q |
| BallotKeys.DistinctKeysSameQuestion | app.js:816-823 | two different keys, `question-<q>` and `x-question-<q>`, both parse to question q |
| BallotKeys.DashlessKeyIsNoQuestion | app.js:816 | a key without a dash is never taken for a question |
| BallotKeys.BodyIdKeysAreNoQuestions | app.js:816-826 | the `electionId` and `voterId` fields of the body produce no vote |
| Users.FailingPair | models/users.js:21-27 | a column's two rules report their messages in declaration order |
| Users.FailingEmptyIff | models/users.js:21-51 | a column reports nothing exactly when every one of its rules holds |
| Users.FailingMessages | models/users.js:21-51 | the messages reported are exactly those of the failing rules |
| Users.ColumnErrorsEmptyIff | models/users.js:18-52 | a column is clean exactly when it is non-null and passes its rules |
| Users.ErrorsEmptyIff | models/users.js:16-58 | a record has no errors exactly when every column rule holds |
| Users.ErrorsAreFailures | models/users.js:16-58 | every error reported names a rule that really failed |
| Users.Create | models/users.js:16-58 | a record is admitted iff it passes every rule, stored with the given values; a refusal carries a message of a failing rule |
| Users.LastNameUnconstrained | models/users.js:29 | any last name, or none, leaves admission unchanged and is stored as given |
| Users.NullReportedFirst | models/users.js:20-45 | a missing required column is refused with that column's "is required" message |
| Users.FirstNameMessages | models/users.js:18-28 | an empty first name gives "is required"; a non-alphabetic one gives "should comprise of Alphabets" |
| Users.EmailMessages | models/users.js:30-40 | an empty email gives "is required"; a malformed one gives "should be of the form: a@b.c" |
| Users.PasswordMessages | models/users.js:41-52 | an empty password gives "is required"; one outside 2 to 32 characters gives "length not sufficient" |
| Users.SignupAsWrittenRefusesEveryone | models/users.js:47-49 | with a 60-character bcrypt hash stored in the password column, every signup is refused, with the length message when all else passes |
| Users.Signup | app.js:230-250 | corrected signup: admitted iff the typed values pass every rule; the stored row holds the hash of the typed password |
| Users.SignupAdmitsWellFormedForms | app.js:230-250 | every well-formed form, with a password of 2 to 32 characters, is admitted |
| Elections.OwnedBy | models/elections.js:29-35 | `created(userId)` holds exactly the rows of that owner, with their values |
| Elections.DestroyedExactly | models/elections.js:45-52 | `remove` deletes the row only when both id and owner match; otherwise the table is unchanged; no other row changes |
| Elections.DestroyedKeepsOtherOwners | models/elections.js:29-52 | a remove leaves every other owner's list exactly as it was |
| Elections.DestroyedShrinksOwnList | models/elections.js:29-52 | a remove takes at most that one id out of the owner's own list |
| Elections.InsertedJoinsOwnerOnly | models/elections.js:21-35 | a new row appears in its owner's list and in no one else's |
| Elections.OwnersListsDisjoint | models/elections.js:29-35 | two owners' lists share no election |
| Elections.ElectionTable.constructor | models/elections.js:54-60 | the table starts empty |
| Elections.ElectionTable.CreateElection | models/elections.js:21-28 | a fresh id gets the given name and owner in the draft state (`start` and `end` false); nothing else changes |
| Elections.ElectionTable.FindByPk | app.js:269 | the row with that id, or null exactly when there is none |
| Elections.ElectionTable.UpdateName | models/elections.js:36-38 | only that row's name changes |
| Elections.ElectionTable.UpdateStart | models/elections.js:39-41 | only that row's `start` changes |
| Elections.ElectionTable.UpdateEnd | models/elections.js:42-44 | only that row's `end` changes, to the value given, with no guard on `start`; `start` keeps its value, so a draft can end without ever starting |
| Elections.ElectionTable.Remove | models/elections.js:45-52 | the table becomes the owner-scoped deletion; the count is 1 on a match and 0 otherwise |
| Ledger.VotedStaysVoted | app.js:773 | once a voter has voted in an election, further votes never undo it |
| Ledger.OthersVotesChangeNothing | app.js:805 | votes that are not this voter's in this election leave `haveAlreadyVoted` as it was |
| Ledger.RemoveChild | app.js:514 | a row stays exactly when it is not the named row sitting under the route's parent; every row that stays keeps its value |
| Ledger.ChildrenOf | app.js:514 | the children of a parent are exactly the rows under it, with their values |
| Ledger.RemoveUnderWrongParentKeepsAll | app.js:514 | a remove naming a row of another parent, or no row, leaves the table as it was |
| Ledger.RemoveChildScopedToParent | app.js:514 | a remove takes at most the named row out of its parent's children and leaves every other parent's children exactly as they were |
| Ballot.Lookup | app.js:822-825 | `request.body[name]` is undefined exactly when no field has that key, and otherwise the value of such a field |
| Ballot.LookupOfDistinctKeys | app.js:822-825 | on an object body, whose keys are distinct, `request.body[key]` is the value of the one field with that key |
| Ballot.QuestionFieldsSnoc | app.js:815-828 | one more field adds itself to the question fields iff its key is a question key |
| Ballot.CollectedMatchesQuestionFields | app.js:815-828 | the cast loop writes one vote per question field, in body order, with that field's question and option |
| Ballot.CollectedSound | app.js:815-828 | every vote written comes from some question field of the body |
| Ballot.CollectedComplete | app.js:815-828 | every question field of the body gets its vote |
| Ballot.CollectedAttribution | app.js:821-826 | every vote carries the body's own `electionId` and `voterId`, not the route's or the session's |
| Ballot.HonestBallotMarksVoter | app.js:805-826 | a body naming the voter's own ids, with at least one question, marks the voter as having voted |
| Ballot.ForgedVoterIdLeavesVoterUnmarked | app.js:805-826 | a body without a voterId, or with one no integer column reads as the logged-in voter's id, never marks that voter, so that voter may cast again |
| Ballot.AppendKeepsOneVotePerSlot | app.js:821 | appending a vote for a free slot keeps one vote per (election, question, voter) |
| Ballot.FirstCastKeepsOneVotePerSlot | app.js:805-828 | a first honest cast with distinct questions keeps one vote per slot |
| Ballot.CollectedSnoc | app.js:815-828 | visiting one more field adds at most its vote at the end |
| Ballot.CollectedStep | app.js:815-828 | one turn of the loop over the body adds at most the vote of the field it visits |
| Ballot.IdFieldsFirstMakeHonest | app.js:822-826 | a body that opens with the voter's own ids is honest |
| Ballot.CollectedOfTwoQuestions | app.js:815-828 | two id fields followed by two question fields yield exactly two votes, in order |
| Ballot.TwoKeysOneQuestionBreaksUniqueness | app.js:815-828 | the keys `question-<q>` and `x-question-<q>` in one honest body give two votes for the same slot |
| Auth.FindLeast | app.js:61-65 | `findOne` finds the least id that matches, or none exactly when no id matches |
| Auth.AdminLogin | app.js:53-80 | no user with the email gives "Invalid Email"; otherwise the least such user logs in iff the password compares, and "Invalid Password" otherwise |
| Auth.VoterLogin | app.js:82-111 | the same, looking up the pair (voterId, route election), with "Invalid Voter Id" |
| Auth.VoterLoginScopedToElection | app.js:91-104 | a voter id registered only under other elections is refused with "Invalid Voter Id" |
| Auth.UniqueEmailLogin | app.js:61-73 | when an email belongs to one user, that user logs in exactly when the password compares |
| Auth.Serialize | app.js:114-126 | the session record keeps the id, with role "Users" for administrators and "Voters" for voters |
| Auth.Deserialize | app.js:129-139 | a record resolves through the table its role names, to a row with that id; an unknown role gets no reply |
| Auth.SessionRoundTrip | app.js:114-139 | deserialising a serialised principal gives it back while its row exists, and an anonymous session once it is gone |
| Auth.AdminGate | app.js:180 | administrator routes let through exactly administrators; anonymous requests are told apart |
| Auth.VoterGate | app.js:769 | voter routes let through exactly voters |
| Auth.RolesAreIsolated | app.js:180 | no principal passes both gates; a logged-in principal passes exactly one |
| App.Refusal | app.js:190-196 | a refused request is redirected to log in when anonymous, and answered 403 otherwise |
| App.PatchedElectionKeepsTheRest | app.js:318-341 | a PUT never changes an election's owner, and a key absent from the body leaves its column alone |
| App.PatchIdempotent | app.js:318-341 | sending the same PUT body twice leaves the row as once |
| App.PatchesKeepParents | app.js:471-492 | a PUT keeps a question's election and an option's question; absent keys leave their columns alone |
| App.Store.constructor | app.js:1-50 | every table starts empty |
| App.Store.PostSession | app.js:53-78 | an empty email or password is refused with "Missing credentials" before the strategy runs; a login that succeeds stores the serialised administrator and redirects to the dashboard; one that fails redirects to the login page with the strategy's message |
| App.Store.AdminSessionResolves | app.js:53-139 | the session left by a successful administrator login resolves to a user with the typed email, whose password compared; an unknown email with both fields filled in gives "Invalid Email" |
| App.Store.PostVoterSession | app.js:83-111 | an empty voterId or password is refused with "Missing credentials"; otherwise a voter login scoped to the route's election redirects to its vote page, or back to its public page with the strategy's message |
| App.Store.VoterSessionResolves | app.js:82-139 | the session left by a voter login resolves to a voter of that election with that voter id |
| App.Store.PostUsers | app.js:230-250 | an admitted signup adds exactly one user under a fresh id, logs them in and redirects to the dashboard; a refusal changes nothing and flashes the first message |
| App.Store.GetDashboard | app.js:177-198 | the dashboard lists exactly the administrator's own elections; others get the gate's refusal |
| App.Store.GetElection | app.js:263-283 | any administrator gets the row by id alone, or null exactly when it is missing |
| App.Store.ReadIgnoresOwnership | app.js:269 | the reply does not depend on which administrator asks |
| App.Store.PostElection | app.js:286-308 | an administrator adds exactly one draft election they own under a fresh id; a refused request changes nothing |
| App.Store.PutElection | app.js:311-354 | name, then start, then end are set from the keys present; no key gives 422 "Missing name, start and/or end property" and no change; a missing row gives 422 and no change; a refused request changes nothing |
| App.Store.ApplyElectionPatch | app.js:316-341 | past the gate: the row becomes the patched row and is sent back; no key gives 422 and no change; a key present on a missing row gives 422 with the caught error and no change |
| App.Store.DeleteElection | app.js:357-377 | the table becomes the owner-scoped deletion and the reply is success either way; a refused request changes nothing |
| App.Store.GetBallot | app.js:380-411 | the ballot page renders exactly for administrators |
| App.Store.GetPreview | app.js:708-736 | the preview page renders exactly for administrators, with the dashboard's refusal message |
| App.Store.GetQuestion | app.js:414-434 | any administrator gets the question by id alone, or null exactly when it is missing |
| App.Store.PostQuestion | app.js:437-461 | one question is added under the route's election under a fresh id; then the ballot page |
| App.Store.PutQuestion | app.js:464-505 | title, then description, from the keys present; no key gives 422 "Missing title and description property" and no change |
| App.Store.DeleteQuestion | app.js:508-528 | only a question of the route's election is removed; the reply is success |
| App.Store.GetChoice | app.js:531-551 | any administrator gets the option by id alone, or null exactly when it is missing |
| App.Store.PostChoice | app.js:554-574 | one option is added under the route's question under a fresh id |
| App.Store.PutChoice | app.js:577-609 | the title when present; otherwise 422 "Missing title property" and no change |
| App.Store.DeleteChoice | app.js:612-632 | only an option of the route's question is removed |
| App.Store.GetVoter | app.js:635-655 | any administrator gets the voter by id alone, or null exactly when it is missing |
| App.Store.PostVoter | app.js:658-682 | one voter is registered under the route's election under a fresh id, holding the stored hash of the password |
| App.Store.DeleteVoter | app.js:685-705 | only a voter of the route's election is removed |
| App.Store.GetPublic | app.js:747-765 | the public ballot renders iff the election has started; otherwise 403 "Election is yet to start, ..." |
| App.Store.GetVote | app.js:768-798 | a voter who has not voted gets the ballot form; one who has gets the results once ended and the acknowledgement before; others are redirected to the public page or refused, whether or not the election exists |
| App.Store.CreateVote | app.js:821-826 | one vote holding exactly the four values handed is appended |
| App.Store.PostCast | app.js:801-845 | on an object body, whose keys are distinct: a voter who has voted changes nothing and is told so; otherwise the ledger gains exactly the body's question votes, in order; only the votes change; non-voters change nothing |
| App.Store.RecordBallot | app.js:815-828 | on an object body, the cast loop appends exactly the body's question votes, in body order |

## Left out

- Express wiring, body parsing, static files, cookies, CSRF tokens, the
  session store and EJS rendering (app.js:1-50, 145-175). A rendered page is a
  `Render(view, message)` value; the dashboard is a `Listing` of its elections.
  A 403 is `Forbidden403(message)` whether the source sends it as JSON or as
  the error page.
- The flash store: a flash message is returned by the login and signup
  handlers, then dropped.
- `GET /`, `/signup`, `/login` and `/signout`: they render a page or end the
  session, with no decision to model.
- bcrypt and the validator.js predicates are parameters, not definitions.
- Eager loading of associated rows (`include`). The ballot, preview, public and
  vote pages render without the rows they would show.
- The `async` callback of the cast loop. The model writes the votes one by one
  in body order, before the reply. The source does not await them and may
  interleave them.
- Array values in the body. The urlencoded parser gathers a repeated key, such
  as `question-3` sent twice, into one key holding an array, so the source makes
  one `createVote` for it. The model's body is a list of fields with distinct
  keys and string values (`Ballot.DistinctKeys`, required by
  `App.Store.PostCast` and `App.Store.RecordBallot`). The `Ballot` lemmas hold
  of any list of fields.
- The JavaScript rule that puts integer-like keys first in `Object.keys`. It
  never applies to `question-` keys, which are not integer-like.
- Crashes on a missing election in `GET /public/:id` and `GET /public/:id/vote`
  (reading `start`/`end` of null). `GetPublic` requires the election to exist.
  `GetVote` requires it only for a voter who has voted, the one branch that
  reads the row.
- The second response at app.js:778-783. When a voter who has voted opens the
  vote page of an ended election, the redirect is sent and the later render
  fails. The model keeps the redirect.
- The catch branch of the cast handler, which redirects to
  `/public/undefined`. The model has no failing write.
- Database failures in general: every `create*`, `update*` and `remove`
  succeeds. The only caught error the model keeps is a PUT on a missing row,
  which answers 422 with `{}`.
- Foreign keys and cascades. Creating a question, option or voter never checks
  that its parent exists. No delete cascades.
- Sequelize's type coercion of body strings to booleans and integers. A vote
  keeps the texts it was handed, and `haveAlreadyVoted` compares them with the
  decimal text of the ids, so `"03"` does not match voter 3 in the model.
- passport-local's fallback to the query string for a login field missing
  from the body is not modelled. A field missing from the body arrives as the
  empty string, which both login handlers refuse with "Missing credentials".
- The commented-out results route (app.js:847-853).
- The seeder and the HTTP smoke test.
- A signup form without a password makes `bcrypt.hash` throw before the try
  block. The model's form always has one.
- `POST /elections` with no `name` in the body. The model's name is always a
  string.
- Auth.Deserialize: an error from `findByPk` is not modelled.
- App.Store.GetBallot, App.Store.GetPreview, App.Store.GetPublic,
  App.Store.GetVote: these do not model the page data. Their contracts state
  only which page renders.
- App.Store.PostUsers: uses the corrected validation (see Findings), not the
  one as written.

## Findings

| source | as written | input that shows it | evidently intended | confidence | as-written member | corrected member |
|---|---|---|---|---|---|---|
| models/users.js:47-49 | The password column's length rule `len: [2, 32]` is applied to the value stored, and `POST /users` (app.js:231, 237) stores the bcrypt hash, which is 60 characters long | Any signup, e.g. first name "Ada", email "ada@example.com", password "secret": the stored value has 60 characters and fails the length rule | The 2-32 bound constrains the password the administrator typed, and the row stores its hash | not executed | Users.SignupAsWrittenRefusesEveryone | Users.Signup |
