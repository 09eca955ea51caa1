/**
 * The request handlers of app.js over an in-memory store. A handler receives
 * the principal passport resolved for the request (`request.user`), the
 * decoded route parameters and the body fields it reads, and returns what it
 * sends back as a `Response`. Each of them first applies its role gate: an
 * administrator route refuses a voter, a voter route refuses an administrator,
 * and neither changes the store when it refuses.
 */
module App {
  import opened Wrappers
  import opened Text
  import opened BallotKeys
  import opened Users
  import opened Elections
  import opened Ledger
  import opened Ballot
  import opened Auth

  /** What `response.json(...)` sends. */
  datatype Payload =
    | ElectionJson(election: Election)
    | QuestionJson(question: Question)
    | ChoiceJson(choice: Choice)
    | VoterJson(voter: VoterRecord)
    | NullJson
    | SuccessJson

  datatype Response =
    | Forbidden403(message: string)
    | Json(payload: Payload)
    | Unprocessable422(message: string)
    | Redirect(path: string)
    | Render(view: string, message: string)
    | Listing(view: string, elections: map<nat, Election>)

  /** The body of a 422 that reports a caught exception: a `TypeError` serialises to `{}`. */
  const CaughtError: string := "{}"
  const MissingElectionFields: string := "Missing name, start and/or end property"
  const MissingQuestionFields: string := "Missing title and description property"
  const MissingChoiceFields: string := "Missing title property"
  const NotStarted: string := "Election is yet to start, can't cast votes before the election begins"
  const AlreadyVoted: string := "You have already voted in this election!"
  const VoteRecorded: string := "Thank you for voting! Your vote has been recorded!"

  function AdminsOnly(what: string): string {
    "Only authenticated administrators are authorized to " + what
  }

  function VotersOnly(what: string): string {
    "Only authenticated voters are authorized to " + what
  }

  function PublicPath(id: nat): string {
    "/public/" + DecimalText(id)
  }

  function BallotPath(electionId: nat): string {
    "/elections/" + DecimalText(electionId) + "/ballot"
  }

  /**
   * The reply of a gate that does not let the request through:
   * `ensureLoggedIn` redirects an anonymous request, the role test answers 403.
   */
  function Refusal(g: Gate, loginPath: string, message: string): (r: Response)
    requires !g.Proceed?
    ensures r.Redirect? <==> g == NotLoggedIn
    ensures r == Redirect(loginPath) || r == Forbidden403(message)
  {
    if g == NotLoggedIn then Redirect(loginPath) else Forbidden403(message)
  }

  /** What a form post to a login endpoint sends back, and what it leaves in the session and the flash. */
  datatype LoginReply = LoginReply(response: Response, session: Option<SessionRecord>, flash: Option<string>)

  /** The keys of an election PUT body that are present, with their values. */
  datatype ElectionPatch = ElectionPatch(name: Option<string>, start: Option<bool>, end: Option<bool>)

  datatype QuestionPatch = QuestionPatch(title: Option<string>, description: Option<string>)

  /** An election after name, then start, then end were set from the keys present. */
  function PatchedElection(e: Election, p: ElectionPatch): Election {
    var named := if p.name.Some? then e.(name := p.name.value) else e;
    var started := if p.start.Some? then named.(start := p.start.value) else named;
    if p.end.Some? then started.(end := p.end.value) else started
  }

  function PatchedQuestion(q: Question, p: QuestionPatch): Question {
    var titled := if p.title.Some? then q.(title := p.title.value) else q;
    if p.description.Some? then titled.(description := p.description.value) else titled
  }

  function PatchedChoice(c: Choice, title: Option<string>): Choice {
    if title.Some? then c.(title := title.value) else c
  }

  /** A PUT never moves an election to another owner, and a key left out of the body leaves its column alone. */
  lemma PatchedElectionKeepsTheRest(e: Election, p: ElectionPatch)
    ensures PatchedElection(e, p).userId == e.userId
    ensures p.name.None? ==> PatchedElection(e, p).name == e.name
    ensures p.start.None? ==> PatchedElection(e, p).start == e.start
    ensures p.end.None? ==> PatchedElection(e, p).end == e.end
    ensures p == ElectionPatch(None, None, None) ==> PatchedElection(e, p) == e
  {
  }

  /** Sending the same PUT body twice leaves the row as the first one left it. */
  lemma PatchIdempotent(e: Election, p: ElectionPatch, q: Question, qp: QuestionPatch, c: Choice, title: Option<string>)
    ensures PatchedElection(PatchedElection(e, p), p) == PatchedElection(e, p)
    ensures PatchedQuestion(PatchedQuestion(q, qp), qp) == PatchedQuestion(q, qp)
    ensures PatchedChoice(PatchedChoice(c, title), title) == PatchedChoice(c, title)
  {
  }

  /** A question keeps its election, an option its question, whatever the PUT body holds. */
  lemma PatchesKeepParents(q: Question, qp: QuestionPatch, c: Choice, title: Option<string>)
    ensures PatchedQuestion(q, qp).electionId == q.electionId
    ensures PatchedChoice(c, title).questionId == c.questionId
    ensures qp.title.None? ==> PatchedQuestion(q, qp).title == q.title
    ensures qp.description.None? ==> PatchedQuestion(q, qp).description == q.description
  {
  }

  /** Every table of the store, as one value. */
  datatype StoreState = StoreState(
    users: map<nat, User>,
    elections: map<nat, Election>,
    questions: map<nat, Question>,
    choices: map<nat, Choice>,
    voters: map<nat, VoterRecord>,
    votes: seq<Vote>)

  class Store {
    var users: map<nat, User>
    var nextUser: nat
    const elections: ElectionTable
    var questions: map<nat, Question>
    var nextQuestion: nat
    var choices: map<nat, Choice>
    var nextChoice: nat
    var voters: map<nat, VoterRecord>
    var nextVoter: nat
    var votes: seq<Vote>

    /** Every table hands out ids above those it holds. */
    ghost predicate Valid()
      reads this, elections
    {
      elections.Valid() && CountersValid()
    }

    /** The part of `Valid` that the tables held in this object's own fields keep. */
    ghost predicate CountersValid()
      reads this
    {
      && Bounded(users, nextUser)
      && Bounded(questions, nextQuestion)
      && Bounded(choices, nextChoice)
      && Bounded(voters, nextVoter)
    }

    ghost function State(): StoreState
      reads this, elections
    {
      StoreState(users, elections.rows, questions, choices, voters, votes)
    }

    constructor ()
      ensures Valid() && fresh(elections)
      ensures State() == StoreState(map[], map[], map[], map[], map[], [])
    {
      users, nextUser := map[], 1;
      elections := new ElectionTable();
      questions, nextQuestion := map[], 1;
      choices, nextChoice := map[], 1;
      voters, nextVoter := map[], 1;
      votes := [];
    }

    /** `POST /session`: the administrator strategy, then a redirect to the dashboard or back to the login page. */
    function PostSession(email: string, password: string, compare: (string, string) -> bool): (r: LoginReply)
      reads this
      requires Bounded(users, nextUser)
      ensures r.session.Some? <==>
                !CredentialsMissing(email, password) && AdminLogin(users, nextUser, email, password, compare).Authenticated?
      ensures r.session.Some? ==>
                && r.session.value == Serialize(AdminLogin(users, nextUser, email, password, compare).principal)
                && r.response == Redirect("/dashboard") && r.flash.None?
      ensures CredentialsMissing(email, password) ==> r == LoginReply(Redirect("/login"), None, Some(MissingCredentials))
      ensures !CredentialsMissing(email, password) && r.session.None? ==>
                && r.response == Redirect("/login")
                && r.flash == Some(AdminLogin(users, nextUser, email, password, compare).message)
    {
      if CredentialsMissing(email, password) then LoginReply(Redirect("/login"), None, Some(MissingCredentials))
      else match AdminLogin(users, nextUser, email, password, compare)
        case Authenticated(p) => LoginReply(Redirect("/dashboard"), Some(Serialize(p)), None)
        case Rejected(m) => LoginReply(Redirect("/login"), None, Some(m))
    }

    /**
     * A successful administrator login leaves a session that resolves back to
     * the user whose email was typed; a failed one leaves none.
     */
    lemma AdminSessionResolves(email: string, password: string, compare: (string, string) -> bool)
      requires Bounded(users, nextUser)
      ensures PostSession(email, password, compare).session.Some? ==>
                exists id :: && Deserialize(PostSession(email, password, compare).session.value, users, voters) == Resolved(Admin(id))
                             && id in users && users[id].email == email && compare(password, users[id].password)
      ensures !CredentialsMissing(email, password) && (forall k :: k in users ==> users[k].email != email) ==>
                PostSession(email, password, compare) == LoginReply(Redirect("/login"), None, Some(InvalidEmail))
    {
    }

    /** `POST /session/:eid/voter`: the voter strategy scoped to the route's election. */
    function PostVoterSession(electionId: nat, voterId: string, password: string, compare: (string, string) -> bool): (r: LoginReply)
      reads this
      requires Bounded(voters, nextVoter)
      ensures r.session.Some? <==>
                !CredentialsMissing(voterId, password) && VoterLogin(voters, nextVoter, voterId, electionId, password, compare).Authenticated?
      ensures r.session.Some? ==>
                && r.session.value == Serialize(VoterLogin(voters, nextVoter, voterId, electionId, password, compare).principal)
                && r.response == Redirect(PublicPath(electionId) + "/vote") && r.flash.None?
      ensures CredentialsMissing(voterId, password) ==>
                r == LoginReply(Redirect(PublicPath(electionId)), None, Some(MissingCredentials))
      ensures !CredentialsMissing(voterId, password) && r.session.None? ==>
                && r.response == Redirect(PublicPath(electionId))
                && r.flash == Some(VoterLogin(voters, nextVoter, voterId, electionId, password, compare).message)
    {
      if CredentialsMissing(voterId, password) then LoginReply(Redirect(PublicPath(electionId)), None, Some(MissingCredentials))
      else match VoterLogin(voters, nextVoter, voterId, electionId, password, compare)
        case Authenticated(p) => LoginReply(Redirect(PublicPath(electionId) + "/vote"), Some(Serialize(p)), None)
        case Rejected(m) => LoginReply(Redirect(PublicPath(electionId)), None, Some(m))
    }

    /** A voter session resolves to a voter row registered under the election of the login route. */
    lemma VoterSessionResolves(electionId: nat, voterId: string, password: string, compare: (string, string) -> bool)
      requires Bounded(voters, nextVoter)
      ensures PostVoterSession(electionId, voterId, password, compare).session.Some? ==>
                exists id :: && Deserialize(PostVoterSession(electionId, voterId, password, compare).session.value, users, voters) == Resolved(Voter(id))
                             && id in voters && voters[id].electionId == electionId && voters[id].voterId == voterId
    {
    }

    /**
     * `POST /users`: hash the password, create the administrator, log them in.
     * The record is validated on the typed password (see `Users.Signup`); a
     * refusal flashes the first failing message and goes back to the form.
     */
    method PostUsers(form: SignupForm, checks: Checks, hash: string -> string)
        returns (r: Response, session: Option<SessionRecord>, flash: Option<string>)
      requires Valid()
      modifies this
      ensures Valid()
      ensures Users.Signup(form, checks, hash).Admitted? ==>
                && State() == old(State()).(users := old(users)[old(nextUser) := Users.Signup(form, checks, hash).user])
                && old(nextUser) !in old(users)
                && r == Redirect("/dashboard") && session == Some(Serialize(Admin(old(nextUser)))) && flash.None?
      ensures Users.Signup(form, checks, hash).Refused? ==>
                && State() == old(State())
                && r == Redirect("/signup") && session.None?
                && flash == Some(Users.Signup(form, checks, hash).message)
    {
      match Users.Signup(form, checks, hash)
      case Admitted(u) =>
        var id := nextUser;
        users := users[id := u];
        nextUser := nextUser + 1;
        r, session, flash := Redirect("/dashboard"), Some(Serialize(Admin(id))), None;
      case Refused(m) =>
        r, session, flash := Redirect("/signup"), None, Some(m);
    }

    /** `GET /dashboard`: the elections the administrator created, and only those. */
    function GetDashboard(user: Option<Principal>): (r: Response)
      reads elections
      ensures !AdminGate(user).Proceed? ==> r == Refusal(AdminGate(user), "/login", AdminsOnly("view dashboard"))
      ensures AdminGate(user).Proceed? ==>
                && r.Listing? && r.view == "dashboard"
                && forall id :: id in r.elections <==> id in elections.rows && elections.rows[id].userId == user.value.id
      ensures AdminGate(user).Proceed? ==> forall id :: id in r.elections ==> r.elections[id] == elections.rows[id]
    {
      match AdminGate(user)
      case Proceed(a) => Listing("dashboard", elections.Created(a))
      case _ => Refusal(AdminGate(user), "/login", AdminsOnly("view dashboard"))
    }

    /** `GET /elections/:id`: the row by id alone; it is not checked against the administrator. */
    function GetElection(user: Option<Principal>, id: nat): (r: Response)
      reads elections
      ensures !AdminGate(user).Proceed? ==> r == Refusal(AdminGate(user), "/login", AdminsOnly("access elections resource"))
      ensures AdminGate(user).Proceed? ==> (r == Json(NullJson) <==> id !in elections.rows)
      ensures AdminGate(user).Proceed? && id in elections.rows ==> r == Json(ElectionJson(elections.rows[id]))
    {
      if !AdminGate(user).Proceed? then Refusal(AdminGate(user), "/login", AdminsOnly("access elections resource"))
      else
        match elections.FindByPk(id)
        case Some(e) => Json(ElectionJson(e))
        case None => Json(NullJson)
    }

    /** Any administrator reads any election: the reply does not depend on who asks, nor on who owns the row. */
    lemma ReadIgnoresOwnership(a: nat, b: nat, id: nat)
      ensures GetElection(Some(Admin(a)), id) == GetElection(Some(Admin(b)), id)
      ensures id in elections.rows ==> GetElection(Some(Admin(a)), id).Json?
    {
    }

    /** `POST /elections`: a draft owned by the administrator, then back to the dashboard. */
    method PostElection(user: Option<Principal>, name: string) returns (r: Response)
      requires Valid()
      modifies elections
      ensures Valid()
      ensures !AdminGate(user).Proceed? ==>
                && State() == old(State())
                && r == Refusal(AdminGate(user), "/login", AdminsOnly("create elections resource"))
      ensures AdminGate(user).Proceed? ==>
                && old(elections.nextId) !in old(elections.rows)
                && State() == old(State()).(elections := old(elections.rows)[old(elections.nextId) := Election(name, false, false, user.value.id)])
                && r == Redirect("/dashboard")
    {
      match AdminGate(user)
      case Proceed(a) =>
        var _ := elections.CreateElection(name, a);
        r := Redirect("/dashboard");
      case _ =>
        r := Refusal(AdminGate(user), "/login", AdminsOnly("create elections resource"));
    }

    /**
     * `PUT /elections/:id`: the role gate, then the update steps. The row is
     * found by id alone, so any administrator updates any election.
     */
    method PutElection(user: Option<Principal>, id: nat, patch: ElectionPatch) returns (r: Response)
      requires Valid()
      modifies elections
      ensures Valid()
      ensures !AdminGate(user).Proceed? ==>
                && State() == old(State())
                && r == Refusal(AdminGate(user), "/login", AdminsOnly("update elections resource"))
      ensures AdminGate(user).Proceed? && patch == ElectionPatch(None, None, None) ==>
                State() == old(State()) && r == Unprocessable422(MissingElectionFields)
      ensures AdminGate(user).Proceed? && patch != ElectionPatch(None, None, None) && id !in old(elections.rows) ==>
                State() == old(State()) && r == Unprocessable422(CaughtError)
      ensures AdminGate(user).Proceed? && patch != ElectionPatch(None, None, None) && id in old(elections.rows) ==>
                && State() == old(State()).(elections := old(elections.rows)[id := PatchedElection(old(elections.rows)[id], patch)])
                && r == Json(ElectionJson(PatchedElection(old(elections.rows)[id], patch)))
    {
      if !AdminGate(user).Proceed? {
        r := Refusal(AdminGate(user), "/login", AdminsOnly("update elections resource"));
        return;
      }
      r := ApplyElectionPatch(id, patch);
    }

    /**
     * The body of the `PUT /elections/:id` handler past its gate: set name,
     * then start, then end, for each key of the body; 422 when the body has
     * none of them, and 422 with the caught error when a key is present but
     * the row is missing.
     */
    method ApplyElectionPatch(id: nat, patch: ElectionPatch) returns (r: Response)
      requires elections.Valid()
      modifies elections
      ensures elections.Valid()
      ensures patch == ElectionPatch(None, None, None) ==>
                elections.rows == old(elections.rows) && r == Unprocessable422(MissingElectionFields)
      ensures patch != ElectionPatch(None, None, None) && id !in old(elections.rows) ==>
                elections.rows == old(elections.rows) && r == Unprocessable422(CaughtError)
      ensures patch != ElectionPatch(None, None, None) && id in old(elections.rows) ==>
                && elections.rows == old(elections.rows)[id := PatchedElection(old(elections.rows)[id], patch)]
                && r == Json(ElectionJson(PatchedElection(old(elections.rows)[id], patch)))
    {
      var election := elections.FindByPk(id);
      if election.None? {
        // The first key present calls an update on null, which throws into the catch.
        r := if patch == ElectionPatch(None, None, None) then Unprocessable422(MissingElectionFields)
             else Unprocessable422(CaughtError);
        return;
      }
      ghost var before := elections.rows;
      assert before == before[id := PatchedElection(before[id], ElectionPatch(None, None, None))];
      var updated := false;
      if patch.name.Some? {
        elections.UpdateName(id, patch.name.value);
        updated := true;
      }
      assert elections.rows == before[id := PatchedElection(before[id], ElectionPatch(patch.name, None, None))];
      if patch.start.Some? {
        elections.UpdateStart(id, patch.start.value);
        updated := true;
      }
      assert elections.rows == before[id := PatchedElection(before[id], ElectionPatch(patch.name, patch.start, None))];
      if patch.end.Some? {
        elections.UpdateEnd(id, patch.end.value);
        updated := true;
      }
      assert elections.rows == before[id := PatchedElection(before[id], patch)];
      assert updated <==> patch != ElectionPatch(None, None, None);
      if !updated {
        r := Unprocessable422(MissingElectionFields);
        return;
      }
      r := Json(ElectionJson(elections.rows[id]));
    }

    /**
     * `DELETE /elections/:id`: scoped to the administrator; the reply is
     * success whether or not a row went.
     */
    method DeleteElection(user: Option<Principal>, id: nat) returns (r: Response)
      requires Valid()
      modifies elections
      ensures Valid()
      ensures !AdminGate(user).Proceed? ==>
                && State() == old(State())
                && r == Refusal(AdminGate(user), "/login", AdminsOnly("delete elections resource"))
      ensures AdminGate(user).Proceed? ==>
                && State() == old(State()).(elections := Destroyed(old(elections.rows), id, user.value.id))
                && r == Json(SuccessJson)
    {
      match AdminGate(user)
      case Proceed(a) =>
        var _ := elections.Remove(id, a);
        r := Json(SuccessJson);
      case _ =>
        r := Refusal(AdminGate(user), "/login", AdminsOnly("delete elections resource"));
    }

    /** `GET /elections/:id/ballot` */
    function GetBallot(user: Option<Principal>, id: nat): (r: Response)
      ensures !AdminGate(user).Proceed? ==> r == Refusal(AdminGate(user), "/login", AdminsOnly("create elections resource"))
      ensures AdminGate(user).Proceed? <==> r == Render("ballot", "")
    {
      if AdminGate(user).Proceed? then Render("ballot", "")
      else Refusal(AdminGate(user), "/login", AdminsOnly("create elections resource"))
    }

    /** `GET /elections/:id/preview`, whose refusal reuses the dashboard's message. */
    function GetPreview(user: Option<Principal>, id: nat): (r: Response)
      ensures !AdminGate(user).Proceed? ==> r == Refusal(AdminGate(user), "/login", AdminsOnly("view dashboard"))
      ensures AdminGate(user).Proceed? <==> r == Render("preview", "")
    {
      if AdminGate(user).Proceed? then Render("preview", "")
      else Refusal(AdminGate(user), "/login", AdminsOnly("view dashboard"))
    }

    /** `GET /elections/:eid/questions/:id`: by id alone. */
    function GetQuestion(user: Option<Principal>, electionId: nat, id: nat): (r: Response)
      reads this
      ensures !AdminGate(user).Proceed? ==> r == Refusal(AdminGate(user), "/login", AdminsOnly("access questions resource"))
      ensures AdminGate(user).Proceed? ==> (r == Json(NullJson) <==> id !in questions)
      ensures AdminGate(user).Proceed? && id in questions ==> r == Json(QuestionJson(questions[id]))
    {
      if !AdminGate(user).Proceed? then Refusal(AdminGate(user), "/login", AdminsOnly("access questions resource"))
      else if id in questions then Json(QuestionJson(questions[id]))
      else Json(NullJson)
    }

    /** `POST /elections/:eid/questions`: a question under the route's election, then back to the ballot page. */
    method PostQuestion(user: Option<Principal>, electionId: nat, title: string, description: string) returns (r: Response)
      requires Valid()
      modifies this`questions, this`nextQuestion
      ensures Valid()
      ensures !AdminGate(user).Proceed? ==>
                && State() == old(State())
                && r == Refusal(AdminGate(user), "/login", AdminsOnly("create questions resource"))
      ensures AdminGate(user).Proceed? ==>
                && old(nextQuestion) !in old(questions)
                && State() == old(State()).(questions := old(questions)[old(nextQuestion) := Question(title, description, electionId)])
                && r == Redirect(BallotPath(electionId))
    {
      if AdminGate(user).Proceed? {
        questions := questions[nextQuestion := Question(title, description, electionId)];
        nextQuestion := nextQuestion + 1;
        r := Redirect(BallotPath(electionId));
      } else {
        r := Refusal(AdminGate(user), "/login", AdminsOnly("create questions resource"));
      }
    }

    /** `PUT /elections/:eid/questions/:id`: title, then description, for each key present. */
    method PutQuestion(user: Option<Principal>, electionId: nat, id: nat, patch: QuestionPatch) returns (r: Response)
      requires Valid()
      modifies this`questions
      ensures Valid()
      ensures !AdminGate(user).Proceed? ==>
                && State() == old(State())
                && r == Refusal(AdminGate(user), "/login", AdminsOnly("update questions resource"))
      ensures AdminGate(user).Proceed? && patch == QuestionPatch(None, None) ==>
                State() == old(State()) && r == Unprocessable422(MissingQuestionFields)
      ensures AdminGate(user).Proceed? && patch != QuestionPatch(None, None) && id !in old(questions) ==>
                State() == old(State()) && r == Unprocessable422(CaughtError)
      ensures AdminGate(user).Proceed? && patch != QuestionPatch(None, None) && id in old(questions) ==>
                && State() == old(State()).(questions := old(questions)[id := PatchedQuestion(old(questions)[id], patch)])
                && r == Json(QuestionJson(PatchedQuestion(old(questions)[id], patch)))
    {
      if !AdminGate(user).Proceed? {
        r := Refusal(AdminGate(user), "/login", AdminsOnly("update questions resource"));
        return;
      }
      var found := id in questions;
      var updated := false;
      if patch.title.Some? {
        if !found {
          r := Unprocessable422(CaughtError);
          return;
        }
        questions := questions[id := questions[id].(title := patch.title.value)];
        updated := true;
      }
      if patch.description.Some? {
        if !found {
          r := Unprocessable422(CaughtError);
          return;
        }
        questions := questions[id := questions[id].(description := patch.description.value)];
        updated := true;
      }
      if updated {
        r := Json(QuestionJson(questions[id]));
        return;
      }
      r := Unprocessable422(MissingQuestionFields);
    }

    /** `DELETE /elections/:eid/questions/:id`: only a question of the route's election goes. */
    method DeleteQuestion(user: Option<Principal>, electionId: nat, id: nat) returns (r: Response)
      requires Valid()
      modifies this`questions
      ensures Valid()
      ensures !AdminGate(user).Proceed? ==>
                && State() == old(State())
                && r == Refusal(AdminGate(user), "/login", AdminsOnly("delete questions resource"))
      ensures AdminGate(user).Proceed? ==>
                && State() == old(State()).(questions := RemoveChild(old(questions), id, QuestionElection, electionId))
                && r == Json(SuccessJson)
    {
      if AdminGate(user).Proceed? {
        questions := RemoveChild(questions, id, QuestionElection, electionId);
        r := Json(SuccessJson);
      } else {
        r := Refusal(AdminGate(user), "/login", AdminsOnly("delete questions resource"));
      }
    }

    /** `GET /elections/:eid/questions/:qid/options/:id`: by id alone. */
    function GetChoice(user: Option<Principal>, electionId: nat, questionId: nat, id: nat): (r: Response)
      reads this
      ensures !AdminGate(user).Proceed? ==> r == Refusal(AdminGate(user), "/login", AdminsOnly("access options resource"))
      ensures AdminGate(user).Proceed? ==> (r == Json(NullJson) <==> id !in choices)
      ensures AdminGate(user).Proceed? && id in choices ==> r == Json(ChoiceJson(choices[id]))
    {
      if !AdminGate(user).Proceed? then Refusal(AdminGate(user), "/login", AdminsOnly("access options resource"))
      else if id in choices then Json(ChoiceJson(choices[id]))
      else Json(NullJson)
    }

    /** `POST /elections/:eid/questions/:qid/options`: an option under the route's question. */
    method PostChoice(user: Option<Principal>, electionId: nat, questionId: nat, title: string) returns (r: Response)
      requires Valid()
      modifies this`choices, this`nextChoice
      ensures Valid()
      ensures !AdminGate(user).Proceed? ==>
                && State() == old(State())
                && r == Refusal(AdminGate(user), "/login", AdminsOnly("create options resource"))
      ensures AdminGate(user).Proceed? ==>
                && old(nextChoice) !in old(choices)
                && State() == old(State()).(choices := old(choices)[old(nextChoice) := Choice(title, questionId)])
                && r == Redirect(BallotPath(electionId))
    {
      if AdminGate(user).Proceed? {
        choices := choices[nextChoice := Choice(title, questionId)];
        nextChoice := nextChoice + 1;
        r := Redirect(BallotPath(electionId));
      } else {
        r := Refusal(AdminGate(user), "/login", AdminsOnly("create options resource"));
      }
    }

    /** `PUT /elections/:eid/questions/:qid/options/:id`: the title when the body has it. */
    method PutChoice(user: Option<Principal>, electionId: nat, questionId: nat, id: nat, title: Option<string>) returns (r: Response)
      requires Valid()
      modifies this`choices
      ensures Valid()
      ensures !AdminGate(user).Proceed? ==>
                && State() == old(State())
                && r == Refusal(AdminGate(user), "/login", AdminsOnly("update options resource"))
      ensures AdminGate(user).Proceed? && title.None? ==>
                State() == old(State()) && r == Unprocessable422(MissingChoiceFields)
      ensures AdminGate(user).Proceed? && title.Some? && id !in old(choices) ==>
                State() == old(State()) && r == Unprocessable422(CaughtError)
      ensures AdminGate(user).Proceed? && title.Some? && id in old(choices) ==>
                && State() == old(State()).(choices := old(choices)[id := PatchedChoice(old(choices)[id], title)])
                && r == Json(ChoiceJson(PatchedChoice(old(choices)[id], title)))
    {
      if !AdminGate(user).Proceed? {
        r := Refusal(AdminGate(user), "/login", AdminsOnly("update options resource"));
        return;
      }
      var found := id in choices;
      var updated := false;
      if title.Some? {
        if !found {
          r := Unprocessable422(CaughtError);
          return;
        }
        choices := choices[id := choices[id].(title := title.value)];
        updated := true;
      }
      if updated {
        r := Json(ChoiceJson(choices[id]));
        return;
      }
      r := Unprocessable422(MissingChoiceFields);
    }

    /** `DELETE /elections/:eid/questions/:qid/options/:id`: only an option of the route's question goes. */
    method DeleteChoice(user: Option<Principal>, electionId: nat, questionId: nat, id: nat) returns (r: Response)
      requires Valid()
      modifies this`choices
      ensures Valid()
      ensures !AdminGate(user).Proceed? ==>
                && State() == old(State())
                && r == Refusal(AdminGate(user), "/login", AdminsOnly("delete options resource"))
      ensures AdminGate(user).Proceed? ==>
                && State() == old(State()).(choices := RemoveChild(old(choices), id, ChoiceQuestion, questionId))
                && r == Json(SuccessJson)
    {
      if AdminGate(user).Proceed? {
        choices := RemoveChild(choices, id, ChoiceQuestion, questionId);
        r := Json(SuccessJson);
      } else {
        r := Refusal(AdminGate(user), "/login", AdminsOnly("delete options resource"));
      }
    }

    /** `GET /elections/:eid/voters/:id`: by id alone. */
    function GetVoter(user: Option<Principal>, electionId: nat, id: nat): (r: Response)
      reads this
      ensures !AdminGate(user).Proceed? ==> r == Refusal(AdminGate(user), "/login", AdminsOnly("fetch voters resource"))
      ensures AdminGate(user).Proceed? ==> (r == Json(NullJson) <==> id !in voters)
      ensures AdminGate(user).Proceed? && id in voters ==> r == Json(VoterJson(voters[id]))
    {
      if !AdminGate(user).Proceed? then Refusal(AdminGate(user), "/login", AdminsOnly("fetch voters resource"))
      else if id in voters then Json(VoterJson(voters[id]))
      else Json(NullJson)
    }

    /**
     * `POST /elections/:eid/voters`: a voter registered under the route's
     * election. `hash` is what `Voters.createVoter` stores for the password it is
     * handed; the voter login compares against it with `bcrypt.compare`.
     */
    method PostVoter(user: Option<Principal>, electionId: nat, voterId: string, password: string, hash: string -> string)
        returns (r: Response)
      requires Valid()
      modifies this`voters, this`nextVoter
      ensures Valid()
      ensures !AdminGate(user).Proceed? ==>
                && State() == old(State())
                && r == Refusal(AdminGate(user), "/login", AdminsOnly("create voters resource"))
      ensures AdminGate(user).Proceed? ==>
                && old(nextVoter) !in old(voters)
                && State() == old(State()).(voters := old(voters)[old(nextVoter) := VoterRecord(voterId, hash(password), electionId)])
                && r == Redirect(BallotPath(electionId))
    {
      if AdminGate(user).Proceed? {
        voters := voters[nextVoter := VoterRecord(voterId, hash(password), electionId)];
        nextVoter := nextVoter + 1;
        r := Redirect(BallotPath(electionId));
      } else {
        r := Refusal(AdminGate(user), "/login", AdminsOnly("create voters resource"));
      }
    }

    /** `DELETE /elections/:eid/voters/:id`: only a voter of the route's election goes. */
    method DeleteVoter(user: Option<Principal>, electionId: nat, id: nat) returns (r: Response)
      requires Valid()
      modifies this`voters
      ensures Valid()
      ensures !AdminGate(user).Proceed? ==>
                && State() == old(State())
                && r == Refusal(AdminGate(user), "/login", AdminsOnly("delete voters resource"))
      ensures AdminGate(user).Proceed? ==>
                && State() == old(State()).(voters := RemoveChild(old(voters), id, VoterElection, electionId))
                && r == Json(SuccessJson)
    {
      if AdminGate(user).Proceed? {
        voters := RemoveChild(voters, id, VoterElection, electionId);
        r := Json(SuccessJson);
      } else {
        r := Refusal(AdminGate(user), "/login", AdminsOnly("delete voters resource"));
      }
    }

    /** `GET /public/:id`: the ballot is public exactly while the election has started. */
    function GetPublic(id: nat): (r: Response)
      reads elections
      requires id in elections.rows
      ensures r == Render("public", "") <==> elections.rows[id].start
      ensures !elections.rows[id].start ==> r == Forbidden403(NotStarted)
    {
      if elections.rows[id].start then Render("public", "") else Forbidden403(NotStarted)
    }

    /**
     * `GET /public/:id/vote`: the ballot form for a voter who has not voted;
     * otherwise the results once the election has ended, and the
     * acknowledgement before that.
     */
    function GetVote(user: Option<Principal>, id: nat): (r: Response)
      reads this, elections
      requires VoterGate(user).Proceed? && HaveAlreadyVoted(votes, id, user.value.id) ==> id in elections.rows
      ensures !VoterGate(user).Proceed? ==> r == Refusal(VoterGate(user), PublicPath(id), VotersOnly("fill a vote"))
      ensures VoterGate(user).Proceed? ==>
                (r == Render("vote", "") <==> !HaveAlreadyVoted(votes, id, user.value.id))
      ensures VoterGate(user).Proceed? && HaveAlreadyVoted(votes, id, user.value.id) ==>
                r == if elections.rows[id].end then Redirect(PublicPath(id) + "/result") else Render("acknowledgement", AlreadyVoted)
    {
      match VoterGate(user)
      case Proceed(v) =>
        if HaveAlreadyVoted(votes, id, v) then
          if elections.rows[id].end then Redirect(PublicPath(id) + "/result") else Render("acknowledgement", AlreadyVoted)
        else Render("vote", "")
      case _ => Refusal(VoterGate(user), PublicPath(id), VotersOnly("fill a vote"))
    }

    /** `Votes.createVote(e, q, o, v)`: one vote holding the four values as handed. */
    method CreateVote(electionId: Option<string>, questionId: string, optionId: string, voterId: Option<string>)
      modifies this`votes
      ensures votes == old(votes) + [Vote(electionId, questionId, optionId, voterId)]
    {
      votes := votes + [Vote(electionId, questionId, optionId, voterId)];
    }

    /**
     * `POST /public/:id/cast`: nothing is written for a voter who has voted in
     * this election; otherwise one vote per question key of the body, in body
     * order, attributed to the body's own `electionId` and `voterId` fields.
     */
    method PostCast(user: Option<Principal>, id: nat, body: seq<Field>) returns (r: Response)
      requires DistinctKeys(body)
      modifies this`votes
      ensures State() == old(State()).(votes := votes)
      ensures !VoterGate(user).Proceed? ==>
                && votes == old(votes)
                && r == Refusal(VoterGate(user), PublicPath(id), VotersOnly("cast a vote"))
      ensures VoterGate(user).Proceed? && HaveAlreadyVoted(old(votes), id, user.value.id) ==>
                votes == old(votes) && r == Render("acknowledgement", AlreadyVoted)
      ensures VoterGate(user).Proceed? && !HaveAlreadyVoted(old(votes), id, user.value.id) ==>
                votes == old(votes) + BallotVotes(body) && r == Render("acknowledgement", VoteRecorded)
    {
      if !VoterGate(user).Proceed? {
        r := Refusal(VoterGate(user), PublicPath(id), VotersOnly("cast a vote"));
        return;
      }
      if HaveAlreadyVoted(votes, id, user.value.id) {
        r := Render("acknowledgement", AlreadyVoted);
        return;
      }
      RecordBallot(body);
      r := Render("acknowledgement", VoteRecorded);
    }

    /**
     * The loop of the cast handler: for each body key containing `question-`,
     * one `createVote` with the text after the key's last dash and the key's
     * value, attributed to the body's `electionId` and `voterId`.
     */
    method RecordBallot(body: seq<Field>)
      requires DistinctKeys(body)
      modifies this`votes
      ensures votes == old(votes) + BallotVotes(body)
    {
      var electionId := Lookup(body, "electionId");
      var voterId := Lookup(body, "voterId");
      var i := 0;
      while i < |body|
        invariant 0 <= i <= |body|
        invariant votes == old(votes) + Collected(body[..i], electionId, voterId)
      {
        var key := body[i].key;
        CollectedStep(body, i, electionId, voterId);
        ghost var visited := Collected(body[..i], electionId, voterId);
        if IndexOf(key, QuestionMarker) != -1 {
          CreateVote(electionId, Last(Split(key, '-')), body[i].value, voterId);
          assert votes == old(votes) + (visited + [VoteFor(body[i], electionId, voterId)]);
        }
        i := i + 1;
      }
      assert body[..|body|] == body;
    }
  }
}
