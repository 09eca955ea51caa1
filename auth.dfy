/**
 * Who is making a request: the two login strategies (app.js:53-111), the
 * session record and its resolution (app.js:114-139), and the role gate every
 * handler applies before its body.
 *
 * The principal is an explicit tag, `Admin(id)` for a row of Users and
 * `Voter(id)` for a row of Voters, where the source compares prototypes.
 * `bcrypt.compare(plain, hash)` is the parameter `compare`.
 */
module Auth {
  import opened Wrappers
  import opened Users
  import opened Ledger

  datatype Principal = Admin(id: nat) | Voter(id: nat)

  /**
   * `findOne({ where })` without an order: taken to be the lowest id at or
   * above `from` and below `bound` whose row satisfies `p`.
   */
  function FindLeast<T>(rows: map<nat, T>, p: T -> bool, from: nat, bound: nat): (r: Option<nat>)
    ensures r.Some? ==> from <= r.value < bound && r.value in rows && p(rows[r.value])
    ensures r.Some? ==> forall k :: from <= k < r.value && k in rows ==> !p(rows[k])
    ensures r.None? ==> forall k :: from <= k < bound && k in rows ==> !p(rows[k])
    decreases bound - from
  {
    if from >= bound then None
    else if from in rows && p(rows[from]) then Some(from)
    else FindLeast(rows, p, from + 1, bound)
  }

  datatype LoginResult = Authenticated(principal: Principal) | Rejected(message: string)

  const InvalidEmail: string := "Invalid Email"
  const InvalidPassword: string := "Invalid Password"
  const InvalidVoterId: string := "Invalid Voter Id"

  /**
   * passport-local refuses a login whose username or password field is missing
   * or empty with this message, before the strategy's verify callback runs
   * (a missing field arrives here as the empty string).
   */
  const MissingCredentials: string := "Missing credentials"

  predicate CredentialsMissing(username: string, password: string) {
    username == "" || password == ""
  }

  /** Every id of the table is below `bound` (the next id to hand out). */
  predicate Bounded<T>(rows: map<nat, T>, bound: nat) {
    forall k :: k in rows ==> k < bound
  }

  /** The administrator strategy: look the email up, then compare the password. */
  function AdminLogin(users: map<nat, User>, bound: nat, email: string, password: string,
                      compare: (string, string) -> bool): (r: LoginResult)
    requires Bounded(users, bound)
    ensures r == Rejected(InvalidEmail) <==> forall k :: k in users ==> users[k].email != email
    ensures r.Rejected? ==> r.message == InvalidEmail || r.message == InvalidPassword
    ensures forall id :: r == Authenticated(Admin(id)) <==>
              && id in users && users[id].email == email && compare(password, users[id].password)
              && forall k :: k in users && k < id ==> users[k].email != email
    ensures r.Authenticated? ==> r.principal.Admin?
  {
    match FindLeast(users, (u: User) => u.email == email, 0, bound)
    case None => Rejected(InvalidEmail)
    case Some(id) => if compare(password, users[id].password) then Authenticated(Admin(id)) else Rejected(InvalidPassword)
  }

  /** The voter strategy: look the pair (voterId, election of the route) up, then compare the password. */
  function VoterLogin(voters: map<nat, VoterRecord>, bound: nat, voterId: string, electionId: nat, password: string,
                      compare: (string, string) -> bool): (r: LoginResult)
    requires Bounded(voters, bound)
    ensures r == Rejected(InvalidVoterId) <==>
              forall k :: k in voters ==> !(voters[k].voterId == voterId && voters[k].electionId == electionId)
    ensures r.Rejected? ==> r.message == InvalidVoterId || r.message == InvalidPassword
    ensures forall id :: r == Authenticated(Voter(id)) <==>
              && id in voters && voters[id].voterId == voterId && voters[id].electionId == electionId
              && compare(password, voters[id].password)
              && forall k :: k in voters && k < id ==> !(voters[k].voterId == voterId && voters[k].electionId == electionId)
    ensures r.Authenticated? ==> r.principal.Voter?
  {
    match FindLeast(voters, (v: VoterRecord) => v.voterId == voterId && v.electionId == electionId, 0, bound)
    case None => Rejected(InvalidVoterId)
    case Some(id) => if compare(password, voters[id].password) then Authenticated(Voter(id)) else Rejected(InvalidPassword)
  }

  /** A voter id registered only under other elections does not log in to this one, whatever the password. */
  lemma VoterLoginScopedToElection(voters: map<nat, VoterRecord>, bound: nat, voterId: string, electionId: nat,
                                   password: string, compare: (string, string) -> bool)
    requires Bounded(voters, bound)
    requires forall k :: k in voters && voters[k].voterId == voterId ==> voters[k].electionId != electionId
    ensures VoterLogin(voters, bound, voterId, electionId, password, compare) == Rejected(InvalidVoterId)
  {
  }

  /** An administrator whose email is unique logs in exactly when the password matches. */
  lemma UniqueEmailLogin(users: map<nat, User>, bound: nat, id: nat, password: string, compare: (string, string) -> bool)
    requires Bounded(users, bound) && id in users
    requires forall k :: k in users && users[k].email == users[id].email ==> k == id
    ensures AdminLogin(users, bound, users[id].email, password, compare)
            == if compare(password, users[id].password) then Authenticated(Admin(id)) else Rejected(InvalidPassword)
  {
  }

  /** The session record `{ id, role }`. */
  datatype SessionRecord = SessionRecord(id: nat, role: string)

  const UsersRole: string := "Users"
  const VotersRole: string := "Voters"

  /** `serializeUser`: the role names the table the principal came from. */
  function Serialize(p: Principal): (s: SessionRecord)
    ensures s.id == p.id
    ensures s.role == UsersRole <==> p.Admin?
    ensures s.role == VotersRole <==> p.Voter?
  {
    match p
    case Admin(id) => SessionRecord(id, UsersRole)
    case Voter(id) => SessionRecord(id, VotersRole)
  }

  /**
   * `deserializeUser`: `Resolved` when the table of the role has the id,
   * `Anonymous` when it does not (`done(null, null)` ends the login), and
   * `NoReply` for any other role, for which the source never calls `done`.
   */
  datatype Resolution = Resolved(principal: Principal) | Anonymous | NoReply

  function Deserialize(s: SessionRecord, users: map<nat, User>, voters: map<nat, VoterRecord>): (r: Resolution)
    ensures r.Resolved? ==> r.principal.id == s.id
    ensures r.Resolved? ==> (r.principal.Admin? <==> s.role == UsersRole)
    ensures r.Resolved? && r.principal.Admin? ==> s.id in users
    ensures r.Resolved? && r.principal.Voter? ==> s.id in voters
    ensures r == NoReply <==> s.role != UsersRole && s.role != VotersRole
  {
    if s.role == UsersRole then (if s.id in users then Resolved(Admin(s.id)) else Anonymous)
    else if s.role == VotersRole then (if s.id in voters then Resolved(Voter(s.id)) else Anonymous)
    else NoReply
  }

  /** The principal's row still exists in its own table. */
  predicate Registered(p: Principal, users: map<nat, User>, voters: map<nat, VoterRecord>) {
    match p
    case Admin(id) => id in users
    case Voter(id) => id in voters
  }

  /**
   * Serialising then deserialising gives back the same principal while its row
   * exists, and an anonymous session once it is gone. The other table is never
   * consulted: an administrator's id that is also a voter's id still resolves as
   * the administrator.
   */
  lemma SessionRoundTrip(p: Principal, users: map<nat, User>, voters: map<nat, VoterRecord>)
    ensures Deserialize(Serialize(p), users, voters) == if Registered(p, users, voters) then Resolved(p) else Anonymous
  {
  }

  /** The gate a handler applies to `request.user`. */
  datatype Gate = Proceed(id: nat) | NotLoggedIn | WrongRole

  /** Administrator routes: `ensureLoggedIn()`, then the Users-instance test. */
  function AdminGate(user: Option<Principal>): (g: Gate)
    ensures g == NotLoggedIn <==> user.None?
    ensures g.Proceed? <==> user.Some? && user.value.Admin?
    ensures g.Proceed? ==> g.id == user.value.id
  {
    match user
    case None => NotLoggedIn
    case Some(Admin(id)) => Proceed(id)
    case Some(Voter(_)) => WrongRole
  }

  /** Voter routes: `ensureVoterLoggedIn`, then the Voters-instance test. */
  function VoterGate(user: Option<Principal>): (g: Gate)
    ensures g == NotLoggedIn <==> user.None?
    ensures g.Proceed? <==> user.Some? && user.value.Voter?
    ensures g.Proceed? ==> g.id == user.value.id
  {
    match user
    case None => NotLoggedIn
    case Some(Voter(id)) => Proceed(id)
    case Some(Admin(_)) => WrongRole
  }

  /** No request passes both gates: an administrator is refused by voter routes and a voter by administrator routes. */
  lemma RolesAreIsolated(user: Option<Principal>)
    ensures !(AdminGate(user).Proceed? && VoterGate(user).Proceed?)
    ensures user.Some? ==> (AdminGate(user).Proceed? <==> VoterGate(user) == WrongRole)
  {
  }
}
