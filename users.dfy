/**
 * The administrator record of models/users.js: four string columns, three of
 * them validated, and what the signup handler (app.js:230-250) hands to it.
 *
 * The library predicates `notEmpty`, `isAlpha` and `isEmail` are parameters
 * (`Checks`); only the way the model composes them is modelled. The length
 * rule `len: [2, 32]` is concrete.
 */
module Users {
  import opened Wrappers

  /** A stored administrator row. `lastName` carries no rule and may be null. */
  datatype User = User(firstName: string, lastName: Option<string>, email: string, password: string)

  /** The values handed to `Users.create`: any of them may be null or undefined. */
  datatype Candidate = Candidate(
    firstName: Option<string>, lastName: Option<string>, email: Option<string>, password: Option<string>)

  /** The validator library's predicates, left abstract. */
  datatype Checks = Checks(notEmpty: string -> bool, isAlpha: string -> bool, isEmail: string -> bool)

  const FirstNameRequired: string := "\"First Name\" is required"
  const FirstNameAlphabetic: string := "\"First Name\" should comprise of Alphabets"
  const EmailRequired: string := "\"Email\" is required"
  const EmailForm: string := "\"Email\" should be of the form: a@b.c"
  const PasswordRequired: string := "\"Password\" is required"
  const PasswordLength: string := "\"Password\" length not sufficient (2-32 chars)"

  /** `len: { args: [2, 32] }` */
  predicate WithinLength(s: string) {
    2 <= |s| <= 32
  }

  /** One validator of a column with the message the model attaches to it. */
  datatype Rule = Rule(holds: string -> bool, message: string)

  function FirstNameRules(c: Checks): seq<Rule> {
    [Rule(c.notEmpty, FirstNameRequired), Rule(c.isAlpha, FirstNameAlphabetic)]
  }

  function EmailRules(c: Checks): seq<Rule> {
    [Rule(c.notEmpty, EmailRequired), Rule(c.isEmail, EmailForm)]
  }

  function PasswordRules(c: Checks): seq<Rule> {
    [Rule(c.notEmpty, PasswordRequired), Rule(WithinLength, PasswordLength)]
  }

  /** The messages of the rules that `s` fails, in declaration order. */
  function Failing(s: string, rules: seq<Rule>): seq<string> {
    if rules == [] then []
    else (if rules[0].holds(s) then [] else [rules[0].message]) + Failing(s, rules[1..])
  }

  /** A column with two validators fails the first, the second, both or neither. */
  lemma FailingPair(s: string, first: Rule, second: Rule)
    ensures Failing(s, [first, second])
            == (if first.holds(s) then [] else [first.message]) + (if second.holds(s) then [] else [second.message])
  {
    var rules := [first, second];
    assert rules[1..] == [second];
    assert [second][1..] == [];
    assert Failing(s, [second]) == (if second.holds(s) then [] else [second.message]) + Failing(s, []);
  }

  /** A non-null column value that passes every rule of its column. */
  predicate Passes(v: Option<string>, rules: seq<Rule>) {
    v.Some? && forall i :: 0 <= i < |rules| ==> rules[i].holds(v.value)
  }

  /** `m` is the message of a rule that `s` fails. */
  predicate FailedRule(s: string, rules: seq<Rule>, m: string) {
    exists i :: 0 <= i < |rules| && !rules[i].holds(s) && rules[i].message == m
  }

  lemma {:induction false} FailingEmptyIff(s: string, rules: seq<Rule>)
    ensures Failing(s, rules) == [] <==> forall i :: 0 <= i < |rules| ==> rules[i].holds(s)
  {
    if rules != [] {
      FailingEmptyIff(s, rules[1..]);
      if rules[0].holds(s) {
        forall i | 1 <= i < |rules| ensures rules[i].holds(s) == rules[1..][i - 1].holds(s) { }
      }
    }
  }

  /** Every message reported for a column belongs to a rule the value fails, and conversely. */
  lemma {:induction false} FailingMessages(s: string, rules: seq<Rule>)
    ensures forall m :: m in Failing(s, rules) <==> FailedRule(s, rules, m)
  {
    if rules != [] {
      FailingMessages(s, rules[1..]);
      forall m ensures m in Failing(s, rules) <==> FailedRule(s, rules, m) {
        if FailedRule(s, rules[1..], m) {
          var i :| 0 <= i < |rules[1..]| && !rules[1..][i].holds(s) && rules[1..][i].message == m;
          assert !rules[i + 1].holds(s) && rules[i + 1].message == m;
        }
        if FailedRule(s, rules, m) {
          var i :| 0 <= i < |rules| && !rules[i].holds(s) && rules[i].message == m;
          if i > 0 {
            assert !rules[1..][i - 1].holds(s) && rules[1..][i - 1].message == m;
          }
        }
      }
    }
  }

  /** The `notNull` message of a null column. */
  function NullMessage(v: Option<string>, required: string): seq<string> {
    if v.None? then [required] else []
  }

  /** The messages of a non-null column's failing rules; a null column runs none. */
  function RuleMessages(v: Option<string>, rules: seq<Rule>): seq<string> {
    if v.None? then [] else Failing(v.value, rules)
  }

  /**
   * The validation errors in the order they are collected: the `notNull`
   * checks of all columns first, then the built-in validators, column by column.
   */
  function Errors(u: Candidate, c: Checks): seq<string> {
    NullMessage(u.firstName, FirstNameRequired) + NullMessage(u.email, EmailRequired)
    + NullMessage(u.password, PasswordRequired)
    + RuleMessages(u.firstName, FirstNameRules(c)) + RuleMessages(u.email, EmailRules(c))
    + RuleMessages(u.password, PasswordRules(c))
  }

  /** Every column rule holds. */
  predicate Accepts(u: Candidate, c: Checks) {
    Passes(u.firstName, FirstNameRules(c)) && Passes(u.email, EmailRules(c))
    && Passes(u.password, PasswordRules(c))
  }

  /** `m` is the message of a check that the candidate fails. */
  predicate FailedBy(u: Candidate, c: Checks, m: string) {
    || (u.firstName.None? && m == FirstNameRequired)
    || (u.email.None? && m == EmailRequired)
    || (u.password.None? && m == PasswordRequired)
    || (u.firstName.Some? && FailedRule(u.firstName.value, FirstNameRules(c), m))
    || (u.email.Some? && FailedRule(u.email.value, EmailRules(c), m))
    || (u.password.Some? && FailedRule(u.password.value, PasswordRules(c), m))
  }

  /** The outcome of `Users.create`: the stored row, or the first validation message. */
  datatype Admission = Admitted(user: User) | Refused(message: string)

  lemma ColumnErrorsEmptyIff(v: Option<string>, required: string, rules: seq<Rule>)
    ensures NullMessage(v, required) + RuleMessages(v, rules) == [] <==> Passes(v, rules)
  {
    if v.Some? {
      FailingEmptyIff(v.value, rules);
    }
  }

  lemma ErrorsEmptyIff(u: Candidate, c: Checks)
    ensures Errors(u, c) == [] <==> Accepts(u, c)
  {
    ColumnErrorsEmptyIff(u.firstName, FirstNameRequired, FirstNameRules(c));
    ColumnErrorsEmptyIff(u.email, EmailRequired, EmailRules(c));
    ColumnErrorsEmptyIff(u.password, PasswordRequired, PasswordRules(c));
  }

  lemma ErrorsAreFailures(u: Candidate, c: Checks, m: string)
    requires m in Errors(u, c)
    ensures FailedBy(u, c, m)
  {
    if u.firstName.Some? { FailingMessages(u.firstName.value, FirstNameRules(c)); }
    if u.email.Some? { FailingMessages(u.email.value, EmailRules(c)); }
    if u.password.Some? { FailingMessages(u.password.value, PasswordRules(c)); }
  }

  /**
   * `Users.create`: a row is stored exactly when every rule holds, holding the
   * values as given; otherwise the reported message is one of a failed check.
   */
  function Create(u: Candidate, c: Checks): (r: Admission)
    ensures r.Admitted? <==> Accepts(u, c)
    ensures r.Admitted? ==> r.user == User(u.firstName.value, u.lastName, u.email.value, u.password.value)
    ensures r.Refused? ==> FailedBy(u, c, r.message)
  {
    var errors := Errors(u, c);
    ErrorsEmptyIff(u, c);
    if errors == [] then Admitted(User(u.firstName.value, u.lastName, u.email.value, u.password.value))
    else
      ErrorsAreFailures(u, c, errors[0]);
      Refused(errors[0])
  }

  /** The last name takes part in no rule: any value, null included, is stored as given. */
  lemma LastNameUnconstrained(u: Candidate, c: Checks, last: Option<string>)
    ensures Create(u.(lastName := last), c).Admitted? == Create(u, c).Admitted?
    ensures Create(u.(lastName := last), c).Admitted? ==> Create(u.(lastName := last), c).user.lastName == last
  {
  }

  /** A null column is reported by its `notNull` message before any validator's message. */
  lemma NullReportedFirst(u: Candidate, c: Checks)
    requires u.firstName.None? || u.email.None? || u.password.None?
    ensures u.firstName.None? ==> Create(u, c) == Refused(FirstNameRequired)
    ensures u.firstName.Some? && u.email.None? ==> Create(u, c) == Refused(EmailRequired)
    ensures u.firstName.Some? && u.email.Some? && u.password.None? ==> Create(u, c) == Refused(PasswordRequired)
  {
  }

  /** The first name: "is required" when null or empty, else "should comprise of Alphabets" when not alphabetic. */
  lemma FirstNameMessages(u: Candidate, c: Checks)
    requires Passes(u.email, EmailRules(c)) && Passes(u.password, PasswordRules(c))
    ensures u.firstName.None? || !c.notEmpty(u.firstName.value) ==> Create(u, c) == Refused(FirstNameRequired)
    ensures u.firstName.Some? && c.notEmpty(u.firstName.value) && !c.isAlpha(u.firstName.value)
            ==> Create(u, c) == Refused(FirstNameAlphabetic)
  {
    FailingEmptyIff(u.email.value, EmailRules(c));
    FailingEmptyIff(u.password.value, PasswordRules(c));
    if u.firstName.Some? { FailingPair(u.firstName.value, FirstNameRules(c)[0], FirstNameRules(c)[1]); }
  }

  /** The email: "is required" when null or empty, else "should be of the form: a@b.c" when not an address. */
  lemma EmailMessages(u: Candidate, c: Checks)
    requires Passes(u.firstName, FirstNameRules(c)) && Passes(u.password, PasswordRules(c))
    ensures u.email.None? || !c.notEmpty(u.email.value) ==> Create(u, c) == Refused(EmailRequired)
    ensures u.email.Some? && c.notEmpty(u.email.value) && !c.isEmail(u.email.value)
            ==> Create(u, c) == Refused(EmailForm)
  {
    FailingEmptyIff(u.firstName.value, FirstNameRules(c));
    FailingEmptyIff(u.password.value, PasswordRules(c));
    if u.email.Some? { FailingPair(u.email.value, EmailRules(c)[0], EmailRules(c)[1]); }
  }

  /** The password: "is required" when null or empty, else the length message outside 2..32 characters. */
  lemma PasswordMessages(u: Candidate, c: Checks)
    requires Passes(u.firstName, FirstNameRules(c)) && Passes(u.email, EmailRules(c))
    ensures u.password.None? || !c.notEmpty(u.password.value) ==> Create(u, c) == Refused(PasswordRequired)
    ensures u.password.Some? && c.notEmpty(u.password.value) && !WithinLength(u.password.value)
            ==> Create(u, c) == Refused(PasswordLength)
  {
    FailingEmptyIff(u.firstName.value, FirstNameRules(c));
    FailingEmptyIff(u.email.value, EmailRules(c));
    if u.password.Some? { FailingPair(u.password.value, PasswordRules(c)[0], PasswordRules(c)[1]); }
  }

  /** The signup form (app.js:233-238); the password is typed in clear. */
  datatype SignupForm = SignupForm(
    firstName: Option<string>, lastName: Option<string>, email: Option<string>, password: string)

  /** bcrypt's output: "$2b$", the cost, "$", then 53 characters of salt and digest. */
  ghost predicate BcryptShaped(hash: string -> string) {
    forall p :: |hash(p)| == 60
  }

  /** The values the signup handler hands to `Users.create`: the password column gets the hash. */
  function StoredCandidate(f: SignupForm, hash: string -> string): Candidate {
    Candidate(f.firstName, f.lastName, f.email, Some(hash(f.password)))
  }

  /** Signup as written: the length rule is applied to the stored hash. */
  function SignupAsWritten(f: SignupForm, c: Checks, hash: string -> string): Admission {
    Create(StoredCandidate(f, hash), c)
  }

  /**
   * As written, no signup succeeds: a bcrypt hash is 60 characters, beyond the
   * 32 the length rule allows, whatever password was typed.
   */
  lemma SignupAsWrittenRefusesEveryone(f: SignupForm, c: Checks, hash: string -> string)
    requires BcryptShaped(hash)
    ensures SignupAsWritten(f, c, hash).Refused?
    ensures Passes(f.firstName, FirstNameRules(c)) && Passes(f.email, EmailRules(c)) && c.notEmpty(hash(f.password))
            ==> SignupAsWritten(f, c, hash) == Refused(PasswordLength)
  {
    assert |hash(f.password)| == 60;
    if Passes(f.firstName, FirstNameRules(c)) && Passes(f.email, EmailRules(c)) && c.notEmpty(hash(f.password)) {
      PasswordMessages(StoredCandidate(f, hash), c);
    }
  }

  /** The typed values, as the rules are meant to see them. */
  function TypedCandidate(f: SignupForm): Candidate {
    Candidate(f.firstName, f.lastName, f.email, Some(f.password))
  }

  /**
   * Signup as intended: the rules judge the typed password and the stored row
   * holds its hash, so a password of 2 to 32 characters is admitted.
   */
  function Signup(f: SignupForm, c: Checks, hash: string -> string): (r: Admission)
    ensures r.Admitted? <==> Accepts(TypedCandidate(f), c)
    ensures r.Admitted? ==> r.user == User(f.firstName.value, f.lastName, f.email.value, hash(f.password))
    ensures r.Refused? ==> FailedBy(TypedCandidate(f), c, r.message)
  {
    match Create(TypedCandidate(f), c)
    case Admitted(u) => Admitted(u.(password := hash(f.password)))
    case Refused(m) => Refused(m)
  }

  /** The corrected signup admits a well-formed form whatever the hash looks like. */
  lemma SignupAdmitsWellFormedForms(f: SignupForm, c: Checks, hash: string -> string)
    requires Passes(f.firstName, FirstNameRules(c)) && Passes(f.email, EmailRules(c))
    requires c.notEmpty(f.password) && WithinLength(f.password)
    ensures Signup(f, c, hash).Admitted?
    ensures Signup(f, c, hash).user.password == hash(f.password)
  {
  }
}
