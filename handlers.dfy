/**
  `register_user` and `login` as functions from the stored documents and the
  request to the response and the documents afterwards. The database round
  trips, the generated `_id` and the clock are inputs (`RegisterIo`,
  `LoginIo`); Argon2 and the token signature are function values.
*/
module Handlers {
  import opened Wrappers
  import opened Validation
  import opened Users
  import opened Argon
  import opened Session

  /** `StatusCode::BAD_REQUEST` (400) and `StatusCode::INTERNAL_SERVER_ERROR` (500). */
  datatype StatusCode = BadRequest | InternalServerError

  /** `Ok(body)`, `Err(status)`, or a panic at an `unwrap`, after which no response is sent. */
  datatype Response = Ok(body: string) | Err(status: StatusCode) | Panicked

  datatype Outcome = Outcome(response: Response, users: seq<User>)

  datatype RegistrationForm = RegistrationForm(username: string, email: string, password: string)

  datatype LoginForm = LoginForm(usernameOrEmail: string, password: string)

  /** The environment variables `SALT` and `JWT_SECRET`. */
  datatype Config = Config(salt: string, jwtSecret: string)

  /** Which database round trips of a registration fail, and the `_id` the driver generates. */
  datatype RegisterIo = RegisterIo(
    emailLookupFails: bool,
    usernameLookupFails: bool,
    insertFails: bool,
    generatedId: ObjectId)

  /** Which database round trips of a login fail, and the clock readings of `generate_jwt`. */
  datatype LoginIo = LoginIo(lookupFails: bool, updateFails: bool, clock: Clock)

  const Registered: string := "Registered"

  predicate EmailTaken(users: seq<User>, email: string) {
    exists k :: 0 <= k < |users| && users[k].email == email
  }

  predicate UsernameTaken(users: seq<User>, username: string) {
    exists k :: 0 <= k < |users| && users[k].username == username
  }

  /**
    The document `register_user` builds, with its password replaced by the
    hash, before it has an `_id`: an ordinary user with no failed attempts,
    whose stored hash verifies against the submitted password whenever the
    hasher keeps its promise.
  */
  function NewUser(form: RegistrationForm, cfg: Config, argon: Argon2): (u: User)
    ensures u.id.None? && !u.isAdmin && u.failedLoginAttempts == 0
    ensures u.username == form.username && u.email == form.email
    ensures Sound(argon) ==> argon.verifyEncoded(u.password, form.password) == Verified(true)
  {
    User(None, false, form.username, form.email, argon.hashEncoded(form.password, cfg.salt), 0)
  }

  /** The request gets past the validation and both uniqueness lookups. */
  predicate PassesLookups(users: seq<User>, form: RegistrationForm, io: RegisterIo) {
    && ValidRegistration(form.username, form.email, form.password)
    && !io.emailLookupFails && !EmailTaken(users, form.email)
    && !io.usernameLookupFails && !UsernameTaken(users, form.username)
  }

  /** ... and the insert succeeds. */
  predicate RegistrationAccepted(users: seq<User>, form: RegistrationForm, io: RegisterIo) {
    PassesLookups(users, form, io) && !io.insertFails && !IdTaken(users, io.generatedId)
  }

  function RegisterOutcome(users: seq<User>, form: RegistrationForm, cfg: Config, argon: Argon2, io: RegisterIo): (o: Outcome)
    // the validation decides first, whatever the database would answer
    ensures !ValidRegistration(form.username, form.email, form.password) ==>
      o == Outcome(Err(BadRequest), users)
    // then the e-mail lookup, then the username lookup
    ensures ValidRegistration(form.username, form.email, form.password) && io.emailLookupFails ==>
      o == Outcome(Err(InternalServerError), users)
    ensures (ValidRegistration(form.username, form.email, form.password) && !io.emailLookupFails
             && EmailTaken(users, form.email)) ==>
      o == Outcome(Err(BadRequest), users)
    ensures (ValidRegistration(form.username, form.email, form.password) && !io.emailLookupFails
             && !EmailTaken(users, form.email) && io.usernameLookupFails) ==>
      o == Outcome(Err(InternalServerError), users)
    ensures (ValidRegistration(form.username, form.email, form.password) && !io.emailLookupFails
             && !EmailTaken(users, form.email) && !io.usernameLookupFails
             && UsernameTaken(users, form.username)) ==>
      o == Outcome(Err(BadRequest), users)
    // a failed insert, a duplicate `_id` included, is a server error
    ensures PassesLookups(users, form, io) && !RegistrationAccepted(users, form, io) ==>
      o == Outcome(Err(InternalServerError), users)
    ensures o.response == Ok(Registered) <==> RegistrationAccepted(users, form, io)
    // exactly one document is added, holding `hash_encoded(password, SALT)`
    ensures RegistrationAccepted(users, form, io) ==>
      o.users == users + [NewUser(form, cfg, argon).(id := Some(io.generatedId))]
    ensures !RegistrationAccepted(users, form, io) ==> o.users == users && o.response.Err?
  {
    if !ValidRegistration(form.username, form.email, form.password) then
      Outcome(Err(BadRequest), users)
    else if io.emailLookupFails then
      Outcome(Err(InternalServerError), users)
    else if FirstIndex(users, ByEmail(form.email)).Some? then
      Outcome(Err(BadRequest), users)
    else if io.usernameLookupFails then
      Outcome(Err(InternalServerError), users)
    else if FirstIndex(users, ByUsername(form.username)).Some? then
      Outcome(Err(BadRequest), users)
    else if io.insertFails then
      Outcome(Err(InternalServerError), users)
    else
      match InsertDoc(users, NewUser(form, cfg, argon), io.generatedId)
      case None => Outcome(Err(InternalServerError), users)
      case Some(after) => Outcome(Ok(Registered), after)
  }

  /**
    The counter `login` writes. The test is `is_ok()`, so a wrong password
    (`Ok(false)`) resets it like a right one; only a verification error adds one.
  */
  function NextFailedAttempts(verdict: VerifyResult, previous: i32): (n: i32)
    ensures n == 0 <==> verdict.Verified? || previous == -1
    ensures verdict == VerifyError ==> (n - previous - 1) % 0x1_0000_0000 == 0
  {
    if verdict.Verified? then 0 else WrappingIncrement(previous)
  }

  function LoginOutcome(
    users: seq<User>, form: LoginForm, cfg: Config, argon: Argon2,
    sign: (Claims, string) -> string, io: LoginIo): (o: Outcome)
    ensures io.lookupFails ==> o == Outcome(Err(InternalServerError), users)
    ensures !io.lookupFails && (forall k :: 0 <= k < |users| ==> !Matches(ByUsernameOrEmail(form.usernameOrEmail), users[k])) ==>
      o == Outcome(Err(BadRequest), users)
    // at most counters change
    ensures |o.users| == |users|
    ensures forall k :: 0 <= k < |users| ==>
      o.users[k] == users[k].(failedLoginAttempts := o.users[k].failedLoginAttempts)
    ensures o.response == Panicked ==> o.users == users
  {
    if io.lookupFails then
      Outcome(Err(InternalServerError), users)
    else match FirstIndex(users, ByUsernameOrEmail(form.usernameOrEmail))
      case None => Outcome(Err(BadRequest), users)
      case Some(i) =>
        var user := users[i];
        var verdict := argon.verifyEncoded(user.password, form.password);
        var attempts := NextFailedAttempts(verdict, user.failedLoginAttempts);
        if user.id.None? || io.updateFails then
          Outcome(Panicked, users)
        else
          var after := SetAttempts(users, user.id.value, attempts);
          match verdict
          case Verified(true) => Outcome(Ok(GenerateJwt(user, cfg.jwtSecret, sign, io.clock)), after)
          case Verified(false) => Outcome(Err(BadRequest), after)
          case VerifyError => Outcome(Err(InternalServerError), after)
  }

  /**
    The response for a found user: the counter update must go through first
    (a missing id or a failed update panics); then `Ok(true)` gives the token,
    `Ok(false)` a bad request and an error a server error. The stored counter
    is not consulted.
  */
  lemma LoginResponse(
    users: seq<User>, form: LoginForm, cfg: Config, argon: Argon2,
    sign: (Claims, string) -> string, io: LoginIo, i: nat)
    requires !io.lookupFails
    requires FirstIndex(users, ByUsernameOrEmail(form.usernameOrEmail)) == Some(i)
    ensures var o := LoginOutcome(users, form, cfg, argon, sign, io);
      var verdict := argon.verifyEncoded(users[i].password, form.password);
      && (users[i].id.None? || io.updateFails ==> o == Outcome(Panicked, users))
      && (users[i].id.Some? && !io.updateFails ==>
        && (verdict == Verified(true) ==>
              o.response == Ok(sign(SessionClaims(users[i], io.clock), cfg.jwtSecret)))
        && (verdict == Verified(false) ==> o.response == Err(BadRequest))
        && (verdict == VerifyError ==> o.response == Err(InternalServerError)))
  {
  }

  /**
    What the update writes, given the unique `_id` index: only the found
    user's counter, set to 0 for a right and for a wrong password, and
    increased by one only when verification itself fails.
  */
  lemma LoginCounterWrite(
    users: seq<User>, form: LoginForm, cfg: Config, argon: Argon2,
    sign: (Claims, string) -> string, io: LoginIo, i: nat)
    requires IdsUnique(users)
    requires !io.lookupFails && !io.updateFails
    requires FirstIndex(users, ByUsernameOrEmail(form.usernameOrEmail)) == Some(i)
    requires users[i].id.Some?
    ensures var o := LoginOutcome(users, form, cfg, argon, sign, io);
      var verdict := argon.verifyEncoded(users[i].password, form.password);
      && o.users == users[i := users[i].(failedLoginAttempts := o.users[i].failedLoginAttempts)]
      && (verdict.Verified? ==> o.users[i].failedLoginAttempts == 0)
      && (verdict == VerifyError ==>
            o.users[i].failedLoginAttempts == WrappingIncrement(users[i].failedLoginAttempts))
  {
    var verdict := argon.verifyEncoded(users[i].password, form.password);
    SetAttemptsAt(users, i, NextFailedAttempts(verdict, users[i].failedLoginAttempts));
  }

  /** A wrong password is not counted: the stored counter goes back to 0 however high it was. */
  lemma WrongPasswordResetsCounter(
    users: seq<User>, form: LoginForm, cfg: Config, argon: Argon2,
    sign: (Claims, string) -> string, io: LoginIo, i: nat)
    requires IdsUnique(users)
    requires !io.lookupFails && !io.updateFails
    requires FirstIndex(users, ByUsernameOrEmail(form.usernameOrEmail)) == Some(i)
    requires users[i].id.Some? && users[i].failedLoginAttempts >= 0
    requires argon.verifyEncoded(users[i].password, form.password) == Verified(false)
    ensures var o := LoginOutcome(users, form, cfg, argon, sign, io);
      && o.response == Err(BadRequest)
      && o.users[i].failedLoginAttempts == 0
      && o.users[i].failedLoginAttempts != users[i].failedLoginAttempts + 1
  {
    LoginCounterWrite(users, form, cfg, argon, sign, io, i);
  }

  /** No lockout: the response does not depend on any stored counter. */
  lemma NoLockout(
    users: seq<User>, form: LoginForm, cfg: Config, argon: Argon2,
    sign: (Claims, string) -> string, io: LoginIo, i: nat, n: i32)
    requires i < |users|
    ensures LoginOutcome(users[i := users[i].(failedLoginAttempts := n)], form, cfg, argon, sign, io).response
         == LoginOutcome(users, form, cfg, argon, sign, io).response
  {
    FirstIndexIgnoresCounter(users, i, n, ByUsernameOrEmail(form.usernameOrEmail));
  }

  /** The identity fields of a registered document. */
  predicate ValidIdentity(u: User) {
    && u.id.Some?
    && MatchesUsername(u.username) && Utf8Length(u.username) >= 3
    && MatchesEmail(u.email)
  }

  /**
    The collection as `register_user` leaves it when requests come one at a
    time: every document carries an id and a valid username and e-mail, and
    ids, usernames and e-mails are pairwise distinct.
  */
  ghost predicate Consistent(users: seq<User>) {
    && (forall k :: 0 <= k < |users| ==> ValidIdentity(users[k]))
    && (forall k, l :: 0 <= k < l < |users| ==>
          users[k].id != users[l].id && users[k].username != users[l].username && users[k].email != users[l].email)
  }

  lemma RegisterPreservesConsistent(users: seq<User>, form: RegistrationForm, cfg: Config, argon: Argon2, io: RegisterIo)
    requires Consistent(users)
    ensures Consistent(RegisterOutcome(users, form, cfg, argon, io).users)
  {
    if RegistrationAccepted(users, form, io) {
      var after := RegisterOutcome(users, form, cfg, argon, io).users;
      var added := NewUser(form, cfg, argon).(id := Some(io.generatedId));
      assert after == users + [added];
      forall k | 0 <= k < |users|
        ensures users[k].id != added.id && users[k].username != added.username && users[k].email != added.email
      {
        assert !(users[k].id == Some(io.generatedId));
        assert users[k].username != form.username;
        assert users[k].email != form.email;
      }
    }
  }

  lemma LoginPreservesConsistent(
    users: seq<User>, form: LoginForm, cfg: Config, argon: Argon2,
    sign: (Claims, string) -> string, io: LoginIo)
    requires Consistent(users)
    ensures Consistent(LoginOutcome(users, form, cfg, argon, sign, io).users)
  {
  }

  /**
    In a consistent collection a username or an e-mail address names one
    document: no username is an e-mail address, and both are unique.
  */
  lemma IdentifierSelectsUser(users: seq<User>, k: nat, identifier: string)
    requires Consistent(users)
    requires k < |users|
    requires identifier == users[k].username || identifier == users[k].email
    ensures FirstIndex(users, ByUsernameOrEmail(identifier)) == Some(k)
  {
    var j := FirstIndex(users, ByUsernameOrEmail(identifier)).value;
  }

  /** Logging in with the e-mail address gives a token whose subject is the stored username. */
  lemma LoginSubjectIsStoredUsername(
    users: seq<User>, form: LoginForm, cfg: Config, argon: Argon2,
    sign: (Claims, string) -> string, io: LoginIo, k: nat)
    requires Consistent(users)
    requires k < |users| && form.usernameOrEmail == users[k].email
    requires !io.lookupFails && !io.updateFails
    requires argon.verifyEncoded(users[k].password, form.password) == Verified(true)
    ensures LoginOutcome(users, form, cfg, argon, sign, io).response
         == Ok(sign(SessionClaims(users[k], io.clock), cfg.jwtSecret))
    ensures SessionClaims(users[k], io.clock).sub == users[k].username
  {
    IdentifierSelectsUser(users, k, form.usernameOrEmail);
  }

  /**
    Registering and then logging in with the same password, by username or by
    e-mail, yields a token for the new document, and the login leaves the
    collection as the registration left it.
  */
  lemma RegisterThenLogin(
    users: seq<User>, form: RegistrationForm, cfg: Config, argon: Argon2,
    sign: (Claims, string) -> string, rio: RegisterIo, identifier: string, lio: LoginIo)
    requires Consistent(users) && Sound(argon)
    requires RegistrationAccepted(users, form, rio)
    requires identifier == form.username || identifier == form.email
    requires !lio.lookupFails && !lio.updateFails
    ensures var registered := RegisterOutcome(users, form, cfg, argon, rio).users;
      var stored := NewUser(form, cfg, argon).(id := Some(rio.generatedId));
      && LoginOutcome(registered, LoginForm(identifier, form.password), cfg, argon, sign, lio)
         == Outcome(Ok(sign(SessionClaims(stored, lio.clock), cfg.jwtSecret)), registered)
      && SessionClaims(stored, lio.clock).sub == form.username
  {
    var registered := RegisterOutcome(users, form, cfg, argon, rio).users;
    var stored := NewUser(form, cfg, argon).(id := Some(rio.generatedId));
    RegisterPreservesConsistent(users, form, cfg, argon, rio);
    assert registered == users + [stored];
    IdentifierSelectsUser(registered, |users|, identifier);
    assert argon.verifyEncoded(argon.hashEncoded(form.password, cfg.salt), form.password) == Verified(true);
    SetAttemptsAt(registered, |users|, 0);
    assert registered[|users| := stored.(failedLoginAttempts := 0)] == registered;
  }

  /** Once an e-mail address or a username is registered, a second registration with it is refused. */
  lemma DuplicateRegistrationRejected(
    users: seq<User>, first: RegistrationForm, second: RegistrationForm, cfg: Config, argon: Argon2,
    io1: RegisterIo, io2: RegisterIo)
    requires RegistrationAccepted(users, first, io1)
    requires second.email == first.email || second.username == first.username
    requires !io2.emailLookupFails && !io2.usernameLookupFails
    ensures var registered := RegisterOutcome(users, first, cfg, argon, io1).users;
      RegisterOutcome(registered, second, cfg, argon, io2) == Outcome(Err(BadRequest), registered)
  {
    var registered := RegisterOutcome(users, first, cfg, argon, io1).users;
    assert registered[|users|].email == first.email && registered[|users|].username == first.username;
  }

  /** The stored document of the example user alice. */
  function Alice(cfg: Config, argon: Argon2, id: ObjectId): User {
    User(Some(id), false, "alice", "alice@x.com", argon.hashEncoded("password123", cfg.salt), 0)
  }

  /** The example registration of alice into an empty collection succeeds. */
  lemma ExampleRegistration(cfg: Config, argon: Argon2, id: ObjectId)
    ensures RegisterOutcome([], RegistrationForm("alice", "alice@x.com", "password123"), cfg, argon,
                            RegisterIo(false, false, false, id))
         == Outcome(Ok(Registered), [Alice(cfg, argon, id)])
  {
    ExampleRegistrationPasses();
  }

  /**
    The example logins: alice with the right password gets a token with
    subject alice; a wrong password by e-mail is a bad request and leaves the
    counter at 0, not 1.
  */
  lemma ExampleLogins(cfg: Config, argon: Argon2, sign: (Claims, string) -> string, id: ObjectId, lio: LoginIo)
    requires Sound(argon)
    requires argon.verifyEncoded(argon.hashEncoded("password123", cfg.salt), "wrongpass") == Verified(false)
    requires !lio.lookupFails && !lio.updateFails
    ensures LoginOutcome([Alice(cfg, argon, id)], LoginForm("alice", "password123"), cfg, argon, sign, lio)
         == Outcome(Ok(sign(SessionClaims(Alice(cfg, argon, id), lio.clock), cfg.jwtSecret)), [Alice(cfg, argon, id)])
    ensures SessionClaims(Alice(cfg, argon, id), lio.clock).sub == "alice"
    ensures LoginOutcome([Alice(cfg, argon, id)], LoginForm("alice@x.com", "wrongpass"), cfg, argon, sign, lio)
         == Outcome(Err(BadRequest), [Alice(cfg, argon, id)])
  {
    var users := [Alice(cfg, argon, id)];
    assert FirstIndex(users, ByUsernameOrEmail("alice")) == Some(0);
    assert FirstIndex(users, ByUsernameOrEmail("alice@x.com")) == Some(0);
    SetAttemptsAt(users, 0, 0);
    assert users[0 := users[0].(failedLoginAttempts := 0)] == users;
  }

  /** Registering the username alice again, with another e-mail address, is refused. */
  lemma ExampleDuplicateUsername(cfg: Config, argon: Argon2, id: ObjectId, io: RegisterIo)
    requires !io.emailLookupFails && !io.usernameLookupFails
    ensures RegisterOutcome([Alice(cfg, argon, id)], RegistrationForm("alice", "bob@x.com", "password123"), cfg, argon, io)
         == Outcome(Err(BadRequest), [Alice(cfg, argon, id)])
  {
    var users := [Alice(cfg, argon, id)];
    assert users[0].username == "alice";
    assert UsernameTaken(users, "alice");
  }
}
