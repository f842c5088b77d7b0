/**
  The users collection as an object whose document list the handlers change
  in place, and the two handlers written step by step as in the source:
  each is proved to produce exactly the response and the documents that
  `RegisterOutcome` and `LoginOutcome` describe, and to keep `Consistent`.
*/
module Collection {
  import opened Wrappers
  import opened Validation
  import opened Users
  import opened Argon
  import opened Session
  import opened Handlers

  /** `Result<Option<User>, mongodb::error::Error>` */
  datatype Lookup = LookupFailed | NotFound | Found(user: User)

  /** `Result<InsertOneResult, mongodb::error::Error>` */
  datatype Insertion = InsertFailed | Inserted(id: ObjectId)

  class UserCollection {
    var users: seq<User>

    constructor (initial: seq<User>)
      ensures users == initial
    {
      users := initial;
    }

    /** find_one: the first matching document, or the round trip's failure. */
    method FindOne(filter: Filter, fails: bool) returns (r: Lookup)
      ensures fails ==> r == LookupFailed
      ensures !fails && FirstIndex(users, filter).None? ==> r == NotFound
      ensures !fails && FirstIndex(users, filter).Some? ==> r == Found(users[FirstIndex(users, filter).value])
    {
      if fails {
        return LookupFailed;
      }
      match FirstIndex(users, filter) {
        case None => r := NotFound;
        case Some(i) => r := Found(users[i]);
      }
    }

    /** insert_one: appends the document; a failed round trip or a taken `_id` changes nothing. */
    method InsertOne(doc: User, generated: ObjectId, fails: bool) returns (r: Insertion)
      modifies this
      ensures fails ==> r == InsertFailed && users == old(users)
      ensures !fails && InsertDoc(old(users), doc, generated).None? ==>
        r == InsertFailed && users == old(users)
      ensures !fails && InsertDoc(old(users), doc, generated).Some? ==>
        r == Inserted(AssignedId(doc, generated)) && users == InsertDoc(old(users), doc, generated).value
    {
      if fails {
        return InsertFailed;
      }
      match InsertDoc(users, doc, generated) {
        case None => r := InsertFailed;
        case Some(after) =>
          users := after;
          r := Inserted(AssignedId(doc, generated));
      }
    }

    /** update_one setting `failed_login_attempts` of the document with this `_id`. */
    method UpdateOne(id: ObjectId, attempts: i32, fails: bool) returns (ok: bool)
      modifies this
      ensures ok == !fails
      ensures users == if fails then old(users) else SetAttempts(old(users), id, attempts)
    {
      if fails {
        return false;
      }
      users := SetAttempts(users, id, attempts);
      ok := true;
    }

    method RegisterUser(form: RegistrationForm, cfg: Config, argon: Argon2, io: RegisterIo) returns (resp: Response)
      modifies this
      ensures Outcome(resp, users) == RegisterOutcome(old(users), form, cfg, argon, io)
      ensures old(Consistent(users)) ==> Consistent(users)
    {
      if Consistent(users) {
        RegisterPreservesConsistent(users, form, cfg, argon, io);
      }
      var userToInsert := User(None, false, form.username, form.email, form.password, 0);
      if !ValidRegistration(userToInsert.username, userToInsert.email, userToInsert.password) {
        return Err(BadRequest);
      }
      var byEmail := FindOne(ByEmail(userToInsert.email), io.emailLookupFails);
      match byEmail {
        case Found(_) => return Err(BadRequest);
        case NotFound =>
        case LookupFailed => return Err(InternalServerError);
      }
      var byUsername := FindOne(ByUsername(userToInsert.username), io.usernameLookupFails);
      match byUsername {
        case Found(_) => return Err(BadRequest);
        case NotFound =>
        case LookupFailed => return Err(InternalServerError);
      }
      var hashedPassword := argon.hashEncoded(userToInsert.password, cfg.salt);
      userToInsert := userToInsert.(password := hashedPassword);
      var result := InsertOne(userToInsert, io.generatedId, io.insertFails);
      match result {
        case Inserted(_) => resp := Ok(Registered);
        case InsertFailed => resp := Err(InternalServerError);
      }
    }

    method Login(form: LoginForm, cfg: Config, argon: Argon2, sign: (Claims, string) -> string, io: LoginIo)
      returns (resp: Response)
      modifies this
      ensures Outcome(resp, users) == LoginOutcome(old(users), form, cfg, argon, sign, io)
      ensures old(Consistent(users)) ==> Consistent(users)
    {
      if Consistent(users) {
        LoginPreservesConsistent(users, form, cfg, argon, sign, io);
      }
      var found := FindOne(ByUsernameOrEmail(form.usernameOrEmail), io.lookupFails);
      var userToCheck: User;
      match found {
        case Found(u) => userToCheck := u;
        case NotFound => return Err(BadRequest);
        case LookupFailed => return Err(InternalServerError);
      }
      var passwordMatches := argon.verifyEncoded(userToCheck.password, form.password);
      var failedLoginAttempts := NextFailedAttempts(passwordMatches, userToCheck.failedLoginAttempts);
      if userToCheck.id.None? {
        return Panicked;
      }
      var updated := UpdateOne(userToCheck.id.value, failedLoginAttempts, io.updateFails);
      if !updated {
        return Panicked;
      }
      match passwordMatches {
        case Verified(true) => resp := Ok(GenerateJwt(userToCheck, cfg.jwtSecret, sign, io.clock));
        case Verified(false) => resp := Err(BadRequest);
        case VerifyError => resp := Err(InternalServerError);
      }
    }
  }
}
