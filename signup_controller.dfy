/** Controllers/SignupController.cs: account creation with a lower-cased
    e-mail and a hashed password. */
module SignupApi {
  import opened Models
  import opened Storage

  /** The request body; any field may be null. */
  datatype SignUpRequest = SignUpRequest(email: Option<string>, name: Option<string>, password: Option<string>)

  /** The fields the response echoes; there is no password hash among them. */
  datatype SignupView = SignupView(id: string, email: string, name: Option<string>, dateCreated: string)

  /** The action results; Failed is an exception that leaves the action unhandled. */
  datatype SignupResult =
    | SignupOk(user: SignupView)
    | SignupBadRequest(message: string)
    | SignupConflict(message: string)
    | SignupFailed(ex: Exception)

  /** `BCrypt.HashPassword`, salt and all, as an uninterpreted function. */
  type Hasher = string -> string

  /** The stored document for a new account (SignupController.cs:45-52). */
  function NewAccount(id: string, email: string, name: Option<string>, passwordHash: string, dateCreated: string): Users {
    Users(id, email, name, passwordHash, dateCreated, None, None)
  }

  /** The response body built from the created user (lines 58-64). */
  function ViewOf(u: Users): SignupView {
    SignupView(u.id, u.email, u.name, u.dateCreated)
  }

  class SignupController {
    const db: DbService

    constructor (db: DbService)
      ensures this.db == db
    {
      this.db := db;
    }

    /** `POST api/signup`: e-mail and password are required; the lower-cased
        e-mail must be new; then exactly one user is added, holding the hash
        of the password and never the password itself. `newId` is the new
        Guid and `nowIso` the ISO 8601 text of the clock. */
    method SignUp(request: SignUpRequest, newId: string, nowIso: string, hash: Hasher, create: CallOutcome)
      returns (r: SignupResult)
      requires db.Valid()
      modifies db`users
      ensures db.Valid()
      ensures IsNullOrEmpty(request.email) || IsNullOrEmpty(request.password) ==>
        r == SignupBadRequest("Email and password are required.") && db.users == old(db.users)
      ensures !IsNullOrEmpty(request.email) && !IsNullOrEmpty(request.password)
              && ToLower(request.email.value) in old(db.users) ==>
        r == SignupConflict("Email already registered.") && db.users == old(db.users)
      ensures !IsNullOrEmpty(request.email) && !IsNullOrEmpty(request.password)
              && ToLower(request.email.value) !in old(db.users) && create.Throws? ==>
        r == SignupFailed(create.ex) && db.users == old(db.users)
      ensures r.SignupOk? <==>
        && !IsNullOrEmpty(request.email) && !IsNullOrEmpty(request.password)
        && ToLower(request.email.value) !in old(db.users) && create == Completes
      ensures r.SignupOk? ==>
        var email := ToLower(request.email.value);
        var account := NewAccount(newId, email, request.name, hash(request.password.value), nowIso);
        && db.users == old(db.users)[email := account]
        && r.user == SignupView(newId, email, request.name, nowIso)
      ensures !r.SignupOk? ==> db.users == old(db.users)
    {
      if request.email.None? || request.email.value == "" || request.password.None? || request.password.value == "" {
        return SignupBadRequest("Email and password are required.");
      }
      var email := ToLower(request.email.value);
      var name := request.name;
      var existingUser := db.GetUserByEmailAsync(email);
      if existingUser.Some? {
        return SignupConflict("Email already registered.");
      }
      var passwordHash := hash(request.password.value);
      var newUser := NewAccount(newId, email, name, passwordHash, nowIso);
      var created := db.CreateUserAsync(newUser, create);
      if created.Err? {
        return SignupFailed(created.error);
      }
      return SignupOk(ViewOf(created.value));
    }
  }
}
