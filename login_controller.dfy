/** Controllers/LoginController.cs: the login decision. It only reads the
    users container, so it is a function of the container's contents; password
    verification and token signing are uninterpreted functions. */
module LoginApi {
  import opened Models
  import opened Storage
  import SignupApi

  /** The request body; either field may be null. */
  datatype LoginRequest = LoginRequest(email: Option<string>, password: Option<string>)

  /** A claim of the token's subject. */
  datatype Claim = Claim(claimType: string, value: string)

  /** The `SecurityTokenDescriptor` the token is signed from. */
  datatype TokenDescriptor = TokenDescriptor(claims: seq<Claim>, expires: Instant)

  /** The user fields the response carries; there is no password hash among them. */
  datatype LoginUserView = LoginUserView(
    id: string, email: string, name: Option<string>, Banner: Option<string>, ProfileImage: Option<string>)

  datatype LoginResult =
    | LoginOk(token: string, user: LoginUserView)
    | LoginBadRequest(message: string)
    | LoginUnauthorized(message: string)

  /** `BCrypt.Verify(password, hash)`. */
  type Verifier = (string, string) -> bool

  /** Signing and serialising a token descriptor with the configured key. */
  type TokenWriter = TokenDescriptor -> string

  /** A token lives six hours, in seconds. */
  const TOKEN_LIFETIME := 6 * 3600

  const INVALID_CREDENTIALS := "Invalid email or password."

  /** `POST api/login`. An unknown e-mail and a wrong password give the same
      rejection; on success the token names the user's e-mail and id and
      expires six hours after `now`. */
  function Login(users: map<string, Users>, request: LoginRequest, verify: Verifier,
                 writeToken: TokenWriter, now: Instant): (r: LoginResult)
    requires UsersKeyed(users)
    ensures r.LoginBadRequest? <==> IsNullOrEmpty(request.email) || IsNullOrEmpty(request.password)
    ensures r.LoginBadRequest? ==> r.message == "Email and password are required."
    ensures r.LoginUnauthorized? ==> r.message == INVALID_CREDENTIALS
    ensures r.LoginOk? <==>
      && !IsNullOrEmpty(request.email) && !IsNullOrEmpty(request.password)
      && ToLower(request.email.value) in users
      && verify(request.password.value, users[ToLower(request.email.value)].passwordHash)
    ensures r.LoginOk? ==>
      var u := users[ToLower(request.email.value)];
      && r.token == writeToken(TokenDescriptor([Claim("email", u.email), Claim("id", u.id)], now + TOKEN_LIFETIME))
      && r.user == LoginUserView(u.id, u.email, u.name, u.Banner, u.ProfileImage)
  {
    if IsNullOrEmpty(request.email) || IsNullOrEmpty(request.password) then
      LoginBadRequest("Email and password are required.")
    else
      var email := ToLower(request.email.value);
      match FindUserByEmail(users, email)
      case None => LoginUnauthorized(INVALID_CREDENTIALS)
      case Some(user) =>
        if !verify(request.password.value, user.passwordHash) then
          LoginUnauthorized(INVALID_CREDENTIALS)
        else
          var descriptor := TokenDescriptor([Claim("email", user.email), Claim("id", user.id)], now + TOKEN_LIFETIME);
          LoginOk(writeToken(descriptor), LoginUserView(user.id, user.email, user.name, user.Banner, user.ProfileImage))
  }

  /** The e-mail is matched without regard to ASCII case: two spellings that
      lower-case alike get the same answer. */
  lemma LoginIgnoresEmailCase(users: map<string, Users>, e1: string, e2: string, password: Option<string>,
                              verify: Verifier, writeToken: TokenWriter, now: Instant)
    requires UsersKeyed(users)
    requires ToLower(e1) == ToLower(e2)
    ensures Login(users, LoginRequest(Some(e1), password), verify, writeToken, now)
         == Login(users, LoginRequest(Some(e2), password), verify, writeToken, now)
  {
    // lower-casing keeps the length, so both are empty or neither is
    assert |e1| == |ToLower(e1)| == |ToLower(e2)| == |e2|;
  }

  /** An account made by sign-up can log in with the same password and any
      case of the same e-mail, provided verification accepts a password
      against its own hash. */
  lemma SignupThenLogin(users: map<string, Users>, signupEmail: string, loginEmail: string,
                        name: Option<string>, password: string, newId: string, nowIso: string,
                        hash: SignupApi.Hasher, verify: Verifier, writeToken: TokenWriter, now: Instant)
    requires UsersKeyed(users)
    requires signupEmail != "" && password != ""
    requires ToLower(loginEmail) == ToLower(signupEmail)
    requires verify(password, hash(password))
    ensures var email := ToLower(signupEmail);
      var after := users[email := SignupApi.NewAccount(newId, email, name, hash(password), nowIso)];
      && UsersKeyed(after)
      && Login(after, LoginRequest(Some(loginEmail), Some(password)), verify, writeToken, now).LoginOk?
      && Login(after, LoginRequest(Some(loginEmail), Some(password)), verify, writeToken, now).user.id == newId
  {
    var email := ToLower(signupEmail);
    assert loginEmail != "" by { assert |ToLower(loginEmail)| == |loginEmail|; }
    var after := users[email := SignupApi.NewAccount(newId, email, name, hash(password), nowIso)];
    assert after[email].passwordHash == hash(password);
  }
}
