/** Customer registration, login and logout, and the seller's login,
    status check and logout. The older customer and seller controllers under
    `server/controllers` take the same steps with the same messages and are
    modelled by the same functions. */
module Accounts {
  import opened Wrappers
  import opened Constants
  import opened Users
  import opened AuthMiddleware

  /** A cookie the response sets or clears. */
  datatype Cookie = SetCookie(name: string, value: string, options: CookieOptions) | ClearCookie(name: string, options: CookieOptions)

  datatype AccountOutcome<T> = AccountOutcome(reply: Reply<T>, users: seq<User>, cookies: seq<Cookie>)

  /** The public part of an account returned on register and login. */
  datatype Profile = Profile(email: string, name: string)

  const FIELDS_REQUIRED: string := "Name, email and password are required"
  const EMAIL_TAKEN: string := "User already exists with this email"
  const CREDENTIALS_REQUIRED: string := "Email and password are required"
  const BAD_LOGIN: string := "Invalid email or password"
  /** What the password library rejects with when the account has no password hash. */
  const NO_HASH: string := "Illegal arguments: string, undefined"
  const BAD_SELLER_LOGIN: string := "Invalid credentials"

  /** The customer session cookie for a user id; `sign` issues a token for claims. */
  function SessionCookie(userId: string, sign: Claims -> string, isProduction: bool): Cookie
  {
    SetCookie("token", sign(Claims(userId, None)), CookieOptionsFor(isProduction))
  }

  /** `register`. `hash` stands for the password hash, `sign` for token
      signing and `newId` for the id the database assigns. */
  function Register(users: seq<User>, name: string, email: string, password: string, newId: string,
                    hash: string -> string, sign: Claims -> string, isProduction: bool): (r: AccountOutcome<Profile>)
    ensures name == "" || email == "" || password == "" ==> r == AccountOutcome(Err(BAD_REQUEST, FIELDS_REQUIRED), users, [])
    ensures name != "" && email != "" && password != "" && FindByEmail(users, email).Some? ==>
      r == AccountOutcome(Err(CONFLICT, EMAIL_TAKEN), users, [])
    ensures r.reply.Ok? <==> name != "" && email != "" && password != "" && FindByEmail(users, email).None?
    ensures r.reply.Err? ==> r.users == users && r.cookies == []
    ensures r.reply.Ok? ==> r.reply == Ok(CREATED, "User registered successfully", Profile(email, name))
    ensures r.reply.Ok? ==> r.users == users + [NewUser(newId, name, email, Some(hash(password)))]
    ensures r.reply.Ok? ==> r.cookies == [SessionCookie(newId, sign, isProduction)]
  {
    if name == "" || email == "" || password == "" then AccountOutcome(Err(BAD_REQUEST, FIELDS_REQUIRED), users, [])
    else if FindByEmail(users, email).Some? then AccountOutcome(Err(CONFLICT, EMAIL_TAKEN), users, [])
    else
      var u := NewUser(newId, name, email, Some(hash(password)));
      AccountOutcome(Ok(CREATED, "User registered successfully", Profile(email, name)), users + [u],
                     [SessionCookie(newId, sign, isProduction)])
  }

  /** Registration keeps ids and emails unique when the assigned id is new. */
  lemma RegisterKeepsUniqueKeys(users: seq<User>, name: string, email: string, password: string, newId: string,
                                hash: string -> string, sign: Claims -> string, isProduction: bool)
    requires UniqueKeys(users)
    requires FindUser(users, newId).None?
    ensures UniqueKeys(Register(users, name, email, password, newId, hash, sign, isProduction).users)
  {
    var r := Register(users, name, email, password, newId, hash, sign, isProduction);
    if r.reply.Ok? {
      var s := r.users;
      forall i, j | 0 <= i < j < |s|
        ensures s[i].id != s[j].id && s[i].email != s[j].email && (s[i].googleId.Some? ==> s[i].googleId != s[j].googleId)
      {
        if j == |users| {
          assert s[i] == users[i];
        } else {
          assert s[i] == users[i] && s[j] == users[j];
        }
      }
    }
  }

  /** `login`. `matches(plain, hashed)` is the password library's comparison. */
  function Login(users: seq<User>, email: string, password: string, matches: (string, string) -> bool,
                 sign: Claims -> string, isProduction: bool): (r: AccountOutcome<Profile>)
    ensures r.users == users
    ensures email == "" || password == "" ==> r.reply == Err(BAD_REQUEST, CREDENTIALS_REQUIRED)
    ensures email != "" && password != "" && FindByEmail(users, email).None? ==> r.reply == Err(UNAUTHORIZED, BAD_LOGIN)
    ensures email != "" && password != "" && FindByEmail(users, email).Some? ==>
      var u := FindByEmail(users, email).value;
      && (u.password.None? ==> r.reply == Err(INTERNAL_SERVER_ERROR, NO_HASH))
      && (u.password.Some? && !matches(password, u.password.value) ==> r.reply == Err(UNAUTHORIZED, BAD_LOGIN))
    ensures r.reply.Ok? <==>
      && email != "" && password != "" && FindByEmail(users, email).Some?
      && FindByEmail(users, email).value.password.Some?
      && matches(password, FindByEmail(users, email).value.password.value)
    ensures r.reply.Ok? ==> var u := FindByEmail(users, email).value;
      r.reply == Ok(OK, "Login successful", Profile(u.email, u.name)) && r.cookies == [SessionCookie(u.id, sign, isProduction)]
    ensures r.reply.Err? ==> r.cookies == []
  {
    if email == "" || password == "" then AccountOutcome(Err(BAD_REQUEST, CREDENTIALS_REQUIRED), users, [])
    else match FindByEmail(users, email)
      case None => AccountOutcome(Err(UNAUTHORIZED, BAD_LOGIN), users, [])
      case Some(u) =>
        if u.password.None? then AccountOutcome(Err(INTERNAL_SERVER_ERROR, NO_HASH), users, [])
        else if !matches(password, u.password.value) then AccountOutcome(Err(UNAUTHORIZED, BAD_LOGIN), users, [])
        else AccountOutcome(Ok(OK, "Login successful", Profile(u.email, u.name)), users, [SessionCookie(u.id, sign, isProduction)])
  }

  /** An unknown email and a wrong password for a known one get the same
      answer, so a failed login does not tell whether the account exists. */
  lemma LoginFailuresAlike(users: seq<User>, unknown: string, known: string, password: string,
                           matches: (string, string) -> bool, sign: Claims -> string, isProduction: bool)
    requires unknown != "" && known != "" && password != ""
    requires FindByEmail(users, unknown).None?
    requires FindByEmail(users, known).Some? && FindByEmail(users, known).value.password.Some?
    requires !matches(password, FindByEmail(users, known).value.password.value)
    ensures Login(users, unknown, password, matches, sign, isProduction) == Login(users, known, password, matches, sign, isProduction)
  {
  }

  /** Registering and then logging in with the same email and password
      succeeds and opens a session for the new account. */
  lemma RegisterThenLogin(users: seq<User>, name: string, email: string, password: string, newId: string,
                          hash: string -> string, matches: (string, string) -> bool, sign: Claims -> string, isProduction: bool)
    requires forall p :: matches(p, hash(p))
    requires Register(users, name, email, password, newId, hash, sign, isProduction).reply.Ok?
    ensures var after := Register(users, name, email, password, newId, hash, sign, isProduction).users;
      Login(after, email, password, matches, sign, isProduction) ==
        AccountOutcome(Ok(OK, "Login successful", Profile(email, name)), after, [SessionCookie(newId, sign, isProduction)])
  {
    var after := Register(users, name, email, password, newId, hash, sign, isProduction).users;
    FindByEmailAppend(users, NewUser(newId, name, email, Some(hash(password))));
  }

  /** Looking up the email of a user appended after every other holder of
      that email finds the appended user. */
  lemma {:induction false} FindByEmailAppend(users: seq<User>, u: User)
    requires FindByEmail(users, u.email).None?
    ensures FindByEmail(users + [u], u.email) == Some(u)
  {
    if |users| > 0 {
      assert (users + [u])[1..] == users[1..] + [u];
      FindByEmailAppend(users[1..], u);
    }
  }

  /** With tokens that verify back to the claims they were signed with, the
      cookie login sets lets the customer through the customer gate as the
      account it logged into. */
  lemma LoginSessionPassesGate(users: seq<User>, email: string, password: string, matches: (string, string) -> bool,
                               sign: Claims -> string, verify: string -> Verified, isProduction: bool)
    requires forall c :: verify(sign(c)) == Valid(c)
    requires forall c :: sign(c) != ""
    requires Login(users, email, password, matches, sign, isProduction).reply.Ok?
    requires FindByEmail(users, email).value.id != ""
    ensures var cookie := Login(users, email, password, matches, sign, isProduction).cookies[0];
      cookie.name == "token" && AuthUser(cookie.value, verify) == Next(Some(FindByEmail(users, email).value.id))
  {
    var u := FindByEmail(users, email).value;
    assert verify(sign(Claims(u.id, None))) == Valid(Claims(u.id, None));
  }

  /** `logout`: the session cookie is cleared with the flags it was set with. */
  function Logout(isProduction: bool): (r: (Reply<()>, Cookie))
    ensures r.0 == Ok(OK, "Logged out successfully", ())
    ensures r.1.ClearCookie? && r.1.name == "token"
    ensures r.1.options.(maxAgeMs := CookieOptionsFor(isProduction).maxAgeMs) == CookieOptionsFor(isProduction)
  {
    (Ok(OK, "Logged out successfully", ()), ClearCookie("token", ClearCookieOptions(isProduction)))
  }

  /** `sellerLogin`. Both credentials come from the request body and the
      settings, each None when missing; they must match exactly. */
  function SellerLogin(email: Option<string>, password: Option<string>, sellerEmail: Option<string>,
                       sellerPassword: Option<string>, sign: Claims -> string, isProduction: bool): (r: (Reply<()>, seq<Cookie>))
    ensures r.0.Ok? <==> password == sellerPassword && email == sellerEmail
    ensures r.0.Err? ==> r.0 == Err(UNAUTHORIZED, BAD_SELLER_LOGIN) && r.1 == []
    ensures r.0.Ok? ==> r.0.status == OK && r.1 == [SetCookie("sellerToken", sign(Claims("", email)), CookieOptionsFor(isProduction))]
  {
    if password != sellerPassword || email != sellerEmail then (Err(UNAUTHORIZED, BAD_SELLER_LOGIN), [])
    else (Ok(OK, "Seller login successful", ()), [SetCookie("sellerToken", sign(Claims("", email)), CookieOptionsFor(isProduction))])
  }

  /** With tokens that verify back to their claims, the cookie the seller
      login sets passes the seller gate. */
  lemma SellerSessionPassesGate(email: Option<string>, password: Option<string>, sellerEmail: Option<string>,
                                sellerPassword: Option<string>, sign: Claims -> string, verify: string -> Verified,
                                isProduction: bool)
    requires forall c :: verify(sign(c)) == Valid(c)
    requires forall c :: sign(c) != ""
    requires SellerLogin(email, password, sellerEmail, sellerPassword, sign, isProduction).0.Ok?
    ensures var cookie := SellerLogin(email, password, sellerEmail, sellerPassword, sign, isProduction).1[0];
      cookie.name == "sellerToken" && AuthSeller(cookie.value, verify, sellerEmail) == Next(None)
  {
    assert verify(sign(Claims("", email))) == Valid(Claims("", email));
  }

  /** With neither seller setting present, a request that leaves out both
      credentials logs in as the seller. */
  lemma UnconfiguredSellerLogin(sign: Claims -> string, isProduction: bool)
    ensures SellerLogin(None, None, None, None, sign, isProduction).0.Ok?
  {
  }

  /** `isSellerAuth`: reached only through the seller gate, it always succeeds. */
  function IsSellerAuth(): (r: Reply<()>)
    ensures r.Ok? && r.status == OK
  {
    Ok(OK, "Seller authenticated", ())
  }

  /** `sellerLogout`: the seller cookie is cleared with the flags it was set with. */
  function SellerLogout(isProduction: bool): (r: (Reply<()>, Cookie))
    ensures r.0 == Ok(OK, "Seller logged out successfully", ())
    ensures r.1.ClearCookie? && r.1.name == "sellerToken"
    ensures r.1.options.(maxAgeMs := CookieOptionsFor(isProduction).maxAgeMs) == CookieOptionsFor(isProduction)
  {
    (Ok(OK, "Seller logged out successfully", ()), ClearCookie("sellerToken", ClearCookieOptions(isProduction)))
  }
}
