/** The signed-in customer's profile and password endpoints, and the
    password reset flow. */
module Passwords {
  import opened Wrappers
  import opened Constants
  import opened Users

  const USER_NOT_FOUND: string := "User not found"
  const MIN_PASSWORD: int := 6
  /** What the password library rejects with when the account has no password hash. */
  const NO_HASH: string := "Illegal arguments: string, undefined"

  /** The user as the profile endpoints return it: without the password
      hash and the reset fields. */
  function Public(u: User): (v: User)
    ensures v.password.None? && v.resetPasswordToken.None? && v.resetPasswordExpiry.None?
    ensures v.(password := u.password, resetPasswordToken := u.resetPasswordToken, resetPasswordExpiry := u.resetPasswordExpiry) == u
  {
    u.(password := None, resetPasswordToken := None, resetPasswordExpiry := None)
  }

  /** The fields a profile update sets: each only when given (non-empty). */
  function Patched(u: User, name: string, phone: string, avatar: string): (v: User)
    ensures v.name == (if name != "" then name else u.name)
    ensures v.phone == (if phone != "" then phone else u.phone)
    ensures v.avatar == (if avatar != "" then avatar else u.avatar)
    ensures v.(name := u.name, phone := u.phone, avatar := u.avatar) == u
  {
    u.(name := if name != "" then name else u.name,
       phone := if phone != "" then phone else u.phone,
       avatar := if avatar != "" then avatar else u.avatar)
  }

  /** `updateProfile` for the signed-in user `userId`. */
  function UpdateProfile(users: seq<User>, userId: string, name: string, phone: string, avatar: string): (r: Outcome<User>)
    ensures FindUser(users, userId).None? ==> r == Outcome(Err(NOT_FOUND, USER_NOT_FOUND), users)
    ensures r.reply.Ok? <==> FindUser(users, userId).Some?
    ensures r.reply.Ok? ==>
      && r.reply.status == OK
      && FindUser(r.users, userId) == Some(Patched(FindUser(users, userId).value, name, phone, avatar))
      && r.reply.value == Public(FindUser(r.users, userId).value)
    ensures forall k :: k != userId ==> FindUser(r.users, k) == FindUser(users, k)
  {
    match FindUser(users, userId)
    case None => Outcome(Err(NOT_FOUND, USER_NOT_FOUND), users)
    case Some(u) =>
      var v := Patched(u, name, phone, avatar);
      Outcome(Ok(OK, "Profile updated successfully", Public(v)), SetUser(users, v))
  }

  /** An update with no fields given changes no stored user. */
  lemma EmptyUpdateChangesNothing(users: seq<User>, userId: string)
    ensures forall k :: FindUser(UpdateProfile(users, userId, "", "", "").users, k) == FindUser(users, k)
  {
  }

  /** Repeating an update stores the same result. */
  lemma UpdateProfileIdempotent(users: seq<User>, userId: string, name: string, phone: string, avatar: string)
    ensures var once := UpdateProfile(users, userId, name, phone, avatar);
      UpdateProfile(once.users, userId, name, phone, avatar) == once
  {
    var once := UpdateProfile(users, userId, name, phone, avatar);
    if FindUser(users, userId).Some? {
      var v := Patched(FindUser(users, userId).value, name, phone, avatar);
      SetUserTwice(users, v);
      assert Patched(v, name, phone, avatar) == v;
    }
  }

  /** `isAuth`: the signed-in user with only the password hash removed. */
  function IsAuth(users: seq<User>, userId: string): (r: Reply<User>)
    ensures r.Err? <==> FindUser(users, userId).None?
    ensures r.Err? ==> r == Err(NOT_FOUND, USER_NOT_FOUND)
    ensures r.Ok? ==> var u := FindUser(users, userId).value;
      && r.status == OK && r.value.password.None?
      && r.value.(password := u.password) == u
  {
    match FindUser(users, userId)
    case None => Err(NOT_FOUND, USER_NOT_FOUND)
    case Some(u) => Ok(OK, "User authenticated", u.(password := None))
  }

  /** `getProfile`: the signed-in user without the password hash and the
      reset fields. */
  function GetProfile(users: seq<User>, userId: string): (r: Reply<User>)
    ensures r.Err? <==> FindUser(users, userId).None?
    ensures r.Err? ==> r == Err(NOT_FOUND, USER_NOT_FOUND)
    ensures r.Ok? ==> r.status == OK && r.value.password.None? && r.value.resetPasswordToken.None? && r.value.resetPasswordExpiry.None?
  {
    match FindUser(users, userId)
    case None => Err(NOT_FOUND, USER_NOT_FOUND)
    case Some(u) => Ok(OK, "Profile fetched successfully", Public(u))
  }

  /** The profile is the `isAuth` user with the reset fields also removed. */
  lemma ProfileHidesMore(users: seq<User>, userId: string)
    ensures GetProfile(users, userId).Ok? <==> IsAuth(users, userId).Ok?
    ensures GetProfile(users, userId).Ok? ==> GetProfile(users, userId).value == Public(IsAuth(users, userId).value)
  {
  }

  /** After an update, fetching the profile returns what the update replied. */
  lemma UpdateThenGetProfile(users: seq<User>, userId: string, name: string, phone: string, avatar: string)
    requires UpdateProfile(users, userId, name, phone, avatar).reply.Ok?
    ensures var out := UpdateProfile(users, userId, name, phone, avatar);
      GetProfile(out.users, userId) == Ok(OK, "Profile fetched successfully", out.reply.value)
  {
  }

  /** After a reset request, `isAuth` hands the signed-in user the stored
      reset digest, which the profile endpoint hides. */
  lemma IsAuthShowsResetDigest(users: seq<User>, email: string, resetToken: string, digest: string -> string,
                               now: int, isDevelopment: bool)
    requires email != "" && FindByEmail(users, email).Some?
    ensures var after := ForgotPassword(users, email, resetToken, digest, now, isDevelopment).users;
      var id := FindByEmail(users, email).value.id;
      && IsAuth(after, id).Ok? && IsAuth(after, id).value.resetPasswordToken == Some(digest(resetToken))
      && GetProfile(after, id).Ok? && GetProfile(after, id).value.resetPasswordToken.None?
  {
  }

  const CHANGE_FIELDS_REQUIRED: string := "Current password and new password are required"
  const NEW_TOO_SHORT: string := "New password must be at least 6 characters"
  const WRONG_CURRENT: string := "Current password is incorrect"

  /** `changePassword`. `matches(plain, hashed)` is the password library's
      comparison and `hash` its hashing. */
  function ChangePassword(users: seq<User>, userId: string, current: string, newPassword: string,
                          matches: (string, string) -> bool, hash: string -> string): (r: Outcome<()>)
    ensures current == "" || newPassword == "" ==> r == Outcome(Err(BAD_REQUEST, CHANGE_FIELDS_REQUIRED), users)
    ensures current != "" && 0 < |newPassword| < MIN_PASSWORD ==> r == Outcome(Err(BAD_REQUEST, NEW_TOO_SHORT), users)
    ensures current != "" && |newPassword| >= MIN_PASSWORD ==>
      && (FindUser(users, userId).None? ==> r == Outcome(Err(NOT_FOUND, USER_NOT_FOUND), users))
      && (FindUser(users, userId).Some? && FindUser(users, userId).value.password.None? ==>
            r == Outcome(Err(INTERNAL_SERVER_ERROR, NO_HASH), users))
      && (FindUser(users, userId).Some? && FindUser(users, userId).value.password.Some? &&
          !matches(current, FindUser(users, userId).value.password.value) ==>
            r == Outcome(Err(UNAUTHORIZED, WRONG_CURRENT), users))
    ensures r.reply.Ok? <==>
      && current != "" && |newPassword| >= MIN_PASSWORD
      && FindUser(users, userId).Some? && FindUser(users, userId).value.password.Some?
      && matches(current, FindUser(users, userId).value.password.value)
    ensures r.reply.Err? ==> r.users == users
    ensures r.reply.Ok? ==>
      && r.reply.status == OK
      && FindUser(r.users, userId) == Some(FindUser(users, userId).value.(password := Some(hash(newPassword))))
    ensures forall k :: k != userId ==> FindUser(r.users, k) == FindUser(users, k)
  {
    if current == "" || newPassword == "" then Outcome(Err(BAD_REQUEST, CHANGE_FIELDS_REQUIRED), users)
    else if |newPassword| < MIN_PASSWORD then Outcome(Err(BAD_REQUEST, NEW_TOO_SHORT), users)
    else match FindUser(users, userId)
      case None => Outcome(Err(NOT_FOUND, USER_NOT_FOUND), users)
      case Some(u) =>
        if u.password.None? then Outcome(Err(INTERNAL_SERVER_ERROR, NO_HASH), users)
        else if !matches(current, u.password.value) then Outcome(Err(UNAUTHORIZED, WRONG_CURRENT), users)
        else Outcome(Ok(OK, "Password changed successfully", ()), SetUser(users, u.(password := Some(hash(newPassword)))))
  }

  /** After a change, the new password is accepted as the current one, so
      changing back succeeds exactly when the old password is long enough. */
  lemma ChangeThenChangeBack(users: seq<User>, userId: string, current: string, newPassword: string,
                             matches: (string, string) -> bool, hash: string -> string)
    requires forall p :: matches(p, hash(p))
    requires ChangePassword(users, userId, current, newPassword, matches, hash).reply.Ok?
    ensures var after := ChangePassword(users, userId, current, newPassword, matches, hash).users;
      ChangePassword(after, userId, newPassword, current, matches, hash).reply.Ok? <==> |current| >= MIN_PASSWORD
  {
  }

  /** After a change, the old password is refused as the current one
      whenever it does not match the new hash. */
  lemma OldPasswordRefusedAfterChange(users: seq<User>, userId: string, current: string, newPassword: string,
                                      next: string, matches: (string, string) -> bool, hash: string -> string)
    requires ChangePassword(users, userId, current, newPassword, matches, hash).reply.Ok?
    requires !matches(current, hash(newPassword)) && |next| >= MIN_PASSWORD
    ensures var after := ChangePassword(users, userId, current, newPassword, matches, hash).users;
      ChangePassword(after, userId, current, next, matches, hash) == Outcome(Err(UNAUTHORIZED, WRONG_CURRENT), after)
  {
  }

  const RESET_MESSAGE: string := "If email exists, reset link will be sent"
  /** Thirty minutes, in milliseconds. */
  const RESET_WINDOW_MS: int := 30 * 60 * 1000

  /** The data of the reply when a token was issued; the token itself is
      included only in development. */
  datatype ResetIssued = ResetIssued(message: string, resetToken: Option<string>)

  /** `forgotPassword`. `resetToken` is the fresh random token, `digest` the
      hash stored in its place and `now` the clock in milliseconds. */
  function ForgotPassword(users: seq<User>, email: string, resetToken: string, digest: string -> string,
                          now: int, isDevelopment: bool): (r: Outcome<Option<ResetIssued>>)
    ensures email == "" ==> r == Outcome(Err(BAD_REQUEST, "Email is required"), users)
    ensures email != "" ==> r.reply.Ok? && r.reply.status == OK && r.reply.message == RESET_MESSAGE
    ensures email != "" && FindByEmail(users, email).None? ==> r.users == users && r.reply.value.None?
    ensures email != "" && FindByEmail(users, email).Some? ==>
      var u := FindByEmail(users, email).value;
      && FindUser(r.users, u.id) == Some(u.(resetPasswordToken := Some(digest(resetToken)), resetPasswordExpiry := Some(now + RESET_WINDOW_MS)))
      && r.reply.value == Some(ResetIssued("Reset token generated", if isDevelopment then Some(resetToken) else None))
  {
    if email == "" then Outcome(Err(BAD_REQUEST, "Email is required"), users)
    else match FindByEmail(users, email)
      case None => Outcome(Ok(OK, RESET_MESSAGE, None), users)
      case Some(u) =>
        var v := u.(resetPasswordToken := Some(digest(resetToken)), resetPasswordExpiry := Some(now + RESET_WINDOW_MS));
        Outcome(Ok(OK, RESET_MESSAGE, Some(ResetIssued("Reset token generated", if isDevelopment then Some(resetToken) else None))),
                SetUser(users, v))
  }

  /** The status and message are the same whether or not the email belongs
      to an account, but the data is not: it is null only for an unknown
      email, so the reply does tell the two apart. */
  lemma ForgotPasswordDataDiffers(users: seq<User>, known: string, unknown: string, resetToken: string,
                                  digest: string -> string, now: int, isDevelopment: bool)
    requires known != "" && unknown != ""
    requires FindByEmail(users, known).Some? && FindByEmail(users, unknown).None?
    ensures var a := ForgotPassword(users, known, resetToken, digest, now, isDevelopment).reply;
      var b := ForgotPassword(users, unknown, resetToken, digest, now, isDevelopment).reply;
      a.status == b.status && a.message == b.message && a.value != b.value
  {
  }

  /** The first user holding `hashed` as an unexpired reset token. */
  function FindResetHolder(users: seq<User>, hashed: string, now: int): (r: Option<User>)
    ensures r.Some? ==>
      && r.value in users && r.value.resetPasswordToken == Some(hashed)
      && r.value.resetPasswordExpiry.Some? && r.value.resetPasswordExpiry.value > now
    ensures r.None? <==> forall i :: 0 <= i < |users| ==>
      users[i].resetPasswordToken != Some(hashed) || users[i].resetPasswordExpiry.None? || users[i].resetPasswordExpiry.value <= now
  {
    if |users| == 0 then None
    else if users[0].resetPasswordToken == Some(hashed) && users[0].resetPasswordExpiry.Some? && users[0].resetPasswordExpiry.value > now
    then Some(users[0])
    else FindResetHolder(users[1..], hashed, now)
  }

  const RESET_BAD_TOKEN: string := "Invalid or expired reset token"

  /** `resetPassword` with the token from the link. */
  function ResetPassword(users: seq<User>, token: string, newPassword: string, digest: string -> string,
                         hash: string -> string, now: int): (r: Outcome<()>)
    ensures newPassword == "" ==> r == Outcome(Err(BAD_REQUEST, "New password is required"), users)
    ensures 0 < |newPassword| < MIN_PASSWORD ==> r == Outcome(Err(BAD_REQUEST, "Password must be at least 6 characters"), users)
    ensures |newPassword| >= MIN_PASSWORD && FindResetHolder(users, digest(token), now).None? ==>
      r == Outcome(Err(BAD_REQUEST, RESET_BAD_TOKEN), users)
    ensures r.reply.Ok? <==> |newPassword| >= MIN_PASSWORD && FindResetHolder(users, digest(token), now).Some?
    ensures r.reply.Err? ==> r.users == users
    ensures r.reply.Ok? ==> var u := FindResetHolder(users, digest(token), now).value;
      && r.reply.status == OK
      && FindUser(r.users, u.id) == Some(u.(password := Some(hash(newPassword)), resetPasswordToken := None, resetPasswordExpiry := None))
    ensures forall k :: r.reply.Ok? && k != FindResetHolder(users, digest(token), now).value.id ==> FindUser(r.users, k) == FindUser(users, k)
  {
    if newPassword == "" then Outcome(Err(BAD_REQUEST, "New password is required"), users)
    else if |newPassword| < MIN_PASSWORD then Outcome(Err(BAD_REQUEST, "Password must be at least 6 characters"), users)
    else match FindResetHolder(users, digest(token), now)
      case None => Outcome(Err(BAD_REQUEST, RESET_BAD_TOKEN), users)
      case Some(u) =>
        var v := u.(password := Some(hash(newPassword)), resetPasswordToken := None, resetPasswordExpiry := None);
        Outcome(Ok(OK, "Password reset successfully", ()), SetUser(users, v))
  }

  /** No two users hold the same reset digest. */
  predicate DistinctResetTokens(users: seq<User>)
  {
    forall i, j :: 0 <= i < j < |users| && users[i].resetPasswordToken.Some? ==>
      users[i].resetPasswordToken != users[j].resetPasswordToken
  }

  /** A reset token works once: the same link is refused afterwards. */
  lemma ResetIsSingleUse(users: seq<User>, token: string, newPassword: string, digest: string -> string,
                         hash: string -> string, now: int, later: int)
    requires UniqueKeys(users) && DistinctResetTokens(users)
    requires ResetPassword(users, token, newPassword, digest, hash, now).reply.Ok?
    ensures var after := ResetPassword(users, token, newPassword, digest, hash, now).users;
      ResetPassword(after, token, newPassword, digest, hash, later).reply == Err(BAD_REQUEST, RESET_BAD_TOKEN)
  {
    var h := digest(token);
    var u := FindResetHolder(users, h, now).value;
    var v := u.(password := Some(hash(newPassword)), resetPasswordToken := None, resetPasswordExpiry := None);
    var i :| 0 <= i < |users| && users[i] == u;
    ClearedTokenHasNoHolder(users, i, v, h);
    assert FindResetHolder(SetUser(users, v), h, later).None?;
  }

  /** Once the holder's token is cleared, nobody holds the digest. */
  lemma ClearedTokenHasNoHolder(users: seq<User>, i: int, v: User, h: string)
    requires UniqueKeys(users) && DistinctResetTokens(users) && 0 <= i < |users|
    requires users[i].resetPasswordToken == Some(h)
    requires v.id == users[i].id && v.resetPasswordToken.None?
    ensures forall j :: 0 <= j < |SetUser(users, v)| ==> SetUser(users, v)[j].resetPasswordToken != Some(h)
  {
    var after := SetUser(users, v);
    forall j | 0 <= j < |after| ensures after[j].resetPasswordToken != Some(h) {
      if users[j].id != v.id {
        assert j != i;
        if j < i {
          assert users[j].resetPasswordToken.None? || users[j].resetPasswordToken != users[i].resetPasswordToken;
        } else {
          assert users[i].resetPasswordToken != users[j].resetPasswordToken;
        }
      }
    }
  }

  /** A token issued by the forgot-password step resets the password while
      its thirty minutes last, and not after, provided no other account
      holds the same digest. */
  lemma ForgotThenReset(users: seq<User>, email: string, resetToken: string, digest: string -> string,
                        hash: string -> string, newPassword: string, issued: int, now: int)
    requires UniqueKeys(users)
    requires email != "" && FindByEmail(users, email).Some?
    requires |newPassword| >= MIN_PASSWORD
    requires forall i :: 0 <= i < |users| ==> users[i].resetPasswordToken != Some(digest(resetToken))
    ensures var after := ForgotPassword(users, email, resetToken, digest, issued, false).users;
      ResetPassword(after, resetToken, newPassword, digest, hash, now).reply.Ok? <==> now < issued + RESET_WINDOW_MS
  {
    var h := digest(resetToken);
    var u := FindByEmail(users, email).value;
    var v := u.(resetPasswordToken := Some(h), resetPasswordExpiry := Some(issued + RESET_WINDOW_MS));
    ForgotStores(users, email, resetToken, digest, issued);
    var i :| 0 <= i < |users| && users[i] == u;
    IssuedTokenHasOneHolder(users, i, v, h);
    SoleHolder(SetUser(users, v), i, h, now);
  }

  /** For a known email the step saves the account with the digest and expiry set. */
  lemma ForgotStores(users: seq<User>, email: string, resetToken: string, digest: string -> string, issued: int)
    requires email != "" && FindByEmail(users, email).Some?
    ensures var u := FindByEmail(users, email).value;
      ForgotPassword(users, email, resetToken, digest, issued, false).users
        == SetUser(users, u.(resetPasswordToken := Some(digest(resetToken)), resetPasswordExpiry := Some(issued + RESET_WINDOW_MS)))
  {
  }

  /** When only the account at index `i` carries the digest, the token is
      accepted exactly while that account's expiry lies ahead. */
  lemma SoleHolder(users: seq<User>, i: int, h: string, now: int)
    requires 0 <= i < |users| && users[i].resetPasswordToken == Some(h)
    requires forall j :: 0 <= j < |users| && j != i ==> users[j].resetPasswordToken != Some(h)
    ensures FindResetHolder(users, h, now).Some? <==>
      users[i].resetPasswordExpiry.Some? && users[i].resetPasswordExpiry.value > now
  {
    if users[i].resetPasswordExpiry.Some? && users[i].resetPasswordExpiry.value > now {
      assert !(users[i].resetPasswordToken != Some(h) || users[i].resetPasswordExpiry.None? || users[i].resetPasswordExpiry.value <= now);
    }
  }

  /** After issuing, the account at index `i` is the only holder of the digest. */
  lemma IssuedTokenHasOneHolder(users: seq<User>, i: int, v: User, h: string)
    requires UniqueKeys(users) && 0 <= i < |users|
    requires forall j :: 0 <= j < |users| ==> users[j].resetPasswordToken != Some(h)
    requires v.id == users[i].id && v.resetPasswordToken == Some(h)
    ensures |SetUser(users, v)| == |users| && SetUser(users, v)[i] == v
    ensures forall j :: 0 <= j < |users| && j != i ==> SetUser(users, v)[j].resetPasswordToken != Some(h)
  {
    var after := SetUser(users, v);
    forall j | 0 <= j < |users| && j != i ensures after[j].resetPasswordToken != Some(h) {
      assert users[j].id != users[i].id;
      assert after[j] == users[j];
    }
  }
}
