/** The Google sign-in callback: find the account by Google id or email,
    link or create it, and open a session. */
module GoogleLogin {
  import opened Wrappers
  import opened Constants
  import opened Users
  import opened AuthMiddleware
  import opened Accounts

  /** What the identity provider reports about the person signing in. */
  datatype GoogleProfile = GoogleProfile(googleId: string, email: string, name: string, picture: string)

  /** Where the browser is sent, the users after the request, the cookies set. */
  datatype GoogleOutcome = GoogleOutcome(redirect: string, users: seq<User>, cookies: seq<Cookie>)

  const DEFAULT_FRONTEND: string := "http://localhost:5173"

  /** The storefront address: the setting, or the local default when it is empty. */
  function Frontend(frontendUrl: string): string
  {
    if frontendUrl != "" then frontendUrl else DEFAULT_FRONTEND
  }

  /** `User.findOne({ $or: [{ googleId }, { email }] })` */
  function FindGoogleOrEmail(users: seq<User>, googleId: string, email: string): (r: Option<int>)
    ensures r.Some? ==> 0 <= r.value < |users| && (users[r.value].googleId == Some(googleId) || users[r.value].email == email)
    ensures r.Some? ==> forall i :: 0 <= i < r.value ==> users[i].googleId != Some(googleId) && users[i].email != email
    ensures r.None? <==> forall i :: 0 <= i < |users| ==> users[i].googleId != Some(googleId) && users[i].email != email
  {
    if |users| == 0 then None
    else if users[0].googleId == Some(googleId) || users[0].email == email then Some(0)
    else match FindGoogleOrEmail(users[1..], googleId, email)
      case None => None
      case Some(k) => Some(k + 1)
  }

  /** An account with no Google id yet (missing or empty). */
  predicate Unlinked(u: User)
  {
    u.googleId.None? || u.googleId == Some("")
  }

  /** Some account other than the one at index `i` already holds the Google id. */
  predicate HeldElsewhere(users: seq<User>, i: int, googleId: string)
  {
    exists j | 0 <= j < |users| :: j != i && users[j].googleId == Some(googleId)
  }

  /** The account after linking: the Google id set, the provider switched,
      the picture taken only when the account has no avatar. */
  function Linked(u: User, p: GoogleProfile): (v: User)
    ensures v.googleId == Some(p.googleId) && v.authProvider == Google
    ensures v.avatar == (if p.picture != "" && u.avatar == "" then p.picture else u.avatar)
    ensures v.(googleId := u.googleId, authProvider := u.authProvider, avatar := u.avatar) == u
  {
    u.(googleId := Some(p.googleId), authProvider := Google,
       avatar := if p.picture != "" && u.avatar == "" then p.picture else u.avatar)
  }

  /** The account created for a first Google sign-in. */
  function GoogleUser(id: string, p: GoogleProfile): (u: User)
    ensures u.id == id && u.name == p.name && u.email == p.email && u.avatar == p.picture
    ensures u.password.None? && u.googleId == Some(p.googleId) && u.authProvider == Google
    ensures u.cartItems == [] && u.wishlist == [] && u.phone == ""
  {
    User(id, p.name, p.email, None, "", p.picture, [], [], Some(p.googleId), Google, None, None)
  }

  /** `googleCallback`. `code` is the authorization code ("" when absent);
      `profile` is None when exchanging it or checking the identity token
      fails; `newId` is the id the database assigns to a created account. */
  function GoogleCallback(users: seq<User>, code: string, profile: Option<GoogleProfile>, newId: string,
                          frontendUrl: string, sign: Claims -> string, isProduction: bool): (r: GoogleOutcome)
    ensures code == "" ==> r == GoogleOutcome(Frontend(frontendUrl) + "?error=no_code", users, [])
    ensures code != "" && profile.None? ==> r == GoogleOutcome(Frontend(frontendUrl) + "?error=auth_failed", users, [])
    ensures r.redirect == Frontend(frontendUrl) <==> |r.cookies| == 1
    ensures r.redirect != Frontend(frontendUrl) ==> r.users == users && r.cookies == []
    ensures |r.cookies| == 1 ==> |r.users| >= |users|
    ensures code != "" && profile.Some? ==>
      var p := profile.value;
      var found := FindGoogleOrEmail(users, p.googleId, p.email);
      && (found.Some? && !Unlinked(users[found.value]) ==>
            r == GoogleOutcome(Frontend(frontendUrl), users, [SessionCookie(users[found.value].id, sign, isProduction)]))
      && (found.Some? && Unlinked(users[found.value]) && HeldElsewhere(users, found.value, p.googleId) ==>
            r == GoogleOutcome(Frontend(frontendUrl) + "?error=auth_failed", users, []))
      && (found.Some? && Unlinked(users[found.value]) && !HeldElsewhere(users, found.value, p.googleId) ==>
            r.redirect == Frontend(frontendUrl) && r.users == SetUser(users, Linked(users[found.value], p)) &&
            r.cookies == [SessionCookie(users[found.value].id, sign, isProduction)])
      && (found.None? && (p.name == "" || p.email == "") ==>
            r == GoogleOutcome(Frontend(frontendUrl) + "?error=auth_failed", users, []))
      && (found.None? && p.name != "" && p.email != "" ==>
            r == GoogleOutcome(Frontend(frontendUrl), users + [GoogleUser(newId, p)], [SessionCookie(newId, sign, isProduction)]))
  {
    var fail := GoogleOutcome(Frontend(frontendUrl) + "?error=auth_failed", users, []);
    if code == "" then GoogleOutcome(Frontend(frontendUrl) + "?error=no_code", users, [])
    else if profile.None? then fail
    else
      var p := profile.value;
      match FindGoogleOrEmail(users, p.googleId, p.email)
      case Some(i) =>
        var u := users[i];
        if !Unlinked(u) then GoogleOutcome(Frontend(frontendUrl), users, [SessionCookie(u.id, sign, isProduction)])
        else if HeldElsewhere(users, i, p.googleId) then fail
        else GoogleOutcome(Frontend(frontendUrl), SetUser(users, Linked(u, p)), [SessionCookie(u.id, sign, isProduction)])
      case None =>
        if p.name == "" || p.email == "" then fail
        else GoogleOutcome(Frontend(frontendUrl), users + [GoogleUser(newId, p)], [SessionCookie(newId, sign, isProduction)])
  }

  /** The session opened is for the account found, or for the created one. */
  lemma SessionIsForMatchedAccount(users: seq<User>, code: string, p: GoogleProfile, newId: string,
                                   frontendUrl: string, sign: Claims -> string, isProduction: bool)
    requires |GoogleCallback(users, code, Some(p), newId, frontendUrl, sign, isProduction).cookies| == 1
    ensures var r := GoogleCallback(users, code, Some(p), newId, frontendUrl, sign, isProduction);
      match FindGoogleOrEmail(users, p.googleId, p.email)
      case Some(i) => r.cookies == [SessionCookie(users[i].id, sign, isProduction)]
      case None => r.cookies == [SessionCookie(newId, sign, isProduction)] && r.users == users + [GoogleUser(newId, p)]
  {
  }

  /** An account already linked to a Google id keeps it, whoever signs in. */
  lemma LinkIsPermanent(users: seq<User>, code: string, profile: Option<GoogleProfile>, newId: string,
                        frontendUrl: string, sign: Claims -> string, isProduction: bool, k: string)
    requires UniqueKeys(users)
    requires FindUser(users, k).Some? && !Unlinked(FindUser(users, k).value)
    ensures FindUser(GoogleCallback(users, code, profile, newId, frontendUrl, sign, isProduction).users, k) == FindUser(users, k)
  {
    if code != "" && profile.Some? {
      var p := profile.value;
      match FindGoogleOrEmail(users, p.googleId, p.email)
      case Some(i) =>
        if Unlinked(users[i]) && !HeldElsewhere(users, i, p.googleId) {
          LinkLeavesOthers(users, i, p, k);
        }
      case None =>
        if p.name != "" && p.email != "" {
          FindUserAppend(users, GoogleUser(newId, p), k);
        }
    }
  }

  /** Linking an unlinked account leaves every linked account as it was. */
  lemma LinkLeavesOthers(users: seq<User>, i: int, p: GoogleProfile, k: string)
    requires UniqueKeys(users) && 0 <= i < |users| && Unlinked(users[i])
    requires FindUser(users, k).Some? && !Unlinked(FindUser(users, k).value)
    ensures FindUser(SetUser(users, Linked(users[i], p)), k) == FindUser(users, k)
  {
    FindUserAt(users, i);
  }

  lemma {:induction false} FindUserAppend(users: seq<User>, u: User, k: string)
    requires FindUser(users, k).Some?
    ensures FindUser(users + [u], k) == FindUser(users, k)
  {
    if users[0].id != k {
      assert (users + [u])[1..] == users[1..] + [u];
      FindUserAppend(users[1..], u, k);
    }
  }

  /** The callback keeps ids, emails and Google ids unique, given a fresh
      id for a created account. */
  lemma GoogleKeepsUniqueKeys(users: seq<User>, code: string, profile: Option<GoogleProfile>, newId: string,
                              frontendUrl: string, sign: Claims -> string, isProduction: bool)
    requires UniqueKeys(users)
    requires FindUser(users, newId).None?
    ensures UniqueKeys(GoogleCallback(users, code, profile, newId, frontendUrl, sign, isProduction).users)
  {
    if code != "" && profile.Some? {
      var p := profile.value;
      match FindGoogleOrEmail(users, p.googleId, p.email)
      case Some(i) =>
        if Unlinked(users[i]) && !HeldElsewhere(users, i, p.googleId) {
          LinkKeepsUniqueKeys(users, i, p);
        }
      case None =>
        if p.name != "" && p.email != "" {
          var s := users + [GoogleUser(newId, p)];
          forall a, b | 0 <= a < b < |s|
            ensures s[a].id != s[b].id && s[a].email != s[b].email && (s[a].googleId.Some? ==> s[a].googleId != s[b].googleId)
          {
            assert s[a] == users[a];
            if b < |users| { assert s[b] == users[b]; }
          }
        }
    }
  }

  lemma LinkKeepsUniqueKeys(users: seq<User>, i: int, p: GoogleProfile)
    requires UniqueKeys(users) && 0 <= i < |users|
    requires !HeldElsewhere(users, i, p.googleId)
    ensures UniqueKeys(SetUser(users, Linked(users[i], p)))
  {
    var v := Linked(users[i], p);
    var s := SetUser(users, v);
    forall a | 0 <= a < |users| ensures s[a] == if a == i then v else users[a] {
      if a != i { assert users[a].id != users[i].id || a == i; }
    }
    forall a, b | 0 <= a < b < |s|
      ensures s[a].id != s[b].id && s[a].email != s[b].email && (s[a].googleId.Some? ==> s[a].googleId != s[b].googleId)
    {
      if a == i {
        assert users[b].googleId != Some(p.googleId);
      } else if b == i {
        assert users[a].googleId != Some(p.googleId);
      }
    }
  }

  /** Signing in again with the same Google account changes nothing more
      (the provider's subject id is never empty). */
  lemma SecondSignInChangesNothing(users: seq<User>, code: string, p: GoogleProfile, newId: string, newId2: string,
                                   frontendUrl: string, sign: Claims -> string, isProduction: bool)
    requires UniqueKeys(users)
    requires p.googleId != ""
    ensures var once := GoogleCallback(users, code, Some(p), newId, frontendUrl, sign, isProduction);
      GoogleCallback(once.users, code, Some(p), newId2, frontendUrl, sign, isProduction).users == once.users
  {
    if code != "" {
      match FindGoogleOrEmail(users, p.googleId, p.email)
      case Some(i) =>
        if Unlinked(users[i]) && !HeldElsewhere(users, i, p.googleId) {
          var s := SetUser(users, Linked(users[i], p));
          LinkedIsFoundAgain(users, i, p);
          assert !Unlinked(s[i]);
        }
      case None =>
        if p.name != "" && p.email != "" {
          var s := users + [GoogleUser(newId, p)];
          CreatedIsFoundAgain(users, p, newId);
          assert !Unlinked(s[|users|]);
        }
    }
  }

  /** After linking, the same profile finds the same, now linked, account. */
  lemma LinkedIsFoundAgain(users: seq<User>, i: int, p: GoogleProfile)
    requires UniqueKeys(users) && 0 <= i < |users|
    requires FindGoogleOrEmail(users, p.googleId, p.email) == Some(i)
    ensures var s := SetUser(users, Linked(users[i], p));
      FindGoogleOrEmail(s, p.googleId, p.email) == Some(i) && s[i] == Linked(users[i], p)
  {
    var v := Linked(users[i], p);
    var s := SetUser(users, v);
    forall a | 0 <= a < |users| ensures s[a] == if a == i then v else users[a] {
      if a != i { assert users[a].id != users[i].id; }
    }
    FindFirstAt(s, p.googleId, p.email, i);
  }

  /** After creating, the same profile finds the created account. */
  lemma CreatedIsFoundAgain(users: seq<User>, p: GoogleProfile, newId: string)
    requires FindGoogleOrEmail(users, p.googleId, p.email).None?
    ensures var s := users + [GoogleUser(newId, p)];
      FindGoogleOrEmail(s, p.googleId, p.email) == Some(|users|)
  {
    var s := users + [GoogleUser(newId, p)];
    FindFirstAt(s, p.googleId, p.email, |users|);
  }

  /** The search answers `i` when `i` matches and no earlier account does. */
  lemma {:induction false} FindFirstAt(users: seq<User>, googleId: string, email: string, i: int)
    requires 0 <= i < |users|
    requires users[i].googleId == Some(googleId) || users[i].email == email
    requires forall a :: 0 <= a < i ==> users[a].googleId != Some(googleId) && users[a].email != email
    ensures FindGoogleOrEmail(users, googleId, email) == Some(i)
  {
    if i > 0 {
      FindFirstAt(users[1..], googleId, email, i - 1);
    }
  }
}
