/** The user record and the user collection. */
module Users {
  import opened Wrappers
  import opened Carts

  datatype AuthProvider = Local | Google

  /** A customer account. `password` holds a hash and is absent for accounts
      that only sign in with Google. */
  datatype User = User(
    id: string,
    name: string,
    email: string,
    password: Option<string>,
    phone: string,
    avatar: string,
    cartItems: Cart,
    wishlist: seq<string>,
    googleId: Option<string>,
    authProvider: AuthProvider,
    resetPasswordToken: Option<string>,
    resetPasswordExpiry: Option<int>)

  /** A user created from the given fields, every other field at its schema
      default; the empty cart is stored as an empty object, not omitted. */
  function NewUser(id: string, name: string, email: string, password: Option<string>): (u: User)
    ensures u.id == id && u.name == name && u.email == email && u.password == password
    ensures u.phone == "" && u.avatar == ""
    ensures u.cartItems == [] && u.wishlist == []
    ensures u.googleId.None? && u.authProvider == Local
    ensures u.resetPasswordToken.None? && u.resetPasswordExpiry.None?
  {
    User(id, name, email, password, "", "", [], [], None, Local, None, None)
  }

  /** Name and email are required. */
  predicate HasRequiredFields(u: User)
  {
    u.name != "" && u.email != ""
  }

  /** The unique indexes of the collection: the id, email, and googleId where present. */
  predicate UniqueKeys(users: seq<User>)
  {
    forall i, j :: 0 <= i < j < |users| ==>
      users[i].id != users[j].id &&
      users[i].email != users[j].email &&
      (users[i].googleId.Some? ==> users[i].googleId != users[j].googleId)
  }

  /** `User.findById(id)` */
  function FindUser(users: seq<User>, id: string): (r: Option<User>)
    ensures r.Some? ==> r.value in users && r.value.id == id
    ensures r.None? <==> forall i :: 0 <= i < |users| ==> users[i].id != id
  {
    if |users| == 0 then None
    else if users[0].id == id then Some(users[0])
    else FindUser(users[1..], id)
  }

  /** `User.findOne({ email })` */
  function FindByEmail(users: seq<User>, email: string): (r: Option<User>)
    ensures r.Some? ==> r.value in users && r.value.email == email
    ensures r.None? <==> forall i :: 0 <= i < |users| ==> users[i].email != email
  {
    if |users| == 0 then None
    else if users[0].email == email then Some(users[0])
    else FindByEmail(users[1..], email)
  }

  /** Saves `u` over the stored user with the same id; no other user changes. */
  function SetUser(users: seq<User>, u: User): (r: seq<User>)
    ensures |r| == |users|
    ensures forall k :: k != u.id ==> FindUser(r, k) == FindUser(users, k)
    ensures FindUser(users, u.id).Some? ==> FindUser(r, u.id) == Some(u)
    ensures FindUser(users, u.id).None? ==> r == users
    ensures forall i :: 0 <= i < |r| ==> r[i] == if users[i].id == u.id then u else users[i]
  {
    if |users| == 0 then []
    else [if users[0].id == u.id then u else users[0]] + SetUser(users[1..], u)
  }

  /** Saving the same user twice is saving it once. */
  lemma {:induction false} SetUserTwice(users: seq<User>, u: User)
    ensures SetUser(SetUser(users, u), u) == SetUser(users, u)
  {
    if |users| > 0 {
      SetUserTwice(users[1..], u);
      var head := if users[0].id == u.id then u else users[0];
      assert ([head] + SetUser(users[1..], u))[1..] == SetUser(users[1..], u);
    }
  }

  /** With unique ids, the user found by id is the one stored at its index. */
  lemma {:induction false} FindUserAt(users: seq<User>, i: int)
    requires UniqueKeys(users) && 0 <= i < |users|
    ensures FindUser(users, users[i].id) == Some(users[i])
  {
    if i > 0 {
      assert users[0].id != users[i].id;
      assert users[1..][i - 1] == users[i];
      FindUserAt(users[1..], i - 1);
    }
  }

  /** Saving a user whose email and googleId are those stored keeps the
      collection's indexes unique. */
  lemma SetUserKeepsUniqueKeys(users: seq<User>, u: User)
    requires UniqueKeys(users)
    requires FindUser(users, u.id).Some?
    requires u.email == FindUser(users, u.id).value.email && u.googleId == FindUser(users, u.id).value.googleId
    ensures UniqueKeys(SetUser(users, u))
  {
    var r := SetUser(users, u);
    forall i | 0 <= i < |users|
      ensures r[i].id == users[i].id && r[i].email == users[i].email && r[i].googleId == users[i].googleId
    {
      if users[i].id == u.id {
        FindUserAt(users, i);
      }
    }
    SameKeysUnique(users, r);
  }

  lemma SameKeysUnique(users: seq<User>, r: seq<User>)
    requires UniqueKeys(users) && |r| == |users|
    requires forall i :: 0 <= i < |users| ==>
      r[i].id == users[i].id && r[i].email == users[i].email && r[i].googleId == users[i].googleId
    ensures UniqueKeys(r)
  {
  }

  /** A reply together with the user collection after the request. */
  datatype Outcome<T> = Outcome(reply: Reply<T>, users: seq<User>)
}
