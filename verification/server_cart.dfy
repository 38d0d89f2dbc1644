/** The server's cart endpoint: the stored cart is replaced wholesale by the
    map the client sends, with no validation of ids or quantities. */
module ServerCart {
  import opened Wrappers
  import opened Constants
  import opened Carts
  import opened Users

  /** POST /api/cart/update. The reply is 200 even when the id matches no user. */
  function UpdateCart(users: seq<User>, userId: string, cartItems: Cart): (r: Outcome<()>)
    ensures r.reply == Ok(OK, "Cart updated successfully", ())
    ensures FindUser(users, userId).None? ==> r.users == users
    ensures FindUser(users, userId).Some? ==>
      FindUser(r.users, userId) == Some(FindUser(users, userId).value.(cartItems := cartItems))
    ensures forall k :: k != userId ==> FindUser(r.users, k) == FindUser(users, k)
  {
    match FindUser(users, userId)
    case None => Outcome(Ok(OK, "Cart updated successfully", ()), users)
    case Some(u) => Outcome(Ok(OK, "Cart updated successfully", ()), SetUser(users, u.(cartItems := cartItems)))
  }

  /** Overwriting a cart keeps the user indexes unique. */
  lemma UpdateCartKeepsUniqueKeys(users: seq<User>, userId: string, cartItems: Cart)
    requires UniqueKeys(users)
    ensures UniqueKeys(UpdateCart(users, userId, cartItems).users)
  {
    match FindUser(users, userId)
    case None =>
    case Some(u) => SetUserKeepsUniqueKeys(users, u.(cartItems := cartItems));
  }

  /** Sending the same map twice leaves the state the first request left. */
  lemma UpdateCartIdempotent(users: seq<User>, userId: string, cartItems: Cart)
    ensures
      var once := UpdateCart(users, userId, cartItems).users;
      UpdateCart(once, userId, cartItems).users == once
  {
    match FindUser(users, userId)
    case None =>
    case Some(u) =>
      var v := u.(cartItems := cartItems);
      SetUserTwice(users, v);
  }

  /** The second of two updates wins outright: nothing of the first map survives. */
  lemma UpdateCartOverwrites(users: seq<User>, userId: string, first: Cart, second: Cart)
    requires FindUser(users, userId).Some?
    ensures
      var after := UpdateCart(UpdateCart(users, userId, first).users, userId, second).users;
      FindUser(after, userId).value.cartItems == second
  {
  }

  /** The older endpoint's reply: `success: true` or a 500 carrying the database error. */
  function LegacyUpdateCart(users: seq<User>, userId: string, cartItems: Cart, dbError: Option<string>): (r: Outcome<()>)
    ensures dbError.Some? ==> r.reply == Err(INTERNAL_SERVER_ERROR, dbError.value) && r.users == users
    ensures dbError.None? ==> r.reply == Ok(OK, "Cart updated", ())
  {
    match dbError
    case Some(m) => Outcome(Err(INTERNAL_SERVER_ERROR, m), users)
    case None => Outcome(Ok(OK, "Cart updated", ()), UpdateCart(users, userId, cartItems).users)
  }

  /** Without a database error the two endpoints store the same thing. */
  lemma LegacyUpdateCartAgrees(users: seq<User>, userId: string, cartItems: Cart)
    ensures LegacyUpdateCart(users, userId, cartItems, None).users == UpdateCart(users, userId, cartItems).users
  {
  }
}
