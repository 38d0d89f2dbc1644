/** The server's wishlist controllers: a per-user list of product ids with
    no uniqueness constraint of its own. */
module Wishlist {
  import opened Wrappers
  import opened Constants
  import opened Users
  import Seqs

  /** `list.filter(id => id !== productId)` */
  function Without(w: seq<string>, productId: string): (r: seq<string>)
    ensures productId !in r
    ensures forall x :: x != productId ==> (x in r <==> x in w)
    ensures |r| <= |w|
  {
    Seqs.Filter(w, id => id != productId)
  }

  /** Remove every occurrence of a listed product, or append an unlisted one. */
  function Toggled(w: seq<string>, productId: string): seq<string>
  {
    if productId in w then Without(w, productId) else w + [productId]
  }

  /** Toggling flips membership of the product and of nothing else. */
  lemma ToggledFlipsMembership(w: seq<string>, productId: string)
    ensures productId in Toggled(w, productId) <==> productId !in w
    ensures forall x :: x != productId ==> (x in Toggled(w, productId) <==> x in w)
  {
  }

  /** Toggling twice restores every product's membership, and restores the
      list itself when the product was not listed to begin with. */
  lemma {:induction false} ToggleTwice(w: seq<string>, productId: string)
    ensures forall x :: x in Toggled(Toggled(w, productId), productId) <==> x in w
    ensures productId !in w ==> Toggled(Toggled(w, productId), productId) == w
  {
    ToggledFlipsMembership(w, productId);
    ToggledFlipsMembership(Toggled(w, productId), productId);
    if productId !in w {
      AppendThenWithout(w, productId);
    }
  }

  /** Removing a product just appended to a list that lacked it restores the list. */
  lemma {:induction false} AppendThenWithout(w: seq<string>, productId: string)
    requires productId !in w
    ensures Without(w + [productId], productId) == w
  {
    var p := (id: string) => id != productId;
    Seqs.FilterAppend(w, [productId], p);
    Seqs.FilterKeepsAll(w, p);
    Seqs.FilterDropsAll([productId], p);
  }

  const NULL_USER: string := "Cannot read properties of null (reading 'wishlist')"

  /** GET /api/wishlist */
  function GetWishlist(users: seq<User>, userId: string): (r: Reply<seq<string>>)
    ensures r.Ok? <==> FindUser(users, userId).Some?
    ensures r.Ok? ==> r.status == OK && r.value == FindUser(users, userId).value.wishlist
    ensures r.Err? ==> r.status == INTERNAL_SERVER_ERROR
  {
    match FindUser(users, userId)
    case None => Err(INTERNAL_SERVER_ERROR, NULL_USER)
    case Some(u) => Ok(OK, "Wishlist fetched successfully", u.wishlist)
  }

  /** POST /api/wishlist/add */
  function AddToWishlist(users: seq<User>, userId: string, productId: string): (r: Outcome<()>)
    ensures r.reply.Err? ==> r.users == users
    ensures productId == "" ==> r.reply == Err(BAD_REQUEST, "Product ID is required")
    ensures r.reply.Err? && r.reply.status == CONFLICT <==>
      productId != "" && FindUser(users, userId).Some? && productId in FindUser(users, userId).value.wishlist
    ensures r.reply.Ok? <==>
      productId != "" && FindUser(users, userId).Some? && productId !in FindUser(users, userId).value.wishlist
    ensures r.reply.Ok? ==>
      var u := FindUser(users, userId).value;
      r.users == SetUser(users, u.(wishlist := u.wishlist + [productId]))
  {
    if productId == "" then Outcome(Err(BAD_REQUEST, "Product ID is required"), users)
    else match FindUser(users, userId)
      case None => Outcome(Err(INTERNAL_SERVER_ERROR, NULL_USER), users)
      case Some(u) =>
        if productId in u.wishlist then Outcome(Err(CONFLICT, "Product already in wishlist"), users)
        else Outcome(Ok(OK, "Product added to wishlist", ()), SetUser(users, u.(wishlist := u.wishlist + [productId])))
  }

  /** DELETE /api/wishlist/remove/:productId */
  function RemoveFromWishlist(users: seq<User>, userId: string, productId: string): (r: Outcome<()>)
    ensures r.reply.Err? ==> r.users == users
    ensures r.reply.Ok? <==> productId != "" && FindUser(users, userId).Some?
    ensures r.reply.Ok? ==>
      var u := FindUser(users, userId).value;
      r.reply.status == OK && r.users == SetUser(users, u.(wishlist := Without(u.wishlist, productId)))
  {
    if productId == "" then Outcome(Err(BAD_REQUEST, "Product ID is required"), users)
    else match FindUser(users, userId)
      case None => Outcome(Err(INTERNAL_SERVER_ERROR, NULL_USER), users)
      case Some(u) => Outcome(Ok(OK, "Product removed from wishlist", ()), SetUser(users, u.(wishlist := Without(u.wishlist, productId))))
  }

  /** POST /api/wishlist/toggle; the reply says whether the product is now listed. */
  function ToggleWishlist(users: seq<User>, userId: string, productId: string): (r: Outcome<bool>)
    ensures r.reply.Err? ==> r.users == users
    ensures r.reply.Ok? <==> productId != "" && FindUser(users, userId).Some?
    ensures r.reply.Ok? ==>
      var u := FindUser(users, userId).value;
      && r.reply.value == (productId !in u.wishlist)
      && r.users == SetUser(users, u.(wishlist := Toggled(u.wishlist, productId)))
  {
    if productId == "" then Outcome(Err(BAD_REQUEST, "Product ID is required"), users)
    else match FindUser(users, userId)
      case None => Outcome(Err(INTERNAL_SERVER_ERROR, NULL_USER), users)
      case Some(u) =>
        var was := productId in u.wishlist;
        Outcome(Ok(OK, if was then "Removed from wishlist" else "Added to wishlist", !was),
                SetUser(users, u.(wishlist := Toggled(u.wishlist, productId))))
  }

  /** Adding a product and then removing it gives the user back the wishlist they had. */
  lemma AddThenRemove(users: seq<User>, userId: string, productId: string)
    requires AddToWishlist(users, userId, productId).reply.Ok?
    ensures
      var after := RemoveFromWishlist(AddToWishlist(users, userId, productId).users, userId, productId).users;
      FindUser(after, userId) == FindUser(users, userId)
  {
    var u := FindUser(users, userId).value;
    AppendThenWithout(u.wishlist, productId);
  }
}
