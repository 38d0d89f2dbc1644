/** A shopping cart: the JavaScript object `{ productId: quantity }`, kept as
    an insertion-ordered list of lines because object keys iterate in the
    order they were added. */
module Carts {
  import opened Wrappers

  datatype CartLine = CartLine(id: string, quantity: int)

  type Cart = seq<CartLine>

  /** No product id appears on two lines (an object has unique keys). */
  predicate WellFormed(c: Cart)
  {
    |c| == 0 || (Get(c[1..], c[0].id).None? && WellFormed(c[1..]))
  }

  /** `cart[id]` */
  function Get(c: Cart, id: string): Option<int>
  {
    if |c| == 0 then None
    else if c[0].id == id then Some(c[0].quantity)
    else Get(c[1..], id)
  }

  /** `cart[id] = q`: an existing key keeps its position, a new key goes last. */
  function Put(c: Cart, id: string, q: int): (r: Cart)
    ensures Get(r, id) == Some(q)
    ensures forall k :: k != id ==> Get(r, k) == Get(c, k)
    ensures WellFormed(c) ==> WellFormed(r)
    ensures Get(c, id).None? ==> r == c + [CartLine(id, q)]
    ensures forall x :: x in r ==> x in c || x == CartLine(id, q)
  {
    if |c| == 0 then [CartLine(id, q)]
    else if c[0].id == id then [CartLine(id, q)] + c[1..]
    else
      var rest := Put(c[1..], id, q);
      assert forall x :: x in c[1..] ==> x in c;
      assert ([c[0]] + rest)[1..] == rest;
      [c[0]] + rest
  }

  /** `delete cart[id]` */
  function Delete(c: Cart, id: string): (r: Cart)
    ensures Get(r, id) == None
    ensures forall k :: k != id ==> Get(r, k) == Get(c, k)
    ensures WellFormed(c) ==> WellFormed(r)
    ensures forall x :: x in r ==> x in c
    ensures Get(c, id).None? ==> r == c
  {
    if |c| == 0 then []
    else if c[0].id == id then Delete(c[1..], id)
    else
      var rest := Delete(c[1..], id);
      assert forall x :: x in c[1..] ==> x in c;
      assert ([c[0]] + rest)[1..] == rest;
      [c[0]] + rest
  }

  /** The sum of all quantities. */
  function Count(c: Cart): int
  {
    if |c| == 0 then 0 else c[0].quantity + Count(c[1..])
  }

  function QuantityOr0(c: Cart, id: string): int
  {
    match Get(c, id)
    case Some(q) => q
    case None => 0
  }

  lemma {:induction false} CountPut(c: Cart, id: string, q: int)
    ensures Count(Put(c, id, q)) == Count(c) - QuantityOr0(c, id) + q
  {
    if |c| > 0 && c[0].id != id {
      CountPut(c[1..], id, q);
    }
  }

  lemma {:induction false} CountDelete(c: Cart, id: string)
    requires WellFormed(c)
    ensures Count(Delete(c, id)) == Count(c) - QuantityOr0(c, id)
  {
    if |c| > 0 {
      CountDelete(c[1..], id);
    }
  }

  /** Writing a key twice keeps only the second write. */
  lemma {:induction false} PutPut(c: Cart, id: string, a: int, b: int)
    ensures Put(Put(c, id, a), id, b) == Put(c, id, b)
  {
    if |c| > 0 && c[0].id != id {
      PutPut(c[1..], id, a, b);
    }
  }

  /** Writing back the value a key already has changes nothing. */
  lemma {:induction false} PutSame(c: Cart, id: string, q: int)
    requires Get(c, id) == Some(q)
    ensures Put(c, id, q) == c
  {
    if c[0].id != id {
      PutSame(c[1..], id, q);
    }
  }

  /** Deleting a key that was just added restores the cart. */
  lemma {:induction false} DeleteAfterPutNew(c: Cart, id: string, q: int)
    requires Get(c, id).None?
    ensures Delete(Put(c, id, q), id) == c
  {
    if |c| > 0 {
      DeleteAfterPutNew(c[1..], id, q);
    }
  }
}
