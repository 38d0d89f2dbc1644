/** Delivery addresses: each belongs to the signed-in user who added it. */
module Addresses {
  import opened Wrappers
  import opened Constants
  import Seqs

  /** The submitted address object as its fields in order. */
  type Fields = seq<(string, string)>

  /** A stored address: its owner and the submitted fields other than `userId`. */
  datatype Address = Address(id: string, userId: string, fields: Fields)

  datatype AddressOutcome<T> = AddressOutcome(reply: Reply<T>, addresses: seq<Address>)

  const DETAILS_REQUIRED: string := "Address details are required"

  /** `{ ...address, userId }`: the submitted fields, with any `userId`
      field given way to the signed-in user's. */
  function Stored(id: string, userId: string, fields: Fields): (a: Address)
    ensures a.userId == userId
    ensures forall kv :: kv in a.fields <==> kv in fields && kv.0 != "userId"
  {
    Address(id, userId, Seqs.Filter(fields, (kv: (string, string)) => kv.0 != "userId"))
  }

  /** `addAddress`. `address` is None when the body has none; `accepts` is
      the address schema's validation; `newId` is the id the database assigns. */
  function AddAddress(addresses: seq<Address>, userId: string, address: Option<Fields>,
                      accepts: Address -> bool, newId: string): (r: AddressOutcome<Address>)
    ensures address.None? ==> r == AddressOutcome(Err(BAD_REQUEST, DETAILS_REQUIRED), addresses)
    ensures r.reply.Ok? <==> address.Some? && accepts(Stored(newId, userId, address.value))
    ensures r.reply.Err? ==> r.reply.status == BAD_REQUEST && r.addresses == addresses
    ensures r.reply.Ok? ==> r.reply.status == CREATED && r.reply.value.userId == userId
    ensures r.reply.Ok? ==> r.addresses == addresses + [r.reply.value]
  {
    if address.None? then AddressOutcome(Err(BAD_REQUEST, DETAILS_REQUIRED), addresses)
    else
      var a := Stored(newId, userId, address.value);
      if !accepts(a) then AddressOutcome(Err(BAD_REQUEST, "Validation Error"), addresses)
      else AddressOutcome(Ok(CREATED, "Address added successfully", a), addresses + [a])
  }

  predicate OwnedBy(a: Address, userId: string) { a.userId == userId }

  function OwnedByFn(userId: string): Address -> bool
  {
    (a: Address) => OwnedBy(a, userId)
  }

  /** `getAddress`: the signed-in user's addresses, in stored order. */
  function GetAddress(addresses: seq<Address>, userId: string): (r: Reply<seq<Address>>)
    ensures r.Ok? && r.status == OK
    ensures forall a :: a in r.value <==> a in addresses && a.userId == userId
    ensures Seqs.IsSubsequence(r.value, addresses)
  {
    Ok(OK, "Addresses fetched successfully", Seqs.Filter(addresses, OwnedByFn(userId)))
  }

  /** An added address appears, last, in its owner's list, and no other
      user's list changes. */
  lemma AddThenGet(addresses: seq<Address>, userId: string, address: Option<Fields>,
                   accepts: Address -> bool, newId: string, other: string)
    requires AddAddress(addresses, userId, address, accepts, newId).reply.Ok?
    requires other != userId
    ensures var r := AddAddress(addresses, userId, address, accepts, newId);
      && GetAddress(r.addresses, userId).value == GetAddress(addresses, userId).value + [r.reply.value]
      && GetAddress(r.addresses, other).value == GetAddress(addresses, other).value
  {
    var r := AddAddress(addresses, userId, address, accepts, newId);
    Seqs.FilterAppend(addresses, [r.reply.value], OwnedByFn(userId));
    Seqs.FilterAppend(addresses, [r.reply.value], OwnedByFn(other));
  }

  /** The older controller's reply: HTTP 200 with a `success` flag, or a
      500 for a failed listing. */
  datatype LegacyAddressReply = LegacyAddressReply(status: int, success: bool, message: string)

  /** Legacy `addAddress`: no check that an address was sent (spreading a
      missing object adds no fields), and a failed create is still HTTP 200. */
  function LegacyAddAddress(addresses: seq<Address>, userId: string, address: Option<Fields>,
                            accepts: Address -> bool, newId: string, validationMessage: string): (r: (LegacyAddressReply, seq<Address>))
    ensures r.0.status == OK
    ensures r.0.success <==> accepts(Stored(newId, userId, if address.Some? then address.value else []))
    ensures !r.0.success ==> r.1 == addresses && r.0.message == validationMessage
    ensures r.0.success ==> r.1 == addresses + [Stored(newId, userId, if address.Some? then address.value else [])]
  {
    var a := Stored(newId, userId, if address.Some? then address.value else []);
    if !accepts(a) then (LegacyAddressReply(OK, false, validationMessage), addresses)
    else (LegacyAddressReply(OK, true, "address added successfully"), addresses + [a])
  }

  /** Where both controllers accept an address they store the same one. */
  lemma LegacyAddAgrees(addresses: seq<Address>, userId: string, fields: Fields,
                        accepts: Address -> bool, newId: string, validationMessage: string)
    ensures var current := AddAddress(addresses, userId, Some(fields), accepts, newId);
      var legacy := LegacyAddAddress(addresses, userId, Some(fields), accepts, newId, validationMessage);
      current.reply.Ok? == legacy.0.success && current.addresses == legacy.1
  {
  }

  /** Legacy `getAddress`: the same list, or a 500 carrying the database error. */
  function LegacyGetAddress(addresses: seq<Address>, userId: string, dbError: Option<string>): (r: (LegacyAddressReply, seq<Address>))
    ensures dbError.Some? ==> r == (LegacyAddressReply(INTERNAL_SERVER_ERROR, false, dbError.value), [])
    ensures dbError.None? ==> r.0.success && r.0.status == OK && r.1 == GetAddress(addresses, userId).value
  {
    match dbError
    case Some(m) => (LegacyAddressReply(INTERNAL_SERVER_ERROR, false, m), [])
    case None => (LegacyAddressReply(OK, true, ""), Seqs.Filter(addresses, OwnedByFn(userId)))
  }
}
