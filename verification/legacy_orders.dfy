/** The older order controller under `server/controllers`: the same pricing,
    webhook transitions and listings as `Orders`, with replies that always
    carry HTTP 200 and a `success` flag, and a webhook that keeps running
    after rejecting a signature. */
module LegacyOrders {
  import opened Wrappers
  import opened Constants
  import opened Catalog
  import opened Orders

  /** `res.json({ success, message, url })`, always with status 200; only the
      created Stripe session's reply carries a `url`. */
  datatype LegacyReply = LegacyReply(success: bool, message: string, url: Option<string>)

  datatype LegacyPlacement = LegacyPlacement(reply: LegacyReply, orders: seq<Order>)

  const INVALID_DATA: string := "Invalid data"
  /** The TypeError an `items` field left undefined raises at `items.length`,
      caught into the reply. `None` stands for `undefined` only: a JSON `null`
      would give "Cannot read properties of null (reading 'length')" instead,
      and the model does not separate the two. */
  const MISSING_ITEMS: string := "Cannot read properties of undefined (reading 'length')"

  /** The guard and its caught TypeError; None when the request goes through. */
  function Rejection(address: string, items: Option<seq<OrderItem>>): (m: Option<string>)
    ensures m.None? <==> ValidRequest(address, items)
    ensures address == "" ==> m == Some(INVALID_DATA)
    ensures address != "" && items.None? ==> m == Some(MISSING_ITEMS)
    ensures address != "" && items == Some([]) ==> m == Some(INVALID_DATA)
  {
    if address == "" then Some(INVALID_DATA)
    else if items.None? then Some(MISSING_ITEMS)
    else if |items.value| == 0 then Some(INVALID_DATA)
    else None
  }

  /** Legacy POST /api/order/cod */
  function LegacyPlaceOrderCod(orders: seq<Order>, products: seq<Product>, userId: string,
                               items: Option<seq<OrderItem>>, address: string, id: string, now: int): (r: LegacyPlacement)
    ensures r.reply.success <==> ValidRequest(address, items)
    ensures !r.reply.success ==> r.orders == orders
    ensures address == "" ==> r.reply.message == INVALID_DATA
    ensures address != "" && items.None? ==> r.reply.message == MISSING_ITEMS
    ensures address != "" && items == Some([]) ==> r.reply.message == INVALID_DATA
    ensures Rejection(address, items).Some? ==> r.reply == LegacyReply(false, Rejection(address, items).value, None)
    ensures ValidRequest(address, items) ==>
      && r.reply == LegacyReply(true, "order placed successfully", None)
      && r.orders == orders + [NewOrder(id, userId, items.value, products, address, COD, now)]
  {
    match Rejection(address, items)
    case Some(m) => LegacyPlacement(LegacyReply(false, m, None), orders)
    case None =>
      LegacyPlacement(LegacyReply(true, "order placed successfully", None),
                      orders + [NewOrder(id, userId, items.value, products, address, COD, now)])
  }

  /** Legacy POST /api/order/stripe; a failed session is caught into the reply
      after the order was created. */
  function LegacyPlaceOrderStripe(orders: seq<Order>, products: seq<Product>, userId: string,
                                  items: Option<seq<OrderItem>>, address: string, id: string, now: int,
                                  session: SessionResult): (r: LegacyPlacement)
    ensures r.reply.success <==> ValidRequest(address, items) && session.SessionCreated?
    ensures !ValidRequest(address, items) ==> r.orders == orders
    ensures ValidRequest(address, items) && session.SessionFailed? ==>
      r.reply == LegacyReply(false, session.error.message, None)
    ensures Rejection(address, items).Some? ==> r.reply == LegacyReply(false, Rejection(address, items).value, None)
    ensures address != "" && items == Some([]) ==> r.reply.message == INVALID_DATA
    ensures r.reply.url.Some? <==> r.reply.success
    ensures ValidRequest(address, items) && session.SessionCreated? ==>
      r.reply == LegacyReply(true, "Stripe session created", Some(session.url))
    ensures ValidRequest(address, items) ==>
      r.orders == orders + [NewOrder(id, userId, items.value, products, address, Online, now)]
  {
    match Rejection(address, items)
    case Some(m) => LegacyPlacement(LegacyReply(false, m, None), orders)
    case None =>
      var o := NewOrder(id, userId, items.value, products, address, Online, now);
      match session
      case SessionCreated(url) => LegacyPlacement(LegacyReply(true, "Stripe session created", Some(url)), orders + [o])
      case SessionFailed(e) => LegacyPlacement(LegacyReply(false, e.message, None), orders + [o])
  }

  /** Both placement handlers store what the current ones store, and succeed
      exactly when those do; the older Stripe reply carries the same session URL. */
  lemma LegacyPlacementAgrees(orders: seq<Order>, products: seq<Product>, userId: string,
                              items: Option<seq<OrderItem>>, address: string, id: string, now: int,
                              session: SessionResult)
    ensures
      var legacy := LegacyPlaceOrderCod(orders, products, userId, items, address, id, now);
      var current := PlaceOrderCod(orders, products, userId, items, address, id, now);
      legacy.orders == current.orders && (legacy.reply.success <==> current.reply.Ok?)
    ensures
      var legacy := LegacyPlaceOrderStripe(orders, products, userId, items, address, id, now, session);
      var current := PlaceOrderStripe(orders, products, userId, items, address, id, now, session);
      && legacy.orders == current.orders && (legacy.reply.success <==> current.reply.Ok?)
      && (current.reply.Ok? ==> legacy.reply.url == Some(current.reply.value))
  {
  }

  /** The legacy webhook's reply, and whether it then throws (the `event.type`
      read on an undefined event, or the missing session). */
  datatype LegacyWebhookOutcome = LegacyWebhookOutcome(reply: WebhookReply, threw: bool, store: Store)

  /** Legacy POST /stripe */
  function LegacyStripeWebhook(st: Store, verified: Verification, sessions: seq<SessionMetadata>): (r: LegacyWebhookOutcome)
    ensures verified.SignatureFailed? ==>
      r == LegacyWebhookOutcome(Rejected("Webhook Error: " + verified.message), true, st)
    ensures r.threw <==> verified.SignatureFailed? || (!verified.event.Unhandled? && |sessions| == 0)
  {
    match verified
    case SignatureFailed(message) => LegacyWebhookOutcome(Rejected("Webhook Error: " + message), true, st)
    case Verified(ev) =>
      var current := StripeWebhook(st, verified, sessions);
      LegacyWebhookOutcome(current.reply, current.reply.NoReply?, current.store)
  }

  /** The two webhooks reply alike and leave the same store on every input. */
  lemma LegacyWebhookAgrees(st: Store, verified: Verification, sessions: seq<SessionMetadata>)
    ensures LegacyStripeWebhook(st, verified, sessions).store == StripeWebhook(st, verified, sessions).store
    ensures LegacyStripeWebhook(st, verified, sessions).reply == StripeWebhook(st, verified, sessions).reply
  {
  }
}
