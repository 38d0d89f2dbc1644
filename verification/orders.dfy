/** Orders: pricing at placement, the Stripe line items, the payment webhook
    and the order listings. */
module Orders {
  import opened Wrappers
  import opened Constants
  import opened Catalog
  import opened Users
  import Seqs
  import Sorting
  import ErrorHandler

  /** An entry of the request's `items`, kept in the order verbatim. */
  datatype OrderItem = OrderItem(product: string, quantity: int)

  datatype Order = Order(
    id: string,
    userId: string,
    items: seq<OrderItem>,
    amount: int,
    address: string,
    paymentType: PaymentType,
    isPaid: bool,
    createdAt: int)

  /** Σ offerPrice × quantity over the items whose product exists; unknown
      ids contribute nothing. */
  function Subtotal(items: seq<OrderItem>, products: seq<Product>): (s: int)
    ensures (forall i :: 0 <= i < |items| ==> FindProduct(products, items[i].product).None?) ==> s == 0
  {
    if |items| == 0 then 0
    else
      (match FindProduct(products, items[0].product)
       case Some(p) => p.offerPrice * items[0].quantity
       case None => 0)
      + Subtotal(items[1..], products)
  }

  /** The subtotal of a concatenation is the sum of the subtotals. */
  lemma {:induction false} SubtotalAppend(a: seq<OrderItem>, b: seq<OrderItem>, products: seq<Product>)
    ensures Subtotal(a + b, products) == Subtotal(a, products) + Subtotal(b, products)
  {
    if |a| > 0 {
      assert (a + b)[1..] == a[1..] + b;
      SubtotalAppend(a[1..], b, products);
    } else {
      assert a + b == b;
    }
  }

  /** The stored amount: the subtotal plus its tax floored to whole units. */
  function OrderAmount(subtotal: int): (a: int)
    ensures subtotal >= 0 ==> subtotal <= a <= subtotal + subtotal / 50
  {
    subtotal + Tax(subtotal)
  }

  /** The amount is 102 % of the subtotal, rounded down. */
  lemma OrderAmountIsFloorOf102Percent(subtotal: int)
    ensures OrderAmount(subtotal) == (102 * subtotal) / 100
  {
  }

  /** A request passes the placement guard when it has an address and a
      non-empty item list. */
  predicate ValidRequest(address: string, items: Option<seq<OrderItem>>)
  {
    address != "" && items.Some? && |items.value| > 0
  }

  /** A reply together with the order collection after the request. */
  datatype Placement<T> = Placement(reply: Reply<T>, orders: seq<Order>)

  const INVALID_ORDER: string := "Address and items are required"

  /** The order a valid request creates; `id` and `now` stand for the
      database's generated id and timestamp. */
  function NewOrder(id: string, userId: string, items: seq<OrderItem>, products: seq<Product>,
                    address: string, paymentType: PaymentType, now: int): (o: Order)
    ensures o.id == id && o.userId == userId && o.items == items && o.address == address
    ensures o.amount == OrderAmount(Subtotal(items, products))
    ensures o.paymentType == paymentType && !o.isPaid && o.createdAt == now
  {
    Order(id, userId, items, OrderAmount(Subtotal(items, products)), address, paymentType, false, now)
  }

  /** POST /api/order/cod */
  function PlaceOrderCod(orders: seq<Order>, products: seq<Product>, userId: string,
                         items: Option<seq<OrderItem>>, address: string, id: string, now: int): (r: Placement<Order>)
    ensures !ValidRequest(address, items) ==> r.reply == Err(BAD_REQUEST, INVALID_ORDER) && r.orders == orders
    ensures ValidRequest(address, items) ==>
      && r.reply.Ok? && r.reply.status == CREATED
      && r.reply.value == NewOrder(id, userId, items.value, products, address, COD, now)
      && r.orders == orders + [r.reply.value]
  {
    if !ValidRequest(address, items) then Placement(Err(BAD_REQUEST, INVALID_ORDER), orders)
    else
      var o := NewOrder(id, userId, items.value, products, address, COD, now);
      Placement(Ok(CREATED, "Order placed successfully", o), orders + [o])
  }

  /** The per-product data gathered for Stripe: resolved products only. */
  datatype Priced = Priced(name: string, price: int, quantity: int)

  /** An item whose product id names a product of the catalog. */
  function ResolvesIn(products: seq<Product>): OrderItem -> bool
  {
    (it: OrderItem) => FindProduct(products, it.product).Some?
  }

  /** The entry the Stripe loop pushes for a resolved item. */
  function PricedItem(it: OrderItem, products: seq<Product>): Priced
    requires FindProduct(products, it.product).Some?
  {
    var p := FindProduct(products, it.product).value;
    Priced(p.name, p.offerPrice, it.quantity)
  }

  /** The Stripe loop's `productData`: one entry per item whose product
      exists, in request order, with that product's name and offer price. */
  function ProductData(items: seq<OrderItem>, products: seq<Product>): (r: seq<Priced>)
    ensures |r| == |Seqs.Filter(items, ResolvesIn(products))|
    ensures forall i :: 0 <= i < |r| ==>
      FindProduct(products, Seqs.Filter(items, ResolvesIn(products))[i].product).Some? &&
      r[i] == PricedItem(Seqs.Filter(items, ResolvesIn(products))[i], products)
  {
    if |items| == 0 then []
    else
      var rest := ProductData(items[1..], products);
      var kept := Seqs.Filter(items[1..], ResolvesIn(products));
      match FindProduct(products, items[0].product)
      case Some(p) =>
        var r := [Priced(p.name, p.offerPrice, items[0].quantity)] + rest;
        assert Seqs.Filter(items, ResolvesIn(products)) == [items[0]] + kept;
        assert forall i :: 1 <= i < |r| ==> r[i] == rest[i - 1];
        r
      case None =>
        assert Seqs.Filter(items, ResolvesIn(products)) == kept;
        rest
  }

  function PricedTotal(pd: seq<Priced>): int
  {
    if |pd| == 0 then 0 else pd[0].price * pd[0].quantity + PricedTotal(pd[1..])
  }

  /** The Stripe loop and the COD loop compute the same subtotal. */
  lemma {:induction false} ProductDataTotal(items: seq<OrderItem>, products: seq<Product>)
    ensures PricedTotal(ProductData(items, products)) == Subtotal(items, products)
  {
    if |items| > 0 {
      ProductDataTotal(items[1..], products);
      match FindProduct(products, items[0].product)
      case Some(p) =>
        var rest := ProductData(items[1..], products);
        assert ([Priced(p.name, p.offerPrice, items[0].quantity)] + rest)[1..] == rest;
      case None =>
    }
  }

  /** A Stripe line item; `unitAmount` is in the smallest currency unit (paise). */
  datatype LineItem = LineItem(name: string, unitAmount: int, quantity: int)

  /** A unit price with its own tax floored, times 100. */
  function UnitAmount(price: int): (u: int)
    ensures price >= 0 ==> 100 * price <= u <= 100 * price + 2 * price
  {
    (price + Tax(price)) * 100
  }

  /** One line item per resolved product, in request order. */
  function LineItems(pd: seq<Priced>): (r: seq<LineItem>)
    ensures |r| == |pd|
    ensures forall i :: 0 <= i < |r| ==>
      r[i].name == pd[i].name && r[i].quantity == pd[i].quantity && r[i].unitAmount == UnitAmount(pd[i].price)
  {
    seq(|pd|, i requires 0 <= i < |pd| => LineItem(pd[i].name, UnitAmount(pd[i].price), pd[i].quantity))
  }

  /** What Stripe charges for a list of line items, in paise. */
  function Charge(lines: seq<LineItem>): int
  {
    if |lines| == 0 then 0 else lines[0].unitAmount * lines[0].quantity + Charge(lines[1..])
  }

  lemma TaxSuperadditive(a: int, b: int)
    ensures Tax(a) + Tax(b) <= Tax(a + b)
  {
  }

  lemma TaxScale(q: int, p: int)
    requires q >= 0
    ensures q * Tax(p) <= Tax(q * p)
  {
    if q > 0 {
      var t := Tax(p);
      assert 100 * t <= 2 * p;
      assert q * (100 * t) <= q * (2 * p) by { MulLeft(q, 100 * t, 2 * p); }
      assert 100 * (q * t) <= 2 * (q * p);
    }
  }

  lemma MulLeft(q: int, a: int, b: int)
    requires q > 0 && a <= b
    ensures q * a <= q * b
  {
  }

  /** Per-unit taxes floored separately never add up to more than the tax of
      the order, so when no quantity is negative Stripe charges at most the
      stored amount. */
  lemma {:induction false} ChargeAtMostAmount(pd: seq<Priced>)
    requires forall i :: 0 <= i < |pd| ==> pd[i].quantity >= 0
    ensures Charge(LineItems(pd)) <= 100 * OrderAmount(PricedTotal(pd))
  {
    if |pd| > 0 {
      var q, p := pd[0].quantity, pd[0].price;
      var rest := pd[1..];
      ChargeAtMostAmount(rest);
      assert LineItems(pd)[1..] == LineItems(rest);
      TaxScale(q, p);
      TaxSuperadditive(q * p, PricedTotal(rest));
      assert UnitAmount(p) * q == 100 * (q * p + q * Tax(p));
    }
  }

  /** The bound is not always reached: 5 units at 10 are charged 5000 paise
      while the order stores 51. */
  lemma ChargeCanBeBelowAmount()
    ensures
      var pd := [Priced("item", 10, 5)];
      Charge(LineItems(pd)) == 5000 && OrderAmount(PricedTotal(pd)) == 51
  {
    var pd := [Priced("item", 10, 5)];
    assert LineItems(pd) == [LineItem("item", 1000, 5)];
  }

  /** What the Stripe session call returned. */
  datatype SessionResult = SessionCreated(url: string) | SessionFailed(error: ErrorHandler.Thrown)

  /** The reply, the orders after the request, and the line items sent to Stripe. */
  datatype StripePlacement = StripePlacement(reply: Reply<string>, orders: seq<Order>, lineItems: seq<LineItem>)

  /** POST /api/order/stripe. The order is created before the session is
      requested, so a failed session leaves an unpaid Online order behind;
      the error Stripe throws is answered by the global error handler. */
  function PlaceOrderStripe(orders: seq<Order>, products: seq<Product>, userId: string,
                            items: Option<seq<OrderItem>>, address: string, id: string, now: int,
                            session: SessionResult): (r: StripePlacement)
    ensures !ValidRequest(address, items) ==>
      r.reply == Err(BAD_REQUEST, INVALID_ORDER) && r.orders == orders && r.lineItems == []
    ensures ValidRequest(address, items) ==>
      && r.orders == orders + [NewOrder(id, userId, items.value, products, address, Online, now)]
      && r.lineItems == LineItems(ProductData(items.value, products))
      && (r.reply.Ok? <==> session.SessionCreated?)
      && (r.reply.Ok? ==> r.reply.status == OK && r.reply.value == session.url)
      && (r.reply.Err? ==>
            r.reply == Err(ErrorHandler.Handle(session.error).status, ErrorHandler.Handle(session.error).message))
  {
    if !ValidRequest(address, items) then StripePlacement(Err(BAD_REQUEST, INVALID_ORDER), orders, [])
    else
      var o := NewOrder(id, userId, items.value, products, address, Online, now);
      var lines := LineItems(ProductData(items.value, products));
      match session
      case SessionCreated(url) => StripePlacement(Ok(OK, "Stripe session created", url), orders + [o], lines)
      case SessionFailed(e) =>
        var answer := ErrorHandler.Handle(e);
        StripePlacement(Err(answer.status, answer.message), orders + [o], lines)
  }

  /** Stripe's own errors are not `ApiError`s and carry no Mongoose or token
      name or the duplicate-key code, so they reach the handler's fallback. */
  predicate FallsThrough(e: ErrorHandler.Thrown)
  {
    && !e.isApiError && e.code != ErrorHandler.DUPLICATE_KEY
    && e.name !in {"CastError", "ValidationError", "JsonWebTokenError", "TokenExpiredError"}
  }

  /** A failed session is answered with the Stripe error's own status and
      message, or 500 and "Internal Server Error" when it has none; the
      unpaid order stays behind either way. */
  lemma StripeFailureStatus(orders: seq<Order>, products: seq<Product>, userId: string,
                            items: seq<OrderItem>, address: string, id: string, now: int, e: ErrorHandler.Thrown)
    requires ValidRequest(address, Some(items)) && FallsThrough(e)
    ensures var r := PlaceOrderStripe(orders, products, userId, Some(items), address, id, now, SessionFailed(e));
      && r.reply.Err?
      && r.reply.status == (if e.statusCode != 0 then e.statusCode else INTERNAL_SERVER_ERROR)
      && r.reply.message == (if e.message != "" then e.message else "Internal Server Error")
      && |r.orders| == |orders| + 1 && !r.orders[|orders|].isPaid
  {
  }

  // ---------------------------------------------------------------------
  // Listings

  /** Cash-on-delivery orders and paid orders are shown. */
  predicate Visible(o: Order)
  {
    o.paymentType == COD || o.isPaid
  }

  predicate NewerOrSame(a: Order, b: Order)
  {
    a.createdAt >= b.createdAt
  }

  lemma NewerOrSameTotal()
    ensures Sorting.Total(NewerOrSame)
  {
  }

  /** GET /api/order/seller: the visible orders, newest first. */
  function GetAllOrders(orders: seq<Order>): (r: seq<Order>)
    ensures forall o :: o in r <==> o in orders && Visible(o)
    ensures Sorting.SortedBy(r, NewerOrSame)
    ensures multiset(r) == multiset(Seqs.Filter(orders, Visible))
  {
    NewerOrSameTotal();
    var r := Sorting.SortBy(Seqs.Filter(orders, Visible), NewerOrSame);
    Sorting.SortKeepsMembers(Seqs.Filter(orders, Visible), NewerOrSame);
    r
  }

  /** The orders the user listing shows to `userId`. */
  function VisibleTo(userId: string): Order -> bool
  {
    (o: Order) => Visible(o) && o.userId == userId
  }

  /** GET /api/order/user: the caller's visible orders, newest first. */
  function GetUserOrders(orders: seq<Order>, userId: string): (r: seq<Order>)
    ensures forall o :: o in r <==> o in orders && Visible(o) && o.userId == userId
    ensures Sorting.SortedBy(r, NewerOrSame)
    ensures multiset(r) == multiset(Seqs.Filter(orders, VisibleTo(userId)))
  {
    NewerOrSameTotal();
    var mine := Seqs.Filter(orders, VisibleTo(userId));
    Sorting.SortKeepsMembers(mine, NewerOrSame);
    Sorting.SortBy(mine, NewerOrSame)
  }

  /** The user listing holds exactly the caller's orders of the seller listing. */
  lemma UserOrdersWithinAll(orders: seq<Order>, userId: string)
    ensures forall o :: o in GetUserOrders(orders, userId) <==> o in GetAllOrders(orders) && o.userId == userId
  {
  }

  /** An Online order is hidden from both listings until it is paid. */
  lemma UnpaidOnlineHidden(orders: seq<Order>, o: Order)
    requires o.paymentType == Online && !o.isPaid
    ensures o !in GetAllOrders(orders) && o !in GetUserOrders(orders, o.userId)
  {
  }

  // ---------------------------------------------------------------------
  // Stripe webhook

  /** The verified event, reduced to what the handler looks at. */
  datatype StripeEvent =
    | PaymentSucceeded(paymentIntent: string)
    | PaymentFailed(paymentIntent: string)
    | Unhandled(eventType: string)

  /** What checking the event's signature gives: the event, or the message
      of the error the Stripe library threw. */
  datatype Verification = Verified(event: StripeEvent) | SignatureFailed(message: string)

  /** The metadata attached to a checkout session at placement. */
  datatype SessionMetadata = SessionMetadata(orderId: string, userId: string)

  /** `received` is `{ received: true }` with status 200; `rejected` is the
      400 for a bad signature; `noReply` is a handler that threw before
      answering. */
  datatype WebhookReply = Received | Rejected(message: string) | NoReply

  datatype Store = Store(orders: seq<Order>, users: seq<User>)

  datatype WebhookOutcome = WebhookOutcome(reply: WebhookReply, store: Store)

  /** `Order.findByIdAndUpdate(id, { isPaid: true })` */
  function MarkPaid(orders: seq<Order>, orderId: string): (r: seq<Order>)
    ensures |r| == |orders|
    ensures forall i :: 0 <= i < |r| ==>
      r[i].(isPaid := orders[i].isPaid) == orders[i] && r[i].isPaid == (orders[i].isPaid || orders[i].id == orderId)
  {
    seq(|orders|, i requires 0 <= i < |orders| => if orders[i].id == orderId then orders[i].(isPaid := true) else orders[i])
  }

  /** `Order.findByIdAndDelete(id)` */
  function DeleteOrder(orders: seq<Order>, orderId: string): (r: seq<Order>)
    ensures forall o :: o in r <==> o in orders && o.id != orderId
    ensures |r| <= |orders|
  {
    Seqs.Filter(orders, OtherThan(orderId))
  }

  function OtherThan(orderId: string): Order -> bool
  {
    (o: Order) => o.id != orderId
  }

  /** `User.findByIdAndUpdate(id, { cartItems: {} })`; nothing happens for an unknown id. */
  function ClearCart(users: seq<User>, userId: string): (r: seq<User>)
    ensures FindUser(users, userId).None? ==> r == users
    ensures FindUser(users, userId).Some? ==> FindUser(r, userId) == Some(FindUser(users, userId).value.(cartItems := []))
    ensures forall k :: k != userId ==> FindUser(r, k) == FindUser(users, k)
  {
    match FindUser(users, userId)
    case None => users
    case Some(u) => SetUser(users, u.(cartItems := []))
  }

  /** POST /stripe. `verified` is the event when its signature checks and the
      library's error message otherwise; `sessions` is what listing the checkout sessions of the
      event's payment intent returned. */
  function StripeWebhook(st: Store, verified: Verification, sessions: seq<SessionMetadata>): (r: WebhookOutcome)
    ensures verified.SignatureFailed? ==> r == WebhookOutcome(Rejected("Webhook Error: " + verified.message), st)
    ensures verified.Verified? && verified.event.Unhandled? ==> r == WebhookOutcome(Received, st)
    ensures verified.Verified? && !verified.event.Unhandled? && |sessions| == 0 ==> r == WebhookOutcome(NoReply, st)
    ensures verified.Verified? && verified.event.PaymentSucceeded? && |sessions| > 0 ==>
      r.reply == Received && r.store == Store(MarkPaid(st.orders, sessions[0].orderId), ClearCart(st.users, sessions[0].userId))
    ensures verified.Verified? && verified.event.PaymentFailed? && |sessions| > 0 ==>
      r.reply == Received && r.store == Store(DeleteOrder(st.orders, sessions[0].orderId), st.users)
  {
    match verified
    case SignatureFailed(message) => WebhookOutcome(Rejected("Webhook Error: " + message), st)
    case Verified(Unhandled(_)) => WebhookOutcome(Received, st)
    case Verified(PaymentSucceeded(_)) =>
      if |sessions| == 0 then WebhookOutcome(NoReply, st)
      else
        var meta := sessions[0];
        WebhookOutcome(Received, Store(MarkPaid(st.orders, meta.orderId), ClearCart(st.users, meta.userId)))
    case Verified(PaymentFailed(_)) =>
      if |sessions| == 0 then WebhookOutcome(NoReply, st)
      else WebhookOutcome(Received, Store(DeleteOrder(st.orders, sessions[0].orderId), st.users))
  }

  /** Handling the same event twice leaves the store as handling it once. */
  lemma WebhookIdempotent(st: Store, verified: Verification, sessions: seq<SessionMetadata>)
    ensures
      var once := StripeWebhook(st, verified, sessions).store;
      StripeWebhook(once, verified, sessions).store == once
  {
    if verified.Verified? && |sessions| > 0 {
      var meta := sessions[0];
      match verified.event
      case PaymentSucceeded(_) =>
        MarkPaidTwice(st.orders, meta.orderId);
        ClearCartTwice(st.users, meta.userId);
      case PaymentFailed(_) =>
        DeleteOrderTwice(st.orders, meta.orderId);
      case Unhandled(_) =>
    }
  }

  lemma MarkPaidTwice(orders: seq<Order>, orderId: string)
    ensures MarkPaid(MarkPaid(orders, orderId), orderId) == MarkPaid(orders, orderId)
  {
  }

  lemma DeleteOrderTwice(orders: seq<Order>, orderId: string)
    ensures DeleteOrder(DeleteOrder(orders, orderId), orderId) == DeleteOrder(orders, orderId)
  {
    Seqs.FilterIdempotent(orders, OtherThan(orderId));
  }

  lemma ClearCartTwice(users: seq<User>, userId: string)
    ensures ClearCart(ClearCart(users, userId), userId) == ClearCart(users, userId)
  {
    match FindUser(users, userId)
    case None =>
    case Some(u) =>
      var once := SetUser(users, u.(cartItems := []));
      SetUserTwice(users, u.(cartItems := []));
  }

  /** A successful payment makes the paid order appear in both listings. */
  lemma PaymentRevealsOrder(st: Store, intent: string, sessions: seq<SessionMetadata>, o: Order)
    requires |sessions| > 0 && o in st.orders && o.id == sessions[0].orderId
    ensures
      var after := StripeWebhook(st, Verified(PaymentSucceeded(intent)), sessions).store.orders;
      o.(isPaid := true) in GetAllOrders(after) && o.(isPaid := true) in GetUserOrders(after, o.userId)
  {
    var i :| 0 <= i < |st.orders| && st.orders[i] == o;
    var after := MarkPaid(st.orders, sessions[0].orderId);
    assert after[i] == o.(isPaid := true);
  }

  /** A failed payment removes the order from the store. */
  lemma FailureDeletesOrder(st: Store, intent: string, sessions: seq<SessionMetadata>)
    requires |sessions| > 0
    ensures
      var after := StripeWebhook(st, Verified(PaymentFailed(intent)), sessions).store.orders;
      forall o :: o in after ==> o.id != sessions[0].orderId
  {
  }
}
