/** Application constants: status codes, order statuses, payment types,
    session cookie options, token lifetime and tax rate. */
module Constants {
  import opened Wrappers

  const OK: int := 200
  const CREATED: int := 201
  const BAD_REQUEST: int := 400
  const UNAUTHORIZED: int := 401
  const FORBIDDEN: int := 403
  const NOT_FOUND: int := 404
  const CONFLICT: int := 409
  const INTERNAL_SERVER_ERROR: int := 500

  /** The six stages an order can be in, with their display labels. */
  datatype OrderStatus = Placed | Confirmed | Shipped | OutForDelivery | Delivered | Cancelled

  const ALL_ORDER_STATUSES: seq<OrderStatus> :=
    [Placed, Confirmed, Shipped, OutForDelivery, Delivered, Cancelled]

  function StatusLabel(s: OrderStatus): string
  {
    match s
    case Placed => "Order Placed"
    case Confirmed => "Order Confirmed"
    case Shipped => "Shipped"
    case OutForDelivery => "Out for Delivery"
    case Delivered => "Delivered"
    case Cancelled => "Cancelled"
  }

  /** There are exactly six statuses, listed once each, with six different labels. */
  lemma OrderStatusesEnumerated()
    ensures |ALL_ORDER_STATUSES| == 6
    ensures forall s: OrderStatus :: s in ALL_ORDER_STATUSES
    ensures forall i, j :: 0 <= i < j < 6 ==>
      StatusLabel(ALL_ORDER_STATUSES[i]) != StatusLabel(ALL_ORDER_STATUSES[j])
  {
    forall s: OrderStatus ensures s in ALL_ORDER_STATUSES {
      match s
      case Placed => assert ALL_ORDER_STATUSES[0] == s;
      case Confirmed => assert ALL_ORDER_STATUSES[1] == s;
      case Shipped => assert ALL_ORDER_STATUSES[2] == s;
      case OutForDelivery => assert ALL_ORDER_STATUSES[3] == s;
      case Delivered => assert ALL_ORDER_STATUSES[4] == s;
      case Cancelled => assert ALL_ORDER_STATUSES[5] == s;
    }
  }

  /** Cash on delivery, or paid online through the payment gateway. */
  datatype PaymentType = COD | Online

  function PaymentTypeName(t: PaymentType): (n: string)
    ensures n == "COD" || n == "Online"
  {
    match t
    case COD => "COD"
    case Online => "Online"
  }

  const JWT_EXPIRY: string := "7d"
  const JWT_EXPIRY_DAYS: int := 7
  const MS_PER_DAY: int := 24 * 60 * 60 * 1000

  /** Options of a session cookie; `maxAgeMs` is absent when the cookie is cleared. */
  datatype CookieOptions = CookieOptions(httpOnly: bool, secure: bool, sameSite: string, maxAgeMs: Option<int>)

  /** The options every session cookie is set with. */
  function CookieOptionsFor(isProduction: bool): (o: CookieOptions)
    ensures o.httpOnly
    ensures o.secure <==> isProduction
    ensures o.sameSite == "none" <==> isProduction
    ensures o.sameSite == "none" || o.sameSite == "strict"
    ensures o.maxAgeMs == Some(JWT_EXPIRY_DAYS * MS_PER_DAY) && o.maxAgeMs == Some(604800000)
  {
    CookieOptions(true, isProduction, if isProduction then "none" else "strict", Some(7 * 24 * 60 * 60 * 1000))
  }

  /** The options a session cookie is cleared with: the same flags, no lifetime. */
  function ClearCookieOptions(isProduction: bool): (o: CookieOptions)
    ensures o == CookieOptionsFor(isProduction).(maxAgeMs := None)
  {
    CookieOptions(true, isProduction, if isProduction then "none" else "strict", None)
  }

  /** TAX_RATE is 2 percent. */
  const TAX_PERCENT: int := 2

  /** `Math.floor(amount * TAX_RATE)` for a whole amount. */
  function Tax(amount: int): (t: int)
    ensures 100 * t <= TAX_PERCENT * amount < 100 * t + 100
    ensures amount >= 0 ==> 0 <= t <= amount
  {
    TAX_PERCENT * amount / 100
  }
}
