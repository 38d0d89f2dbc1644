/** The two request gates: `authUser` for customers and `authSeller` for the
    store owner. The older copies under `server/middlewares` take the same
    decisions with the same messages and are modelled by the same functions. */
module AuthMiddleware {
  import opened Wrappers
  import opened Constants

  /** The claims a session token carries: a customer token carries the user
      id, a seller token the seller's email. A missing id is "". */
  datatype Claims = Claims(id: string, email: Option<string>)

  /** The outcome of checking a token's signature and lifetime. */
  datatype Verified = Valid(claims: Claims) | Expired | Invalid

  /** What a gate does with the request: hand it on (with the signed-in
      user's id, for the customer gate) or stop it with an error. */
  datatype Decision = Next(userId: Option<string>) | Stop(status: int, message: string)

  const LOGIN_REQUIRED: string := "Please login to continue"
  const INVALID_TOKEN: string := "Invalid token"
  const TOKEN_EXPIRED: string := "Token expired, please login again"
  const SELLER_REQUIRED: string := "Seller authentication required"
  const NOT_SELLER: string := "Not authorized as seller"
  const INVALID_SELLER_TOKEN: string := "Invalid seller token"

  /** `authUser`. `token` is the `token` cookie ("" when absent) and `verify`
      checks a token against the server's secret and the clock. */
  function AuthUser(token: string, verify: string -> Verified): (r: Decision)
    ensures r.Next? <==> token != "" && verify(token).Valid? && verify(token).claims.id != ""
    ensures r.Next? ==> r.userId == Some(verify(token).claims.id)
    ensures r.Stop? ==> r.status == UNAUTHORIZED
    ensures token == "" ==> r == Stop(UNAUTHORIZED, LOGIN_REQUIRED)
    ensures r == Stop(UNAUTHORIZED, TOKEN_EXPIRED) <==> token != "" && verify(token).Expired?
    ensures token != "" && verify(token).Valid? && verify(token).claims.id == "" ==> r == Stop(UNAUTHORIZED, INVALID_TOKEN)
    ensures token != "" && verify(token).Invalid? ==> r == Stop(UNAUTHORIZED, INVALID_TOKEN)
  {
    if token == "" then Stop(UNAUTHORIZED, LOGIN_REQUIRED)
    else match verify(token)
      case Valid(claims) => if claims.id == "" then Stop(UNAUTHORIZED, INVALID_TOKEN) else Next(Some(claims.id))
      case Expired => Stop(UNAUTHORIZED, TOKEN_EXPIRED)
      case Invalid => Stop(UNAUTHORIZED, INVALID_TOKEN)
  }

  /** `authSeller`. `sellerEmail` is the configured seller address, None when
      the setting is missing; a token without an email claim compares as
      missing too. */
  function AuthSeller(sellerToken: string, verify: string -> Verified, sellerEmail: Option<string>): (r: Decision)
    ensures r.Next? <==> sellerToken != "" && verify(sellerToken).Valid? && verify(sellerToken).claims.email == sellerEmail
    ensures r.Next? ==> r.userId.None?
    ensures r.Stop? && r.status == FORBIDDEN <==> sellerToken != "" && verify(sellerToken).Valid? && verify(sellerToken).claims.email != sellerEmail
    ensures r.Stop? ==> r.status in {UNAUTHORIZED, FORBIDDEN}
    ensures sellerToken == "" ==> r == Stop(UNAUTHORIZED, SELLER_REQUIRED)
    ensures r == Stop(UNAUTHORIZED, TOKEN_EXPIRED) <==> sellerToken != "" && verify(sellerToken).Expired?
    ensures sellerToken != "" && verify(sellerToken).Valid? && verify(sellerToken).claims.email != sellerEmail ==>
      r == Stop(FORBIDDEN, NOT_SELLER)
    ensures sellerToken != "" && verify(sellerToken).Invalid? ==> r == Stop(UNAUTHORIZED, INVALID_SELLER_TOKEN)
  {
    if sellerToken == "" then Stop(UNAUTHORIZED, SELLER_REQUIRED)
    else match verify(sellerToken)
      case Valid(claims) => if claims.email != sellerEmail then Stop(FORBIDDEN, NOT_SELLER) else Next(None)
      case Expired => Stop(UNAUTHORIZED, TOKEN_EXPIRED)
      case Invalid => Stop(UNAUTHORIZED, INVALID_SELLER_TOKEN)
  }

  /** A customer token is never a seller pass while a seller address is
      configured, since it carries no email claim. */
  lemma CustomerTokenIsNotSellerPass(token: string, verify: string -> Verified, sellerEmail: string)
    requires token != "" && verify(token).Valid? && verify(token).claims.email.None?
    ensures AuthSeller(token, verify, Some(sellerEmail)) == Stop(FORBIDDEN, NOT_SELLER)
  {
  }

  /** Without a configured seller address, any validly signed token without
      an email claim, such as a customer's, passes the seller gate: the
      comparison is between two missing values. */
  lemma UnconfiguredSellerGateIsOpen(token: string, verify: string -> Verified)
    requires token != "" && verify(token).Valid? && verify(token).claims.email.None?
    ensures AuthSeller(token, verify, None) == Next(None)
  {
  }
}
