/** Coupons: the stored record, creation, the redemption check and discount,
    the public listing of available coupons, and the seller's on/off switch. */
module Coupons {
  import opened Wrappers
  import opened Constants
  import opened Text
  import Seqs
  import ErrorHandler

  datatype DiscountType = Percentage | Fixed

  /** Dates are milliseconds since the epoch. `maximumDiscount` and
      `usageLimit` are None when null. */
  datatype Coupon = Coupon(
    id: string,
    code: string,
    discountType: DiscountType,
    discountValue: int,
    minimumOrderAmount: int,
    maximumDiscount: Option<int>,
    usageLimit: Option<int>,
    usedCount: int,
    validFrom: int,
    validUntil: int,
    isActive: bool,
    description: string)

  /** What the schema guarantees of a stored coupon: a non-empty code that is
      upper-case and trimmed, and a non-negative discount value. */
  predicate ValidCoupon(c: Coupon)
  {
    c.code != "" && NormalizeCode(c.code) == c.code && c.discountValue >= 0
  }

  /** The unique index on `code`. */
  predicate UniqueCodes(coupons: seq<Coupon>)
  {
    forall i, j :: 0 <= i < j < |coupons| ==> coupons[i].code != coupons[j].code
  }

  /** `Coupon.findOne({ code })` for a query key that has gone through the
      same upper-case and trim setters as a stored code. */
  function FindByCode(coupons: seq<Coupon>, key: string): (r: Option<Coupon>)
    ensures r.Some? ==> r.value in coupons && r.value.code == key
    ensures r.None? <==> forall i :: 0 <= i < |coupons| ==> coupons[i].code != key
  {
    if |coupons| == 0 then None
    else if coupons[0].code == key then Some(coupons[0])
    else FindByCode(coupons[1..], key)
  }

  /** `Coupon.findOne({ code, isActive: true })` */
  function FindActive(coupons: seq<Coupon>, key: string): (r: Option<Coupon>)
    ensures r.Some? ==> r.value in coupons && r.value.code == key && r.value.isActive
    ensures r.None? <==> forall i :: 0 <= i < |coupons| ==> coupons[i].code != key || !coupons[i].isActive
  {
    if |coupons| == 0 then None
    else if coupons[0].code == key && coupons[0].isActive then Some(coupons[0])
    else FindActive(coupons[1..], key)
  }

  // ---------------------------------------------------------------------
  // Creation

  /** The request body of POST /api/coupon/create. Missing numbers and dates
      are 0, missing strings "", missing nullable numbers None. */
  datatype CouponRequest = CouponRequest(
    code: string,
    discountType: string,
    discountValue: int,
    minimumOrderAmount: int,
    maximumDiscount: Option<int>,
    usageLimit: Option<int>,
    validFrom: int,
    validUntil: int,
    description: string)

  datatype CouponOutcome<T> = CouponOutcome(reply: Reply<T>, coupons: seq<Coupon>)

  const MISSING_FIELDS: string := "Code, discount type, discount value, and valid until are required"

  /** The four required fields are truthy; a discount value of 0 counts as missing. */
  predicate HasRequired(req: CouponRequest)
  {
    req.code != "" && req.discountType != "" && req.discountValue != 0 && req.validUntil != 0
  }

  /** What schema validation rejects once the guards have passed. */
  predicate PassesSchema(req: CouponRequest)
  {
    req.discountType in {"percentage", "fixed"} && req.discountValue >= 0 && NormalizeCode(req.code) != ""
  }

  /** The coupon stored for a request that passed every check. */
  function StoredCoupon(req: CouponRequest, id: string, now: int): (c: Coupon)
    requires PassesSchema(req)
    ensures ValidCoupon(c)
    ensures c.code == NormalizeCode(req.code) && c.usedCount == 0 && c.isActive
    ensures c.validFrom == (if req.validFrom != 0 then req.validFrom else now)
    ensures c.maximumDiscount == req.maximumDiscount && c.usageLimit == req.usageLimit
    ensures c.minimumOrderAmount == req.minimumOrderAmount
  {
    NormalizeCodeIdempotent(req.code);
    Coupon(id, NormalizeCode(req.code),
           if req.discountType == "percentage" then Percentage else Fixed,
           req.discountValue, req.minimumOrderAmount, req.maximumDiscount, req.usageLimit, 0,
           if req.validFrom != 0 then req.validFrom else now, req.validUntil, true, req.description)
  }

  /** POST /api/coupon/create */
  function CreateCoupon(coupons: seq<Coupon>, req: CouponRequest, id: string, now: int): (r: CouponOutcome<Coupon>)
    ensures r.reply.Err? ==> r.coupons == coupons
    ensures !HasRequired(req) ==> r.reply == Err(BAD_REQUEST, MISSING_FIELDS)
    ensures (r.reply.Err? && r.reply.status == CONFLICT) <==> HasRequired(req) && FindByCode(coupons, NormalizeCode(req.code)).Some?
    ensures r.reply.Ok? <==> HasRequired(req) && FindByCode(coupons, NormalizeCode(req.code)).None? && PassesSchema(req)
    ensures r.reply.Err? && r.reply.status == CONFLICT ==> r.reply.message == "Coupon code already exists"
    ensures HasRequired(req) && FindByCode(coupons, NormalizeCode(req.code)).None? && !PassesSchema(req) ==>
      r.reply == Err(BAD_REQUEST, ErrorHandler.VALIDATION_ERROR)
    ensures r.reply.Ok? ==>
      && r.reply.status == CREATED
      && r.reply.value == StoredCoupon(req, id, now)
      && r.coupons == coupons + [r.reply.value]
  {
    if !HasRequired(req) then CouponOutcome(Err(BAD_REQUEST, MISSING_FIELDS), coupons)
    else if FindByCode(coupons, NormalizeCode(ToUpper(req.code))).Some? then
      UpperThenNormalize(req.code);
      CouponOutcome(Err(CONFLICT, "Coupon code already exists"), coupons)
    else if !PassesSchema(req) then
      UpperThenNormalize(req.code);
      CouponOutcome(Err(BAD_REQUEST, ErrorHandler.VALIDATION_ERROR), coupons)
    else
      UpperThenNormalize(req.code);
      var c := StoredCoupon(req, id, now);
      CouponOutcome(Ok(CREATED, "Coupon created successfully", c), coupons + [c])
  }

  /** Upper-casing before the setters run changes nothing they produce. */
  lemma UpperThenNormalize(s: string)
    ensures NormalizeCode(ToUpper(s)) == NormalizeCode(s)
  {
    assert ToUpper(ToUpper(s)) == ToUpper(s);
  }

  /** Creation keeps codes unique and every stored coupon valid. */
  lemma CreateKeepsInvariants(coupons: seq<Coupon>, req: CouponRequest, id: string, now: int)
    requires UniqueCodes(coupons)
    requires forall i :: 0 <= i < |coupons| ==> ValidCoupon(coupons[i])
    ensures var after := CreateCoupon(coupons, req, id, now).coupons;
      UniqueCodes(after) && forall i :: 0 <= i < |after| ==> ValidCoupon(after[i])
  {
    var r := CreateCoupon(coupons, req, id, now);
    if r.reply.Ok? {
      AppendKeepsInvariants(coupons, r.reply.value);
    }
  }

  lemma AppendKeepsInvariants(coupons: seq<Coupon>, c: Coupon)
    requires UniqueCodes(coupons) && forall i :: 0 <= i < |coupons| ==> ValidCoupon(coupons[i])
    requires ValidCoupon(c) && forall i :: 0 <= i < |coupons| ==> coupons[i].code != c.code
    ensures var after := coupons + [c];
      UniqueCodes(after) && forall i :: 0 <= i < |after| ==> ValidCoupon(after[i])
  {
    AppendKeepsValid(coupons, c);
    AppendKeepsUnique(coupons, c);
  }

  lemma AppendKeepsValid(coupons: seq<Coupon>, c: Coupon)
    requires forall i :: 0 <= i < |coupons| ==> ValidCoupon(coupons[i])
    requires ValidCoupon(c)
    ensures forall i :: 0 <= i < |coupons + [c]| ==> ValidCoupon((coupons + [c])[i])
  {
    var after := coupons + [c];
    forall i | 0 <= i < |after| ensures ValidCoupon(after[i]) {
      if i < |coupons| {
        assert after[i] == coupons[i];
      } else {
        assert after[i] == c;
      }
    }
  }

  lemma AppendKeepsUnique(coupons: seq<Coupon>, c: Coupon)
    requires UniqueCodes(coupons)
    requires forall i :: 0 <= i < |coupons| ==> coupons[i].code != c.code
    ensures UniqueCodes(coupons + [c])
  {
    var after := coupons + [c];
    forall i, j | 0 <= i < j < |after| ensures after[i].code != after[j].code {
      assert after[i] == coupons[i];
      if j < |coupons| {
        assert after[j] == coupons[j];
      } else {
        assert after[j] == c;
      }
    }
  }

  /** Once a code is stored, a second request for it in any letter case or
      padding is refused with 409. */
  lemma SecondCreateConflicts(coupons: seq<Coupon>, first: CouponRequest, second: CouponRequest, id1: string, id2: string, now: int)
    requires CreateCoupon(coupons, first, id1, now).reply.Ok?
    requires HasRequired(second) && NormalizeCode(second.code) == NormalizeCode(first.code)
    ensures
      var after := CreateCoupon(coupons, first, id1, now).coupons;
      CreateCoupon(after, second, id2, now).reply == Err(CONFLICT, "Coupon code already exists")
  {
    var c := CreateCoupon(coupons, first, id1, now).reply.value;
    var after := CreateCoupon(coupons, first, id1, now).coupons;
    assert after == coupons + [c];
    UpperThenNormalize(second.code);
    var key := NormalizeCode(second.code);
    assert after[|after| - 1].code == key;
    assert FindByCode(after, key).Some?;
  }

  // ---------------------------------------------------------------------
  // Redemption

  /** The usage cap applies only when the limit is truthy: null and 0 mean unlimited. */
  predicate UsageExhausted(c: Coupon)
  {
    c.usageLimit.Some? && c.usageLimit.value != 0 && c.usedCount >= c.usageLimit.value
  }

  /** The checks after lookup: inside the window (both ends included), under
      the usage cap, and at least the minimum order. */
  predicate Redeemable(c: Coupon, orderAmount: int, now: int)
  {
    c.validFrom <= now <= c.validUntil && !UsageExhausted(c) && orderAmount >= c.minimumOrderAmount
  }

  /** The discount before the order-amount cap: a percentage is floored and
      capped by a truthy maximum; a fixed value is taken as is. */
  function RawDiscount(c: Coupon, orderAmount: int): (d: int)
    ensures c.discountType == Fixed ==> d == c.discountValue
    ensures c.discountType == Percentage ==>
      d <= orderAmount * c.discountValue / 100 &&
      (d == orderAmount * c.discountValue / 100 ||
       (c.maximumDiscount.Some? && c.maximumDiscount.value != 0 && d == c.maximumDiscount.value))
    ensures c.discountType == Percentage && c.maximumDiscount.Some? && c.maximumDiscount.value != 0 ==>
      d <= c.maximumDiscount.value
  {
    match c.discountType
    case Percentage =>
      var pct := orderAmount * c.discountValue / 100;
      if c.maximumDiscount.Some? && c.maximumDiscount.value != 0 && pct > c.maximumDiscount.value
      then c.maximumDiscount.value else pct
    case Fixed => c.discountValue
  }

  /** The discount actually granted never exceeds the order amount. */
  function Discount(c: Coupon, orderAmount: int): (d: int)
    ensures d <= orderAmount && d <= RawDiscount(c, orderAmount)
    ensures d == RawDiscount(c, orderAmount) || d == orderAmount
  {
    var raw := RawDiscount(c, orderAmount);
    if raw > orderAmount then orderAmount else raw
  }

  /** The currency prefix of the minimum-order message as the controller's
      file holds it: the UTF-8 bytes of "₹" read back as Windows-1252, which
      are the three characters U+00E2, U+201A, U+00B9. */
  const RUPEE_AS_WRITTEN: string := "\U{E2}\U{201A}\U{B9}"

  datatype Applied = Applied(couponId: string, code: string, discount: int, discountType: DiscountType,
                             discountValue: int, finalAmount: int)

  /** POST /api/coupon/apply. Only a reply comes back: the coupon store is not
      an output, so nothing about the coupon (its usedCount included) changes. */
  function ApplyCoupon(coupons: seq<Coupon>, code: string, orderAmount: int, now: int): (r: Reply<Applied>)
    ensures code == "" || orderAmount == 0 ==> r == Err(BAD_REQUEST, "Coupon code and order amount are required")
    ensures code != "" && orderAmount != 0 && FindActive(coupons, NormalizeCode(code)).None? ==> r == Err(NOT_FOUND, "Invalid coupon code")
    ensures r.Ok? <==> code != "" && orderAmount != 0 && FindActive(coupons, NormalizeCode(code)).Some? &&
                       Redeemable(FindActive(coupons, NormalizeCode(code)).value, orderAmount, now)
    ensures r.Err? ==> r.status in {BAD_REQUEST, NOT_FOUND}
    ensures code != "" && orderAmount != 0 && FindActive(coupons, NormalizeCode(code)).Some? ==>
      var c := FindActive(coupons, NormalizeCode(code)).value;
      && (now < c.validFrom || now > c.validUntil ==> r == Err(BAD_REQUEST, "Coupon is expired or not yet valid"))
      && (c.validFrom <= now <= c.validUntil && UsageExhausted(c) ==> r == Err(BAD_REQUEST, "Coupon usage limit exceeded"))
      && (c.validFrom <= now <= c.validUntil && !UsageExhausted(c) && orderAmount < c.minimumOrderAmount ==>
            r == Err(BAD_REQUEST, "Minimum order amount is " + RUPEE_AS_WRITTEN + IntToString(c.minimumOrderAmount)))
    ensures r.Ok? ==>
      var c := FindActive(coupons, NormalizeCode(code)).value;
      && r.status == OK
      && r.value.discount == Discount(c, orderAmount)
      && r.value.finalAmount == orderAmount - r.value.discount
      && r.value.finalAmount >= 0
      && r.value.code == c.code
  {
    if code == "" || orderAmount == 0 then Err(BAD_REQUEST, "Coupon code and order amount are required")
    else match FindActive(coupons, NormalizeCode(code))
      case None => Err(NOT_FOUND, "Invalid coupon code")
      case Some(c) =>
        if now < c.validFrom || now > c.validUntil then Err(BAD_REQUEST, "Coupon is expired or not yet valid")
        else if UsageExhausted(c) then Err(BAD_REQUEST, "Coupon usage limit exceeded")
        else if orderAmount < c.minimumOrderAmount then
          Err(BAD_REQUEST, "Minimum order amount is " + RUPEE_AS_WRITTEN + IntToString(c.minimumOrderAmount))
        else
          var d := Discount(c, orderAmount);
          Ok(OK, "Coupon applied successfully", Applied(c.id, c.code, d, c.discountType, c.discountValue, orderAmount - d))
  }

  /** For a valid coupon with a non-negative maximum and a positive order, the
      discount is between 0 and the order amount. */
  lemma DiscountBounds(c: Coupon, orderAmount: int)
    requires ValidCoupon(c) && orderAmount > 0
    requires c.maximumDiscount.Some? ==> c.maximumDiscount.value >= 0
    ensures 0 <= Discount(c, orderAmount) <= orderAmount
  {
  }

  /** A percentage coupon without a cap grants floor(amount × value / 100) when that fits the order. */
  lemma PercentageUncapped(c: Coupon, orderAmount: int)
    requires c.discountType == Percentage && (c.maximumDiscount.None? || c.maximumDiscount == Some(0))
    requires orderAmount * c.discountValue / 100 <= orderAmount
    ensures Discount(c, orderAmount) == orderAmount * c.discountValue / 100
  {
  }

  /** A fixed coupon ignores maximumDiscount: 300 off with a maximum of 100
      still takes 300 off a 1000 order. */
  lemma FixedIgnoresMaximum()
    ensures
      var c := Coupon("c", "FLAT300", Fixed, 300, 0, Some(100), None, 0, 0, 10, true, "");
      Discount(c, 1000) == 300
  {
  }

  /** Both ends of the validity window are accepted. */
  lemma WindowInclusive(c: Coupon, orderAmount: int)
    requires !UsageExhausted(c) && orderAmount >= c.minimumOrderAmount && c.validFrom <= c.validUntil
    ensures Redeemable(c, orderAmount, c.validFrom) && Redeemable(c, orderAmount, c.validUntil)
  {
  }

  /** An order of exactly the minimum amount is accepted. */
  lemma MinimumInclusive(c: Coupon, now: int)
    requires c.validFrom <= now <= c.validUntil && !UsageExhausted(c)
    ensures Redeemable(c, c.minimumOrderAmount, now)
  {
  }

  // ---------------------------------------------------------------------
  // Listing and toggling

  /** GET /api/coupon/active's filter: only a null limit counts as unlimited. */
  predicate Listed(c: Coupon, now: int)
  {
    c.isActive && c.validFrom <= now <= c.validUntil &&
    (c.usageLimit.None? || c.usedCount < c.usageLimit.value)
  }

  function ListedAt(now: int): Coupon -> bool
  {
    (c: Coupon) => Listed(c, now)
  }

  /** GET /api/coupon/active */
  function GetActiveCoupons(coupons: seq<Coupon>, now: int): (r: seq<Coupon>)
    ensures forall c :: c in r <==> c in coupons && Listed(c, now)
    ensures Seqs.IsSubsequence(r, coupons)
  {
    Seqs.Filter(coupons, ListedAt(now))
  }

  /** A listed coupon is accepted by apply for any order meeting its minimum. */
  lemma ListedIsApplicable(coupons: seq<Coupon>, c: Coupon, orderAmount: int, now: int)
    requires UniqueCodes(coupons) && c in coupons && ValidCoupon(c) && Listed(c, now)
    requires orderAmount != 0 && orderAmount >= c.minimumOrderAmount
    ensures ApplyCoupon(coupons, c.code, orderAmount, now).Ok?
  {
    var i :| 0 <= i < |coupons| && coupons[i] == c;
    FindActiveAt(coupons, i);
    assert NormalizeCode(c.code) == c.code;
    assert Redeemable(c, orderAmount, now);
  }

  /** Under unique codes, looking up an active coupon's own code finds it. */
  lemma {:induction false} FindActiveAt(coupons: seq<Coupon>, i: int)
    requires UniqueCodes(coupons) && 0 <= i < |coupons| && coupons[i].isActive
    ensures FindActive(coupons, coupons[i].code) == Some(coupons[i])
    decreases i
  {
    if i > 0 {
      var tail := coupons[1..];
      assert tail[i - 1] == coupons[i];
      assert coupons[0].code != coupons[i].code;
      assert UniqueCodes(tail) by {
        forall a, b | 0 <= a < b < |tail| ensures tail[a].code != tail[b].code {
          assert tail[a] == coupons[a + 1] && tail[b] == coupons[b + 1];
        }
      }
      FindActiveAt(tail, i - 1);
    }
  }

  /** The two disagree on a limit of 0: apply treats it as unlimited, the
      listing as exhausted. */
  lemma ZeroLimitDisagreement()
    ensures
      var c := Coupon("c", NormalizeCode("zero"), Percentage, 10, 0, None, Some(0), 0, 0, 10, true, "");
      !Listed(c, 5) && ApplyCoupon([c], "zero", 100, 5).Ok?
  {
  }

  /** `coupon.isActive = !coupon.isActive` on every coupon with the id. */
  function FlipActive(coupons: seq<Coupon>, couponId: string): (r: seq<Coupon>)
    ensures |r| == |coupons|
    ensures forall i :: 0 <= i < |r| ==>
      r[i].(isActive := coupons[i].isActive) == coupons[i] &&
      r[i].isActive == (if coupons[i].id == couponId then !coupons[i].isActive else coupons[i].isActive)
  {
    seq(|coupons|, i requires 0 <= i < |coupons| =>
      if coupons[i].id == couponId then coupons[i].(isActive := !coupons[i].isActive) else coupons[i])
  }

  function FindCoupon(coupons: seq<Coupon>, couponId: string): (r: Option<Coupon>)
    ensures r.Some? ==> r.value in coupons && r.value.id == couponId
    ensures r.None? <==> forall i :: 0 <= i < |coupons| ==> coupons[i].id != couponId
  {
    if |coupons| == 0 then None
    else if coupons[0].id == couponId then Some(coupons[0])
    else FindCoupon(coupons[1..], couponId)
  }

  /** PATCH /api/coupon/toggle/:couponId */
  function ToggleCoupon(coupons: seq<Coupon>, couponId: string): (r: CouponOutcome<Coupon>)
    ensures FindCoupon(coupons, couponId).None? <==> r.reply == Err(NOT_FOUND, "Coupon not found")
    ensures r.reply.Err? ==> r.coupons == coupons
    ensures r.reply.Ok? ==>
      r.coupons == FlipActive(coupons, couponId) &&
      r.reply.value == FindCoupon(coupons, couponId).value.(isActive := !FindCoupon(coupons, couponId).value.isActive)
    ensures FindCoupon(coupons, couponId).Some? ==>
      && r.reply.Ok? && r.reply.status == OK
      && r.reply.message == (if FindCoupon(coupons, couponId).value.isActive
                             then "Coupon deactivated successfully" else "Coupon activated successfully")
  {
    match FindCoupon(coupons, couponId)
    case None => CouponOutcome(Err(NOT_FOUND, "Coupon not found"), coupons)
    case Some(c) =>
      var flipped := c.(isActive := !c.isActive);
      CouponOutcome(Ok(OK, if flipped.isActive then "Coupon activated successfully" else "Coupon deactivated successfully", flipped),
                    FlipActive(coupons, couponId))
  }

  /** Toggling twice restores the store. */
  lemma ToggleTwice(coupons: seq<Coupon>, couponId: string)
    ensures ToggleCoupon(ToggleCoupon(coupons, couponId).coupons, couponId).coupons == coupons
  {
    var once := ToggleCoupon(coupons, couponId).coupons;
    if FindCoupon(coupons, couponId).Some? {
      var i :| 0 <= i < |coupons| && coupons[i].id == couponId;
      assert once[i].id == couponId;
      assert FindCoupon(once, couponId).Some?;
    }
  }

  /** The store without its first coupon of the given id. */
  function RemoveFirst(coupons: seq<Coupon>, couponId: string): (r: seq<Coupon>)
    ensures FindCoupon(coupons, couponId).None? ==> r == coupons
    ensures FindCoupon(coupons, couponId).Some? ==>
      |r| == |coupons| - 1 && multiset(r) + multiset{FindCoupon(coupons, couponId).value} == multiset(coupons)
    ensures Seqs.IsSubsequence(r, coupons)
  {
    if |coupons| == 0 then []
    else if coupons[0].id == couponId then
      Seqs.PrefixIsSubsequence(coupons[1..], |coupons| - 1);
      assert coupons[1..][..|coupons| - 1] == coupons[1..];
      Seqs.SubsequenceOfTail(coupons[1..], coupons);
      assert coupons == [coupons[0]] + coupons[1..];
      coupons[1..]
    else
      var rest := RemoveFirst(coupons[1..], couponId);
      assert coupons == [coupons[0]] + coupons[1..];
      assert ([coupons[0]] + rest)[1..] == rest;
      [coupons[0]] + rest
  }

  /** No two coupons share an id. */
  predicate UniqueIds(coupons: seq<Coupon>)
  {
    forall i, j :: 0 <= i < j < |coupons| ==> coupons[i].id != coupons[j].id
  }

  /** DELETE /api/coupon/:couponId */
  function DeleteCoupon(coupons: seq<Coupon>, couponId: string): (r: CouponOutcome<()>)
    ensures FindCoupon(coupons, couponId).None? <==> r.reply == Err(NOT_FOUND, "Coupon not found")
    ensures r.reply.Err? ==> r.coupons == coupons
    ensures r.reply.Ok? ==> r.reply.status == OK && r.coupons == RemoveFirst(coupons, couponId)
    ensures FindCoupon(coupons, couponId).Some? ==> r.reply == Ok(OK, "Coupon deleted successfully", ())
  {
    match FindCoupon(coupons, couponId)
    case None => CouponOutcome(Err(NOT_FOUND, "Coupon not found"), coupons)
    case Some(_) => CouponOutcome(Ok(OK, "Coupon deleted successfully", ()), RemoveFirst(coupons, couponId))
  }

  /** With unique ids a deleted coupon is gone, so deleting it again is a 404. */
  lemma {:induction false} DeleteThenNotFound(coupons: seq<Coupon>, couponId: string)
    requires UniqueIds(coupons)
    ensures FindCoupon(RemoveFirst(coupons, couponId), couponId).None?
    ensures DeleteCoupon(DeleteCoupon(coupons, couponId).coupons, couponId).reply == Err(NOT_FOUND, "Coupon not found")
  {
    if |coupons| > 0 {
      var tail := coupons[1..];
      assert UniqueIds(tail) by {
        forall a, b | 0 <= a < b < |tail| ensures tail[a].id != tail[b].id {
          assert tail[a] == coupons[a + 1] && tail[b] == coupons[b + 1];
        }
      }
      DeleteThenNotFound(tail, couponId);
      if coupons[0].id == couponId {
        forall i | 0 <= i < |tail| ensures tail[i].id != couponId {
          assert tail[i] == coupons[i + 1];
        }
      }
    }
  }

  /** GET /api/coupon/all, newest first: the store is kept in creation order,
      so this is the store read backwards. */
  function GetAllCoupons(coupons: seq<Coupon>): (r: seq<Coupon>)
    ensures |r| == |coupons|
    ensures forall i :: 0 <= i < |r| ==> r[i] == coupons[|coupons| - 1 - i]
  {
    if |coupons| == 0 then [] else GetAllCoupons(coupons[1..]) + [coupons[0]]
  }

  /** The seller's list holds every stored coupon and nothing else. */
  lemma {:induction false} AllCouponsAreListed(coupons: seq<Coupon>)
    ensures multiset(GetAllCoupons(coupons)) == multiset(coupons)
  {
    if |coupons| > 0 {
      AllCouponsAreListed(coupons[1..]);
      assert coupons == [coupons[0]] + coupons[1..];
    }
  }
}
