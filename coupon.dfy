/** Discount coupons (`Coupon` in app/models/coupon.py): a collection in insertion order
    that `create` appends to and `increment_use` updates in place, looked up by
    upper-cased code, and a read-only validator that rejects in a fixed order and then
    computes a discount no larger than the amount. */
module CouponModel {

  import opened Common
  import opened Text

  /** `TYPE_PERCENTAGE`; any other stored type is a flat amount (`TYPE_FIXED`). */
  datatype DiscountType = Percentage | Fixed

  datatype Coupon = Coupon(
    id: string,
    code: string,
    description: string,
    discountValue: real,
    discountType: DiscountType,
    maxUses: Option<int>,
    usedCount: int,
    /** The `times_used` key: no operation writes it, so `None` (absent) on every
        coupon this model creates. */
    timesUsed: Option<int>,
    isActive: bool,
    validFrom: Option<Instant>,
    validUntil: Option<Instant>,
    minAmount: Option<real>,
    usedBy: seq<string>,
    createdAt: Instant,
    updatedAt: Instant)

  /** `float(min_amount) if min_amount else None`. */
  function StoredMinimum(minAmount: Option<real>): (r: Option<real>)
    ensures r.Some? <==> minAmount.Some? && minAmount.value != 0.0
    ensures r.Some? ==> r == minAmount
  {
    if minAmount.Some? && minAmount.value != 0.0 then minAmount else None
  }

  /** The record `create` inserts. */
  function NewCoupon(id: string, code: string, description: string, discountValue: real,
                     discountType: DiscountType, maxUses: Option<int>, usedCount: int, isActive: bool,
                     validFrom: Option<Instant>, validUntil: Option<Instant>, minAmount: Option<real>,
                     now: Instant): (c: Coupon)
    ensures c.id == id && c.code == Upper(code) && c.usedBy == [] && c.timesUsed == None
    ensures c.minAmount == StoredMinimum(minAmount)
    ensures c.discountValue == discountValue && c.discountType == discountType && c.maxUses == maxUses
    ensures c.usedCount == usedCount && c.isActive == isActive
    ensures c.validFrom == validFrom && c.validUntil == validUntil
    ensures c.createdAt == now && c.updatedAt == now
  {
    Coupon(id, Upper(code), description, discountValue, discountType, maxUses, usedCount, None,
           isActive, validFrom, validUntil, StoredMinimum(minAmount), [], now, now)
  }

  /** The position `find_one({'code': code.upper(), 'is_active': True})` returns: the
      first active coupon, in insertion order, whose stored code is the upper-cased query. */
  function FindActive(records: seq<Coupon>, code: string): (r: Option<nat>)
    ensures r.Some? ==> r.value < |records| && records[r.value].code == code && records[r.value].isActive
    ensures r.Some? ==> forall i :: 0 <= i < r.value ==> !(records[i].code == code && records[i].isActive)
    ensures r.None? ==> forall i :: 0 <= i < |records| ==> !(records[i].code == code && records[i].isActive)
  {
    if records == [] then None
    else if records[0].code == code && records[0].isActive then Some(0)
    else
      match FindActive(records[1..], code)
      case Some(j) =>
        assert forall i :: 1 <= i <= j ==> records[i] == records[1..][i - 1];
        Some(j + 1)
      case None =>
        assert forall i :: 1 <= i < |records| ==> records[i] == records[1..][i - 1];
        None
  }

  /** `get_by_code`. */
  function GetByCode(records: seq<Coupon>, code: string): (r: Option<Coupon>)
    ensures r.Some? ==> r.value in records && r.value.code == Upper(code) && r.value.isActive
    ensures r.None? <==> forall c :: c in records ==> !(c.code == Upper(code) && c.isActive)
  {
    match FindActive(records, Upper(code))
    case Some(i) => Some(records[i])
    case None => None
  }

  /** Lookup ignores the case of the query. */
  lemma LookupIgnoresCase(records: seq<Coupon>, code: string)
    ensures GetByCode(records, Upper(code)) == GetByCode(records, code)
  {
    UpperIdempotent(code);
  }

  // ---------------------------------------------------------------- validate_coupon

  datatype CouponError =
    | NotFound
    | Inactive
    | AlreadyUsed
    | LimitExceeded
    | NotYetValid(validFrom: Instant)
    | Expired(validUntil: Instant)
    | BelowMinimum(minAmount: real)

  /** The accepted result: the stored code, the discount, the amount left to pay and
      the coupon's id. */
  datatype Discount = Discount(code: string, discount: real, finalAmount: real, couponId: string)

  /** `user_id and user_id in used_by`. */
  predicate UsedBy(c: Coupon, userId: Option<string>)
  {
    Truthy(userId) && userId.value in c.usedBy
  }

  /** `max_uses` is set and non-zero and the count has reached it. */
  predicate LimitReached(c: Coupon, count: int)
  {
    c.maxUses.Some? && c.maxUses.value != 0 && count >= c.maxUses.value
  }

  /** `coupon.get('times_used', 0)`. */
  function TimesUsed(c: Coupon): int
  {
    if c.timesUsed.Some? then c.timesUsed.value else 0
  }

  predicate Early(c: Coupon, now: Instant)
  {
    c.validFrom.Some? && now < c.validFrom.value
  }

  predicate Late(c: Coupon, now: Instant)
  {
    c.validUntil.Some? && now > c.validUntil.value
  }

  predicate BelowMin(c: Coupon, amount: real)
  {
    c.minAmount.Some? && c.minAmount.value != 0.0 && amount < c.minAmount.value
  }

  /** The discount before clamping. */
  function RawDiscount(c: Coupon, amount: real): real
  {
    if c.discountType == Percentage then (amount * c.discountValue) / 100.0 else c.discountValue
  }

  /** The rejections after the lookup, in the order they are checked, with the usage
      count the limit check reads. */
  function Rejection(c: Coupon, amount: real, userId: Option<string>, now: Instant, count: int): (r: Option<CouponError>)
    ensures r == Some(Inactive) <==> !c.isActive
    ensures r == Some(AlreadyUsed) <==> c.isActive && UsedBy(c, userId)
    ensures r == Some(LimitExceeded) <==> c.isActive && !UsedBy(c, userId) && LimitReached(c, count)
    ensures (r.Some? && r.value.NotYetValid?) <==>
              c.isActive && !UsedBy(c, userId) && !LimitReached(c, count) && Early(c, now)
    ensures r.Some? && r.value.NotYetValid? ==> r.value.validFrom == c.validFrom.value
    ensures (r.Some? && r.value.Expired?) <==>
              c.isActive && !UsedBy(c, userId) && !LimitReached(c, count) && !Early(c, now) && Late(c, now)
    ensures r.Some? && r.value.Expired? ==> r.value.validUntil == c.validUntil.value
    ensures (r.Some? && r.value.BelowMinimum?) <==>
              && c.isActive && !UsedBy(c, userId) && !LimitReached(c, count)
              && !Early(c, now) && !Late(c, now) && BelowMin(c, amount)
    ensures r.Some? && r.value.BelowMinimum? ==> r.value.minAmount == c.minAmount.value
    ensures r.Some? ==> !r.value.NotFound?
    ensures r.None? <==> && c.isActive && !UsedBy(c, userId) && !LimitReached(c, count)
                         && !Early(c, now) && !Late(c, now) && !BelowMin(c, amount)
  {
    if !c.isActive then Some(Inactive)
    else if UsedBy(c, userId) then Some(AlreadyUsed)
    else if LimitReached(c, count) then Some(LimitExceeded)
    else if Early(c, now) then Some(NotYetValid(c.validFrom.value))
    else if Late(c, now) then Some(Expired(c.validUntil.value))
    else if BelowMin(c, amount) then Some(BelowMinimum(c.minAmount.value))
    else None
  }

  /** The accepted result for a coupon that passed every check. */
  function Accept(c: Coupon, amount: real): (d: Discount)
    ensures d.discount <= amount && d.discount <= RawDiscount(c, amount)
    ensures d.discount == amount || d.discount == RawDiscount(c, amount)
    ensures d.finalAmount == amount - d.discount && d.finalAmount >= 0.0
    ensures d.code == c.code && d.couponId == c.id
  {
    var raw := RawDiscount(c, amount);
    var discount := if raw < amount then raw else amount;
    Discount(c.code, discount, amount - discount, c.id)
  }

  /** `validate_coupon` as written: the usage limit is checked against `times_used`. */
  function ValidateCoupon(records: seq<Coupon>, code: string, amount: real, userId: Option<string>,
                          now: Instant): (r: Result<Discount, CouponError>)
    ensures r == Err(NotFound) <==> GetByCode(records, code).None?
    ensures r.Ok? <==> GetByCode(records, code).Some?
                       && Rejection(GetByCode(records, code).value, amount, userId, now,
                                    TimesUsed(GetByCode(records, code).value)).None?
    ensures r.Ok? ==> r.value == Accept(GetByCode(records, code).value, amount)
  {
    match GetByCode(records, code)
    case None => Err(NotFound)
    case Some(c) =>
      match Rejection(c, amount, userId, now, TimesUsed(c))
      case Some(e) => Err(e)
      case None => Ok(Accept(c, amount))
  }

  /** The evidently intended validator: the limit is checked against `used_count`, the
      counter `increment_use` advances. */
  function ValidateCouponCorrected(records: seq<Coupon>, code: string, amount: real, userId: Option<string>,
                                   now: Instant): (r: Result<Discount, CouponError>)
    ensures r == Err(NotFound) <==> GetByCode(records, code).None?
    ensures r.Ok? <==> GetByCode(records, code).Some?
                       && Rejection(GetByCode(records, code).value, amount, userId, now,
                                    GetByCode(records, code).value.usedCount).None?
    ensures r.Ok? ==> r.value == Accept(GetByCode(records, code).value, amount)
  {
    match GetByCode(records, code)
    case None => Err(NotFound)
    case Some(c) =>
      match Rejection(c, amount, userId, now, c.usedCount)
      case Some(e) => Err(e)
      case None => Ok(Accept(c, amount))
  }

  /** Only active coupons are looked up, so "inactive" is never the answer. */
  lemma InactiveIsNeverReported(records: seq<Coupon>, code: string, amount: real,
                                userId: Option<string>, now: Instant)
    ensures ValidateCoupon(records, code, amount, userId, now) != Err(Inactive)
    ensures ValidateCouponCorrected(records, code, amount, userId, now) != Err(Inactive)
  {
  }

  /** A coupon is accepted at the very first and the very last instant of its window. */
  lemma WindowBoundsAccepted(c: Coupon, amount: real, userId: Option<string>, count: int)
    requires c.validFrom.Some? && c.validUntil.Some?
    ensures !Early(c, c.validFrom.value) && !Late(c, c.validUntil.value)
    ensures c.validFrom.value <= c.validUntil.value ==>
              forall now :: c.validFrom.value <= now <= c.validUntil.value ==> !Early(c, now) && !Late(c, now)
  {
  }

  /** A percentage of at most 100 on a non-negative amount is never clamped. */
  lemma PercentageNotClamped(c: Coupon, amount: real)
    requires c.discountType == Percentage && 0.0 <= c.discountValue <= 100.0 && amount >= 0.0
    ensures Accept(c, amount).discount == amount * c.discountValue / 100.0
  {
    assert amount * c.discountValue <= amount * 100.0;
  }

  // ---------------------------------------------------------------- increment_use

  predicate NoDuplicates(s: seq<string>)
  {
    forall i, j :: 0 <= i < j < |s| ==> s[i] != s[j]
  }

  /** `$addToSet`: appends only what is not there yet. */
  function AddToSet(s: seq<string>, x: string): (r: seq<string>)
    ensures x in r && forall y :: y in r <==> y in s || y == x
    ensures NoDuplicates(s) ==> NoDuplicates(r)
  {
    if x in s then s else s + [x]
  }

  /** The coupon after `increment_use`. */
  function Redeemed(c: Coupon, userId: Option<string>, now: Instant): (d: Coupon)
    ensures d.usedCount == c.usedCount + 1 && d.updatedAt == now
    ensures Truthy(userId) ==> d.usedBy == AddToSet(c.usedBy, userId.value)
    ensures !Truthy(userId) ==> d.usedBy == c.usedBy
    ensures d.(usedCount := c.usedCount, usedBy := c.usedBy, updatedAt := c.updatedAt) == c
  {
    c.(usedCount := c.usedCount + 1,
       usedBy := if Truthy(userId) then AddToSet(c.usedBy, userId.value) else c.usedBy,
       updatedAt := now)
  }

  /** A user who has redeemed a coupon is turned away the next time. */
  lemma RedeemerRejected(c: Coupon, userId: Option<string>, amount: real, now: Instant, count: int)
    requires Truthy(userId) && c.isActive
    ensures Rejection(Redeemed(c, userId, now), amount, userId, now, count) == Some(AlreadyUsed)
  {
  }

  /** The finding: a coupon limited to one use, once redeemed, still validates as
      written, because `times_used` is never written. */
  lemma AsWrittenIgnoresRedemptions(now: Instant)
    ensures var c := NewCoupon("c1", "save10", "", 10.0, Percentage, Some(1), 0, true, None, None, None, now);
            var redeemed := Redeemed(c, None, now);
            && redeemed.usedCount == 1
            && ValidateCoupon([redeemed], "SAVE10", 100.0, None, now).Ok?
  {
    var c := NewCoupon("c1", "save10", "", 10.0, Percentage, Some(1), 0, true, None, None, None, now);
    assert Upper("save10") == "SAVE10";
    UpperIdempotent("save10");
  }

  /** With the corrected validator, a coupon is refused once it has been redeemed
      `max_uses` times. */
  lemma CorrectedEnforcesLimit(records: seq<Coupon>, code: string, amount: real,
                               userId: Option<string>, now: Instant)
    requires GetByCode(records, code).Some?
    requires var c := GetByCode(records, code).value;
             c.maxUses.Some? && c.maxUses.value > 0 && c.usedCount >= c.maxUses.value && !UsedBy(c, userId)
    ensures ValidateCouponCorrected(records, code, amount, userId, now) == Err(LimitExceeded)
  {
  }

  /** Below the limit, the two validators agree exactly when `times_used` is absent. */
  lemma ValidatorsAgreeBelowLimit(records: seq<Coupon>, code: string, amount: real,
                                  userId: Option<string>, now: Instant)
    requires GetByCode(records, code).Some?
    requires var c := GetByCode(records, code).value;
             c.timesUsed.None? && c.usedCount >= 0 && !LimitReached(c, c.usedCount)
    ensures ValidateCouponCorrected(records, code, amount, userId, now) == ValidateCoupon(records, code, amount, userId, now)
  {
  }

  // ---------------------------------------------------------------- the collection

  /** The coupons collection, in insertion order. */
  class Coupons {
    var records: seq<Coupon>

    /** Ids are non-empty and distinct, and no coupon lists a user twice. */
    ghost predicate Valid()
      reads this
    {
      && (forall i :: 0 <= i < |records| ==> records[i].id != "" && NoDuplicates(records[i].usedBy))
      && (forall i, j :: 0 <= i < j < |records| ==> records[i].id != records[j].id)
    }

    constructor ()
      ensures Valid() && records == []
    {
      records := [];
    }

    /** `create`: appends the coupon under a fresh id. */
    method Create(freshId: string, code: string, description: string, discountValue: real,
                  discountType: DiscountType, maxUses: Option<int>, usedCount: int, isActive: bool,
                  validFrom: Option<Instant>, validUntil: Option<Instant>, minAmount: Option<real>,
                  now: Instant) returns (id: string)
      requires Valid()
      requires freshId != "" && forall i :: 0 <= i < |records| ==> records[i].id != freshId
      modifies this
      ensures Valid()
      ensures id == freshId
      ensures records == old(records) + [NewCoupon(id, code, description, discountValue, discountType, maxUses,
                                                   usedCount, isActive, validFrom, validUntil, minAmount, now)]
    {
      id := freshId;
      records := records + [NewCoupon(id, code, description, discountValue, discountType, maxUses,
                                      usedCount, isActive, validFrom, validUntil, minAmount, now)];
    }

    /** `increment_use`: redeems the coupon with this id; `modified` tells whether one
        was found. */
    method IncrementUse(couponId: string, userId: Option<string>, now: Instant) returns (modified: bool)
      requires Valid()
      modifies this
      ensures Valid()
      ensures modified <==> exists i :: 0 <= i < |old(records)| && old(records)[i].id == couponId
      ensures |records| == |old(records)|
      ensures forall i :: 0 <= i < |records| ==>
                records[i] == (if old(records)[i].id == couponId then Redeemed(old(records)[i], userId, now)
                               else old(records)[i])
    {
      var before := records;
      modified := exists i :: 0 <= i < |before| && before[i].id == couponId;
      records := seq(|before|, i requires 0 <= i < |before| =>
                       if before[i].id == couponId then Redeemed(before[i], userId, now) else before[i]);
    }
  }
}
