/** Coupons (routes/couponRoutes.js): creating a coupon with a normalised,
    unique code, deleting one, and evaluating a code against a cart total. */
module Coupons {
  import opened Js

  datatype DiscountType = Percentage | Fixed

  datatype Coupon = Coupon(
    id: Oid,
    code: string,
    discountType: DiscountType,
    discountValue: real,
    expiryDate: int,
    usageLimit: real,
    usedCount: real,
    minPurchase: real)

  /** The `expiryDate` of a create request: a falsy value (absent, null,
      0 or ""), a truthy value Mongoose cannot cast to a date, or one it
      casts to this timestamp. */
  datatype DateField = FalsyDate | InvalidDate | Timestamp(time: int)

  /** The body of `POST /coupons`; None stands for an absent field. */
  datatype CreateRequest = CreateRequest(
    code: Option<string>,
    discountType: Option<string>,
    discountValue: Option<real>,
    expiryDate: DateField,
    usageLimit: Option<real>,
    minPurchase: Option<real>)

  datatype CreateError =
    | MissingFields   // 400 "All required fields must be filled"
    | DuplicateCode   // 400 "Coupon code already exists"
    | InvalidDocument // 500: the save rejects the discount type or the expiry date
  {
    function Status(): int
    {
      match this
      case MissingFields => 400
      case DuplicateCode => 400
      case InvalidDocument => 500
    }
  }

  datatype DeleteError = Unparsable | NotFound
  {
    function Status(): int
    {
      match this
      case Unparsable => 500
      case NotFound => 404
    }
  }

  datatype ApplyError =
    | MissingInput            // 400 "Code and cartTotal required"
    | InvalidCode             // 404 "Invalid coupon code!"
    | Expired                 // 400 "Coupon expired"
    | LimitReached            // 400 "Coupon usage limit reached"
    | BelowMinimum(min: real) // 400 "Minimum purchase ... required"
  {
    function Status(): int
    {
      match this
      case InvalidCode => 404
      case _ => 400
    }
  }

  datatype Quote = Quote(discount: real, discountedTotal: real, couponCode: string)

  /** The schema's enum on `discountType`. */
  function ParseDiscountType(s: string): (t: Option<DiscountType>)
    ensures t == Some(Percentage) <==> s == "percentage"
    ensures t == Some(Fixed) <==> s == "fixed"
  {
    if s == "percentage" then Some(Percentage)
    else if s == "fixed" then Some(Fixed)
    else None
  }

  /** `Coupon.findOne({ code })`: the position of the first coupon with
      exactly this code. */
  function IndexOfCode(cs: seq<Coupon>, code: string): (r: Option<nat>)
    ensures r.Some? ==> r.value < |cs| && cs[r.value].code == code
    ensures r.Some? ==> forall j :: 0 <= j < r.value ==> cs[j].code != code
    ensures r.None? ==> forall j :: 0 <= j < |cs| ==> cs[j].code != code
  {
    FirstIndex(cs, (c: Coupon) => c.code, code)
  }

  function IndexOfId(cs: seq<Coupon>, id: Oid): (r: Option<nat>)
    ensures r.Some? ==> r.value < |cs| && cs[r.value].id == id
    ensures r.None? ==> forall j :: 0 <= j < |cs| ==> cs[j].id != id
  {
    FirstIndex(cs, (c: Coupon) => c.id, id)
  }

  /** The key `applyCoupon` looks up: `code.trim().toUpperCase()`. */
  function LookupKey(code: string): (k: string)
    ensures IsUpperCase(k)
    ensures k == [] || !IsSpace(k[0])
  {
    Upper(Trim(code))
  }

  /** The discount before capping: a percentage of the cart total, or the
      fixed amount. */
  function RawDiscount(c: Coupon, cartTotal: real): real
  {
    if c.discountType == Percentage then cartTotal * c.discountValue / 100.0 else c.discountValue
  }

  predicate IsExpired(c: Coupon, now: int) { c.expiryDate < now }

  predicate IsUsedUp(c: Coupon) { c.usageLimit > 0.0 && c.usedCount >= c.usageLimit }

  /** `POST /coupons/apply`. A missing code or a falsy cart total is
      refused before any lookup; then the coupon is looked up by its
      normalised code and the guards run in the order expiry, usage cap,
      minimum purchase; the discount is capped at the cart total. The
      coupons are only read: `usedCount` is never written back. */
  function ApplyCoupon(cs: seq<Coupon>, code: Option<string>, cartTotal: Option<real>, now: int): (r: Result<Quote, ApplyError>)
    ensures !Present(code) || !NonZero(cartTotal) ==> r == Err(MissingInput)
    ensures r.Ok? ==> Present(code) && NonZero(cartTotal)
    ensures r.Ok? ==> IndexOfCode(cs, LookupKey(code.value)).Some?
    ensures r.Ok? ==>
      var c := cs[IndexOfCode(cs, LookupKey(code.value)).value];
      && !IsExpired(c, now)
      && !IsUsedUp(c)
      && cartTotal.value >= c.minPurchase
      && r.value.couponCode == c.code == LookupKey(code.value)
    ensures r.Ok? ==> r.value.discount <= cartTotal.value
    ensures r.Ok? ==> r.value.discountedTotal == cartTotal.value - r.value.discount >= 0.0
    ensures Present(code) && NonZero(cartTotal) && IndexOfCode(cs, LookupKey(code.value)).None? ==> r == Err(InvalidCode)
  {
    if !Present(code) || !NonZero(cartTotal) then Err(MissingInput)
    else
      var total := cartTotal.value;
      match IndexOfCode(cs, LookupKey(code.value))
      case None => Err(InvalidCode)
      case Some(i) =>
        var c := cs[i];
        if IsExpired(c, now) then Err(Expired)
        else if IsUsedUp(c) then Err(LimitReached)
        else if total < c.minPurchase then Err(BelowMinimum(c.minPurchase))
        else
          var raw := RawDiscount(c, total);
          var discount := if raw > total then total else raw;
          Ok(Quote(discount, total - discount, c.code))
  }

  /** An expired coupon is refused, whatever its usage and minimum. */
  lemma ExpiredAlwaysFails(cs: seq<Coupon>, code: string, total: real, now: int)
    requires code != "" && total != 0.0
    requires IndexOfCode(cs, LookupKey(code)).Some?
    requires IsExpired(cs[IndexOfCode(cs, LookupKey(code)).value], now)
    ensures ApplyCoupon(cs, Some(code), Some(total), now) == Err(Expired)
  {
  }

  /** The usage cap is consulted only for a coupon that has not expired,
      and only when the cap is positive. */
  lemma UsageCapAfterExpiry(cs: seq<Coupon>, code: string, total: real, now: int)
    requires code != "" && total != 0.0
    requires IndexOfCode(cs, LookupKey(code)).Some?
    requires !IsExpired(cs[IndexOfCode(cs, LookupKey(code)).value], now)
    ensures ApplyCoupon(cs, Some(code), Some(total), now) == Err(LimitReached)
        <==> IsUsedUp(cs[IndexOfCode(cs, LookupKey(code)).value])
  {
  }

  /** A cart below the minimum purchase never gets a discount. */
  lemma BelowMinimumNeverDiscounts(cs: seq<Coupon>, code: string, total: real, now: int)
    requires IndexOfCode(cs, LookupKey(code)).Some?
    requires total < cs[IndexOfCode(cs, LookupKey(code)).value].minPurchase
    ensures ApplyCoupon(cs, Some(code), Some(total), now).Err?
  {
  }

  /** With every guard passed, a percentage coupon of at most 100 % on a
      positive cart gives exactly that share of the total, which is never
      more than the total. */
  lemma PercentageDiscountExact(cs: seq<Coupon>, code: string, total: real, now: int)
    requires code != "" && total > 0.0
    requires IndexOfCode(cs, LookupKey(code)).Some?
    requires
      var c := cs[IndexOfCode(cs, LookupKey(code)).value];
      && c.discountType == Percentage && 0.0 <= c.discountValue <= 100.0
      && !IsExpired(c, now) && !IsUsedUp(c) && total >= c.minPurchase
    ensures
      var c := cs[IndexOfCode(cs, LookupKey(code)).value];
      var r := ApplyCoupon(cs, Some(code), Some(total), now);
      && r.Ok?
      && r.value.discount == total * c.discountValue / 100.0
      && 0.0 <= r.value.discount <= total
  {
    var c := cs[IndexOfCode(cs, LookupKey(code)).value];
    PercentageWithin(c, total);
    GuardsPassed(cs, code, total, now);
    var raw := RawDiscount(c, total);
    assert ApplyCoupon(cs, Some(code), Some(total), now) == Ok(Quote(raw, total - raw, c.code));
  }

  /** Once every guard has passed, the discount is the raw discount capped
      at the cart total. */
  lemma GuardsPassed(cs: seq<Coupon>, code: string, total: real, now: int)
    requires code != "" && total != 0.0
    requires IndexOfCode(cs, LookupKey(code)).Some?
    requires
      var c := cs[IndexOfCode(cs, LookupKey(code)).value];
      !IsExpired(c, now) && !IsUsedUp(c) && total >= c.minPurchase
    ensures
      var c := cs[IndexOfCode(cs, LookupKey(code)).value];
      var d := if RawDiscount(c, total) > total then total else RawDiscount(c, total);
      ApplyCoupon(cs, Some(code), Some(total), now) == Ok(Quote(d, total - d, c.code))
  {
  }

  /** A share of at most 100 % of a positive cart is exactly that share,
      between nothing and the cart total. */
  lemma PercentageWithin(c: Coupon, total: real)
    requires c.discountType == Percentage && total > 0.0 && 0.0 <= c.discountValue <= 100.0
    ensures RawDiscount(c, total) == total * c.discountValue / 100.0
    ensures 0.0 <= RawDiscount(c, total) <= total
  {
    assert total * c.discountValue <= total * 100.0;
  }

  /** A fixed coupon larger than the cart takes the whole cart and no more. */
  lemma FixedDiscountCapped(cs: seq<Coupon>, code: string, total: real, now: int)
    requires code != "" && total != 0.0
    requires IndexOfCode(cs, LookupKey(code)).Some?
    requires
      var c := cs[IndexOfCode(cs, LookupKey(code)).value];
      && c.discountType == Fixed && c.discountValue > total
      && !IsExpired(c, now) && !IsUsedUp(c) && total >= c.minPurchase
    ensures ApplyCoupon(cs, Some(code), Some(total), now).Ok?
    ensures ApplyCoupon(cs, Some(code), Some(total), now).value.discount == total
    ensures ApplyCoupon(cs, Some(code), Some(total), now).value.discountedTotal == 0.0
  {
  }

  /** The lookup ignores the case of the code the customer types. */
  lemma ApplyIgnoresCase(cs: seq<Coupon>, code: string, total: Option<real>, now: int)
    ensures ApplyCoupon(cs, Some(Lower(code)), total, now) == ApplyCoupon(cs, Some(code), total, now)
  {
    TrimLower(code);
    UpperOfLower(Trim(code));
    SameKeySameOutcome(cs, Lower(code), code, total, now);
  }

  /** Two codes that are both truthy (or both falsy) and share a lookup key
      get the same outcome. */
  lemma SameKeySameOutcome(cs: seq<Coupon>, a: string, b: string, total: Option<real>, now: int)
    requires (a == "") == (b == "") && LookupKey(a) == LookupKey(b)
    ensures ApplyCoupon(cs, Some(a), total, now) == ApplyCoupon(cs, Some(b), total, now)
  {
  }

  /** The lookup ignores white space typed before a non-empty code. */
  lemma ApplyIgnoresLeadingSpace(cs: seq<Coupon>, code: string, total: Option<real>, now: int)
    requires code != ""
    ensures ApplyCoupon(cs, Some(" " + code), total, now) == ApplyCoupon(cs, Some(code), total, now)
  {
    TrimDropsLeadingSpace(' ', code);
    SameKeySameOutcome(cs, " " + code, code, total, now);
  }

  /** The lookup ignores white space typed after a non-empty code. */
  lemma ApplyIgnoresTrailingSpace(cs: seq<Coupon>, code: string, total: Option<real>, now: int)
    requires code != ""
    ensures ApplyCoupon(cs, Some(code + " "), total, now) == ApplyCoupon(cs, Some(code), total, now)
  {
    TrimDropsTrailingSpace(code, ' ');
    SameKeySameOutcome(cs, code + " ", code, total, now);
  }

  /** Creation upper-cases but does not trim, while the lookup trims: a
      coupon stored with a leading space can never be applied. */
  lemma LeadingSpaceCodeUnreachable(cs: seq<Coupon>, i: nat, code: Option<string>, total: Option<real>, now: int)
    requires i < |cs| && cs[i].code != [] && IsSpace(cs[i].code[0])
    ensures var r := ApplyCoupon(cs, code, total, now); r.Ok? ==> r.value.couponCode != cs[i].code
  {
  }

  /** Applying "save10" to a cart of 500 against a 10 % coupon with a
      minimum of 100 and no usage cap gives 50 off, 450 to pay. */
  lemma ApplyExample(c: Coupon, now: int)
    requires c.code == "SAVE10" && c.discountType == Percentage && c.discountValue == 10.0
    requires c.minPurchase == 100.0 && c.usageLimit == 0.0 && c.expiryDate >= now
    ensures ApplyCoupon([c], Some("save10"), Some(500.0), now) == Ok(Quote(50.0, 450.0, "SAVE10"))
  {
    SampleKey();
  }

  lemma SampleKey()
    ensures LookupKey("save10") == "SAVE10"
  {
    var s := "save10";
    assert TrimStart(s) == s;
    assert TrimEnd(s) == s;
    var u := Upper(s);
    assert u[0] == 'S' && u[1] == 'A' && u[2] == 'V' && u[3] == 'E' && u[4] == '1' && u[5] == '0';
    assert u == "SAVE10";
  }

  /** The normalised coupon `createCoupon` stores. */
  function NewCoupon(id: Oid, code: string, t: DiscountType, req: CreateRequest): (c: Coupon)
    requires req.discountValue.Some? && req.expiryDate.Timestamp?
    ensures IsUpperCase(c.code) && c.code == Upper(code)
    ensures c.usedCount == 0.0
    ensures NonZero(req.usageLimit) ==> c.usageLimit == req.usageLimit.value
    ensures !NonZero(req.usageLimit) ==> c.usageLimit == 0.0
    ensures NonZero(req.minPurchase) ==> c.minPurchase == req.minPurchase.value
    ensures !NonZero(req.minPurchase) ==> c.minPurchase == 0.0
  {
    Coupon(id, Upper(code), t, req.discountValue.value, req.expiryDate.time,
           OrZero(req.usageLimit), 0.0, OrZero(req.minPurchase))
  }

  predicate MissingRequired(req: CreateRequest)
  {
    !Present(req.code) || !Present(req.discountType) || !NonZero(req.discountValue) || req.expiryDate.FalsyDate?
  }

  /** Removing one coupon keeps codes upper-case and codes and ids unique. */
  lemma RemovalKeepsValid(cs: seq<Coupon>, k: nat)
    requires k < |cs|
    requires forall i :: 0 <= i < |cs| ==> IsUpperCase(cs[i].code)
    requires forall i, j :: 0 <= i < j < |cs| ==> cs[i].code != cs[j].code
    requires forall i, j :: 0 <= i < j < |cs| ==> cs[i].id != cs[j].id
    ensures var rest := cs[..k] + cs[k + 1..];
      && (forall i :: 0 <= i < |rest| ==> IsUpperCase(rest[i].code))
      && (forall i, j :: 0 <= i < j < |rest| ==> rest[i].code != rest[j].code)
      && (forall i, j :: 0 <= i < j < |rest| ==> rest[i].id != rest[j].id)
  {
    var rest := cs[..k] + cs[k + 1..];
    assert forall j :: 0 <= j < |rest| ==> rest[j] == cs[if j < k then j else j + 1];
  }

  /** The coupons collection. */
  class CouponDb {
    var coupons: seq<Coupon>

    /** Stored codes are upper-case and pairwise distinct, and so are ids. */
    ghost predicate Valid()
      reads this
    {
      && (forall i :: 0 <= i < |coupons| ==> IsUpperCase(coupons[i].code))
      && (forall i, j :: 0 <= i < j < |coupons| ==> coupons[i].code != coupons[j].code)
      && (forall i, j :: 0 <= i < j < |coupons| ==> coupons[i].id != coupons[j].id)
    }

    constructor ()
      ensures Valid() && coupons == []
    {
      coupons := [];
    }

    /** `POST /coupons` with a fresh `_id` for the new document. */
    method Create(req: CreateRequest, newId: Oid) returns (r: Result<Coupon, CreateError>)
      requires Valid()
      requires forall j :: 0 <= j < |coupons| ==> coupons[j].id != newId
      modifies this
      ensures Valid()
      ensures r.Err? ==> coupons == old(coupons)
      ensures r.Ok? ==> coupons == old(coupons) + [r.value]
      ensures MissingRequired(req) ==> r == Err(MissingFields)
      ensures !MissingRequired(req) && IndexOfCode(old(coupons), Upper(req.code.value)).Some? ==>
        r == Err(DuplicateCode)
      ensures (!MissingRequired(req) && IndexOfCode(old(coupons), Upper(req.code.value)).None?
               && (ParseDiscountType(req.discountType.value).None? || req.expiryDate.InvalidDate?)) ==>
        r == Err(InvalidDocument)
      ensures r.Ok? <==>
        && !MissingRequired(req)
        && IndexOfCode(old(coupons), Upper(req.code.value)).None?
        && ParseDiscountType(req.discountType.value).Some?
        && req.expiryDate.Timestamp?
      ensures r.Ok? ==>
        && !MissingRequired(req)
        && ParseDiscountType(req.discountType.value).Some?
        && req.expiryDate.Timestamp?
        && r.value == NewCoupon(newId, req.code.value, ParseDiscountType(req.discountType.value).value, req)
    {
      if MissingRequired(req) {
        return Err(MissingFields);
      }
      var code := Upper(req.code.value);
      if IndexOfCode(coupons, code).Some? {
        return Err(DuplicateCode);
      }
      var t := ParseDiscountType(req.discountType.value);
      if t.None? || req.expiryDate.InvalidDate? {
        return Err(InvalidDocument);
      }
      var c := NewCoupon(newId, req.code.value, t.value, req);
      coupons := coupons + [c];
      r := Ok(c);
    }

    /** `DELETE /coupons/:id`. */
    method Delete(id: Oid) returns (r: Result<Coupon, DeleteError>)
      requires Valid()
      modifies this
      ensures Valid()
      ensures !CastsToObjectId(id) ==> r == Err(Unparsable)
      ensures r.Err? ==> coupons == old(coupons)
      ensures CastsToObjectId(id) && IndexOfId(old(coupons), id).None? ==> r == Err(NotFound)
      ensures r.Ok? <==> CastsToObjectId(id) && IndexOfId(old(coupons), id).Some?
      ensures r.Ok? ==> exists i :: 0 <= i < |old(coupons)| && old(coupons)[i] == r.value
                          && r.value.id == id && coupons == old(coupons)[..i] + old(coupons)[i + 1..]
    {
      if !CastsToObjectId(id) {
        return Err(Unparsable);
      }
      var i := IndexOfId(coupons, id);
      if i.None? {
        return Err(NotFound);
      }
      var k := i.value;
      var removed := coupons[k];
      var rest := coupons[..k] + coupons[k + 1..];
      RemovalKeepsValid(coupons, k);
      r := Ok(removed);
      coupons := rest;
      assert old(coupons)[k] == r.value && coupons == old(coupons)[..k] + old(coupons)[k + 1..];
    }
  }
}
