/** The Product document (models/Product.js): its fields and schema
    defaults, and the two middleware hooks that derive `discountedPrice`. */
module ProductModel {
  import opened Js

  /** The image a product shows when it has none of its own. */
  const Placeholder: string := "/images/placeholder.png"

  datatype Ratings = Ratings(averageRating: real, totalRatings: int)

  /** A stored product. `imageId` and `galleryIds` are the storage service's
      deletion handles that the product routes write next to `image` and
      `gallery`; the schema does not declare them (see the README). */
  datatype Product = Product(
    id: Oid,
    productId: string,
    brandName: string,
    name: string,
    price: real,
    discountPercent: real,
    discountedPrice: real,
    quantity: int,
    ratings: Ratings,
    image: string,
    imageId: Option<string>,
    gallery: seq<string>,
    galleryIds: seq<Option<string>>,
    category: string,
    flavor: seq<string>,
    servings: seq<real>,
    weight: string,
    description: string)

  /** A document built from the required fields alone, every other field
      taking its schema default; `brandName` has no default, and "" stands
      for the absent field. */
  function NewProduct(id: Oid, productId: string, name: string, price: real, category: string): (p: Product)
    ensures p.id == id && p.productId == productId && p.name == name
    ensures p.price == price && p.category == category
    ensures p.discountPercent == 0.0 && p.discountedPrice == 0.0 && p.quantity == 0
    ensures p.ratings == Ratings(0.0, 0)
    ensures p.image == Placeholder && p.imageId == None
    ensures p.gallery == [] && p.galleryIds == [] && p.flavor == [] && p.servings == []
    ensures p.brandName == "" && p.weight == "" && p.description == ""
  {
    Product(id, productId, "", name, price, 0.0, 0.0, 0, Ratings(0.0, 0),
            Placeholder, None, [], [], category, [], [], "", "")
  }

  /** `Math.round(price - price * percent / 100)`: the price after the
      discount, to the nearest whole unit. */
  function DiscountedPrice(price: real, percent: real): (r: int)
    ensures r as real - 0.5 <= price - price * percent / 100.0 < r as real + 0.5
  {
    Round(price - price * percent / 100.0)
  }

  /** The pre-`save` hook: a positive discount sets `discountedPrice` to the
      rounded discounted price, any other discount copies the price. */
  function PreSave(p: Product): (q: Product)
    ensures q == p.(discountedPrice := q.discountedPrice)
    ensures p.discountPercent > 0.0 ==> q.discountedPrice == DiscountedPrice(p.price, p.discountPercent) as real
    ensures p.discountPercent <= 0.0 ==> q.discountedPrice == p.price
  {
    if p.discountPercent > 0.0 then
      p.(discountedPrice := DiscountedPrice(p.price, p.discountPercent) as real)
    else
      p.(discountedPrice := p.price)
  }

  /** Taking at most 100 % off a non-negative price leaves between nothing
      and the whole price. */
  lemma DiscountWithin(price: real, percent: real)
    requires 0.0 <= price && 0.0 <= percent <= 100.0
    ensures 0.0 <= price - price * percent / 100.0 <= price
  {
    var share := percent / 100.0;
    assert 0.0 <= share <= 1.0;
    assert price * percent / 100.0 == price * share;
    assert 0.0 <= price * share <= price * 1.0;
  }

  /** Rounding keeps a whole price's discounted value within 0 and the price. */
  lemma DiscountedPriceWithin(price: real, n: nat, percent: real)
    requires price == n as real && 0.0 <= percent <= 100.0
    ensures 0 <= DiscountedPrice(price, percent) <= n
  {
    var x := price - price * percent / 100.0;
    DiscountWithin(price, percent);
    RoundMonotone(0.0, x);
    RoundMonotone(x, price);
    RoundOfInteger(0);
    RoundOfInteger(n);
  }

  /** For a whole, non-negative price and a discount between 0 and 100, the
      saved discounted price is never negative and never above the price. */
  lemma SavedPriceWithinPrice(p: Product, n: nat)
    requires p.price == n as real
    requires 0.0 <= p.discountPercent <= 100.0
    ensures 0.0 <= PreSave(p).discountedPrice <= p.price
  {
    if p.discountPercent > 0.0 {
      DiscountedPriceWithin(p.price, n, p.discountPercent);
    }
  }

  /** A price of 1000 with a 10 % discount is saved with discounted price 900. */
  lemma SaveExample(p: Product)
    requires p.price == 1000.0 && p.discountPercent == 10.0
    ensures PreSave(p).discountedPrice == 900.0
  {
    assert p.price - p.price * p.discountPercent / 100.0 == 900.0;
    RoundOfInteger(900);
  }

  /** A new product with its default discount of 0 saves with
      `discountedPrice` equal to its price. */
  lemma NewProductSavesAtFullPrice(id: Oid, productId: string, name: string, price: real, category: string)
    ensures PreSave(NewProduct(id, productId, name, price, category)).discountedPrice == price
  {
  }

  /** The parts of a pending `findOneAndUpdate` the hook reads and writes:
      top-level `price` and `discountPercent`, the same two under `$set`,
      and the derived `discountedPrice`. None stands for undefined. */
  datatype PendingUpdate = PendingUpdate(
    price: Option<real>,
    discountPercent: Option<real>,
    setPrice: Option<real>,
    setDiscountPercent: Option<real>,
    discountedPrice: Option<real>)

  /** `a ?? b` */
  function Coalesce(a: Option<real>, b: Option<real>): (r: Option<real>)
    ensures a.Some? ==> r == a
    ensures a.None? ==> r == b
  {
    if a.Some? then a else b
  }

  /** The pre-`findOneAndUpdate` hook. Only an update that names `price` or
      `discountPercent` at top level is looked at; each of the two is taken
      from top level or else from `$set`, and only when both are known is
      `discountedPrice` written. */
  function PreUpdate(u: PendingUpdate): (v: PendingUpdate)
    ensures v == u.(discountedPrice := v.discountedPrice)
  {
    if u.price.Some? || u.discountPercent.Some? then
      var price := Coalesce(u.price, u.setPrice);
      var discount := Coalesce(u.discountPercent, u.setDiscountPercent);
      if price.Some? && discount.Some? then
        u.(discountedPrice := Some(DiscountedPrice(price.value, discount.value) as real))
      else
        u
    else
      u
  }

  /** An update carrying both price and discount gets the rounded
      discounted price. */
  lemma UpdateWithBothSetsDiscountedPrice(u: PendingUpdate)
    requires u.price.Some? && u.discountPercent.Some?
    ensures PreUpdate(u).discountedPrice == Some(DiscountedPrice(u.price.value, u.discountPercent.value) as real)
  {
  }

  /** An update carrying the price at top level and the discount only under
      `$set` takes the discount from `$set`. */
  lemma UpdateFallsBackToSetDiscount(u: PendingUpdate)
    requires u.price.Some? && u.discountPercent.None? && u.setDiscountPercent.Some?
    ensures PreUpdate(u).discountedPrice == Some(DiscountedPrice(u.price.value, u.setDiscountPercent.value) as real)
  {
  }

  /** An update carrying the discount at top level and the price only under
      `$set` takes the price from `$set`. */
  lemma UpdateFallsBackToSetPrice(u: PendingUpdate)
    requires u.discountPercent.Some? && u.price.None? && u.setPrice.Some?
    ensures PreUpdate(u).discountedPrice == Some(DiscountedPrice(u.setPrice.value, u.discountPercent.value) as real)
  {
  }

  /** An update carrying only one of the two (and not the other under
      `$set` either) leaves `discountedPrice` as it was. */
  lemma UpdateWithOneLeavesDiscountedPrice(u: PendingUpdate)
    requires (u.price.Some? && u.discountPercent.None? && u.setDiscountPercent.None?)
          || (u.discountPercent.Some? && u.price.None? && u.setPrice.None?)
    ensures PreUpdate(u) == u
  {
  }

  /** An update that names neither field at top level is not looked at,
      even when `$set` carries both. */
  lemma UpdateOnlyUnderSetIsIgnored(u: PendingUpdate)
    requires u.price.None? && u.discountPercent.None?
    ensures PreUpdate(u) == u
  {
  }

  /** The two hooks agree for a whole price and a non-negative discount:
      updating a product's price and discount together yields the value
      saving it would. */
  lemma HooksAgree(p: Product, n: int, u: PendingUpdate)
    requires p.price == n as real && p.discountPercent >= 0.0
    requires u.price == Some(p.price) && u.discountPercent == Some(p.discountPercent)
    ensures PreUpdate(u).discountedPrice == Some(PreSave(p).discountedPrice)
  {
    if p.discountPercent == 0.0 {
      assert p.price - p.price * p.discountPercent / 100.0 == n as real;
      RoundOfInteger(n);
    }
  }

  /** They disagree on a negative discount: saving keeps the price, the
      update hook raises it. */
  lemma HooksDisagreeOnNegativeDiscount(p: Product, u: PendingUpdate)
    requires p.price == 100.0 && p.discountPercent == -10.0
    requires u.price == Some(100.0) && u.discountPercent == Some(-10.0)
    ensures PreSave(p).discountedPrice == 100.0
    ensures PreUpdate(u).discountedPrice == Some(110.0)
  {
    assert 100.0 - 100.0 * -10.0 / 100.0 == 110.0;
    RoundOfInteger(110);
  }

  // ---------------- the products collection ----------------

  /** No two products share an `_id`. */
  ghost predicate UniqueIds(ps: seq<Product>)
  {
    forall i, j :: 0 <= i < j < |ps| ==> ps[i].id != ps[j].id
  }

  /** `findById`: the position of the first product with this `_id`. */
  function IndexOfId(ps: seq<Product>, id: Oid): (r: Option<nat>)
    ensures r.Some? ==> r.value < |ps| && ps[r.value].id == id
    ensures r.Some? ==> forall j :: 0 <= j < r.value ==> ps[j].id != id
    ensures r.None? ==> forall j :: 0 <= j < |ps| ==> ps[j].id != id
  {
    FirstIndex(ps, (p: Product) => p.id, id)
  }

  /** `findOne({ productId })`: the first product with this external id. */
  function IndexOfProductId(ps: seq<Product>, productId: string): (r: Option<nat>)
    ensures r.Some? ==> r.value < |ps| && ps[r.value].productId == productId
    ensures r.Some? ==> forall j :: 0 <= j < r.value ==> ps[j].productId != productId
    ensures r.None? ==> forall j :: 0 <= j < |ps| ==> ps[j].productId != productId
  {
    FirstIndex(ps, (p: Product) => p.productId, productId)
  }
}
