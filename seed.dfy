/** The catalogue seed (scripts/seedProducts.js): a nested catalogue of
    categories and their products is filtered and normalised into a flat
    list of product documents, which replaces the products collection. */
module Seed {
  import opened Js
  import opened ProductModel

  /** A `productId` as the catalogue writes it. */
  datatype RawId = IdNumber(n: int) | IdText(text: string) | NoId

  /** A `flavor` as the catalogue writes it. */
  datatype RawFlavor = FlavorList(items: seq<string>) | FlavorText(text: string) | NoFlavor

  /** A catalogue product; None stands for an absent (or null) field. */
  datatype RawProduct = RawProduct(
    productId: RawId,
    name: Option<string>,
    price: Option<real>,
    image: Option<string>,
    flavor: RawFlavor,
    weight: Option<string>)

  /** A catalogue category; `products` is None when it is missing or not an
      array. */
  datatype RawCategory = RawCategory(category: string, products: Option<seq<RawProduct>>)

  /** One entry of `flatProducts`. */
  datatype FlatProduct = FlatProduct(
    productId: string,
    name: string,
    price: real,
    image: string,
    category: string,
    flavor: seq<string>,
    weight: string)

  datatype SeedError = NothingToInsert // "No valid products to insert!", exit code 1

  predicate IdPresent(id: RawId)
  {
    match id
    case IdNumber(n) => n != 0
    case IdText(t) => t != ""
    case NoId => false
  }

  /** `String(productId)` */
  function IdString(id: RawId): (r: string)
    requires IdPresent(id)
    ensures r != ""
    ensures id.IdText? ==> r == id.text
    ensures id.IdNumber? && id.n > 0 ==> forall i :: 0 <= i < |r| ==> IsDigit(r[i])
  {
    match id
    case IdNumber(n) => IntToString(n)
    case IdText(t) => t
  }

  /** A product is kept when its id and name are truthy and its price is
      not null; a price of 0 is kept. */
  predicate Keeps(p: RawProduct)
  {
    IdPresent(p.productId) && Present(p.name) && p.price.Some?
  }

  /** `Array.isArray(f) ? f : (f ? [f] : [])` */
  function FlavorList(f: RawFlavor): (r: seq<string>)
    ensures f.FlavorList? ==> r == f.items
    ensures f.FlavorText? && f.text != "" ==> r == [f.text]
    ensures f.NoFlavor? || f == FlavorText("") ==> r == []
  {
    match f
    case FlavorList(items) => items
    case FlavorText(t) => if t != "" then [t] else []
    case NoFlavor => []
  }

  /** The entry a kept product becomes under its category. */
  function Normalize(category: string, p: RawProduct): (f: FlatProduct)
    requires Keeps(p)
    ensures f.productId == IdString(p.productId) && f.name == p.name.value && f.price == p.price.value
    ensures f.image == OrElse(p.image, Placeholder)
    ensures f.category == category
    ensures f.flavor == FlavorList(p.flavor)
    ensures f.weight == OrElse(p.weight, "")
  {
    FlatProduct(IdString(p.productId), p.name.value, p.price.value,
                OrElse(p.image, Placeholder), category, FlavorList(p.flavor), OrElse(p.weight, ""))
  }

  /** The entries of one category's products, in order. */
  function FromProducts(category: string, ps: seq<RawProduct>): (r: seq<FlatProduct>)
    ensures |r| <= |ps|
    decreases |ps|
  {
    if |ps| == 0 then []
    else
      var last := ps[|ps| - 1];
      FromProducts(category, ps[..|ps| - 1]) + (if Keeps(last) then [Normalize(category, last)] else [])
  }

  function FromCategory(c: RawCategory): seq<FlatProduct>
  {
    if c.products.Some? then FromProducts(c.category, c.products.value) else []
  }

  /** `flatProducts` once both loops are done. */
  function Flatten(cats: seq<RawCategory>): seq<FlatProduct>
    decreases |cats|
  {
    if |cats| == 0 then [] else Flatten(cats[..|cats| - 1]) + FromCategory(cats[|cats| - 1])
  }

  /** The number of products the catalogue lists. */
  function ProductCount(cats: seq<RawCategory>): nat
    decreases |cats|
  {
    if |cats| == 0 then 0
    else
      var c := cats[|cats| - 1];
      ProductCount(cats[..|cats| - 1]) + (if c.products.Some? then |c.products.value| else 0)
  }

  /** The flat list is never longer than the catalogue. */
  lemma {:induction false} FlattenLength(cats: seq<RawCategory>)
    ensures |Flatten(cats)| <= ProductCount(cats)
    decreases |cats|
  {
    if |cats| > 0 {
      FlattenLength(cats[..|cats| - 1]);
    }
  }

  lemma {:induction false} FromProductsAppend(category: string, a: seq<RawProduct>, b: seq<RawProduct>)
    ensures FromProducts(category, a + b) == FromProducts(category, a) + FromProducts(category, b)
    decreases |b|
  {
    if |b| > 0 {
      var b' := b[..|b| - 1];
      assert (a + b)[..|a + b| - 1] == a + b';
      FromProductsAppend(category, a, b');
    } else {
      assert a + b == a;
    }
  }

  /** Category order is kept: the entries of a catalogue made of two parts
      are those of the first part followed by those of the second. */
  lemma {:induction false} FlattenAppend(a: seq<RawCategory>, b: seq<RawCategory>)
    ensures Flatten(a + b) == Flatten(a) + Flatten(b)
    decreases |b|
  {
    if |b| > 0 {
      var b' := b[..|b| - 1];
      assert (a + b)[..|a + b| - 1] == a + b';
      FlattenAppend(a, b');
    } else {
      assert a + b == a;
    }
  }

  /** Every entry of a category comes from one of its kept products. */
  lemma {:induction false} FromProductsSound(category: string, ps: seq<RawProduct>, f: FlatProduct)
    requires f in FromProducts(category, ps)
    ensures exists j :: 0 <= j < |ps| && Keeps(ps[j]) && f == Normalize(category, ps[j])
    decreases |ps|
  {
    var init := ps[..|ps| - 1];
    if f in FromProducts(category, init) {
      FromProductsSound(category, init, f);
      var j :| 0 <= j < |init| && Keeps(init[j]) && f == Normalize(category, init[j]);
      assert ps[j] == init[j];
    }
  }

  /** Every kept product of a category gives an entry. */
  lemma {:induction false} FromProductsComplete(category: string, ps: seq<RawProduct>, j: nat)
    requires j < |ps| && Keeps(ps[j])
    ensures Normalize(category, ps[j]) in FromProducts(category, ps)
    decreases |ps|
  {
    var init := ps[..|ps| - 1];
    if j < |init| {
      assert init[j] == ps[j];
      FromProductsComplete(category, init, j);
    }
  }

  /** The entry is the normalised form of a kept product listed by one of
      the categories. */
  ghost predicate ComesFrom(cats: seq<RawCategory>, f: FlatProduct)
  {
    exists i, j :: 0 <= i < |cats| && cats[i].products.Some? && 0 <= j < |cats[i].products.value|
      && Keeps(cats[i].products.value[j]) && f == Normalize(cats[i].category, cats[i].products.value[j])
  }

  /** Every entry comes from a kept product of a category that has a
      product list, normalised under that category's name. */
  lemma {:induction false} FlattenSound(cats: seq<RawCategory>, f: FlatProduct)
    requires f in Flatten(cats)
    ensures ComesFrom(cats, f)
    decreases |cats|
  {
    var init, c := cats[..|cats| - 1], cats[|cats| - 1];
    if f in Flatten(init) {
      FlattenSound(init, f);
      var i, j :| 0 <= i < |init| && init[i].products.Some? && 0 <= j < |init[i].products.value|
        && Keeps(init[i].products.value[j]) && f == Normalize(init[i].category, init[i].products.value[j]);
      assert cats[i] == init[i];
    } else {
      FromProductsSound(c.category, c.products.value, f);
      var j :| 0 <= j < |c.products.value| && Keeps(c.products.value[j]) && f == Normalize(c.category, c.products.value[j]);
      assert cats[|cats| - 1] == c;
    }
  }

  /** Every kept product of a category that has a product list gives an
      entry. */
  lemma {:induction false} FlattenComplete(cats: seq<RawCategory>, i: nat, j: nat)
    requires i < |cats| && cats[i].products.Some? && j < |cats[i].products.value|
    requires Keeps(cats[i].products.value[j])
    ensures Normalize(cats[i].category, cats[i].products.value[j]) in Flatten(cats)
    decreases |cats|
  {
    var init := cats[..|cats| - 1];
    if i < |init| {
      assert init[i] == cats[i];
      FlattenComplete(init, i, j);
    } else {
      FromProductsComplete(cats[i].category, cats[i].products.value, j);
    }
  }

  /** A category without a product list contributes nothing. */
  lemma CategoryWithoutProducts(cats: seq<RawCategory>, name: string)
    ensures Flatten(cats + [RawCategory(name, None)]) == Flatten(cats)
  {
    assert (cats + [RawCategory(name, None)])[..|cats|] == cats;
  }

  /** A small catalogue: a product with a null price, one with a falsy id
      and one without a name are skipped, a price of 0 is kept, an empty
      flavor becomes no flavor and a missing image the placeholder. */
  lemma SeedExample()
    ensures var kept := RawProduct(IdNumber(12), Some("Whey"), Some(0.0), None, FlavorText(""), Some("1kg"));
            var cats := [RawCategory("Protein", Some([
                            RawProduct(IdNumber(11), Some("Iso"), None, None, NoFlavor, None),
                            kept,
                            RawProduct(IdNumber(0), Some("Bar"), Some(5.0), None, NoFlavor, None),
                            RawProduct(IdText("x"), None, Some(5.0), None, NoFlavor, None)])),
                         RawCategory("Empty", None)];
            Flatten(cats) == [FlatProduct("12", "Whey", 0.0, Placeholder, "Protein", [], "1kg")]
  {
    var kept := RawProduct(IdNumber(12), Some("Whey"), Some(0.0), None, FlavorText(""), Some("1kg"));
    var ps := [RawProduct(IdNumber(11), Some("Iso"), None, None, NoFlavor, None),
               kept,
               RawProduct(IdNumber(0), Some("Bar"), Some(5.0), None, NoFlavor, None),
               RawProduct(IdText("x"), None, Some(5.0), None, NoFlavor, None)];
    SampleCategoryKeepsOne(ps, kept);
    var cats := [RawCategory("Protein", Some(ps)), RawCategory("Empty", None)];
    assert cats[..1] == [RawCategory("Protein", Some(ps))];
    assert cats[..1][..0] == [];
    assert Flatten(cats[..1]) == FromProducts("Protein", ps);
  }

  /** Of the example's four products only the whey is kept: no price, a
      falsy id and no name each skip a product. */
  lemma SampleCategoryKeepsOne(ps: seq<RawProduct>, kept: RawProduct)
    requires kept == RawProduct(IdNumber(12), Some("Whey"), Some(0.0), None, FlavorText(""), Some("1kg"))
    requires ps == [RawProduct(IdNumber(11), Some("Iso"), None, None, NoFlavor, None),
                    kept,
                    RawProduct(IdNumber(0), Some("Bar"), Some(5.0), None, NoFlavor, None),
                    RawProduct(IdText("x"), None, Some(5.0), None, NoFlavor, None)]
    ensures FromProducts("Protein", ps) == [FlatProduct("12", "Whey", 0.0, Placeholder, "Protein", [], "1kg")]
  {
    assert ps[..3][..2] == ps[..2] && ps[..2][..1] == ps[..1] && ps[..1][..0] == [];
    assert FromProducts("Protein", ps[..1]) == [];
    assert FromProducts("Protein", ps[..2]) == [Normalize("Protein", kept)];
    assert FromProducts("Protein", ps[..3]) == [Normalize("Protein", kept)];
    SampleWhey(kept);
  }

  /** The kept whey: its numeric id becomes "12", a price of 0 stays, an
      empty flavor becomes none and the missing image the placeholder. */
  lemma SampleWhey(kept: RawProduct)
    requires kept == RawProduct(IdNumber(12), Some("Whey"), Some(0.0), None, FlavorText(""), Some("1kg"))
    ensures Keeps(kept)
    ensures Normalize("Protein", kept) == FlatProduct("12", "Whey", 0.0, Placeholder, "Protein", [], "1kg")
  {
    assert IntToString(12) == "12" by {
      assert NatToString(1) == "1";
      assert NatToString(12) == NatToString(1) + [DigitChar(2)];
    }
  }


  /** The two `forEach` loops, pushing each kept product's entry. */
  method BuildFlatProducts(cats: seq<RawCategory>) returns (flat: seq<FlatProduct>)
    ensures flat == Flatten(cats)
  {
    flat := [];
    var i := 0;
    while i < |cats|
      invariant 0 <= i <= |cats|
      invariant flat == Flatten(cats[..i])
    {
      var c := cats[i];
      assert cats[..i + 1][..i] == cats[..i];
      if c.products.Some? {
        flat := PushKept(flat, c.category, c.products.value);
      }
      i := i + 1;
    }
    assert cats[..i] == cats;
  }

  /** The inner `forEach` of one category: every kept product is pushed,
      normalised, in the order listed. */
  method PushKept(flat0: seq<FlatProduct>, category: string, ps: seq<RawProduct>) returns (flat: seq<FlatProduct>)
    ensures flat == flat0 + FromProducts(category, ps)
  {
    flat := flat0;
    var j := 0;
    while j < |ps|
      invariant 0 <= j <= |ps|
      invariant flat == flat0 + FromProducts(category, ps[..j])
    {
      assert ps[..j + 1][..j] == ps[..j];
      var p := ps[j];
      if Keeps(p) {
        flat := flat + [Normalize(category, p)];
      }
      j := j + 1;
    }
    assert ps[..j] == ps;
  }


  /** The document `insertMany` stores for an entry. It does not run the
      save hook, so `discountedPrice` keeps its schema default of 0. */
  function Document(id: Oid, f: FlatProduct): (p: Product)
    ensures p.id == id && p.productId == f.productId && p.name == f.name && p.price == f.price
    ensures p.category == f.category && p.image == f.image && p.flavor == f.flavor && p.weight == f.weight
    ensures p.discountPercent == 0.0 && p.discountedPrice == 0.0 && p.quantity == 0
    ensures p.ratings == Ratings(0.0, 0) && p.gallery == [] && p.galleryIds == []
  {
    NewProduct(id, f.productId, f.name, f.price, f.category).(image := f.image, flavor := f.flavor, weight := f.weight)
  }

  /** A seeded product with a non-zero price does not carry the discounted
      price a save would have given it. */
  lemma SeededPriceNotDerived(id: Oid, f: FlatProduct)
    requires f.price != 0.0
    ensures Document(id, f).discountedPrice != PreSave(Document(id, f)).discountedPrice
  {
  }

  function Documents(flat: seq<FlatProduct>, newId: nat -> Oid): (ps: seq<Product>)
    ensures |ps| == |flat|
    ensures forall i :: 0 <= i < |flat| ==> ps[i] == Document(newId(i), flat[i])
  {
    seq(|flat|, i requires 0 <= i < |flat| => Document(newId(i), flat[i]))
  }

  /** The products collection the seed rewrites. */
  class SeedDb {
    var products: seq<Product>

    constructor (products0: seq<Product>)
      ensures products == products0
    {
      products := products0;
    }

    /** `seed()` once connected: the collection is cleared, the catalogue
        flattened, and an empty result stops the seed with the collection
        left empty; otherwise the entries are inserted under fresh ids and
        their number reported. */
    method Seed(cats: seq<RawCategory>, newId: nat -> Oid) returns (r: Result<nat, SeedError>)
      modifies this
      ensures Flatten(cats) == [] ==> r == Err(NothingToInsert) && products == []
      ensures Flatten(cats) != [] ==>
        r == Ok(|Flatten(cats)|) && products == Documents(Flatten(cats), newId)
    {
      products := [];
      var flat := BuildFlatProducts(cats);
      if |flat| == 0 {
        return Err(NothingToInsert);
      }
      products := Documents(flat, newId);
      r := Ok(|products|);
    }
  }
}
