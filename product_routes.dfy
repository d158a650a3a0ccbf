/** The product routes (routes/ProductRoutes.js): creating a product from
    a validated and normalised form, looking one up by `_id` or by its
    external `productId`, updating its gallery and a few fields, and
    deleting it together with its stored images. */
module ProductRoutes {
  import opened Js
  import opened ProductModel
  import opened Gallery

  /** The create form, already parsed: None stands for an absent field;
      `flavor` and `servings` are the results of parsing their JSON. */
  datatype CreateRequest = CreateRequest(
    brandName: Option<string>,
    name: Option<string>,
    category: Option<string>,
    price: Option<real>,
    discountPercent: Option<real>,
    quantity: Option<int>,
    weight: Option<string>,
    description: Option<string>,
    flavor: seq<string>,
    servings: seq<real>)

  datatype CreateError =
    | MissingRequired   // 400 "Brand name, name, category, and price are required"
    | NonPositivePrice  // 400 "Price must be a positive number"
    | EmptyCategory     // 400 "Category is required"
    | Rejected          // 500: the save fails (schema validation or the unique productId index)
  {
    function Status(): int
    {
      match this
      case MissingRequired => 400
      case NonPositivePrice => 400
      case EmptyCategory => 400
      case Rejected => 500
    }
  }

  datatype LookupError =
    | CastFailure // 500: the key is not an ObjectId and the by-id query throws
    | NotFound    // 404 "Product not found"
  {
    function Status(): int
    {
      match this
      case CastFailure => 500
      case NotFound => 404
    }
  }

  /** `category.toLowerCase().trim()` */
  function CleanCategory(category: string): string
  {
    Trim(Lower(category))
  }

  /** A cleaned category has no upper-case letter and no surrounding white
      space, and cleaning commutes: trimming first gives the same result. */
  lemma CleanCategoryShape(category: string)
    ensures var r := CleanCategory(category);
            && r == Lower(Trim(category))
            && (forall i :: 0 <= i < |r| ==> !IsUpperLetter(r[i]))
            && (r == [] || (!IsSpace(r[0]) && !IsSpace(r[|r| - 1])))
  {
    TrimLower(category);
  }

  /** Brand name, name, category and price are all truthy. */
  predicate HasRequired(req: CreateRequest)
  {
    Present(req.brandName) && Present(req.name) && Present(req.category) && NonZero(req.price)
  }

  /** The document the create route builds, before the save hook runs. */
  function BuildProduct(req: CreateRequest, id: Oid, productId: string,
                        gallery: seq<string>, galleryIds: seq<Option<string>>): (p: Product)
    requires req.brandName.Some? && req.name.Some? && req.category.Some? && req.price.Some?
    ensures p.id == id && p.productId == productId
  {
    Product(
      id, productId,
      Trim(req.brandName.value),
      Trim(req.name.value),
      req.price.value,
      OrZero(req.discountPercent),
      0.0,
      if req.quantity.Some? then req.quantity.value else 0,
      Ratings(0.0, 0),
      MainImage(gallery), MainImageId(galleryIds),
      gallery, galleryIds,
      CleanCategory(req.category.value),
      req.flavor, req.servings,
      if req.weight.Some? then Trim(req.weight.value) else "",
      if req.description.Some? then Trim(req.description.value) else "")
  }

  /** The document a create saves: built from the form and the uploads,
      with the save hook applied. */
  function NewDocument(req: CreateRequest, id: Oid, productId: string, ups: seq<Upload>): (p: Product)
    requires HasRequired(req)
    ensures p.id == id && p.productId == productId
  {
    PreSave(BuildProduct(req, id, productId, UploadUrls(ups), UploadIds(ups)))
  }

  /** What a create stores: the uploads' URLs and handles side by side, the
      first of each as main image and handle (or the placeholder and null),
      a lower-cased trimmed category, a missing discount as 0, no ratings,
      and the discounted price the save hook derives. */
  lemma CreatedProductShape(req: CreateRequest, id: Oid, productId: string, ups: seq<Upload>)
    requires HasRequired(req)
    ensures var p := NewDocument(req, id, productId, ups);
            && |p.gallery| == |p.galleryIds| == |ups|
            && (forall i :: 0 <= i < |ups| ==> p.gallery[i] == ups[i].url && p.galleryIds[i] == Some(ups[i].fileId))
            && (|ups| > 0 && ups[0].url != "" ==> p.image == ups[0].url)
            && (|ups| == 0 ==> p.image == Placeholder && p.imageId == None)
            && (|ups| > 0 && ups[0].fileId != "" ==> p.imageId == Some(ups[0].fileId))
            && p.category == CleanCategory(req.category.value)
            && (!NonZero(req.discountPercent) ==> p.discountPercent == 0.0 && p.discountedPrice == p.price)
            && p.ratings == Ratings(0.0, 0)
  {
  }

  // ---------------- lookup by _id or productId ----------------

  /** Every `_id` in the store is a genuine ObjectId. */
  ghost predicate ObjectIds(ps: seq<Product>)
  {
    forall j :: 0 <= j < |ps| ==> CastsToObjectId(ps[j].id)
  }

  /** No two products share an external `productId` (its unique index). */
  ghost predicate UniqueProductIds(ps: seq<Product>)
  {
    forall i, j :: 0 <= i < j < |ps| ==> ps[i].productId != ps[j].productId
  }

  /** The lookup as written: `findById(key)` first, and only if that finds
      nothing `findOne({ productId: key })`. A key that is not an ObjectId
      makes the first query throw, so the fallback is never reached for it. */
  function LocateAsWritten(ps: seq<Product>, key: string): (r: Result<nat, LookupError>)
    ensures !CastsToObjectId(key) ==> r == Err(CastFailure)
    ensures r.Ok? ==> r.value < |ps|
  {
    if !CastsToObjectId(key) then Err(CastFailure)
    else match IndexOfId(ps, key)
      case Some(k) => Ok(k)
      case None =>
        match IndexOfProductId(ps, key)
        case Some(k) => Ok(k)
        case None => Err(NotFound)
  }

  /** The lookup as intended: by `_id` when the key is one, otherwise (or
      when no product has that `_id`) by `productId`; 404 when neither
      matches. */
  function Locate(ps: seq<Product>, key: string): (r: Result<nat, LookupError>)
    ensures r.Ok? ==> r.value < |ps| && (ps[r.value].id == key || ps[r.value].productId == key)
    ensures r.Err? ==> r.error == NotFound
    ensures ObjectIds(ps) ==>
      (r.Err? <==> forall j :: 0 <= j < |ps| ==> ps[j].id != key && ps[j].productId != key)
  {
    match (if CastsToObjectId(key) then IndexOfId(ps, key) else None)
    case Some(k) => Ok(k)
    case None =>
      match IndexOfProductId(ps, key)
      case Some(k) => Ok(k)
      case None => Err(NotFound)
  }

  /** An `_id` match wins over a `productId` match. */
  lemma LocatePrefersObjectId(ps: seq<Product>, key: string, j: nat)
    requires j < |ps| && ps[j].id == key && CastsToObjectId(key) && UniqueIds(ps)
    ensures Locate(ps, key) == Ok(j)
  {
  }

  /** The two lookups agree on every key that is an ObjectId. */
  lemma LookupsAgreeOnObjectIds(ps: seq<Product>, key: string)
    requires CastsToObjectId(key)
    ensures LocateAsWritten(ps, key) == Locate(ps, key)
  {
  }

  /** A product asked for by its external id, `PROD-1`, is found by the
      intended lookup but answered with a 500 by the lookup as written. */
  lemma ProductIdFallbackUnreachable(p: Product)
    requires p.productId == "PROD-1"
    ensures LocateAsWritten([p], "PROD-1") == Err(CastFailure)
    ensures Locate([p], "PROD-1") == Ok(0)
  {
    assert !CastsToObjectId("PROD-1");
  }

  // ---------------- the products collection ----------------

  /** The changes the update form carries besides the gallery: `brandName`
      is trimmed and `category` lower-cased and trimmed, as the route does;
      price and discount are taken as given. None stands for absent. */
  datatype Patch = Patch(
    brandName: Option<string>,
    price: Option<real>,
    discountPercent: Option<real>,
    category: Option<string>)

  /** The result of an update: the stored product and the handles sent to
      the storage service for deletion. */
  datatype Updated = Updated(product: Product, deletedIds: seq<string>)

  /** The document an update leaves behind: the merged gallery with its
      handles and main image, the patched fields, and `discountedPrice` as
      the update hook sets it (only when both price and discount are in the
      update). */
  function Patched(p: Product, gallery: seq<string>, galleryIds: seq<Option<string>>, patch: Patch): Product
  {
    var hook := PreUpdate(PendingUpdate(patch.price, patch.discountPercent, None, None, None));
    p.(gallery := gallery,
       galleryIds := galleryIds,
       image := MainImage(gallery),
       imageId := MainImageId(galleryIds),
       brandName := if patch.brandName.Some? then Trim(patch.brandName.value) else p.brandName,
       price := if patch.price.Some? then patch.price.value else p.price,
       discountPercent := if patch.discountPercent.Some? then patch.discountPercent.value else p.discountPercent,
       category := if patch.category.Some? then CleanCategory(patch.category.value) else p.category,
       discountedPrice := if hook.discountedPrice.Some? then hook.discountedPrice.value else p.discountedPrice)
  }

  /** An update carrying a price but no discount leaves `discountedPrice`
      as it was, even though the price changed. */
  lemma PriceOnlyUpdateKeepsDiscountedPrice(p: Product, gallery: seq<string>, galleryIds: seq<Option<string>>, patch: Patch)
    requires patch.price.Some? && patch.discountPercent.None?
    ensures Patched(p, gallery, galleryIds, patch).price == patch.price.value
    ensures Patched(p, gallery, galleryIds, patch).discountedPrice == p.discountedPrice
  {
  }

  /** An update carrying both a price and a discount stores the discounted
      price the save hook would have computed for them (whole price,
      non-negative discount). */
  lemma FullPriceUpdateMatchesSave(p: Product, gallery: seq<string>, galleryIds: seq<Option<string>>, patch: Patch, n: int)
    requires patch.price == Some(n as real) && patch.discountPercent.Some? && patch.discountPercent.value >= 0.0
    ensures var q := Patched(p, gallery, galleryIds, patch);
            q.discountedPrice == PreSave(q).discountedPrice
  {
    var q := Patched(p, gallery, galleryIds, patch);
    HooksAgree(q, n, PendingUpdate(patch.price, patch.discountPercent, None, None, None));
  }

  /** The upload loop: each upload's URL and handle are pushed, in order,
      onto the two lists, which stay the same length. */
  method PushUploads(urls0: seq<string>, ids0: seq<Option<string>>, ups: seq<Upload>)
    returns (urls: seq<string>, ids: seq<Option<string>>)
    ensures urls == urls0 + UploadUrls(ups)
    ensures ids == ids0 + UploadIds(ups)
    ensures |urls| - |ids| == |urls0| - |ids0|
  {
    urls, ids := urls0, ids0;
    var i := 0;
    while i < |ups|
      invariant 0 <= i <= |ups|
      invariant urls == urls0 + UploadUrls(ups[..i])
      invariant ids == ids0 + UploadIds(ups[..i])
    {
      urls := urls + [ups[i].url];
      ids := ids + [Some(ups[i].fileId)];
      i := i + 1;
    }
    assert ups[..i] == ups;
  }

  /** The `existingUrls.forEach` loop: each kept URL is pushed, and beside
      it the handle stored at its first position in the old gallery when
      that handle is truthy, else null. */
  method KeepExisting(gallery: seq<string>, galleryIds: seq<Option<string>>, existingUrls: seq<string>)
    returns (urls: seq<string>, ids: seq<Option<string>>)
    ensures urls == existingUrls
    ensures ids == KeptIds(gallery, galleryIds, existingUrls)
  {
    urls, ids := [], [];
    var i := 0;
    while i < |existingUrls|
      invariant 0 <= i <= |existingUrls|
      invariant urls == existingUrls[..i]
      invariant ids == KeptIds(gallery, galleryIds, existingUrls[..i])
    {
      var url := existingUrls[i];
      urls := urls + [url];
      var idx := IndexOfUrl(gallery, url);
      if idx != -1 && idx < |galleryIds| && Present(galleryIds[idx]) {
        ids := ids + [galleryIds[idx]];
      } else {
        ids := ids + [None];
      }
      assert existingUrls[..i + 1] == existingUrls[..i] + [url];
      i := i + 1;
    }
    assert existingUrls[..i] == existingUrls;
  }

  /** Adding a product under a fresh ObjectId and a free `productId` keeps
      the store's uniqueness invariants. */
  lemma AppendKeepsInvariants(ps: seq<Product>, p: Product)
    requires UniqueIds(ps) && UniqueProductIds(ps) && ObjectIds(ps)
    requires CastsToObjectId(p.id) && IndexOfId(ps, p.id).None? && IndexOfProductId(ps, p.productId).None?
    ensures UniqueIds(ps + [p]) && UniqueProductIds(ps + [p]) && ObjectIds(ps + [p])
  {
  }

  /** Taking one product out keeps the store's uniqueness invariants. */
  lemma RemovalKeepsInvariants(ps: seq<Product>, k: nat)
    requires k < |ps|
    requires UniqueIds(ps) && UniqueProductIds(ps) && ObjectIds(ps)
    ensures var rest := ps[..k] + ps[k + 1..];
            UniqueIds(rest) && UniqueProductIds(rest) && ObjectIds(rest)
  {
    var rest := ps[..k] + ps[k + 1..];
    assert forall i :: 0 <= i < |rest| ==> rest[i] == ps[if i < k then i else i + 1];
  }

  /** The upload loop of the create route followed by the document it
      builds and the save hook. */
  method Assemble(req: CreateRequest, newId: Oid, productId: string, ups: seq<Upload>)
    returns (p: Product)
    requires HasRequired(req)
    ensures p == NewDocument(req, newId, productId, ups)
  {
    var galleryUrls, galleryIds := PushUploads([], [], ups);
    assert galleryUrls == UploadUrls(ups) && galleryIds == UploadIds(ups);
    p := PreSave(BuildProduct(req, newId, productId, galleryUrls, galleryIds));
  }

  class ProductDb {
    var products: seq<Product>

    ghost predicate Valid()
      reads this
    {
      UniqueIds(products) && UniqueProductIds(products) && ObjectIds(products)
    }

    constructor (products0: seq<Product>)
      requires UniqueIds(products0) && UniqueProductIds(products0) && ObjectIds(products0)
      ensures Valid() && products == products0
    {
      products := products0;
    }

    /** `GET /products/:id`, with the intended lookup. */
    function Get(key: string): (r: Result<Product, LookupError>)
      reads this
      ensures r.Ok? ==> r.value in products && (r.value.id == key || r.value.productId == key)
      ensures Valid() ==>
        (r.Err? <==> forall j :: 0 <= j < |products| ==> products[j].id != key && products[j].productId != key)
    {
      match Locate(products, key)
      case Ok(k) => Ok(products[k])
      case Err(e) => Err(e)
    }

    /** `POST /products`. The guards run in order: the four required fields
        must be truthy, the price positive, the cleaned category non-empty.
        Each upload result is then pushed onto the gallery and its handle
        list, and the document is saved; the save fails on a name that
        trims to nothing or on a `productId` already taken. */
    method Create(req: CreateRequest, newId: Oid, productId: string, ups: seq<Upload>)
      returns (r: Result<Product, CreateError>)
      requires Valid()
      requires CastsToObjectId(newId) && IndexOfId(products, newId).None?
      modifies this
      ensures Valid()
      ensures r.Err? ==> products == old(products)
      ensures !HasRequired(req) ==> r == Err(MissingRequired)
      ensures HasRequired(req) && req.price.value < 0.0 ==> r == Err(NonPositivePrice)
      ensures HasRequired(req) && req.price.value > 0.0 && CleanCategory(req.category.value) == "" ==>
        r == Err(EmptyCategory)
      ensures HasRequired(req) && req.price.value > 0.0 && CleanCategory(req.category.value) != ""
              && (Trim(req.name.value) == "" || IndexOfProductId(old(products), productId).Some?) ==>
        r == Err(Rejected)
      ensures r.Ok? <==>
        && HasRequired(req) && req.price.value > 0.0 && CleanCategory(req.category.value) != ""
        && Trim(req.name.value) != "" && IndexOfProductId(old(products), productId).None?
      ensures r.Ok? ==>
        && r.value == NewDocument(req, newId, productId, ups)
        && products == old(products) + [r.value]
    {
      if !HasRequired(req) {
        return Err(MissingRequired);
      }
      var numPrice := req.price.value;
      if numPrice <= 0.0 {
        return Err(NonPositivePrice);
      }
      var cleanCategory := CleanCategory(req.category.value);
      if cleanCategory == "" {
        return Err(EmptyCategory);
      }
      var p := Assemble(req, newId, productId, ups);
      if Trim(req.name.value) == "" || IndexOfProductId(products, productId).Some? {
        return Err(Rejected);
      }
      Insert(p);
      r := Ok(p);
    }

    /** `save()` of a new document under a fresh ObjectId and a free
        `productId`. */
    method Insert(p: Product)
      requires Valid()
      requires CastsToObjectId(p.id) && IndexOfId(products, p.id).None? && IndexOfProductId(products, p.productId).None?
      modifies this
      ensures Valid() && products == old(products) + [p]
    {
      AppendKeepsInvariants(products, p);
      products := products + [p];
    }

    /** `PUT /products/:id`. The product is fetched with `findById` alone
        (a key that is not an ObjectId throws, an unknown one is a 404).
        The kept URLs, in the order given, each take over the handle stored
        for them, then every upload is appended with its own handle; the
        old truthy handles no longer present are sent for deletion (whose
        failures are swallowed), and the product is rewritten. */
    method Update(key: string, existing: ExistingGallery, ups: seq<Upload>, patch: Patch)
      returns (r: Result<Updated, LookupError>)
      requires Valid()
      modifies this
      ensures Valid()
      ensures r.Err? ==> products == old(products)
      ensures !CastsToObjectId(key) ==> r == Err(CastFailure)
      ensures CastsToObjectId(key) && IndexOfId(old(products), key).None? ==> r == Err(NotFound)
      ensures CastsToObjectId(key) && IndexOfId(old(products), key).Some? ==>
        var k := IndexOfId(old(products), key).value;
        var p := old(products)[k];
        var urls := ExistingUrls(existing);
        var gallery := urls + UploadUrls(ups);
        var ids := KeptIds(p.gallery, p.galleryIds, urls) + UploadIds(ups);
        var q := Patched(p, gallery, ids, patch);
        && r == Ok(Updated(q, IdsToDelete(p.galleryIds, ids)))
        && products == old(products)[k := q]
    {
      if !CastsToObjectId(key) {
        return Err(CastFailure);
      }
      var found := IndexOfId(products, key);
      if found.None? {
        return Err(NotFound);
      }
      var k := found.value;
      var p := products[k];
      var urls := ExistingUrls(existing);
      var keptUrls, keptIds := KeepExisting(p.gallery, p.galleryIds, urls);
      var finalGallery, finalGalleryIds := PushUploads(keptUrls, keptIds, ups);
      var idsToDelete := if |p.galleryIds| > 0 then IdsToDelete(p.galleryIds, finalGalleryIds) else [];
      var q := Patched(p, finalGallery, finalGalleryIds, patch);
      products := products[k := q];
      r := Ok(Updated(q, idsToDelete));
    }

    /** `DELETE /products/:id`, with the intended lookup. The product is
        removed, then each of its truthy handles is sent for deletion in
        turn (failures are swallowed); the handles sent are the result. */
    method Delete(key: string) returns (r: Result<seq<string>, LookupError>)
      requires Valid()
      modifies this
      ensures Valid()
      ensures r.Err? ==> r.error == NotFound && products == old(products)
      ensures r.Err? <==> forall j :: 0 <= j < |old(products)| ==> old(products)[j].id != key && old(products)[j].productId != key
      ensures r.Ok? ==>
        var k := Locate(old(products), key).value;
        && products == old(products)[..k] + old(products)[k + 1..]
        && r.value == PresentIds(old(products)[k].galleryIds)
    {
      var found := Locate(products, key);
      if found.Err? {
        return Err(NotFound);
      }
      var k := found.value;
      var removed := products[k];
      RemovalKeepsInvariants(products, k);
      var rest := products[..k] + products[k + 1..];
      products := rest;
      var deleted := DeleteGalleryFiles(removed.galleryIds);
      r := Ok(deleted);
    }
  }

  /** The loop over the removed product's handles that skips falsy ones and
      sends the rest to the storage service, in order. */
  method DeleteGalleryFiles(ids: seq<Option<string>>) returns (deleted: seq<string>)
    ensures deleted == PresentIds(ids)
  {
    deleted := [];
    var i := 0;
    while i < |ids|
      invariant 0 <= i <= |ids|
      invariant deleted == PresentIds(ids[..i])
    {
      PresentIdsSnoc(ids[..i], ids[i]);
      assert ids[..i + 1] == ids[..i] + [ids[i]];
      if Present(ids[i]) {
        deleted := deleted + [ids[i].value];
      }
      i := i + 1;
    }
    assert ids[..i] == ids;
  }
}
