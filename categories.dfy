/** Product categories (controllers/categoryController.js): the featured
    flag and slider position, the fall-back rules of an update, deletion,
    and the slider listing. */
module Categories {
  import opened Js
  import opened Gallery

  /** A stored category. `sliderOrder` is null unless the category is
      featured (or it was featured without a position). */
  datatype Category = Category(
    id: Oid,
    name: string,
    image: string,
    imageId: Option<string>,
    isFeatured: bool,
    sliderOrder: Option<real>)

  /** The `isFeatured` form value: a string, a JSON boolean, or absent. */
  datatype FlagInput = FlagText(text: string) | FlagBool(b: bool) | NoFlag

  /** The `sliderOrder` form value: absent, the empty string, or a number. */
  datatype OrderInput = NoOrder | EmptyOrder | OrderValue(n: real)

  datatype CategoryError =
    | CastFailure // 500: the id is not an ObjectId
    | NotFound    // 404 "Category not found"
  {
    function Status(): int
    {
      match this
      case CastFailure => 500
      case NotFound => 404
    }
  }

  /** `isFeatured === 'true' || isFeatured === true` */
  predicate IsFeatured(flag: FlagInput)
  {
    flag == FlagText("true") || flag == FlagBool(true)
  }

  /** Only the exact string "true" and the boolean true turn the flag on. */
  lemma FeaturedOnlyByTrue(flag: FlagInput)
    ensures IsFeatured(flag) <==> (flag.FlagText? && flag.text == "true") || (flag.FlagBool? && flag.b)
    ensures !IsFeatured(FlagText("True")) && !IsFeatured(FlagText("1")) && !IsFeatured(NoFlag)
  {
  }

  /** The slider position a create stores: the given number when featured,
      otherwise null. An absent or empty value casts to null. */
  function CreatedOrder(featured: bool, order: OrderInput): (r: Option<real>)
    ensures !featured ==> r == None
    ensures r.Some? <==> featured && order.OrderValue?
    ensures r.Some? ==> r.value == order.n
  {
    if featured && order.OrderValue? then Some(order.n) else None
  }

  /** `safeSliderOrder`: null when not featured; when featured, the given
      number, or the previous position when none (or "") is given. */
  function SafeSliderOrder(featured: bool, order: OrderInput, previous: Option<real>): (r: Option<real>)
    ensures !featured ==> r == None
    ensures featured && order.OrderValue? ==> r == Some(order.n)
    ensures featured && !order.OrderValue? ==> r == previous
  {
    if !featured then None
    else if order.OrderValue? then Some(order.n)
    else previous
  }

  /** The image a write stores: the uploaded file's URL when there is a
      file, else the `image` form value. */
  function NewImage(image: Option<string>, upload: Option<Upload>): (r: Option<string>)
    ensures upload.Some? ==> r == Some(upload.value.url)
    ensures upload.None? ==> r == image
  {
    if upload.Some? then Some(upload.value.url) else image
  }

  /** The handle a write stores: the uploaded file's handle, else null. */
  function NewImageId(upload: Option<Upload>): (r: Option<string>)
    ensures r.Some? <==> upload.Some?
    ensures r.Some? ==> r.value == upload.value.fileId
  {
    if upload.Some? then Some(upload.value.fileId) else None
  }

  /** The document a create stores. */
  function NewCategory(id: Oid, name: string, image: Option<string>, upload: Option<Upload>,
                       flag: FlagInput, order: OrderInput): (c: Category)
    ensures c.id == id && c.name == name
    ensures c.isFeatured == IsFeatured(flag)
    ensures c.sliderOrder == CreatedOrder(IsFeatured(flag), order)
    ensures c.image == OrElse(NewImage(image, upload), "")
    ensures c.imageId == NewImageId(upload)
  {
    Category(id, name, OrElse(NewImage(image, upload), ""), NewImageId(upload),
             IsFeatured(flag), CreatedOrder(IsFeatured(flag), order))
  }

  /** The document an update leaves: a falsy name keeps the old one, the
      image and its handle are replaced only by truthy values, the flag is
      always rewritten and the position follows `SafeSliderOrder`. */
  function Merged(stored: Category, name: Option<string>, image: Option<string>, upload: Option<Upload>,
                  flag: FlagInput, order: OrderInput): (c: Category)
    ensures c.id == stored.id
    ensures c.name == OrElse(name, stored.name)
    ensures c.isFeatured == IsFeatured(flag)
    ensures c.sliderOrder == SafeSliderOrder(IsFeatured(flag), order, stored.sliderOrder)
    ensures c.image == OrElse(NewImage(image, upload), stored.image)
    ensures c.imageId == (if Present(NewImageId(upload)) then NewImageId(upload) else stored.imageId)
  {
    var newId := NewImageId(upload);
    stored.(name := OrElse(name, stored.name),
          isFeatured := IsFeatured(flag),
          sliderOrder := SafeSliderOrder(IsFeatured(flag), order, stored.sliderOrder),
          image := OrElse(NewImage(image, upload), stored.image),
          imageId := if Present(newId) then newId else stored.imageId)
  }

  /** An update that sends nothing but the flag as it was stored keeps the
      category as it was, for a featured one as for one that is not. */
  lemma EmptyUpdateKeepsCategory(c: Category)
    requires !c.isFeatured ==> c.sliderOrder == None
    ensures Merged(c, None, None, None, FlagBool(c.isFeatured), NoOrder) == c
  {
  }

  /** Un-featuring a category always clears its position, whatever
      position is sent. */
  lemma UnfeaturingClearsOrder(c: Category, name: Option<string>, image: Option<string>,
                               upload: Option<Upload>, order: OrderInput)
    ensures var m := Merged(c, name, image, upload, FlagBool(false), order);
            !m.isFeatured && m.sliderOrder == None
  {
  }

  /** A stored category is featured-consistent when only featured
      categories carry a position. */
  predicate OrderOnlyIfFeatured(c: Category)
  {
    c.sliderOrder.Some? ==> c.isFeatured
  }

  /** Both writes keep that rule. */
  lemma WritesKeepOrderRule(c: Category, id: Oid, name: Option<string>, image: Option<string>,
                            upload: Option<Upload>, flag: FlagInput, order: OrderInput)
    ensures OrderOnlyIfFeatured(NewCategory(id, OrElse(name, ""), image, upload, flag, order))
    ensures OrderOnlyIfFeatured(Merged(c, name, image, upload, flag, order))
  {
  }

  // ---------------- the slider listing ----------------

  /** `find({ isFeatured: true })`: the featured categories, in store order. */
  function FeaturedOnly(cs: seq<Category>): (r: seq<Category>)
    ensures |r| <= |cs|
    ensures forall i :: 0 <= i < |r| ==> r[i].isFeatured
  {
    if |cs| == 0 then []
    else (if cs[0].isFeatured then [cs[0]] else []) + FeaturedOnly(cs[1..])
  }

  lemma {:induction false} FeaturedOnlyMembers(cs: seq<Category>, c: Category)
    ensures c in FeaturedOnly(cs) <==> c in cs && c.isFeatured
  {
    if |cs| > 0 {
      FeaturedOnlyMembers(cs[1..], c);
      assert cs == [cs[0]] + cs[1..];
    }
  }

  /** The ascending order on positions, null sorting before every number. */
  predicate OrderLe(a: Option<real>, b: Option<real>)
  {
    a.None? || (b.Some? && a.value <= b.value)
  }

  predicate SortedByOrder(s: seq<Category>)
  {
    forall i, j :: 0 <= i < j < |s| ==> OrderLe(s[i].sliderOrder, s[j].sliderOrder)
  }

  /** Inserting one category into a sorted listing, before the first
      position it does not exceed. */
  function InsertByOrder(c: Category, s: seq<Category>): (r: seq<Category>)
    ensures |r| == |s| + 1
  {
    if |s| == 0 then [c]
    else if OrderLe(c.sliderOrder, s[0].sliderOrder) then [c] + s
    else [s[0]] + InsertByOrder(c, s[1..])
  }

  /** `sort({ sliderOrder: 1 })` on a list of categories. The database does
      not fix the order of equal positions; this is one admissible order. */
  function SortByOrder(cs: seq<Category>): (r: seq<Category>)
    ensures |r| == |cs|
  {
    if |cs| == 0 then [] else InsertByOrder(cs[0], SortByOrder(cs[1..]))
  }

  /** Inserting adds the category once and loses nothing. */
  lemma {:induction false} InsertByOrderMultiset(c: Category, s: seq<Category>)
    ensures multiset(InsertByOrder(c, s)) == multiset(s) + multiset{c}
  {
    if |s| > 0 && !OrderLe(c.sliderOrder, s[0].sliderOrder) {
      InsertByOrderMultiset(c, s[1..]);
      assert s == [s[0]] + s[1..];
    }
  }

  /** Every member of the result is the inserted category or was there. */
  lemma InsertByOrderMember(c: Category, s: seq<Category>, i: nat)
    requires i < |InsertByOrder(c, s)|
    ensures InsertByOrder(c, s)[i] == c || InsertByOrder(c, s)[i] in s
  {
    var t := InsertByOrder(c, s);
    InsertByOrderMultiset(c, s);
    assert t[i] in multiset(t);
  }

  /** When `c` goes past the head of a sorted listing, the head precedes
      every element of the listing `c` is inserted into. */
  lemma HeadPrecedesInserted(c: Category, s: seq<Category>, j: nat)
    requires SortedByOrder(s) && |s| > 0 && !OrderLe(c.sliderOrder, s[0].sliderOrder)
    requires j < |InsertByOrder(c, s[1..])|
    ensures OrderLe(s[0].sliderOrder, InsertByOrder(c, s[1..])[j].sliderOrder)
  {
    var rest := s[1..];
    var t := InsertByOrder(c, rest);
    InsertByOrderMember(c, rest, j);
    if t[j] != c {
      var k :| 0 <= k < |rest| && rest[k] == t[j];
      assert s[k + 1] == rest[k];
    }
  }

  /** Inserting into a sorted listing keeps it sorted. */
  lemma {:induction false} InsertByOrderSorted(c: Category, s: seq<Category>)
    requires SortedByOrder(s)
    ensures SortedByOrder(InsertByOrder(c, s))
  {
    if |s| > 0 && !OrderLe(c.sliderOrder, s[0].sliderOrder) {
      var rest := s[1..];
      InsertByOrderSorted(c, rest);
      var t := InsertByOrder(c, rest);
      var r := [s[0]] + t;
      assert InsertByOrder(c, s) == r;
      forall i, j | 0 <= i < j < |r|
        ensures OrderLe(r[i].sliderOrder, r[j].sliderOrder)
      {
        if i == 0 {
          HeadPrecedesInserted(c, s, j - 1);
        } else {
          assert r[i] == t[i - 1] && r[j] == t[j - 1];
        }
      }
    }
  }

  lemma InsertByOrderKeeps(c: Category, s: seq<Category>)
    requires SortedByOrder(s)
    ensures SortedByOrder(InsertByOrder(c, s))
    ensures multiset(InsertByOrder(c, s)) == multiset(s) + multiset{c}
  {
    InsertByOrderSorted(c, s);
    InsertByOrderMultiset(c, s);
  }

  lemma {:induction false} SortByOrderCorrect(cs: seq<Category>)
    ensures SortedByOrder(SortByOrder(cs))
    ensures multiset(SortByOrder(cs)) == multiset(cs)
  {
    if |cs| > 0 {
      SortByOrderCorrect(cs[1..]);
      InsertByOrderKeeps(cs[0], SortByOrder(cs[1..]));
      assert cs == [cs[0]] + cs[1..];
    }
  }

  /** `GET /categories/slider`. */
  function SliderCategories(cs: seq<Category>): seq<Category>
  {
    SortByOrder(FeaturedOnly(cs))
  }

  /** The slider listing holds exactly the featured categories, each as
      often as it is stored, in ascending position with the unpositioned
      ones first. */
  lemma SliderListingCorrect(cs: seq<Category>)
    ensures SortedByOrder(SliderCategories(cs))
    ensures multiset(SliderCategories(cs)) == multiset(FeaturedOnly(cs))
    ensures forall c :: c in SliderCategories(cs) <==> c in cs && c.isFeatured
  {
    SortByOrderCorrect(FeaturedOnly(cs));
    forall c
      ensures c in SliderCategories(cs) <==> c in cs && c.isFeatured
    {
      FeaturedOnlyMembers(cs, c);
      assert c in SliderCategories(cs) <==> c in multiset(SliderCategories(cs));
    }
  }

  // ---------------- the store ----------------

  function IndexOfCategory(cs: seq<Category>, id: Oid): (r: Option<nat>)
    ensures r.Some? ==> r.value < |cs| && cs[r.value].id == id
    ensures r.None? ==> forall j :: 0 <= j < |cs| ==> cs[j].id != id
  {
    FirstIndex(cs, (c: Category) => c.id, id)
  }

  /** What an update or a delete did: the category involved and the old
      image handle sent for deletion, if any (failures of that deletion are
      swallowed). */
  datatype Outcome = Outcome(category: Category, deletedImageId: Option<string>)

  /** The old handle an image replacement sends for deletion: only when a
      file is uploaded and the old handle is truthy. */
  function ReplacedImageId(c: Category, upload: Option<Upload>): (r: Option<string>)
    ensures r.Some? <==> upload.Some? && Present(c.imageId)
    ensures r.Some? ==> r == c.imageId
  {
    if upload.Some? && Present(c.imageId) then c.imageId else None
  }

  /** The file step of the update: an uploaded file replaces the image and
      its handle, and the old truthy handle is the one to delete. */
  method ReplaceImage(existing: Category, image: Option<string>, upload: Option<Upload>)
    returns (img: Option<string>, imgId: Option<string>, deleted: Option<string>)
    ensures img == NewImage(image, upload) && imgId == NewImageId(upload)
    ensures deleted == ReplacedImageId(existing, upload)
  {
    img := image;
    imgId := None;
    deleted := None;
    if upload.Some? {
      if Present(existing.imageId) {
        deleted := existing.imageId;
      }
      img := Some(upload.value.url);
      imgId := Some(upload.value.fileId);
    }
  }

  /** The body of the update once the category is found: `safeSliderOrder`,
      the old handle sent for deletion when a file replaces the image, and
      `updateData` built and then patched with the truthy image fields. */
  method BuildUpdate(existing: Category, name: Option<string>, image: Option<string>, upload: Option<Upload>,
                     flag: FlagInput, order: OrderInput) returns (c: Category, deleted: Option<string>)
    ensures c == Merged(existing, name, image, upload, flag, order)
    ensures deleted == ReplacedImageId(existing, upload)
  {
    var featured := IsFeatured(flag);
    var safeOrder := if featured then (if order.OrderValue? then Some(order.n) else existing.sliderOrder) else None;
    assert safeOrder == SafeSliderOrder(featured, order, existing.sliderOrder);
    var img, imgId;
    img, imgId, deleted := ReplaceImage(existing, image, upload);
    c := existing.(name := OrElse(name, existing.name), isFeatured := featured, sliderOrder := safeOrder);
    if Present(img) {
      c := c.(image := img.value);
    }
    assert c.image == OrElse(img, existing.image);
    if Present(imgId) {
      c := c.(imageId := imgId);
    }
    assert c.imageId == if Present(imgId) then imgId else existing.imageId;
    ghost var m := Merged(existing, name, image, upload, flag, order);
    assert c.id == m.id && c.name == m.name && c.isFeatured == m.isFeatured;
    assert c.sliderOrder == m.sliderOrder && c.image == m.image && c.imageId == m.imageId;
  }

  class CategoryDb {
    var categories: seq<Category>

    ghost predicate Valid()
      reads this
    {
      forall i, j :: 0 <= i < j < |categories| ==> categories[i].id != categories[j].id
    }

    constructor (categories0: seq<Category>)
      requires forall i, j :: 0 <= i < j < |categories0| ==> categories0[i].id != categories0[j].id
      ensures Valid() && categories == categories0
    {
      categories := categories0;
    }

    /** `POST /categories` under a fresh id. */
    method Create(newId: Oid, name: string, image: Option<string>, upload: Option<Upload>,
                  flag: FlagInput, order: OrderInput) returns (c: Category)
      requires Valid() && IndexOfCategory(categories, newId).None?
      modifies this
      ensures Valid()
      ensures c == NewCategory(newId, name, image, upload, flag, order)
      ensures categories == old(categories) + [c]
    {
      var featured := IsFeatured(flag);
      var img := image;
      var imgId: Option<string> := None;
      if upload.Some? {
        img := Some(upload.value.url);
        imgId := Some(upload.value.fileId);
      }
      c := Category(newId, name, OrElse(img, ""), imgId, featured,
                    if featured && order.OrderValue? then Some(order.n) else None);
      categories := categories + [c];
    }

    /** `PUT /categories/:id`. The category is looked up before anything
        else: a missing one is a 404 with nothing deleted or written. */
    method Update(id: Oid, name: Option<string>, image: Option<string>, upload: Option<Upload>,
                  flag: FlagInput, order: OrderInput) returns (r: Result<Outcome, CategoryError>)
      requires Valid()
      modifies this
      ensures Valid()
      ensures r.Err? ==> categories == old(categories)
      ensures !CastsToObjectId(id) ==> r == Err(CastFailure)
      ensures CastsToObjectId(id) && IndexOfCategory(old(categories), id).None? ==> r == Err(NotFound)
      ensures CastsToObjectId(id) && IndexOfCategory(old(categories), id).Some? ==>
        var k := IndexOfCategory(old(categories), id).value;
        var c := Merged(old(categories)[k], name, image, upload, flag, order);
        && r == Ok(Outcome(c, ReplacedImageId(old(categories)[k], upload)))
        && categories == old(categories)[k := c]
    {
      if !CastsToObjectId(id) {
        return Err(CastFailure);
      }
      var found := IndexOfCategory(categories, id);
      if found.None? {
        return Err(NotFound);
      }
      var k := found.value;
      var c, deleted := BuildUpdate(categories[k], name, image, upload, flag, order);
      categories := categories[k := c];
      r := Ok(Outcome(c, deleted));
    }

    /** `DELETE /categories/:id`: a missing category is a 404 with nothing
        deleted; otherwise its truthy image handle is sent for deletion and
        the category is removed. */
    method Delete(id: Oid) returns (r: Result<Outcome, CategoryError>)
      requires Valid()
      modifies this
      ensures Valid()
      ensures r.Err? ==> categories == old(categories)
      ensures !CastsToObjectId(id) ==> r == Err(CastFailure)
      ensures CastsToObjectId(id) && IndexOfCategory(old(categories), id).None? ==> r == Err(NotFound)
      ensures CastsToObjectId(id) && IndexOfCategory(old(categories), id).Some? ==>
        var k := IndexOfCategory(old(categories), id).value;
        var c := old(categories)[k];
        && r == Ok(Outcome(c, if Present(c.imageId) then c.imageId else None))
        && categories == old(categories)[..k] + old(categories)[k + 1..]
    {
      if !CastsToObjectId(id) {
        return Err(CastFailure);
      }
      var found := IndexOfCategory(categories, id);
      if found.None? {
        return Err(NotFound);
      }
      var k := found.value;
      var c := categories[k];
      var rest := categories[..k] + categories[k + 1..];
      assert forall i :: 0 <= i < |rest| ==> rest[i] == categories[if i < k then i else i + 1];
      categories := rest;
      r := Ok(Outcome(c, if Present(c.imageId) then c.imageId else None));
    }
  }

  /** After a delete no category with that id remains. */
  lemma DeletedCategoryGone(cs: seq<Category>, k: nat)
    requires k < |cs|
    requires forall i, j :: 0 <= i < j < |cs| ==> cs[i].id != cs[j].id
    ensures IndexOfCategory(cs[..k] + cs[k + 1..], cs[k].id).None?
  {
    var rest := cs[..k] + cs[k + 1..];
    assert forall i :: 0 <= i < |rest| ==> rest[i] == cs[if i < k then i else i + 1];
  }
}
