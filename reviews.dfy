/** Review deletion and the product rating aggregate it recomputes
    (controllers/reviewController.js). */
module Reviews {
  import opened Js
  import opened ProductModel

  /** A stored review; the reviewer's name, e-mail and message play no part
      in the aggregate. */
  datatype Review = Review(id: Oid, productId: Oid, rating: int, imageId: Option<string>)

  datatype DeleteError =
    | Unparsable // 500: the id is not an ObjectId
    | NotFound   // 404 "Review not found"
  {
    function Status(): int
    {
      match this
      case Unparsable => 500
      case NotFound => 404
    }
  }

  /** The outcome of a deletion: the removed review and the product
      document after its ratings were rewritten (None when the product no
      longer exists). */
  datatype Deleted = Deleted(review: Review, updatedProduct: Option<Product>)

  /** The ratings of the reviews of one product, in collection order. */
  function RatingsOf(rs: seq<Review>, pid: Oid): (r: seq<int>)
    ensures |r| <= |rs|
  {
    if |rs| == 0 then []
    else (if rs[0].productId == pid then [rs[0].rating] else []) + RatingsOf(rs[1..], pid)
  }

  function Sum(xs: seq<int>): int
  {
    if |xs| == 0 then 0 else xs[0] + Sum(xs[1..])
  }

  /** `{ averageRating, totalRatings }` over a set of ratings: their mean
      and their number, or 0 and 0 when there are none. */
  function Aggregate(ratings: seq<int>): (a: Ratings)
    ensures a.totalRatings == |ratings|
    ensures |ratings| == 0 ==> a.averageRating == 0.0
    ensures |ratings| > 0 ==> a.averageRating * |ratings| as real == Sum(ratings) as real
  {
    if |ratings| > 0 then Ratings(Sum(ratings) as real / |ratings| as real, |ratings|)
    else Ratings(0.0, 0)
  }

  lemma {:induction false} SumAppend(a: seq<int>, b: seq<int>)
    ensures Sum(a + b) == Sum(a) + Sum(b)
  {
    if |a| > 0 {
      assert (a + b)[1..] == a[1..] + b;
      SumAppend(a[1..], b);
    } else {
      assert a + b == b;
    }
  }

  lemma {:induction false} RatingsOfAppend(a: seq<Review>, b: seq<Review>, pid: Oid)
    ensures RatingsOf(a + b, pid) == RatingsOf(a, pid) + RatingsOf(b, pid)
  {
    if |a| > 0 {
      assert (a + b)[1..] == a[1..] + b;
      RatingsOfAppend(a[1..], b, pid);
    } else {
      assert a + b == b;
    }
  }

  lemma {:induction false} SumBounds(xs: seq<int>, lo: int, hi: int)
    requires forall i :: 0 <= i < |xs| ==> lo <= xs[i] <= hi
    ensures lo * |xs| <= Sum(xs) <= hi * |xs|
  {
    if |xs| > 0 {
      SumBounds(xs[1..], lo, hi);
    }
  }

  /** Ratings between 1 and 5 give an average between 1 and 5. */
  lemma AverageWithinScale(ratings: seq<int>)
    requires |ratings| > 0
    requires forall i :: 0 <= i < |ratings| ==> 1 <= ratings[i] <= 5
    ensures 1.0 <= Aggregate(ratings).averageRating <= 5.0
  {
    SumBounds(ratings, 1, 5);
    var n := |ratings|;
    assert n <= Sum(ratings) <= 5 * n;
    assert n as real <= Sum(ratings) as real <= 5.0 * n as real;
    QuotientWithin(Sum(ratings) as real, n as real);
    assert Aggregate(ratings).averageRating == Sum(ratings) as real / n as real;
  }

  /** A total between n and 5n, divided by n, lies between 1 and 5. */
  lemma QuotientWithin(total: real, n: real)
    requires n > 0.0 && n <= total <= 5.0 * n
    ensures 1.0 <= total / n <= 5.0
  {
    var q := total / n;
    assert q * n == total;
    if q < 1.0 {
      ScaleStrict(q, 1.0, n);
      assert false;
    }
    if q > 5.0 {
      ScaleStrict(5.0, q, n);
      assert false;
    }
  }

  lemma ScaleStrict(a: real, b: real, n: real)
    requires a < b && n > 0.0
    ensures a * n < b * n
  {
  }

  /** Reviews rated 5, 3 and 4 give an average of 4 over 3 ratings. */
  lemma AggregateExample()
    ensures Aggregate([5, 3, 4]) == Ratings(4.0, 3)
  {
    assert Sum([5, 3, 4]) == 12;
  }

  /** Taking one review of a product out of the collection removes exactly
      its rating from that product's ratings: one fewer, and the sum drops
      by that rating. Other products' ratings are as before. */
  lemma {:induction false} RemovalDropsOneRating(rs: seq<Review>, i: nat, pid: Oid)
    requires i < |rs|
    ensures var before := RatingsOf(rs, pid);
            var after := RatingsOf(rs[..i] + rs[i + 1..], pid);
            && (rs[i].productId == pid ==> |after| == |before| - 1 && Sum(after) == Sum(before) - rs[i].rating)
            && (rs[i].productId != pid ==> after == before)
  {
    assert rs == rs[..i] + ([rs[i]] + rs[i + 1..]);
    RatingsOfAppend(rs[..i], [rs[i]] + rs[i + 1..], pid);
    RatingsOfAppend([rs[i]], rs[i + 1..], pid);
    RatingsOfAppend(rs[..i], rs[i + 1..], pid);
    assert ([rs[i]] + rs[i + 1..])[1..] == rs[i + 1..];
    assert RatingsOf([rs[i]], pid) == (if rs[i].productId == pid then [rs[i].rating] else []) by {
      assert [rs[i]][1..] == [];
    }
    var a, b := RatingsOf(rs[..i], pid), RatingsOf(rs[i + 1..], pid);
    if rs[i].productId == pid {
      SumAppend(a, [rs[i].rating] + b);
      SumAppend([rs[i].rating], b);
      SumAppend(a, b);
    }
  }

  /** `Product.findByIdAndUpdate(pid, { ratings })`: the first product with
      that id gets the new ratings, every other product stays as it was. */
  function SetRatings(ps: seq<Product>, pid: Oid, a: Ratings): (r: seq<Product>)
    ensures |r| == |ps|
    ensures IndexOfId(ps, pid).Some? ==>
      r[IndexOfId(ps, pid).value] == ps[IndexOfId(ps, pid).value].(ratings := a)
    ensures forall j :: 0 <= j < |ps| && ps[j].id != pid ==> r[j] == ps[j]
    ensures UniqueIds(ps) ==> UniqueIds(r)
  {
    match IndexOfId(ps, pid)
    case None => ps
    case Some(k) => ps[k := ps[k].(ratings := a)]
  }

  function IndexOfReview(rs: seq<Review>, id: Oid): (r: Option<nat>)
    ensures r.Some? ==> r.value < |rs| && rs[r.value].id == id
    ensures r.None? ==> forall j :: 0 <= j < |rs| ==> rs[j].id != id
  {
    FirstIndex(rs, (v: Review) => v.id, id)
  }

  /** The reviews and products collections. */
  class ReviewDb {
    var reviews: seq<Review>
    var products: seq<Product>

    ghost predicate Valid()
      reads this
    {
      && (forall i, j :: 0 <= i < j < |reviews| ==> reviews[i].id != reviews[j].id)
      && UniqueIds(products)
    }

    constructor (reviews0: seq<Review>, products0: seq<Product>)
      requires forall i, j :: 0 <= i < j < |reviews0| ==> reviews0[i].id != reviews0[j].id
      requires UniqueIds(products0)
      ensures Valid() && reviews == reviews0 && products == products0
    {
      reviews := reviews0;
      products := products0;
    }

    /** `DELETE /reviews/:id`. The review is removed first, then the
        product it belonged to gets the aggregate of the reviews that
        remain. The request to delete the review's image from storage is
        best-effort: its failure is logged and swallowed, so it has no
        bearing on the outcome. */
    method DeleteReview(id: Oid) returns (r: Result<Deleted, DeleteError>)
      requires Valid()
      modifies this
      ensures Valid()
      ensures !CastsToObjectId(id) ==> r == Err(Unparsable)
      ensures CastsToObjectId(id) && IndexOfReview(old(reviews), id).None? ==> r == Err(NotFound)
      ensures r.Ok? <==> CastsToObjectId(id) && IndexOfReview(old(reviews), id).Some?
      ensures r.Ok? ==> r.value.review == old(reviews)[IndexOfReview(old(reviews), id).value]
      ensures r.Err? ==> reviews == old(reviews) && products == old(products)
      ensures r.Ok? ==> exists i :: 0 <= i < |old(reviews)| && old(reviews)[i] == r.value.review
                          && reviews == old(reviews)[..i] + old(reviews)[i + 1..]
      ensures r.Ok? ==> r.value.review.id == id
      ensures r.Ok? ==>
        var pid := r.value.review.productId;
        products == SetRatings(old(products), pid, Aggregate(RatingsOf(reviews, pid)))
      ensures r.Ok? ==>
        var pid := r.value.review.productId;
        r.value.updatedProduct == (match IndexOfId(products, pid)
                                   case Some(k) => Some(products[k])
                                   case None => None)
    {
      if !CastsToObjectId(id) {
        return Err(Unparsable);
      }
      var found := IndexOfReview(reviews, id);
      if found.None? {
        return Err(NotFound);
      }
      var i := found.value;
      var review := reviews[i];
      reviews := reviews[..i] + reviews[i + 1..];
      var pid := review.productId;
      var aggregate := Aggregate(RatingsOf(reviews, pid));
      products := SetRatings(products, pid, aggregate);
      var k := IndexOfId(products, pid);
      r := Ok(Deleted(review, if k.Some? then Some(products[k.value]) else None));
    }
  }

  /** After a deletion the product's `totalRatings` is one less than the
      number of its reviews before, and its ratings sum drops by exactly
      the deleted review's rating. */
  lemma DeletionExcludesDeletedReview(rs: seq<Review>, i: nat)
    requires i < |rs|
    ensures var pid := rs[i].productId;
            var before := RatingsOf(rs, pid);
            var after := RatingsOf(rs[..i] + rs[i + 1..], pid);
            && Aggregate(after).totalRatings == |before| - 1
            && Sum(after) == Sum(before) - rs[i].rating
            && (|after| > 0 ==> Aggregate(after).averageRating == (Sum(before) - rs[i].rating) as real / |after| as real)
  {
    RemovalDropsOneRating(rs, i, rs[i].productId);
  }

  /** Deleting the last review of a product resets its aggregate to 0/0. */
  lemma DeletingLastReviewResets(rs: seq<Review>, i: nat)
    requires i < |rs|
    requires |RatingsOf(rs, rs[i].productId)| == 1
    ensures Aggregate(RatingsOf(rs[..i] + rs[i + 1..], rs[i].productId)) == Ratings(0.0, 0)
  {
    RemovalDropsOneRating(rs, i, rs[i].productId);
  }
}
