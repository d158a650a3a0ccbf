/** `POST /api/users/wishlist` (routes/userRoute.js): adding a product to,
    or removing it from, the wishlist of the user with a given e-mail. */
module Wishlist {
  import opened Js

  /** A wishlist entry as the handler sees it after `populate`: the `_id` of
      the product it refers to, or None when the reference resolves to no
      product (a dangling reference populates to null). */
  datatype Entry = Entry(product: Option<Oid>)

  datatype User = User(email: string, wishlist: seq<Entry>)

  datatype WishError =
    | MissingInput   // 400 "Email, productId and action are required"
    | UserNotFound   // 404 "User not found"
    | AlreadyListed  // 400 "Product already in wishlist"
    | NotListed      // 404 "Product not found in wishlist"
    | BadAction      // 400 "Action must be 'add' or 'remove'"
  {
    function Status(): int
    {
      match this
      case MissingInput => 400
      case UserNotFound => 404
      case AlreadyListed => 400
      case NotListed => 404
      case BadAction => 400
    }
  }

  /** `item.productId?._id?.toString() === productId`: a dangling entry
      matches nothing. */
  predicate Matches(e: Entry, productId: Oid)
  {
    e.product == Some(productId)
  }

  /** `wishlist.some(...)`: some entry refers to the product. */
  predicate Listed(ws: seq<Entry>, productId: Oid)
  {
    exists i :: 0 <= i < |ws| && Matches(ws[i], productId)
  }

  /** `wishlist.filter(...)`: the entries that do not refer to the product,
      in their original order. */
  function Without(ws: seq<Entry>, productId: Oid): (r: seq<Entry>)
    ensures |r| <= |ws|
    ensures forall i :: 0 <= i < |r| ==> !Matches(r[i], productId)
  {
    if |ws| == 0 then []
    else (if Matches(ws[0], productId) then [] else [ws[0]]) + Without(ws[1..], productId)
  }

  /** Filtering distributes over concatenation, so it keeps the surviving
      entries in their relative order. */
  lemma {:induction false} WithoutAppend(a: seq<Entry>, b: seq<Entry>, productId: Oid)
    ensures Without(a + b, productId) == Without(a, productId) + Without(b, productId)
  {
    if |a| > 0 {
      assert (a + b)[0] == a[0];
      assert (a + b)[1..] == a[1..] + b;
      WithoutAppend(a[1..], b, productId);
      var head := if Matches(a[0], productId) then [] else [a[0]];
      assert Without(a + b, productId) == head + Without(a[1..] + b, productId);
      assert Without(a, productId) == head + Without(a[1..], productId);
    } else {
      assert a + b == b;
    }
  }

  /** Filtering drops something exactly when some entry refers to the
      product; otherwise it leaves the list as it was. */
  lemma {:induction false} WithoutShrinksIffListed(ws: seq<Entry>, productId: Oid)
    ensures Listed(ws, productId) <==> |Without(ws, productId)| < |ws|
    ensures !Listed(ws, productId) ==> Without(ws, productId) == ws
  {
    if |ws| > 0 {
      WithoutShrinksIffListed(ws[1..], productId);
      if Matches(ws[0], productId) {
        assert Listed(ws, productId);
      } else if Listed(ws, productId) {
        var i :| 0 <= i < |ws| && Matches(ws[i], productId);
        assert Matches(ws[1..][i - 1], productId);
      } else {
        assert ws == [ws[0]] + ws[1..];
      }
    }
  }

  /** An entry that does not refer to the product, dangling ones included,
      survives the filter. */
  lemma {:induction false} WithoutKeepsOthers(ws: seq<Entry>, productId: Oid, i: nat)
    requires i < |ws| && !Matches(ws[i], productId)
    ensures ws[i] in Without(ws, productId)
  {
    assert ws == ws[..i] + [ws[i]] + ws[i + 1..];
    WithoutAppend(ws[..i] + [ws[i]], ws[i + 1..], productId);
    WithoutAppend(ws[..i], [ws[i]], productId);
    assert [ws[i]][1..] == [];
  }

  /** Removing an existing product just added gives back the list it was
      added to. */
  lemma AddThenRemove(productIds: set<Oid>, ws: seq<Entry>, productId: Oid)
    requires productId in productIds && !Listed(ws, productId)
    ensures Without(ws + [Added(productIds, productId)], productId) == ws
  {
    var e := Added(productIds, productId);
    WithoutAppend(ws, [e], productId);
    WithoutShrinksIffListed(ws, productId);
    assert [e][1..] == [];
  }

  /** The entry `push({ productId })` leaves once the saved list is
      populated again: the product's id when it exists, a dangling entry
      when no product has that id. */
  function Added(productIds: set<Oid>, productId: Oid): (e: Entry)
    ensures e.product.Some? <==> productId in productIds
    ensures Matches(e, productId) <==> productId in productIds
  {
    Entry(if productId in productIds then Some(productId) else None)
  }

  /** A dangling entry is never listed, so adding a product that does not
      exist leaves it unlisted and a second add of it succeeds again. */
  lemma {:induction false} DanglingAddStaysUnlisted(ws: seq<Entry>, productId: Oid)
    ensures Listed(ws + [Entry(None)], productId) <==> Listed(ws, productId)
  {
    var t := ws + [Entry(None)];
    if Listed(t, productId) {
      var i :| 0 <= i < |t| && Matches(t[i], productId);
      assert i < |ws| && Matches(ws[i], productId);
    }
    if Listed(ws, productId) {
      var i :| 0 <= i < |ws| && Matches(ws[i], productId);
      assert Matches(t[i], productId);
    }
  }

  /** The first user with this e-mail (`findOne({ email })`). */
  function IndexOfEmail(us: seq<User>, email: string): (r: Option<nat>)
    ensures r.Some? ==> r.value < |us| && us[r.value].email == email
    ensures r.Some? ==> forall j :: 0 <= j < r.value ==> us[j].email != email
    ensures r.None? ==> forall j :: 0 <= j < |us| ==> us[j].email != email
  {
    FirstIndex(us, (u: User) => u.email, email)
  }

  /** The users collection, beside the ids of the products that exist
      (what `populate` resolves references against). */
  class UserDb {
    var users: seq<User>
    var productIds: set<Oid>

    /** E-mail addresses are unique. */
    ghost predicate Valid()
      reads this
    {
      forall i, j :: 0 <= i < j < |users| ==> users[i].email != users[j].email
    }

    constructor (users0: seq<User>, productIds0: set<Oid>)
      requires forall i, j :: 0 <= i < j < |users0| ==> users0[i].email != users0[j].email
      ensures Valid() && users == users0 && productIds == productIds0
    {
      users := users0;
      productIds := productIds0;
    }

    /** The handler. The three inputs must all be truthy; then the user must
        exist; only then is the action looked at. An added id that names no
        product is saved as a reference that populates to null. On success
        the re-read, populated wishlist is what the response returns. */
    method UpdateWishlist(email: Option<string>, productId: Option<string>, action: Option<string>)
      returns (r: Result<seq<Entry>, WishError>)
      requires Valid()
      modifies this
      ensures Valid()
      ensures productIds == old(productIds)
      ensures r.Err? ==> users == old(users)
      ensures !Present(email) || !Present(productId) || !Present(action) ==> r == Err(MissingInput)
      ensures Present(email) && Present(productId) && Present(action) ==>
        var u := IndexOfEmail(old(users), email.value);
        var pid := productId.value;
        && (u.None? ==> r == Err(UserNotFound))
        && (u.Some? ==>
              var ws := old(users)[u.value].wishlist;
              && (action.value == "add" && Listed(ws, pid) ==> r == Err(AlreadyListed))
              && (action.value == "add" && !Listed(ws, pid) ==>
                    r == Ok(ws + [Added(productIds, pid)])
                    && users == old(users)[u.value := User(email.value, ws + [Added(productIds, pid)])])
              && (action.value == "remove" && !Listed(ws, pid) ==> r == Err(NotListed))
              && (action.value == "remove" && Listed(ws, pid) ==>
                    r == Ok(Without(ws, pid))
                    && users == old(users)[u.value := User(email.value, Without(ws, pid))])
              && (action.value != "add" && action.value != "remove" ==> r == Err(BadAction)))
    {
      if !Present(email) || !Present(productId) || !Present(action) {
        return Err(MissingInput);
      }
      var pid := productId.value;
      var u := IndexOfEmail(users, email.value);
      if u.None? {
        return Err(UserNotFound);
      }
      var k := u.value;
      var wishlist := users[k].wishlist;
      if action.value == "add" {
        if Listed(wishlist, pid) {
          return Err(AlreadyListed);
        }
        wishlist := wishlist + [Added(productIds, pid)];
      } else if action.value == "remove" {
        var beforeCount := |wishlist|;
        WithoutShrinksIffListed(wishlist, pid);
        wishlist := Without(wishlist, pid);
        if |wishlist| == beforeCount {
          return Err(NotListed);
        }
      } else {
        return Err(BadAction);
      }
      users := users[k := users[k].(wishlist := wishlist)];
      r := Ok(wishlist);
    }
  }
}
