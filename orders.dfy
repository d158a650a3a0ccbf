/** Order placement (controllers/orderController.js): the list of missing
    fields, then persisting the order and decrementing stock item by item. */
module Orders {
  import opened Js
  import opened ProductModel

  datatype CartItem = CartItem(productId: Oid, name: string, price: real, count: int)

  /** The request body; None stands for an absent field. */
  datatype OrderRequest = OrderRequest(
    name: Option<string>,
    email: Option<string>,
    phone: Option<string>,
    address: Option<string>,
    paymentMethod: Option<string>,
    cartItems: Option<seq<CartItem>>,
    couponCode: Option<string>,
    discount: Option<real>,
    totalAmount: Option<real>)

  /** A stored order is the submitted body under a fresh `_id`: totals and
      prices are the client's, nothing is recomputed. */
  datatype Order = Order(id: Oid, data: OrderRequest)

  /** A field the handler insists on; `Label` is the name reported in
      `missingFields`. */
  datatype Field = Name | Email | Phone | Address | PaymentMethod | CartItems
  {
    function Label(): string
    {
      match this
      case Name => "name"
      case Email => "email"
      case Phone => "phone"
      case Address => "address"
      case PaymentMethod => "paymentMethod"
      case CartItems => "cartItems"
    }
  }

  datatype OrderError =
    | NotConnected                  // 500 "Database not connected"
    | Incomplete(missingFields: seq<Field>) // 400 "Missing fields"
    | SaveFailed                    // 500 "Failed to place order"
  {
    function Status(): int
    {
      match this
      case NotConnected => 500
      case Incomplete(_) => 400
      case SaveFailed => 500
    }
  }

  /** The fields checked, in the order they are checked. */
  const RequiredFields: seq<Field> := [Name, Email, Phone, Address, PaymentMethod, CartItems]

  /** Whether the request lacks the field: a falsy string, or an absent or
      empty cart. */
  predicate IsMissing(req: OrderRequest, field: Field)
  {
    match field
    case Name => !Present(req.name)
    case Email => !Present(req.email)
    case Phone => !Present(req.phone)
    case Address => !Present(req.address)
    case PaymentMethod => !Present(req.paymentMethod)
    case CartItems => req.cartItems.None? || |req.cartItems.value| == 0
  }

  /** The fields among `fields` that the request lacks, in the same order. */
  function MissingAmong(req: OrderRequest, fields: seq<Field>): (r: seq<Field>)
    ensures |r| <= |fields|
  {
    if |fields| == 0 then []
    else (if IsMissing(req, fields[0]) then [fields[0]] else []) + MissingAmong(req, fields[1..])
  }

  /** A field is reported exactly when it is among those checked and the
      request lacks it. */
  lemma {:induction false} MissingAmongMembers(req: OrderRequest, fields: seq<Field>, f: Field)
    ensures f in MissingAmong(req, fields) <==> f in fields && IsMissing(req, f)
  {
    if |fields| > 0 {
      MissingAmongMembers(req, fields[1..], f);
      assert fields == [fields[0]] + fields[1..];
    }
  }

  /** Checking two lists of fields one after the other reports what each
      check reports, in that order. */
  lemma {:induction false} MissingAmongAppend(req: OrderRequest, a: seq<Field>, b: seq<Field>)
    ensures MissingAmong(req, a + b) == MissingAmong(req, a) + MissingAmong(req, b)
  {
    if |a| > 0 {
      assert (a + b)[1..] == a[1..] + b;
      MissingAmongAppend(req, a[1..], b);
    } else {
      assert a + b == b;
    }
  }

  /** `if (<field is falsy>) missingFields.push(field)` */
  method Check(ghost req: OrderRequest, missing: seq<Field>, f: Field, falsy: bool) returns (r: seq<Field>)
    requires falsy == IsMissing(req, f)
    ensures r == missing + MissingAmong(req, [f])
  {
    r := missing;
    if falsy {
      r := r + [f];
    }
  }

  /** Builds `missingFields` by successive pushes. */
  method MissingFields(req: OrderRequest) returns (missing: seq<Field>)
    ensures missing == MissingAmong(req, RequiredFields)
  {
    missing := [];
    missing := Check(req, missing, Name, !Present(req.name));
    missing := Check(req, missing, Email, !Present(req.email));
    missing := Check(req, missing, Phone, !Present(req.phone));
    missing := Check(req, missing, Address, !Present(req.address));
    missing := Check(req, missing, PaymentMethod, !Present(req.paymentMethod));
    missing := Check(req, missing, CartItems, req.cartItems.None? || |req.cartItems.value| == 0);
    MissingRequired(req);
  }

  /** The check over the required fields is the six single-field checks,
      one after the other. */
  lemma MissingRequired(req: OrderRequest)
    ensures MissingAmong(req, RequiredFields)
         == [] + MissingAmong(req, [Name]) + MissingAmong(req, [Email]) + MissingAmong(req, [Phone])
            + MissingAmong(req, [Address]) + MissingAmong(req, [PaymentMethod]) + MissingAmong(req, [CartItems])
  {
    assert [] + [Name] == [Name];
    MissingAmongAppend(req, [], [Name]);
    assert [Name] + [Email] == [Name, Email];
    MissingAmongAppend(req, [Name], [Email]);
    assert [Name, Email] + [Phone] == [Name, Email, Phone];
    MissingAmongAppend(req, [Name, Email], [Phone]);
    assert [Name, Email, Phone] + [Address] == [Name, Email, Phone, Address];
    MissingAmongAppend(req, [Name, Email, Phone], [Address]);
    assert [Name, Email, Phone, Address] + [PaymentMethod] == [Name, Email, Phone, Address, PaymentMethod];
    MissingAmongAppend(req, [Name, Email, Phone, Address], [PaymentMethod]);
    assert [Name, Email, Phone, Address, PaymentMethod] + [CartItems] == RequiredFields;
    MissingAmongAppend(req, [Name, Email, Phone, Address, PaymentMethod], [CartItems]);
  }

  /** A request that lacks only its payment method is refused with exactly
      that field named. */
  lemma OnlyPaymentMethodMissing(req: OrderRequest)
    requires Present(req.name) && Present(req.email) && Present(req.phone) && Present(req.address)
    requires req.cartItems.Some? && |req.cartItems.value| > 0
    requires !Present(req.paymentMethod)
    ensures MissingAmong(req, RequiredFields) == [PaymentMethod]
  {
    MissingRequired(req);
  }

  /** `findByIdAndUpdate(item.productId, { $inc: { quantity: -item.count } })`:
      the product with that id loses `count` units, with no floor; an
      unknown id changes nothing. */
  function Decrement(ps: seq<Product>, item: CartItem): (r: seq<Product>)
    ensures |r| == |ps|
    ensures forall j :: 0 <= j < |ps| ==> r[j].id == ps[j].id
    ensures forall j :: 0 <= j < |ps| && ps[j].id != item.productId ==> r[j] == ps[j]
    ensures UniqueIds(ps) ==> forall j :: 0 <= j < |ps| && ps[j].id == item.productId ==>
              r[j] == ps[j].(quantity := ps[j].quantity - item.count)
  {
    match IndexOfId(ps, item.productId)
    case None => ps
    case Some(k) => ps[k := ps[k].(quantity := ps[k].quantity - item.count)]
  }

  /** The order schema types every cart item's `productId` as a required
      ObjectId (models/Orders.js:12-14), so `save()` rejects an order with
      an item whose id is absent ("") or does not cast. */
  predicate ItemsCast(items: seq<CartItem>)
  {
    forall k :: 0 <= k < |items| ==> CastsToObjectId(items[k].productId)
  }

  /** Whether the stock update for the item at position `k` goes through:
      the database must not fail it. */
  predicate Applies(items: seq<CartItem>, k: nat, failing: set<nat>)
    requires k < |items|
  {
    k !in failing
  }

  /** The products after the stock updates for `items`, in order; the
      items at positions in `failing` are those whose update throws. */
  function StockAfter(ps: seq<Product>, items: seq<CartItem>, failing: set<nat>): seq<Product>
    decreases |items|
  {
    if |items| == 0 then ps
    else
      var k := |items| - 1;
      var before := StockAfter(ps, items[..k], failing);
      if Applies(items, k, failing) then Decrement(before, items[k]) else before
  }

  /** The units of product `pid` that the applied items of `items` take. */
  function Ordered(items: seq<CartItem>, failing: set<nat>, pid: Oid): int
    decreases |items|
  {
    if |items| == 0 then 0
    else
      var k := |items| - 1;
      Ordered(items[..k], failing, pid)
        + (if Applies(items, k, failing) && items[k].productId == pid then items[k].count else 0)
  }

  /** Each product ends with its quantity lowered by the total count of the
      applied items that name it (cumulatively for repeated ids, possibly
      below zero), and nothing else about any product changes. */
  lemma {:induction false} StockAfterQuantities(ps: seq<Product>, items: seq<CartItem>, failing: set<nat>)
    requires UniqueIds(ps)
    ensures |StockAfter(ps, items, failing)| == |ps|
    ensures UniqueIds(StockAfter(ps, items, failing))
    ensures forall j :: 0 <= j < |ps| ==>
      StockAfter(ps, items, failing)[j] == ps[j].(quantity := ps[j].quantity - Ordered(items, failing, ps[j].id))
    decreases |items|
  {
    if |items| > 0 {
      var k := |items| - 1;
      StockAfterQuantities(ps, items[..k], failing);
      assert items[..k][..k] == items[..k];
    }
  }

  lemma {:induction false} OrderedNothing(items: seq<CartItem>, failing: set<nat>, pid: Oid)
    requires forall k :: 0 <= k < |items| ==> items[k].productId != pid
    ensures Ordered(items, failing, pid) == 0
    decreases |items|
  {
    if |items| > 0 {
      OrderedNothing(items[..|items| - 1], failing, pid);
    }
  }

  /** A product no cart item names is left exactly as it was. */
  lemma UnorderedProductUnchanged(ps: seq<Product>, items: seq<CartItem>, failing: set<nat>, j: nat)
    requires UniqueIds(ps) && j < |ps|
    requires forall k :: 0 <= k < |items| ==> items[k].productId != ps[j].id
    ensures |StockAfter(ps, items, failing)| == |ps|
    ensures StockAfter(ps, items, failing)[j] == ps[j]
  {
    StockAfterQuantities(ps, items, failing);
    OrderedNothing(items, failing, ps[j].id);
  }

  /** The orders and products collections, and the connection state. */
  class OrderDb {
    var connected: bool
    var orders: seq<Order>
    var products: seq<Product>

    ghost predicate Valid()
      reads this
    {
      UniqueIds(products)
    }

    constructor (connected0: bool, products0: seq<Product>)
      requires UniqueIds(products0)
      ensures Valid() && connected == connected0 && orders == [] && products == products0
    {
      connected := connected0;
      orders := [];
      products := products0;
    }

    /** `POST /orders`. Refused when the database is not connected, then
        when any required field is missing, then (as a failed `save()`)
        when some item's id is not an ObjectId; otherwise the order is
        stored as submitted and each item's stock update is tried in turn,
        a missing product or a failing update being skipped without undoing
        the order. */
    method CreateOrder(req: OrderRequest, newId: Oid, failing: set<nat>) returns (r: Result<Order, OrderError>)
      requires Valid()
      modifies this`orders, this`products
      ensures Valid()
      ensures !connected ==> r == Err(NotConnected)
      ensures connected && MissingAmong(req, RequiredFields) != [] ==>
        r == Err(Incomplete(MissingAmong(req, RequiredFields)))
      ensures connected && MissingAmong(req, RequiredFields) == [] && req.cartItems.Some? && !ItemsCast(req.cartItems.value) ==>
        r == Err(SaveFailed)
      ensures r.Err? ==> orders == old(orders) && products == old(products)
      ensures r.Ok? <==> connected && MissingAmong(req, RequiredFields) == [] && req.cartItems.Some? && ItemsCast(req.cartItems.value)
      ensures r.Ok? ==> r.value == Order(newId, req) && orders == old(orders) + [r.value]
      ensures r.Ok? ==>
        && req.cartItems.Some?
        && products == StockAfter(old(products), req.cartItems.value, failing)
    {
      if !connected {
        return Err(NotConnected);
      }
      var missing := MissingFields(req);
      if missing != [] {
        return Err(Incomplete(missing));
      }
      MissingAmongMembers(req, RequiredFields, CartItems);
      var items := req.cartItems.value;
      if !ItemsCast(items) {
        return Err(SaveFailed);
      }
      var order := Order(newId, req);
      orders := orders + [order];
      var i := 0;
      while i < |items|
        invariant 0 <= i <= |items|
        invariant orders == old(orders) + [order]
        invariant products == StockAfter(old(products), items[..i], failing)
        invariant UniqueIds(products)
      {
        assert items[..i + 1][..i] == items[..i];
        if i !in failing {
          products := Decrement(products, items[i]);
        }
        i := i + 1;
      }
      assert items[..|items|] == items;
      r := Ok(order);
    }
  }
}
