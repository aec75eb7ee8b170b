/** Reading orders back: one order with its stored line totals, and the
    listing of every order with totals at current prices. */
module OrderQueries {
  import opened Common
  import opened Records
  import opened OrderService

  // ---------------------------------------------------- reading orders

  /** One item as the order views show it. */
  datatype ItemView = ItemView(productId: int, productName: string, price: int, quantity: int, totalPrice: int)

  datatype OrderSummary = OrderSummary(orderId: int, status: OrderStatus, total: int, items: seq<ItemView>)

  /** Items as `get_order` shows them: the stored line total. */
  function StoredViews(products: map<int, Product>, items: seq<OrderItem>): seq<ItemView>
    requires forall k | 0 <= k < |items| :: items[k].productId in products
  {
    seq(|items|, k requires 0 <= k < |items| =>
      var p := products[items[k].productId];
      ItemView(items[k].productId, p.name, p.price, items[k].quantity, items[k].totalPrice))
  }

  /** Items as `get_all_orders` shows them: quantity times the product's
      current price; an item whose product row is gone shows no name and
      a zero price. */
  function RepricedViews(products: map<int, Product>, items: seq<OrderItem>): seq<ItemView>
  {
    if items == [] then []
    else [Repriced(products, items[0])] + RepricedViews(products, items[1..])
  }

  function Repriced(products: map<int, Product>, item: OrderItem): ItemView
  {
    if item.productId in products then
      var p := products[item.productId];
      ItemView(item.productId, p.name, p.price, item.quantity, item.quantity * p.price)
    else ItemView(item.productId, "", 0, item.quantity, 0)
  }

  /** `get_order`: 404 for an unknown id, otherwise the order with the sum
      of its stored line totals. */
  function GetOrder(orders: map<int, Order>, products: map<int, Product>, id: int): (r: Result<OrderSummary, OrderError>)
    requires ItemsReferenceProducts(orders, products)
    ensures r.Err? <==> id !in orders
    ensures r.Err? ==> r.error == OrderNotFound
    ensures r.Ok? ==> r.value.orderId == id && r.value.status == orders[id].status
                      && r.value.total == OrderTotal(orders[id].items)
                      && |r.value.items| == |orders[id].items|
    ensures r.Ok? ==>
              forall k | 0 <= k < |r.value.items| ::
                var item := orders[id].items[k];
                && item.productId in products
                && r.value.items[k] == ItemView(item.productId, products[item.productId].name,
                                                products[item.productId].price, item.quantity, item.totalPrice)
  {
    if id !in orders then Err(OrderNotFound)
    else
      var o := orders[id];
      Ok(OrderSummary(id, o.status, OrderTotal(o.items), StoredViews(products, o.items)))
  }

  /** An order just created by `CreateOrder` reads back as pending, with
      the sum of price times quantity of the request as its total. */
  lemma CreatedOrderReadsBack(products: map<int, Product>, orders: map<int, Order>, userId: int, id: int, lines: seq<OrderLine>)
    requires Place(products, lines, []).Ok?
    requires ItemsReferenceProducts(orders, products)
    ensures var pl := Place(products, lines, []).value;
            var orders' := orders[id := Order(userId, Pending, pl.items)];
            && ItemsReferenceProducts(orders', pl.products)
            && GetOrder(orders', pl.products, id).Ok?
            && GetOrder(orders', pl.products, id).value.status == Pending
            && GetOrder(orders', pl.products, id).value.total == RequestTotal(products, lines)
  {
    PlaceEffect(products, lines, []);
    PlaceTotal(products, lines, []);
    var pl := Place(products, lines, []).value;
    var orders' := orders[id := Order(userId, Pending, pl.items)];
    forall oid | oid in orders' ensures ItemsKnown(orders'[oid], pl.products) {
      if oid == id {
        forall k | 0 <= k < |pl.items| ensures pl.items[k].productId in pl.products {
          assert pl.items[0 + k].productId == lines[k].productId;
        }
      } else {
        assert ItemsKnown(orders[oid], products);
      }
    }
  }

  function ListedSummary(products: map<int, Product>, id: int, o: Order): OrderSummary
  {
    OrderSummary(id, o.status, OrderTotal(o.items), RepricedViews(products, o.items))
  }

  /** The walk of `get_all_orders` over the orders in `keys` from
      position `i` on: the first order whose owner is not the caller ends it
      with 404 (and reading the owner of an absent caller fails). */
  function Walk(orders: map<int, Order>, products: map<int, Product>, user: Option<User>,
                keys: seq<int>, i: int, acc: seq<OrderSummary>): Result<seq<OrderSummary>, OrderError>
    requires forall j | 0 <= j < |keys| :: keys[j] in orders
    requires 0 <= i <= |keys|
    decreases |keys| - i
  {
    if i == |keys| then Ok(acc)
    else if user.None? then Err(MissingUser)
    else if orders[keys[i]].userId != user.value.id then Err(NoPermission)
    else Walk(orders, products, user, keys, i + 1, acc + [ListedSummary(products, keys[i], orders[keys[i]])])
  }

  /** What `get_all_orders` answers. */
  function OrderListing(orders: map<int, Order>, products: map<int, Product>, user: Option<User>): Result<seq<OrderSummary>, OrderError>
  {
    if |orders| == 0 then Err(NoOrders)
    else Walk(orders, products, user, SortedKeys(orders.Keys), 0, [])
  }

  /** The summaries of the orders in `keys`, in that order. */
  function Listing(orders: map<int, Order>, products: map<int, Product>, keys: seq<int>): seq<OrderSummary>
    requires forall j | 0 <= j < |keys| :: keys[j] in orders
  {
    seq(|keys|, i requires 0 <= i < |keys| => ListedSummary(products, keys[i], orders[keys[i]]))
  }

  lemma {:induction false} WalkRefuses(orders: map<int, Order>, products: map<int, Product>, user: Option<User>,
                                       keys: seq<int>, i: int, acc: seq<OrderSummary>)
    requires forall j | 0 <= j < |keys| :: keys[j] in orders
    requires 0 <= i <= |keys|
    ensures i < |keys| && user.None? ==> Walk(orders, products, user, keys, i, acc) == Err(MissingUser)
    ensures user.Some? && (exists j | i <= j < |keys| :: orders[keys[j]].userId != user.value.id) ==>
              Walk(orders, products, user, keys, i, acc) == Err(NoPermission)
    decreases |keys| - i
  {
    if i < |keys| && user.Some? && orders[keys[i]].userId == user.value.id {
      WalkRefuses(orders, products, user, keys, i + 1, acc + [ListedSummary(products, keys[i], orders[keys[i]])]);
    }
  }

  lemma {:induction false} WalkAccepts(orders: map<int, Order>, products: map<int, Product>, u: User,
                                       keys: seq<int>, i: int, acc: seq<OrderSummary>)
    requires forall j | 0 <= j < |keys| :: keys[j] in orders
    requires 0 <= i <= |keys|
    requires forall j | i <= j < |keys| :: orders[keys[j]].userId == u.id
    ensures Walk(orders, products, Some(u), keys, i, acc) == Ok(acc + Listing(orders, products, keys)[i..])
    decreases |keys| - i
  {
    var l := Listing(orders, products, keys);
    if i < |keys| {
      var acc' := acc + [ListedSummary(products, keys[i], orders[keys[i]])];
      WalkAccepts(orders, products, u, keys, i + 1, acc');
      assert acc' + l[i + 1..] == acc + l[i..] by {
        assert l[i..] == [l[i]] + l[i + 1..];
      }
    } else {
      assert acc + l[i..] == acc;
    }
  }

  /** `get_all_orders` answers 404 when there is no order or when any
      order belongs to someone other than the caller, and fails when there
      is no caller to compare with. */
  lemma ListingRefuses(orders: map<int, Order>, products: map<int, Product>, user: Option<User>)
    ensures |orders| == 0 ==> OrderListing(orders, products, user) == Err(NoOrders)
    ensures |orders| > 0 && user.None? ==> OrderListing(orders, products, user) == Err(MissingUser)
    ensures |orders| > 0 && user.Some? && (exists id | id in orders :: orders[id].userId != user.value.id) ==>
              OrderListing(orders, products, user) == Err(NoPermission)
  {
    if |orders| > 0 {
      var keys := SortedKeys(orders.Keys);
      WalkRefuses(orders, products, user, keys, 0, []);
      if user.Some? && exists id | id in orders :: orders[id].userId != user.value.id {
        var id :| id in orders && orders[id].userId != user.value.id;
        var j :| 0 <= j < |keys| && keys[j] == id;
      }
    }
  }

  /** When every order is the caller's, `get_all_orders` lists the
      summaries of all orders by ascending id. */
  lemma ListingLists(orders: map<int, Order>, products: map<int, Product>, u: User)
    requires |orders| > 0
    requires forall id | id in orders :: orders[id].userId == u.id
    ensures OrderListing(orders, products, Some(u)) == Ok(Listing(orders, products, SortedKeys(orders.Keys)))
  {
    var l := Listing(orders, products, SortedKeys(orders.Keys));
    WalkAccepts(orders, products, u, SortedKeys(orders.Keys), 0, []);
    assert [] + l[0..] == l;
  }

  /** Entry `i` of a listing summarises the order stored under `keys[i]`. */
  lemma ListingIds(orders: map<int, Order>, products: map<int, Product>, keys: seq<int>)
    requires forall j | 0 <= j < |keys| :: keys[j] in orders
    ensures |Listing(orders, products, keys)| == |keys|
    ensures forall i | 0 <= i < |keys| :: Listing(orders, products, keys)[i].orderId == keys[i]
  {
  }

  /** The listing over the sorted keys holds each order exactly once, by
      ascending id. */
  lemma SortedListing(orders: map<int, Order>, products: map<int, Product>)
    ensures var r := Listing(orders, products, SortedKeys(orders.Keys));
            && |r| == |orders|
            && (forall i, j :: 0 <= i < j < |r| ==> r[i].orderId < r[j].orderId)
            && (forall i | 0 <= i < |r| :: r[i].orderId in orders)
            && (forall id | id in orders :: exists i | 0 <= i < |r| :: r[i].orderId == id)
  {
    var keys := SortedKeys(orders.Keys);
    ListingIds(orders, products, keys);
    var r := Listing(orders, products, keys);
    forall id | id in orders ensures exists i | 0 <= i < |r| :: r[i].orderId == id {
      var j :| 0 <= j < |keys| && keys[j] == id;
      assert r[j].orderId == id;
    }
  }

  /** `get_all_orders`: walks every order by ascending id and answers 404
      as soon as one belongs to someone other than the caller. */
  method GetAllOrders(orders: map<int, Order>, products: map<int, Product>, user: Option<User>)
    returns (r: Result<seq<OrderSummary>, OrderError>)
    ensures r == OrderListing(orders, products, user)
  {
    var keys := SortedKeys(orders.Keys);
    if |keys| == 0 {
      return Err(NoOrders);
    }
    ghost var answer := Walk(orders, products, user, keys, 0, []);
    assert answer == OrderListing(orders, products, user);
    var response: seq<OrderSummary> := [];
    var i := 0;
    while i < |keys|
      invariant 0 <= i <= |keys|
      invariant answer == Walk(orders, products, user, keys, i, response)
    {
      var id := keys[i];
      var order := orders[id];
      if user.None? {
        return Err(MissingUser);
      }
      if order.userId != user.value.id {
        return Err(NoPermission);
      }
      response := response + [ListedSummary(products, id, order)];
      i := i + 1;
    }
    r := Ok(response);
  }

  /** Every order of the caller and nothing else, once each, by ascending id. */
  function OwnOrders(orders: map<int, Order>, products: map<int, Product>, user: User): (r: seq<OrderSummary>)
    ensures forall s | s in r :: s.orderId in orders && orders[s.orderId].userId == user.id
                                 && s == ListedSummary(products, s.orderId, orders[s.orderId])
    ensures forall id | id in orders && orders[id].userId == user.id :: exists s | s in r :: s.orderId == id
    ensures forall i, j | 0 <= i < j < |r| :: r[i].orderId < r[j].orderId
  {
    OwnFrom(orders, products, user, SortedKeys(orders.Keys))
  }

  function OwnFrom(orders: map<int, Order>, products: map<int, Product>, user: User, keys: seq<int>): (r: seq<OrderSummary>)
    requires forall i | 0 <= i < |keys| :: keys[i] in orders
    ensures forall s | s in r :: s.orderId in keys && orders[s.orderId].userId == user.id
                                 && s == ListedSummary(products, s.orderId, orders[s.orderId])
    ensures forall id | id in keys && orders[id].userId == user.id :: exists s | s in r :: s.orderId == id
    ensures StrictlyIncreasing(keys) ==> forall i, j | 0 <= i < j < |r| :: r[i].orderId < r[j].orderId
  {
    if keys == [] then []
    else
      var tail := OwnFrom(orders, products, user, keys[1..]);
      assert StrictlyIncreasing(keys) ==> StrictlyIncreasing(keys[1..]) && forall k | k in keys[1..] :: keys[0] < k by {
        if StrictlyIncreasing(keys) {
          LaterKeysAreLarger(keys);
        }
      }
      if orders[keys[0]].userId == user.id then [ListedSummary(products, keys[0], orders[keys[0]])] + tail
      else tail
  }

  /** Every key after the first of a strictly increasing list is larger
      than the first, and the rest is strictly increasing too. */
  lemma LaterKeysAreLarger(keys: seq<int>)
    requires keys != [] && StrictlyIncreasing(keys)
    ensures StrictlyIncreasing(keys[1..])
    ensures forall k | k in keys[1..] :: keys[0] < k
  {
    forall k | k in keys[1..] ensures keys[0] < k {
      var j :| 0 <= j < |keys[1..]| && keys[1..][j] == k;
      assert keys[1..][j] == keys[j + 1];
    }
  }

  /** With orders of two users in the table, each caller's listing is 404,
      even though the caller owns an order; `OwnOrders` lists it. */
  lemma MixedOwnersHideOwnOrders()
    ensures var orders := map[1 := Order(1, Pending, []), 2 := Order(2, Pending, [])];
            var caller := User(1, "user");
            && OrderListing(orders, map[], Some(caller)) == Err(NoPermission)
            && |OwnOrders(orders, map[], caller)| >= 1
  {
    var orders := map[1 := Order(1, Pending, []), 2 := Order(2, Pending, [])];
    assert orders[2].userId != 1;
    assert 1 in orders && orders[1].userId == 1;
  }

}
