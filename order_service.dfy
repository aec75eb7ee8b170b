/** The order and payment engine: order creation that checks and
    decrements stock item by item, order reads with their totals, the
    listing of all orders, and the pending-to-paid payment step. */
module OrderService {
  import opened Common
  import opened Records

  datatype OrderError =
    | Unauthenticated                                        // 401
    | ProductNotFound                                        // 404
    | ProductInactive                                        // sent without a status: 200
    | OutOfStock(name: string, available: int, requested: int) // 400
    | OrderNotFound                                          // 404
    | NoOrders                                               // 404
    | NoPermission                                           // 404
    | MissingUser                                            // 500: attribute read on an absent user
    | NonPositiveAmount                                      // 400
    | AlreadyPaid                                            // sent without a status: 200
    | Underpaid(paid: int, total: int)                       // 400

  function Status(e: OrderError): int
  {
    match e
    case Unauthenticated => 401
    case ProductNotFound => 404
    case ProductInactive => 200
    case OutOfStock(_, _, _) => 400
    case OrderNotFound => 404
    case NoOrders => 404
    case NoPermission => 404
    case MissingUser => 500
    case NonPositiveAmount => 400
    case AlreadyPaid => 200
    case Underpaid(_, _) => 400
  }

  // ------------------------------------------------------ create_order

  /** The uncommitted product rows and the order items built so far. */
  datatype Placement = Placement(products: map<int, Product>, items: seq<OrderItem>)

  /** The checks on one requested line against the current stock, in the
      service's order, and the product row after the decrement. */
  function CheckLine(products: map<int, Product>, line: OrderLine): Result<Product, OrderError>
  {
    if line.productId !in products then Err(ProductNotFound)
    else
      var p := products[line.productId];
      if !p.isActive then Err(ProductInactive)
      else if p.stock < line.quantity then Err(OutOfStock(p.name, p.stock, line.quantity))
      else Ok(p.(stock := p.stock - line.quantity))
  }

  /** The item loop: each line is checked against the stock left by the
      lines before it; the first rejected line ends the walk. */
  function Place(products: map<int, Product>, lines: seq<OrderLine>, acc: seq<OrderItem>): Result<Placement, OrderError>
    decreases |lines|
  {
    if lines == [] then Ok(Placement(products, acc))
    else
      match CheckLine(products, lines[0])
      case Err(e) => Err(e)
      case Ok(p) =>
        Place(products[lines[0].productId := p], lines[1..],
              acc + [OrderItem(lines[0].productId, lines[0].quantity, p.price * lines[0].quantity)])
  }

  /** Total quantity requested for product `pid` by `lines`. */
  function Demand(lines: seq<OrderLine>, pid: int): int
  {
    if lines == [] then 0
    else (if lines[0].productId == pid then lines[0].quantity else 0) + Demand(lines[1..], pid)
  }

  /** Line `k` passes its checks: the product exists, is active, and its
      stock covers this line together with the earlier lines for it. */
  predicate Accepted(products: map<int, Product>, lines: seq<OrderLine>, k: int)
    requires 0 <= k < |lines|
  {
    var pid := lines[k].productId;
    pid in products && products[pid].isActive && Demand(lines[..k + 1], pid) <= products[pid].stock
  }

  /** The error a rejected line `k` reports. */
  function Rejection(products: map<int, Product>, lines: seq<OrderLine>, k: int): OrderError
    requires 0 <= k < |lines|
  {
    var pid := lines[k].productId;
    if pid !in products then ProductNotFound
    else if !products[pid].isActive then ProductInactive
    else OutOfStock(products[pid].name, products[pid].stock - Demand(lines[..k], pid), lines[k].quantity)
  }

  /** The first line's share of the demand, split off the front. */
  lemma DemandFront(lines: seq<OrderLine>, k: int, pid: int)
    requires 0 <= k < |lines|
    ensures Demand(lines[..k + 1], pid) ==
              (if lines[0].productId == pid then lines[0].quantity else 0) + Demand(lines[1..][..k], pid)
    ensures k > 0 ==> (Demand(lines[..k], pid) ==
              (if lines[0].productId == pid then lines[0].quantity else 0) + Demand(lines[1..][..k - 1], pid))
  {
    assert lines[..k + 1][1..] == lines[1..][..k];
    if k > 0 {
      assert lines[..k][1..] == lines[1..][..k - 1];
    }
  }

  /** Processing the first line shifts acceptance of line `k` onto line
      `k - 1` of the rest against the decremented stock. */
  lemma {:induction false} AcceptedShift(products: map<int, Product>, lines: seq<OrderLine>, k: int)
    requires 0 < k < |lines|
    requires CheckLine(products, lines[0]).Ok?
    ensures var next := products[lines[0].productId := CheckLine(products, lines[0]).value];
            && Accepted(next, lines[1..], k - 1) == Accepted(products, lines, k)
            && Rejection(next, lines[1..], k - 1) == Rejection(products, lines, k)
  {
    var pid := lines[k].productId;
    DemandFront(lines, k, pid);
    assert lines[1..][k - 1] == lines[k];
  }

  /** The walk succeeds exactly when every line is accepted. */
  lemma {:induction false} PlaceOkIff(products: map<int, Product>, lines: seq<OrderLine>, acc: seq<OrderItem>)
    ensures Place(products, lines, acc).Ok? <==> forall k | 0 <= k < |lines| :: Accepted(products, lines, k)
    decreases |lines|
  {
    if lines != [] {
      DemandFront(lines, 0, lines[0].productId);
      assert lines[1..][..0] == [];
      var c := CheckLine(products, lines[0]);
      if c.Ok? {
        var next := products[lines[0].productId := c.value];
        PlaceOkIff(next, lines[1..], acc + [OrderItem(lines[0].productId, lines[0].quantity, c.value.price * lines[0].quantity)]);
        forall k | 0 < k < |lines| ensures Accepted(next, lines[1..], k - 1) == Accepted(products, lines, k) {
          AcceptedShift(products, lines, k);
        }
        if forall k | 0 <= k < |lines[1..]| :: Accepted(next, lines[1..], k) {
          forall k | 0 <= k < |lines| ensures Accepted(products, lines, k) {
            if k > 0 { assert Accepted(next, lines[1..], k - 1); }
          }
        } else {
          var j :| 0 <= j < |lines[1..]| && !Accepted(next, lines[1..], j);
          assert !Accepted(products, lines, j + 1);
        }
      } else {
        assert !Accepted(products, lines, 0);
      }
    }
  }

  /** The walk fails with the error of the first rejected line: unknown
      product 404, inactive product, or 400 naming the available and the
      requested amounts. */
  lemma {:induction false} PlaceFirstRejection(products: map<int, Product>, lines: seq<OrderLine>, acc: seq<OrderItem>, k: int)
    requires 0 <= k < |lines|
    requires forall j | 0 <= j < k :: Accepted(products, lines, j)
    requires !Accepted(products, lines, k)
    ensures Place(products, lines, acc) == Err(Rejection(products, lines, k))
    decreases |lines|
  {
    DemandFront(lines, 0, lines[0].productId);
    assert lines[1..][..0] == [];
    assert lines[..0] == [];
    var c := CheckLine(products, lines[0]);
    if k == 0 {
      assert c.Err?;
    } else {
      assert Accepted(products, lines, 0);
      var next := products[lines[0].productId := c.value];
      forall j | 0 <= j < k - 1 ensures Accepted(next, lines[1..], j) {
        AcceptedShift(products, lines, j + 1);
      }
      AcceptedShift(products, lines, k);
      PlaceFirstRejection(next, lines[1..], acc + [OrderItem(lines[0].productId, lines[0].quantity, c.value.price * lines[0].quantity)], k - 1);
    }
  }

  /** A successful walk decrements each product's stock by exactly its
      total demand, changes no other field and no key, and records one
      item per line whose total is the product's price times the
      quantity. */
  lemma {:induction false} PlaceEffect(products: map<int, Product>, lines: seq<OrderLine>, acc: seq<OrderItem>)
    requires Place(products, lines, acc).Ok?
    ensures var pl := Place(products, lines, acc).value;
            && pl.products.Keys == products.Keys
            && (forall id | id in products :: pl.products[id] == products[id].(stock := products[id].stock - Demand(lines, id)))
            && |pl.items| == |acc| + |lines|
            && pl.items[..|acc|] == acc
            && forall k | 0 <= k < |lines| ::
                 && lines[k].productId in products
                 && pl.items[|acc| + k] == OrderItem(lines[k].productId, lines[k].quantity,
                                                     products[lines[k].productId].price * lines[k].quantity)
    decreases |lines|
  {
    if lines != [] {
      var l := lines[0];
      var c := CheckLine(products, l);
      var next := products[l.productId := c.value];
      var acc' := acc + [OrderItem(l.productId, l.quantity, c.value.price * l.quantity)];
      PlaceEffect(next, lines[1..], acc');
      var pl := Place(products, lines, acc).value;
      assert pl == Place(next, lines[1..], acc').value;
      forall id | id in products
        ensures pl.products[id] == products[id].(stock := products[id].stock - Demand(lines, id))
      {
        assert pl.products[id] == next[id].(stock := next[id].stock - Demand(lines[1..], id));
      }
      assert pl.items[..|acc|] == acc by {
        assert pl.items[..|acc'|][..|acc|] == acc;
      }
      forall k | 0 <= k < |lines|
        ensures lines[k].productId in products
        ensures pl.items[|acc| + k] == OrderItem(lines[k].productId, lines[k].quantity,
                                                products[lines[k].productId].price * lines[k].quantity)
      {
        if k == 0 {
          assert pl.items[|acc|] == pl.items[..|acc'|][|acc|];
        } else {
          assert lines[1..][k - 1] == lines[k];
          assert |acc'| + (k - 1) == |acc| + k;
        }
      }
    }
  }

  /** Sum of the stored line totals of an order. */
  function OrderTotal(items: seq<OrderItem>): int
  {
    if items == [] then 0 else items[0].totalPrice + OrderTotal(items[1..])
  }

  lemma {:induction false} OrderTotalAppend(a: seq<OrderItem>, b: seq<OrderItem>)
    ensures OrderTotal(a + b) == OrderTotal(a) + OrderTotal(b)
  {
    if a == [] {
      assert a + b == b;
    } else {
      assert (a + b)[1..] == a[1..] + b;
      OrderTotalAppend(a[1..], b);
    }
  }

  /** Price times quantity summed over the requested lines, at the prices
      in `products`. */
  function RequestTotal(products: map<int, Product>, lines: seq<OrderLine>): int
  {
    if lines == [] then 0
    else
      (if lines[0].productId in products then products[lines[0].productId].price * lines[0].quantity else 0)
      + RequestTotal(products, lines[1..])
  }

  lemma {:induction false} RequestTotalSamePrices(a: map<int, Product>, b: map<int, Product>, lines: seq<OrderLine>)
    requires a.Keys == b.Keys
    requires forall id | id in a :: a[id].price == b[id].price
    ensures RequestTotal(a, lines) == RequestTotal(b, lines)
  {
    if lines != [] {
      RequestTotalSamePrices(a, b, lines[1..]);
    }
  }

  /** The total of a created order is the sum of price times quantity of
      its lines, at the prices when it was placed. */
  lemma {:induction false} PlaceTotal(products: map<int, Product>, lines: seq<OrderLine>, acc: seq<OrderItem>)
    requires Place(products, lines, acc).Ok?
    ensures OrderTotal(Place(products, lines, acc).value.items) == OrderTotal(acc) + RequestTotal(products, lines)
    decreases |lines|
  {
    if lines != [] {
      var l := lines[0];
      var c := CheckLine(products, l);
      var next := products[l.productId := c.value];
      var item := OrderItem(l.productId, l.quantity, c.value.price * l.quantity);
      PlaceTotal(next, lines[1..], acc + [item]);
      OrderTotalAppend(acc, [item]);
      assert OrderTotal([item]) == item.totalPrice;
      RequestTotalSamePrices(next, products, lines[1..]);
    }
  }

  /** `create_order` on the database: no user is 401; otherwise the item
      loop runs on an uncommitted copy of the product rows, and only when
      every line passes are the rows, the order and its items committed. */
  method CreateOrder(db: Database, user: Option<User>, lines: seq<OrderLine>) returns (r: Result<int, OrderError>)
    requires db.Valid()
    modifies db`products, db`orders, db`nextOrderId
    ensures user.None? ==> r == Err(Unauthenticated)
    ensures user.Some? && Place(old(db.products), lines, []).Err? ==> r == Err(Place(old(db.products), lines, []).error)
    ensures r.Ok? <==> user.Some? && Place(old(db.products), lines, []).Ok?
    ensures r.Err? ==> db.products == old(db.products) && db.orders == old(db.orders) && db.nextOrderId == old(db.nextOrderId)
    ensures r.Ok? ==>
              var pl := Place(old(db.products), lines, []).value;
              && r.value !in old(db.orders) && r.value >= 1
              && db.products == pl.products
              && db.orders == old(db.orders)[r.value := Order(user.value.id, Pending, pl.items)]
    ensures db.Valid()
  {
    if user.None? {
      return Err(Unauthenticated);
    }
    var orderId := db.nextOrderId;
    var working := db.products;
    var items: seq<OrderItem> := [];
    var i := 0;
    while i < |lines|
      invariant 0 <= i <= |lines|
      invariant Place(db.products, lines, []) == Place(working, lines[i..], items)
    {
      var line := lines[i];
      assert lines[i..][0] == line && lines[i..][1..] == lines[i + 1..];
      if line.productId !in working {
        return Err(ProductNotFound);
      }
      var product := working[line.productId];
      if !product.isActive {
        return Err(ProductInactive);
      }
      if product.stock < line.quantity {
        return Err(OutOfStock(product.name, product.stock, line.quantity));
      }
      product := product.(stock := product.stock - line.quantity);
      var total := product.price * line.quantity;
      working := working[line.productId := product];
      items := items + [OrderItem(line.productId, line.quantity, total)];
      i := i + 1;
    }
    assert lines[i..] == [];
    PlaceEffect(db.products, lines, []);
    assert forall id | id in db.products :: working[id].id == db.products[id].id && working[id].name == db.products[id].name;
    ghost var newOrders := db.orders[orderId := Order(user.value.id, Pending, items)];
    forall oid | oid in newOrders ensures ItemsKnown(newOrders[oid], working) {
      if oid == orderId {
        forall k | 0 <= k < |items| ensures items[k].productId in working {
          assert items[0 + k].productId == lines[k].productId;
        }
      } else {
        assert ItemsKnown(db.orders[oid], db.products);
      }
    }
    db.products := working;
    db.orders := db.orders[orderId := Order(user.value.id, Pending, items)];
    db.nextOrderId := orderId + 1;
    r := Ok(orderId);
  }
  // --------------------------------------------------- payment_process

  datatype PaymentRequest = PaymentRequest(amount: int, orderId: int, paymentMethod: PaymentMethod)

  datatype Receipt = Receipt(orderId: int, paymentMethod: string, amount: int)

  /** The upper-cased method name shown in the receipt. */
  function MethodDisplay(m: PaymentMethod): string
  {
    match m
    case Cash => "CASH"
    case Kbz => "KBZ"
    case Aya => "AYA"
  }

  /** What `payment_process` answers, its guards in the service's order. */
  function PaymentOutcome(orders: map<int, Order>, user: Option<User>, pay: PaymentRequest): Result<Receipt, OrderError>
  {
    if pay.amount <= 0 then Err(NonPositiveAmount)
    else if user.None? then Err(Unauthenticated)
    else if pay.orderId !in orders then Err(OrderNotFound)
    else if orders[pay.orderId].status == Paid then Err(AlreadyPaid)
    else
      var total := OrderTotal(orders[pay.orderId].items);
      if pay.amount < total then Err(Underpaid(pay.amount, total))
      else Ok(Receipt(pay.orderId, MethodDisplay(pay.paymentMethod), pay.amount))
  }

  /** A payment goes through exactly when the amount is positive, a user
      is present, the order exists, is still pending and the amount covers
      its total; earlier guards win over later ones. */
  lemma PaymentGuards(orders: map<int, Order>, user: Option<User>, pay: PaymentRequest)
    ensures pay.amount <= 0 ==> PaymentOutcome(orders, user, pay) == Err(NonPositiveAmount)
    ensures pay.amount > 0 && user.None? ==> PaymentOutcome(orders, user, pay) == Err(Unauthenticated)
    ensures pay.amount > 0 && user.Some? && pay.orderId !in orders ==> PaymentOutcome(orders, user, pay) == Err(OrderNotFound)
    ensures pay.amount > 0 && user.Some? && pay.orderId in orders && orders[pay.orderId].status == Paid ==>
              PaymentOutcome(orders, user, pay) == Err(AlreadyPaid)
    ensures PaymentOutcome(orders, user, pay).Ok? <==>
              && pay.amount > 0 && user.Some? && pay.orderId in orders
              && orders[pay.orderId].status == Pending
              && pay.amount >= OrderTotal(orders[pay.orderId].items)
    ensures PaymentOutcome(orders, user, pay).Ok? ==> PaymentOutcome(orders, user, pay).value.amount == pay.amount
  {
  }

  /** Overpaying is accepted (cash with change); underpaying is 400 and
      reports both amounts. */
  lemma PaymentAmountRule(orders: map<int, Order>, u: User, pay: PaymentRequest)
    requires pay.amount > 0 && pay.orderId in orders && orders[pay.orderId].status == Pending
    ensures var total := OrderTotal(orders[pay.orderId].items);
            && (pay.amount < total ==> PaymentOutcome(orders, Some(u), pay) == Err(Underpaid(pay.amount, total)))
            && (pay.amount >= total ==> PaymentOutcome(orders, Some(u), pay).Ok?)
  {
  }

  /** `payment_process` on the database: on success the order becomes
      paid and exactly one payment row is added. */
  method PaymentProcess(db: Database, user: Option<User>, pay: PaymentRequest) returns (r: Result<Receipt, OrderError>)
    requires db.Valid()
    modifies db`orders, db`payments
    ensures r == PaymentOutcome(old(db.orders), user, pay)
    ensures r.Ok? ==> db.orders == old(db.orders)[pay.orderId := old(db.orders)[pay.orderId].(status := Paid)]
                      && db.payments == old(db.payments) + [Payment(user.value.id, pay.orderId, pay.amount)]
    ensures r.Err? ==> db.orders == old(db.orders) && db.payments == old(db.payments)
    ensures db.Valid()
  {
    if pay.amount <= 0 {
      return Err(NonPositiveAmount);
    }
    if user.None? {
      return Err(Unauthenticated);
    }
    if pay.orderId !in db.orders {
      return Err(OrderNotFound);
    }
    var order := db.orders[pay.orderId];
    if order.status == Paid {
      return Err(AlreadyPaid);
    }
    var total := OrderTotal(order.items);
    if pay.amount < total {
      return Err(Underpaid(pay.amount, total));
    }
    if pay.amount >= total {
      order := order.(status := Paid);
    }
    db.orders := db.orders[pay.orderId := order];
    db.payments := db.payments + [Payment(user.value.id, pay.orderId, pay.amount)];
    r := Ok(Receipt(pay.orderId, MethodDisplay(pay.paymentMethod), pay.amount));
  }

  /** Payment is a one-way step: once an order is paid, every further
      payment for it is refused and other orders are untouched. */
  lemma PaidOrderRefusesPayment(orders: map<int, Order>, u: User, pay: PaymentRequest, again: PaymentRequest)
    requires PaymentOutcome(orders, Some(u), pay).Ok?
    requires again.orderId == pay.orderId && again.amount > 0
    ensures var orders' := orders[pay.orderId := orders[pay.orderId].(status := Paid)];
            && PaymentOutcome(orders', Some(u), again) == Err(AlreadyPaid)
            && forall id | id in orders && id != pay.orderId :: orders'[id] == orders[id]
  {
  }
}
