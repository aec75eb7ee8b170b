/** The cart page: its quantity buttons, and the checkout that turns the
    cart into an order request and clears the cart once an order id comes
    back. The order request itself is a parameter: it maps the payload to
    the reply. */
module CartPage {
  import opened Common
  import opened Records
  import CartContext
  import OrderService

  /** What the order request yields: a reply body, of which only the three
      id fields the page looks at are kept, or a failure (a non-2xx status
      or no reply at all), which the client raises as an error. */
  datatype Reply =
    | Body(orderIdField: Option<int>, orderIdSnake: Option<int>, idField: Option<int>)
    | Failure(status: int)

  /** How a checkout attempt ends. */
  datatype Outcome = EmptyCart | LoginRequired | Failed | Placed(orderId: int)

  /** JavaScript truthiness of an id field: absent and 0 are false. */
  predicate Present(field: Option<int>)
  {
    field.Some? && field.value != 0
  }

  /** `response['Order ID'] || response.order_id || response.id`, as a
      present id or none. */
  function ExtractOrderId(orderIdField: Option<int>, orderIdSnake: Option<int>, idField: Option<int>): (r: Option<int>)
    ensures r.Some? <==> Present(orderIdField) || Present(orderIdSnake) || Present(idField)
    ensures r.Some? ==> r.value != 0
    ensures r.Some? ==> r == (if Present(orderIdField) then orderIdField
                              else if Present(orderIdSnake) then orderIdSnake
                              else idField)
  {
    if Present(orderIdField) then orderIdField
    else if Present(orderIdSnake) then orderIdSnake
    else if Present(idField) then idField
    else None
  }

  /** The order id is looked for under "Order ID" first, then `order_id`,
      then `id`. */
  lemma OrderIdPrecedence(a: int, b: int, c: int)
    requires a != 0 && b != 0 && c != 0
    ensures ExtractOrderId(Some(a), Some(b), Some(c)) == Some(a)
    ensures ExtractOrderId(None, Some(b), Some(c)) == Some(b)
    ensures ExtractOrderId(Some(0), None, Some(c)) == Some(c)
    ensures ExtractOrderId(None, None, None) == None
  {
  }

  /** What the page makes of the reply: a failure or a body without an id
      fails the attempt; otherwise the order is placed under that id. */
  function Decide(reply: Reply): (r: Outcome)
    ensures r == Failed || r.Placed?
    ensures r.Placed? <==> reply.Body? && ExtractOrderId(reply.orderIdField, reply.orderIdSnake, reply.idField).Some?
  {
    match reply
    case Failure(_) => Failed
    case Body(a, b, c) =>
      match ExtractOrderId(a, b, c)
      case None => Failed
      case Some(id) => Placed(id)
  }

  /** The request body: each cart line reduced to its product id and
      quantity, in cart order. */
  function OrderPayload(items: seq<CartContext.LineItem>): seq<OrderLine>
  {
    seq(|items|, i requires 0 <= i < |items| => OrderLine(items[i].productId, items[i].quantity))
  }

  /** `createOrder`: an empty cart and a visitor who is not logged in are
      turned away before any request is made; otherwise the payload is
      sent once, and the cart is cleared only when the reply carries an
      order id. */
  method CreateOrder(cart: CartContext.CartStore, loggedIn: bool, api: seq<OrderLine> -> Reply)
    returns (outcome: Outcome, sent: Option<seq<OrderLine>>)
    requires cart.Valid()
    modifies cart
    ensures old(cart.items) == [] ==> outcome == EmptyCart && sent == None
    ensures old(cart.items) != [] && !loggedIn ==> outcome == LoginRequired && sent == None
    ensures old(cart.items) != [] && loggedIn ==>
              && sent == Some(OrderPayload(old(cart.items)))
              && outcome == Decide(api(OrderPayload(old(cart.items))))
    ensures outcome.Placed? ==> cart.items == []
    ensures !outcome.Placed? ==> cart.items == old(cart.items)
    ensures cart.Valid()
  {
    if |cart.items| == 0 {
      return EmptyCart, None;
    }
    if !loggedIn {
      return LoginRequired, None;
    }
    var payload := OrderPayload(cart.items);
    sent := Some(payload);
    var reply := api(payload);
    if reply.Failure? {
      return Failed, sent;
    }
    var orderId := ExtractOrderId(reply.orderIdField, reply.orderIdSnake, reply.idField);
    if orderId.None? {
      return Failed, sent;
    }
    cart.ClearCart();
    outcome := Placed(orderId.value);
  }

  // ---------------------------------------------------- payload and backend

  /** Over a table holding every cart product at its snapshot price, the
      backend's price of the payload is the cart total, and the payload's
      quantities add up to the cart's total quantity. */
  lemma {:induction false} PayloadTotals(products: map<int, Product>, items: seq<CartContext.LineItem>)
    requires forall i | 0 <= i < |items| ::
               items[i].productId in products && products[items[i].productId].price == items[i].product.price
    ensures OrderService.RequestTotal(products, OrderPayload(items)) == CartContext.CartTotal(items)
    ensures LineQuantities(OrderPayload(items)) == CartContext.TotalQuantity(items)
  {
    if items != [] {
      var rest := items[1..];
      assert OrderPayload(items)[1..] == OrderPayload(rest);
      PayloadTotals(products, rest);
      assert items == [items[0]] + rest;
      CartContext.TotalsSplit([items[0]], rest);
      CartContext.SingleLineTotals(items[0]);
    }
  }

  function LineQuantities(lines: seq<OrderLine>): int
  {
    if lines == [] then 0 else lines[0].quantity + LineQuantities(lines[1..])
  }

  /** A cart with one line per product sends one line per product. */
  lemma PayloadIdsUnique(items: seq<CartContext.LineItem>)
    requires CartContext.UniqueIds(items)
    ensures forall i, j | 0 <= i < |OrderPayload(items)| && 0 <= j < |OrderPayload(items)|
              && OrderPayload(items)[i].productId == OrderPayload(items)[j].productId :: i == j
  {
  }

  /** The reply `create_order` sends: `{"Order ID": id}` for a created
      order, a body without an id for errors sent with status 200, and a
      failure otherwise. */
  function ReplyOf(r: Result<int, OrderService.OrderError>): Reply
  {
    match r
    case Ok(id) => Body(Some(id), None, None)
    case Err(e) => if OrderService.Status(e) == 200 then Body(None, None, None) else Failure(OrderService.Status(e))
  }

  /** An order the backend creates (its ids start at 1) is placed under
      its id; every backend refusal, including those sent with status
      200, fails the attempt and so leaves the cart as it was. */
  lemma BackendReplyDecides(r: Result<int, OrderService.OrderError>)
    requires r.Ok? ==> r.value >= 1
    ensures r.Ok? ==> Decide(ReplyOf(r)) == Placed(r.value)
    ensures r.Err? ==> Decide(ReplyOf(r)) == Failed
  {
  }

  // ------------------------------------------------------ quantity buttons

  /** The "−" button asks for `max(1, q - 1)`: it never removes a line and
      never takes its quantity below 1. */
  lemma MinusKeepsLine(items: seq<CartContext.LineItem>, k: int)
    requires CartContext.UniqueIds(items)
    requires 0 <= k < |items|
    ensures var q := if items[k].quantity - 1 > 1 then items[k].quantity - 1 else 1;
            var r := CartContext.Updated(items, items[k].productId, q);
            && |r| == |items|
            && r[k] == items[k].(quantity := q)
            && r[k].quantity >= 1
            && (forall i | 0 <= i < |items| && i != k :: r[i] == items[i])
  {
    var q := if items[k].quantity - 1 > 1 then items[k].quantity - 1 else 1;
    CartContext.UpdateSetsQuantity(items, items[k].productId, q);
  }

  /** The "+" button asks for `q + 1` with no cap: a line already at the
      product's stock goes above it. */
  lemma PlusIgnoresStock(items: seq<CartContext.LineItem>, k: int)
    requires CartContext.UniqueIds(items)
    requires 0 <= k < |items| && items[k].quantity >= 0
    ensures var r := CartContext.Updated(items, items[k].productId, items[k].quantity + 1);
            && |r| == |items|
            && r[k] == items[k].(quantity := items[k].quantity + 1)
            && (items[k].quantity >= items[k].product.stock ==> r[k].quantity > r[k].product.stock)
  {
    CartContext.UpdateSetsQuantity(items, items[k].productId, items[k].quantity + 1);
  }
}
