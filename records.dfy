/** The rows of the shop's database tables and the request bodies the
    services accept. Money is held in integer cents, the exact form of the
    two-decimal NUMERIC columns. */
module Records {
  import opened Common

  /** A row of the `products` table; `isActive` is true when inserted. */
  datatype Product = Product(
    id: int,
    name: string,
    description: string,
    price: int,
    stock: int,
    imageUrl: Option<string>,
    isActive: bool)

  /** The part of a `users` row the core reads. */
  datatype User = User(id: int, role: string)

  /** An order is "pending" when created and becomes "paid" once. */
  datatype OrderStatus = Pending | Paid

  /** A row of `orders_items`: one accepted line of an order. */
  datatype OrderItem = OrderItem(productId: int, quantity: int, totalPrice: int)

  /** A row of `orders` together with its items. */
  datatype Order = Order(userId: int, status: OrderStatus, items: seq<OrderItem>)

  /** A row of `payments`. */
  datatype Payment = Payment(userId: int, orderId: int, amount: int)

  /** One requested line of an order-creation request body. */
  datatype OrderLine = OrderLine(productId: int, quantity: int)

  /** The payment methods a payment request may name; cash when omitted. */
  datatype PaymentMethod = Cash | Kbz | Aya

  /** Each product row is stored under its own primary key. */
  predicate KeyedById(products: map<int, Product>)
  {
    forall id | id in products :: products[id].id == id
  }

  /** The `name` column is unique. */
  predicate UniqueNames(products: map<int, Product>)
  {
    forall a, b | a in products && b in products && products[a].name == products[b].name :: a == b
  }

  predicate NameInUse(products: map<int, Product>, name: string)
  {
    exists id | id in products :: products[id].name == name
  }

  /** Every item of the order points at an existing product row. */
  predicate ItemsKnown(o: Order, products: map<int, Product>)
  {
    forall k | 0 <= k < |o.items| :: o.items[k].productId in products
  }

  /** The foreign key from order items to products holds. */
  predicate ItemsReferenceProducts(orders: map<int, Order>, products: map<int, Product>)
  {
    forall id | id in orders :: ItemsKnown(orders[id], products)
  }

  /** Rows are never removed from `products`, so the foreign key survives
      every write that keeps or adds product keys. */
  lemma ReferencesSurvive(orders: map<int, Order>, products: map<int, Product>, products': map<int, Product>)
    requires ItemsReferenceProducts(orders, products)
    requires products.Keys <= products'.Keys
    ensures ItemsReferenceProducts(orders, products')
  {
    forall id | id in orders ensures ItemsKnown(orders[id], products') {
      assert ItemsKnown(orders[id], products);
    }
  }

  /** The tables the services read and write. `nextOrderId` stands for the
      auto-increment sequence of the `orders` primary key. */
  class Database {
    var products: map<int, Product>
    var orders: map<int, Order>
    var payments: seq<Payment>
    var users: map<int, User>
    var nextOrderId: int

    ghost predicate Valid()
      reads this
    {
      && KeyedById(products)
      && UniqueNames(products)
      && 1 <= nextOrderId
      && (forall id | id in orders :: id < nextOrderId)
      && ItemsReferenceProducts(orders, products)
    }

    constructor (users: map<int, User>)
      ensures Valid()
      ensures products == map[] && orders == map[] && payments == []
      ensures this.users == users
    {
      products := map[];
      orders := map[];
      payments := [];
      this.users := users;
      nextOrderId := 1;
    }
  }
}
