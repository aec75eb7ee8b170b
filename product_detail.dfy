/** The product page's quantity picker and its add-to-cart handler. The
    picker's buttons and input set the quantity through clamp expressions;
    the handler checks the quantity against the stock before adding. */
module ProductDetail {
  import opened Common
  import opened Records
  import CartContext

  /** The "−" button: `max(1, q - 1)`. It lowers the quantity by one
      unless that would go below 1. */
  function Decremented(q: int): (r: int)
    ensures r >= 1
    ensures r == q - 1 || (r == 1 && q - 1 < 1)
  {
    if q - 1 > 1 then q - 1 else 1
  }

  /** The "+" button: `min(stock, q + 1)`. It raises the quantity by one
      unless that would pass the stock. */
  function Incremented(q: int, stock: int): (r: int)
    ensures r <= stock
    ensures r == q + 1 || (r == stock && stock < q + 1)
  {
    if q + 1 < stock then q + 1 else stock
  }

  /** `parseInt(value) || 1`: a value that is not a number, or is 0, reads as 1. */
  function Entered(parsed: Option<int>): int
  {
    if parsed.Some? && parsed.value != 0 then parsed.value else 1
  }

  /** The quantity input: `max(1, min(stock, parseInt(value) || 1))`. The
      lower bound is applied last, so it wins when the stock is below 1. */
  function Typed(parsed: Option<int>, stock: int): (r: int)
    ensures r >= 1
    ensures stock >= 1 ==> r <= stock
    ensures parsed.None? || stock <= 1 ==> r == 1
    ensures parsed.Some? && 1 <= parsed.value <= stock ==> r == parsed.value
    ensures parsed.Some? && parsed.value > stock ==> r == (if stock > 1 then stock else 1)
    ensures parsed.Some? && parsed.value < 1 ==> r == 1
  {
    var entered := Entered(parsed);
    var capped := if stock < entered then stock else entered;
    if capped > 1 then capped else 1
  }

  /** The add button is enabled unless the product is out of stock or
      inactive. */
  predicate AddEnabled(p: Product)
  {
    !(p.stock == 0 || !p.isActive)
  }

  /** The quantity picker is shown when the product has stock or is active. */
  predicate PickerShown(p: Product)
  {
    p.stock > 0 || p.isActive
  }

  /** Whenever the add button is enabled, the picker is shown. */
  lemma EnabledButtonHasPicker(p: Product)
    ensures AddEnabled(p) ==> PickerShown(p)
    ensures !p.isActive || p.stock == 0 ==> !AddEnabled(p)
  {
  }

  /** One use of the picker. */
  datatype PickerEvent = Minus | Plus | Input(parsed: Option<int>)

  function Step(q: int, stock: int, e: PickerEvent): int
  {
    match e
    case Minus => Decremented(q)
    case Plus => Incremented(q, stock)
    case Input(parsed) => Typed(parsed, stock)
  }

  /** The quantity after a series of picker events. */
  function Run(q: int, stock: int, events: seq<PickerEvent>): int
    decreases |events|
  {
    if events == [] then q else Run(Step(q, stock, events[0]), stock, events[1..])
  }

  /** With stock on hand, no series of picker events takes the quantity
      out of [1, stock]. */
  lemma {:induction false} RunStaysInRange(q: int, stock: int, events: seq<PickerEvent>)
    requires 1 <= q <= stock
    ensures 1 <= Run(q, stock, events) <= stock
    decreases |events|
  {
    if events != [] {
      RunStaysInRange(Step(q, stock, events[0]), stock, events[1..]);
    }
  }

  /** With no stock, a typed quantity is always 1, while "+" gives 0. */
  lemma ZeroStockPicker(parsed: Option<int>, q: int)
    requires q >= 0
    ensures Typed(parsed, 0) == 1
    ensures Incremented(q, 0) == 0
  {
  }

  /** The page's state: the product it shows and the chosen quantity. */
  class ProductPage {
    const product: Product
    var quantity: int

    /** With stock on hand the quantity is within [1, stock]. */
    ghost predicate Valid()
      reads this
    {
      product.stock >= 1 ==> 1 <= quantity <= product.stock
    }

    constructor (product: Product)
      ensures this.product == product && quantity == 1
      ensures Valid()
    {
      this.product := product;
      quantity := 1;
    }

    method Decrement()
      requires Valid()
      modifies this
      ensures quantity == Decremented(old(quantity))
      ensures Valid()
    {
      quantity := if quantity - 1 > 1 then quantity - 1 else 1;
    }

    method Increment()
      requires Valid()
      modifies this
      ensures quantity == Incremented(old(quantity), product.stock)
      ensures Valid()
    {
      quantity := if quantity + 1 < product.stock then quantity + 1 else product.stock;
    }

    method Type(parsed: Option<int>)
      modifies this
      ensures quantity == Typed(parsed, product.stock)
      ensures Valid()
    {
      quantity := Typed(parsed, product.stock);
    }

    /** `handleAddToCart`: a quantity above the stock is refused and the
        cart left as it was; otherwise the product is added once, with the
        chosen quantity. */
    method HandleAddToCart(cart: CartContext.CartStore) returns (added: bool)
      requires cart.Valid()
      modifies cart
      ensures added <==> quantity <= product.stock
      ensures !added ==> cart.items == old(cart.items)
      ensures added ==> cart.items == CartContext.Added(old(cart.items), product, quantity)
      ensures cart.Valid()
    {
      if quantity > product.stock {
        return false;
      }
      cart.AddToCart(product, quantity);
      added := true;
    }
  }

  /** The stock check looks only at the quantity being added, not at what
      the cart already holds: from a stock of 5, each add of 3 passes the
      check, and the two together put 6, more than the stock, in the cart. */
  lemma RepeatedAddsCanExceedStock(p: Product)
    requires p.stock == 5
    ensures 3 <= p.stock
    ensures CartContext.TotalQuantity(CartContext.Added(CartContext.Added([], p, 3), p, 3)) == 6 > p.stock
  {
    CartContext.AddTwice([], p, 3, 3);
    CartContext.AddNewLine([], p, 6);
    CartContext.SingleLineTotals(CartContext.LineItem(p.id, 6, p));
  }
}
