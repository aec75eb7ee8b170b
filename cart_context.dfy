/** The storefront's cart: an ordered list of line items, each a product id,
    a quantity and the product as it was when added. The updaters are pure
    functions of the previous list; `CartStore` holds the current list and
    the copy the save effect keeps in browser storage. */
module CartContext {
  import opened Common
  import opened Records

  datatype LineItem = LineItem(productId: int, quantity: int, product: Product)

  /** At most one line per product id. */
  predicate UniqueIds(items: seq<LineItem>)
  {
    forall i, j | 0 <= i < |items| && 0 <= j < |items| && items[i].productId == items[j].productId :: i == j
  }

  /** `items.find(item => item.product_id === id)` finds something. */
  predicate HasLine(items: seq<LineItem>, id: int)
  {
    exists i | 0 <= i < |items| :: items[i].productId == id
  }

  /** Every line for `id` with `q` more. */
  function Bumped(items: seq<LineItem>, id: int, q: int): seq<LineItem>
  {
    seq(|items|, i requires 0 <= i < |items| =>
      if items[i].productId == id then items[i].(quantity := items[i].quantity + q) else items[i])
  }

  /** `addToCart(product, quantity = 1)` */
  function Added(items: seq<LineItem>, product: Product, quantity: int := 1): seq<LineItem>
  {
    if HasLine(items, product.id) then Bumped(items, product.id, quantity)
    else items + [LineItem(product.id, quantity, product)]
  }

  /** `removeFromCart(id)`: the lines with other ids, in their order. */
  function Removed(items: seq<LineItem>, id: int): (r: seq<LineItem>)
    ensures forall x :: x in r <==> x in items && x.productId != id
    ensures |r| <= |items|
  {
    if items == [] then []
    else if items[0].productId == id then Removed(items[1..], id)
    else [items[0]] + Removed(items[1..], id)
  }

  /** Every line for `id` with quantity `q`. */
  function QuantitySet(items: seq<LineItem>, id: int, q: int): seq<LineItem>
  {
    seq(|items|, i requires 0 <= i < |items| =>
      if items[i].productId == id then items[i].(quantity := q) else items[i])
  }

  /** `updateQuantity(id, q)`: a quantity of zero or less removes the line. */
  function Updated(items: seq<LineItem>, id: int, q: int): seq<LineItem>
  {
    if q <= 0 then Removed(items, id) else QuantitySet(items, id, q)
  }

  /** `getTotalQuantity()` */
  function TotalQuantity(items: seq<LineItem>): int
  {
    if items == [] then 0 else TotalQuantity(items[..|items| - 1]) + items[|items| - 1].quantity
  }

  /** `getCartTotal()`: snapshot price times quantity, summed. */
  function CartTotal(items: seq<LineItem>): int
  {
    if items == [] then 0
    else CartTotal(items[..|items| - 1]) + LinePrice(items[|items| - 1])
  }

  /** `item.product.price * item.quantity` */
  function LinePrice(item: LineItem): int
  {
    item.product.price * item.quantity
  }

  // --------------------------------------------------------------- adding

  /** Adding a product already in the cart raises that line's quantity by
      the amount added; the length, the order, the other lines and the
      line's product snapshot stay as they were. */
  lemma AddToExistingLine(items: seq<LineItem>, product: Product, quantity: int, k: int)
    requires UniqueIds(items)
    requires 0 <= k < |items| && items[k].productId == product.id
    ensures Added(items, product, quantity) == items[k := items[k].(quantity := items[k].quantity + quantity)]
  {
    var r := Added(items, product, quantity);
    assert HasLine(items, product.id);
    assert forall i | 0 <= i < |items| && i != k :: items[i].productId != product.id;
    assert r == items[k := items[k].(quantity := items[k].quantity + quantity)];
  }

  /** Adding a product that has no line appends exactly one line with the
      amount (one when none is given) and the product as its snapshot. */
  lemma AddNewLine(items: seq<LineItem>, product: Product, quantity: int)
    requires !HasLine(items, product.id)
    ensures Added(items, product, quantity) == items + [LineItem(product.id, quantity, product)]
    ensures Added(items, product) == items + [LineItem(product.id, 1, product)]
  {
  }

  /** Adding keeps one line per product id. */
  lemma AddKeepsIdsUnique(items: seq<LineItem>, product: Product, quantity: int)
    requires UniqueIds(items)
    ensures UniqueIds(Added(items, product, quantity))
  {
    var r := Added(items, product, quantity);
    if !HasLine(items, product.id) {
      assert forall i | 0 <= i < |items| :: r[i] == items[i] && r[i].productId != product.id;
    } else {
      assert forall i | 0 <= i < |r| :: r[i].productId == items[i].productId;
    }
  }

  /** Adding twice is adding the sum. */
  lemma AddTwice(items: seq<LineItem>, product: Product, a: int, b: int)
    ensures Added(Added(items, product, a), product, b) == Added(items, product, a + b)
  {
    var once := Added(items, product, a);
    assert HasLine(once, product.id) by {
      if HasLine(items, product.id) {
        var k :| 0 <= k < |items| && items[k].productId == product.id;
        assert once[k].productId == product.id;
      } else {
        assert once[|items|].productId == product.id;
      }
    }
    if !HasLine(items, product.id) {
      var n := |items|;
      var twice := Bumped(once, product.id, b);
      forall i | 0 <= i < n ensures twice[i] == items[i] {
        assert once[i] == items[i];
      }
      assert twice == items + [LineItem(product.id, a + b, product)];
    }
  }

  // ------------------------------------------------------------- removing

  /** Removing an id that has no line leaves the cart as it is. */
  lemma {:induction false} RemoveAbsent(items: seq<LineItem>, id: int)
    requires !HasLine(items, id)
    ensures Removed(items, id) == items
  {
    if items != [] {
      assert !HasLine(items[1..], id) by {
        forall i | 0 <= i < |items[1..]| ensures items[1..][i].productId != id {
          assert items[1..][i] == items[i + 1];
        }
      }
      RemoveAbsent(items[1..], id);
      assert items[0].productId != id;
      assert [items[0]] + items[1..] == items;
    }
  }

  /** Removal works line by line: it keeps the order of what it keeps. */
  lemma {:induction false} RemoveSplits(a: seq<LineItem>, b: seq<LineItem>, id: int)
    ensures Removed(a + b, id) == Removed(a, id) + Removed(b, id)
  {
    if a == [] {
      assert a + b == b;
    } else {
      assert (a + b)[0] == a[0] && (a + b)[1..] == a[1..] + b;
      RemoveSplits(a[1..], b, id);
    }
  }

  /** With one line per id, removing the id of line `k` drops that line
      and nothing else. */
  lemma RemoveOneLine(items: seq<LineItem>, k: int)
    requires UniqueIds(items)
    requires 0 <= k < |items|
    ensures Removed(items, items[k].productId) == items[..k] + items[k + 1..]
  {
    var id := items[k].productId;
    var front, rest := items[..k], items[k..];
    assert items == front + rest;
    OnlyLineFor(items, k);
    RemoveSplits(front, rest, id);
    RemoveAbsent(front, id);
    assert rest[0] == items[k] && rest[1..] == items[k + 1..];
    RemoveAbsent(items[k + 1..], id);
  }

  /** With one line per id, no line before or after line `k` has its id. */
  lemma OnlyLineFor(items: seq<LineItem>, k: int)
    requires UniqueIds(items)
    requires 0 <= k < |items|
    ensures !HasLine(items[..k], items[k].productId)
    ensures !HasLine(items[k + 1..], items[k].productId)
  {
    var id := items[k].productId;
    var front, tail := items[..k], items[k + 1..];
    forall i | 0 <= i < |front| ensures front[i].productId != id {
      assert front[i] == items[i];
    }
    forall i | 0 <= i < |tail| ensures tail[i].productId != id {
      assert tail[i] == items[k + 1 + i];
    }
  }

  /** Removing keeps one line per product id. */
  lemma {:induction false} RemovedKeepsIdsUnique(items: seq<LineItem>, id: int)
    requires UniqueIds(items)
    ensures UniqueIds(Removed(items, id))
  {
    if items != [] {
      var tail := items[1..];
      assert UniqueIds(tail) by {
        forall i, j | 0 <= i < |tail| && 0 <= j < |tail| && tail[i].productId == tail[j].productId
          ensures i == j
        {
          assert tail[i] == items[i + 1] && tail[j] == items[j + 1];
        }
      }
      RemovedKeepsIdsUnique(tail, id);
      if items[0].productId != id {
        var rest := Removed(tail, id);
        forall x | x in rest ensures x.productId != items[0].productId {
          var j :| 0 <= j < |tail| && tail[j] == x;
          assert tail[j] == items[j + 1];
        }
        var r := [items[0]] + rest;
        forall i | 1 <= i < |r| ensures r[i].productId != r[0].productId {
          assert r[i] == rest[i - 1] && rest[i - 1] in rest;
        }
      }
    }
  }

  // ------------------------------------------------------------- updating

  /** Setting a quantity keeps one line per product id. */
  lemma QuantitySetKeepsIdsUnique(items: seq<LineItem>, id: int, q: int)
    requires UniqueIds(items)
    ensures UniqueIds(QuantitySet(items, id, q))
  {
  }

  /** A quantity of zero or less is exactly a removal. */
  lemma UpdateToZeroRemoves(items: seq<LineItem>, id: int, q: int)
    requires q <= 0
    ensures Updated(items, id, q) == Removed(items, id)
    ensures !HasLine(Updated(items, id, q), id)
  {
    var r := Updated(items, id, q);
    forall i | 0 <= i < |r| ensures r[i].productId != id {
      assert r[i] in r;
    }
  }

  /** A positive quantity changes only the quantity of the matching line:
      the length and every other line stay; an absent id changes nothing. */
  lemma UpdateSetsQuantity(items: seq<LineItem>, id: int, q: int)
    requires q > 0
    ensures |Updated(items, id, q)| == |items|
    ensures forall i | 0 <= i < |items| ::
              Updated(items, id, q)[i] == if items[i].productId == id then items[i].(quantity := q) else items[i]
    ensures !HasLine(items, id) ==> Updated(items, id, q) == items
  {
  }

  // --------------------------------------------------------------- totals

  lemma {:induction false} TotalsSplit(a: seq<LineItem>, b: seq<LineItem>)
    ensures TotalQuantity(a + b) == TotalQuantity(a) + TotalQuantity(b)
    ensures CartTotal(a + b) == CartTotal(a) + CartTotal(b)
    decreases |b|
  {
    if b == [] {
      assert a + b == a;
    } else {
      var b' := b[..|b| - 1];
      assert (a + b)[..|a + b| - 1] == a + b';
      TotalsSplit(a, b');
    }
  }

  /** The totals of an empty cart are 0. */
  lemma EmptyCartTotals()
    ensures TotalQuantity([]) == 0 && CartTotal([]) == 0
  {
  }

  /** The totals of a one-line cart are its quantity and its line price. */
  lemma {:induction false} SingleLineTotals(x: LineItem)
    ensures TotalQuantity([x]) == x.quantity && CartTotal([x]) == LinePrice(x)
  {
    assert [x][..0] == [];
  }

  /** Adding `quantity` of a product raises the total quantity by
      `quantity` and the cart total by the line price, whether it merges
      into the product's line or appends one. */
  lemma AddRaisesTotals(items: seq<LineItem>, product: Product, quantity: int)
    requires UniqueIds(items)
    requires forall i | 0 <= i < |items| && items[i].productId == product.id :: items[i].product.price == product.price
    ensures TotalQuantity(Added(items, product, quantity)) == TotalQuantity(items) + quantity
    ensures CartTotal(Added(items, product, quantity)) == CartTotal(items) + product.price * quantity
  {
    if HasLine(items, product.id) {
      var k :| 0 <= k < |items| && items[k].productId == product.id;
      MergeRaisesTotals(items, product, quantity, k);
    } else {
      var x := LineItem(product.id, quantity, product);
      TotalsSplit(items, [x]);
      SingleLineTotals(x);
    }
  }

  lemma MergeRaisesTotals(items: seq<LineItem>, product: Product, quantity: int, k: int)
    requires UniqueIds(items)
    requires 0 <= k < |items| && items[k].productId == product.id
    requires items[k].product.price == product.price
    ensures TotalQuantity(Added(items, product, quantity)) == TotalQuantity(items) + quantity
    ensures CartTotal(Added(items, product, quantity)) == CartTotal(items) + product.price * quantity
  {
    var y := items[k].(quantity := items[k].quantity + quantity);
    AddToExistingLine(items, product, quantity, k);
    ReplaceRaisesTotals(items, k, y, quantity);
  }

  lemma ReplaceRaisesTotals(items: seq<LineItem>, k: int, y: LineItem, quantity: int)
    requires 0 <= k < |items|
    requires y == items[k].(quantity := items[k].quantity + quantity)
    ensures TotalQuantity(items[k := y]) == TotalQuantity(items) + quantity
    ensures CartTotal(items[k := y]) == CartTotal(items) + items[k].product.price * quantity
  {
    TotalsReplaceLine(items, k, y);
    LinePriceAdds(items[k], quantity);
  }

  /** A line's price grows by the unit price for each unit added. */
  lemma LinePriceAdds(line: LineItem, q: int)
    ensures LinePrice(line.(quantity := line.quantity + q)) == LinePrice(line) + line.product.price * q
  {
    var p, a := line.product.price, line.quantity;
    assert p * (a + q) == p * a + p * q;
  }

  /** Replacing one line changes each total by the difference of the two
      lines' contributions. */
  lemma TotalsReplaceLine(items: seq<LineItem>, k: int, y: LineItem)
    requires 0 <= k < |items|
    ensures TotalQuantity(items[k := y]) == TotalQuantity(items) - items[k].quantity + y.quantity
    ensures CartTotal(items[k := y]) == CartTotal(items) - LinePrice(items[k]) + LinePrice(y)
  {
    var front, tail := items[..k], items[k + 1..];
    assert items == front + [items[k]] + tail;
    assert items[k := y] == front + [y] + tail;
    TotalsSplit(front + [items[k]], tail);
    TotalsSplit(front, [items[k]]);
    TotalsSplit(front + [y], tail);
    TotalsSplit(front, [y]);
    SingleLineTotals(items[k]);
    SingleLineTotals(y);
  }

  // ---------------------------------------------------------------- store

  /** The provider's state: the current lines, and what the save effect
      has written under the `cart` storage key (`None` once removed). */
  class CartStore {
    var items: seq<LineItem>
    var stored: Option<seq<LineItem>>

    /** The cart holds at most one line per product id, and after every
        update the save effect has stored the current lines. */
    ghost predicate Valid()
      reads this
    {
      UniqueIds(items) && stored == Some(items)
    }

    /** Mounting: the stored lines, or an empty cart when the key is
        absent; the save effect then writes them back. What is stored was
        written by the save effect, so it holds one line per product id. */
    constructor Load(storage: Option<seq<LineItem>>)
      requires storage.Some? ==> UniqueIds(storage.value)
      ensures items == (if storage.Some? then storage.value else [])
      ensures Valid()
    {
      items := if storage.Some? then storage.value else [];
      stored := Some(items);
    }

    method AddToCart(product: Product, quantity: int := 1)
      requires Valid()
      modifies this
      ensures items == Added(old(items), product, quantity)
      ensures Valid()
    {
      AddKeepsIdsUnique(items, product, quantity);
      items := Added(items, product, quantity);
      stored := Some(items);
    }

    method RemoveFromCart(id: int)
      requires Valid()
      modifies this
      ensures items == Removed(old(items), id)
      ensures Valid()
    {
      RemovedKeepsIdsUnique(items, id);
      items := Removed(items, id);
      stored := Some(items);
    }

    method UpdateQuantity(id: int, q: int)
      requires Valid()
      modifies this
      ensures q <= 0 ==> items == Removed(old(items), id)
      ensures q > 0 ==> items == QuantitySet(old(items), id, q)
      ensures Valid()
    {
      if q <= 0 {
        RemoveFromCart(id);
        return;
      }
      QuantitySetKeepsIdsUnique(items, id, q);
      items := QuantitySet(items, id, q);
      stored := Some(items);
    }

    /** `clearCart()` empties the list and removes the key; the list is a
        new array, so the save effect then stores the empty list again. */
    method ClearCart()
      modifies this
      ensures items == [] && stored == Some([])
      ensures Valid()
    {
      items := [];
      stored := None;
      stored := Some(items);
    }
  }

  /** A reload restores the cart that was saved. */
  method ReloadRestores(cart: CartStore) returns (reloaded: CartStore)
    requires cart.Valid()
    ensures fresh(reloaded) && reloaded.items == cart.items && reloaded.Valid()
  {
    reloaded := new CartStore.Load(cart.stored);
  }
}
