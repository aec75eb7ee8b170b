/** The product catalogue service: insertion with an automatically
    assigned id, partial update, soft delete, listing and search. Each
    state-changing operation is a method on the database proved against a
    pure function that gives its outcome; the lemmas state what the
    service promises about those outcomes. */
module ProductService {
  import opened Common
  import opened Records

  datatype ProductError =
    | ProductExists     // 409: the requested id is taken
    | NameExists        // 409: the requested name is taken
    | ProductNotFound   // 404
    | NameConstraint    // 500: the unique index on `name` rejects the commit
    | UndeclaredField   // 500: the insert reads a field the request body does not declare

  function Status(e: ProductError): int
  {
    match e
    case ProductExists => 409
    case NameExists => 409
    case ProductNotFound => 404
    case NameConstraint => 500
    case UndeclaredField => 500
  }

  /** The body of an add request; `id` may be omitted. */
  datatype NewProduct = NewProduct(id: Option<int>, name: string, description: string, price: int, stock: int)

  /** The id given to a product added without one: the largest id in the
      table plus one, or 1 for an empty table. */
  function NextProductId(products: map<int, Product>): (id: int)
    ensures forall k | k in products :: k < id
    ensures id - 1 in products || (|products| == 0 && id == 1)
  {
    var keys := SortedKeys(products.Keys);
    if keys == [] then 1
    else
      assert forall k | k in products :: k <= keys[|keys| - 1] by {
        forall k | k in products ensures k <= keys[|keys| - 1] {
          var i :| 0 <= i < |keys| && keys[i] == k;
        }
      }
      keys[|keys| - 1] + 1
  }

  // ---------------------------------------------------------------- add

  /** The row `add_product` inserts, or the conflict it reports. */
  function AddOutcome(products: map<int, Product>, req: NewProduct): Result<Product, ProductError>
  {
    var id := if req.id.None? then NextProductId(products) else req.id.value;
    if req.id.Some? && id in products then Err(ProductExists)
    else if NameInUse(products, req.name) then Err(NameExists)
    else Ok(Product(id, req.name, req.description, req.price, req.stock, None, true))
  }

  /** `add_product` as written: the new row's image is read from the
      request body, whose schema declares no image field, so every request
      that passes both conflict checks fails with a 500 before the insert. */
  function AddOutcomeAsWritten(products: map<int, Product>, req: NewProduct): Result<Product, ProductError>
  {
    var id := if req.id.None? then NextProductId(products) else req.id.value;
    if req.id.Some? && id in products then Err(ProductExists)
    else if NameInUse(products, req.name) then Err(NameExists)
    else Err(UndeclaredField)
  }

  /** As written, no product can be added: the conflicts are reported as
      intended, and every other request, even the first product of an
      empty table, is a 500. */
  lemma AddNeverSucceedsAsWritten(products: map<int, Product>, req: NewProduct)
    ensures AddOutcomeAsWritten(products, req).Err?
    ensures AddOutcome(products, req).Err? ==> AddOutcomeAsWritten(products, req) == AddOutcome(products, req)
    ensures AddOutcome(products, req).Ok? ==> Status(AddOutcomeAsWritten(products, req).error) == 500
    ensures |products| == 0 ==> AddOutcomeAsWritten(products, req) == Err(UndeclaredField)
  {
    if |products| == 0 {
      assert !NameInUse(products, req.name);
    }
  }

  /** Without an id, the new product gets the maximum id plus one (1 in an
      empty table), a key no existing product has. */
  lemma AddAssignsNextId(products: map<int, Product>, req: NewProduct)
    requires req.id.None?
    ensures AddOutcome(products, req).Ok? ==> AddOutcome(products, req).value.id == NextProductId(products)
    ensures |products| == 0 ==> AddOutcome(products, req) == Ok(Product(1, req.name, req.description, req.price, req.stock, None, true))
  {
    if |products| == 0 {
      assert !NameInUse(products, req.name);
    }
  }

  /** A taken id is a 409 conflict, and so is a taken name whether the id
      was supplied or assigned; both leave the table as it was. */
  lemma AddConflicts(products: map<int, Product>, req: NewProduct)
    ensures req.id.Some? && req.id.value in products ==> AddOutcome(products, req) == Err(ProductExists)
    ensures (req.id.None? || req.id.value !in products) && NameInUse(products, req.name) ==>
              AddOutcome(products, req) == Err(NameExists)
    ensures AddOutcome(products, req).Err? ==> Status(AddOutcome(products, req).error) == 409
  {
  }

  /** A successful add inserts exactly one new row holding the requested
      fields, active and without an image, and keeps the table's keys
      and names unique. */
  lemma {:induction false} AddInsertsOne(products: map<int, Product>, req: NewProduct)
    requires KeyedById(products) && UniqueNames(products)
    ensures AddOutcome(products, req).Ok? <==>
              (req.id.None? || req.id.value !in products) && !NameInUse(products, req.name)
    ensures AddOutcome(products, req).Ok? ==>
              var p := AddOutcome(products, req).value;
              var t := products[p.id := p];
              && p.id !in products
              && t.Keys == products.Keys + {p.id}
              && |t| == |products| + 1
              && p.name == req.name && p.description == req.description
              && p.price == req.price && p.stock == req.stock
              && p.imageUrl == None && p.isActive
              && KeyedById(t) && UniqueNames(t)
  {
    var r := AddOutcome(products, req);
    if r.Ok? {
      var p := r.value;
      assert p.id !in products;
      var t := products[p.id := p];
      assert t.Keys == products.Keys + {p.id};
      assert |t| == |products| + 1;
      assert UniqueNames(t);
    }
  }

  /** `add_product` on the database. */
  method AddProduct(db: Database, req: NewProduct) returns (r: Result<Product, ProductError>)
    requires db.Valid()
    modifies db`products
    ensures r == AddOutcome(old(db.products), req)
    ensures db.products == if r.Ok? then old(db.products)[r.value.id := r.value] else old(db.products)
    ensures db.Valid()
  {
    var id: int;
    if req.id.None? {
      id := NextProductId(db.products);
    } else {
      id := req.id.value;
      if id in db.products {
        return Err(ProductExists);
      }
    }
    if NameInUse(db.products, req.name) {
      return Err(NameExists);
    }
    var p := Product(id, req.name, req.description, req.price, req.stock, None, true);
    AddInsertsOne(db.products, req);
    ReferencesSurvive(db.orders, db.products, db.products[id := p]);
    db.products := db.products[id := p];
    r := Ok(p);
  }

  // ------------------------------------------------------------ listing

  /** The rows stored under `keys`, in that order. */
  function Rows(products: map<int, Product>, keys: seq<int>): seq<Product>
    requires forall i | 0 <= i < |keys| :: keys[i] in products
  {
    seq(|keys|, i requires 0 <= i < |keys| => products[keys[i]])
  }

  /** Listing by the sorted keys yields every row exactly once. */
  lemma SortedRowsAreTable(products: map<int, Product>)
    requires KeyedById(products)
    ensures var r := Rows(products, SortedKeys(products.Keys));
            && |r| == |products|
            && (forall p :: p in r <==> p in products.Values)
            && (forall i, j :: 0 <= i < j < |r| ==> r[i].id < r[j].id)
  {
    var keys := SortedKeys(products.Keys);
    var r := Rows(products, keys);
    forall p | p in products.Values ensures p in r {
      var id :| id in products && products[id] == p;
      var i :| 0 <= i < |keys| && keys[i] == id;
      assert r[i] == p;
    }
  }

  /** `get_all_products`: every row, by ascending id. */
  function GetAllProducts(products: map<int, Product>): (r: seq<Product>)
    requires KeyedById(products)
    ensures |r| == |products|
    ensures forall p :: p in r <==> p in products.Values
    ensures forall i, j :: 0 <= i < j < |r| ==> r[i].id < r[j].id
  {
    SortedRowsAreTable(products);
    Rows(products, SortedKeys(products.Keys))
  }

  // ------------------------------------------------------------- update

  /** The optional fields of a partial update. */
  datatype Patch = Patch(
    name: Option<string>,
    description: Option<string>,
    price: Option<int>,
    stock: Option<int>,
    imageUrl: Option<string>)

  /** Python truthiness of an optional text or number: absent, "" and 0
      are false. */
  predicate TextGiven(o: Option<string>) { o.Some? && o.value != "" }
  predicate NumberGiven(o: Option<int>) { o.Some? && o.value != 0 }

  /** The record after the update's field assignments. */
  function Patched(p: Product, patch: Patch): Product
  {
    p.(name := if TextGiven(patch.name) then patch.name.value else p.name,
       description := if TextGiven(patch.description) then patch.description.value else p.description,
       price := if NumberGiven(patch.price) then patch.price.value else p.price,
       stock := if NumberGiven(patch.stock) then patch.stock.value else p.stock,
       imageUrl := if patch.imageUrl.Some? then patch.imageUrl else p.imageUrl)
  }

  /** Another row than `id` already carries `name`. */
  predicate NameTakenByOther(products: map<int, Product>, id: int, name: string)
  {
    exists k | k in products :: k != id && products[k].name == name
  }

  /** The updated row `update_product` commits, or its error. */
  function UpdateOutcome(products: map<int, Product>, id: int, patch: Patch): Result<Product, ProductError>
  {
    if id !in products then Err(ProductNotFound)
    else
      var p := Patched(products[id], patch);
      if NameTakenByOther(products, id, p.name) then Err(NameConstraint)
      else Ok(p)
  }

  /** An update changes a text field only to a non-empty value, a number
      only to a non-zero value, and the image whenever one is supplied;
      id and activity never change. */
  lemma UpdateAppliesTruthyFields(products: map<int, Product>, id: int, patch: Patch)
    ensures id !in products ==> UpdateOutcome(products, id, patch) == Err(ProductNotFound)
    ensures UpdateOutcome(products, id, patch).Ok? ==>
              var old_ := products[id];
              var p := UpdateOutcome(products, id, patch).value;
              && (p.name == if TextGiven(patch.name) then patch.name.value else old_.name)
              && (p.description == if TextGiven(patch.description) then patch.description.value else old_.description)
              && (p.price == if NumberGiven(patch.price) then patch.price.value else old_.price)
              && (p.stock == if NumberGiven(patch.stock) then patch.stock.value else old_.stock)
              && (p.imageUrl == if patch.imageUrl.Some? then patch.imageUrl else old_.imageUrl)
              && p.id == old_.id && p.isActive == old_.isActive
  {
  }

  /** Zero, the empty text and an absent field leave the record exactly as
      it was (the service cannot set a stock or a price to 0). */
  lemma UpdateIgnoresFalsyValues(products: map<int, Product>, id: int, stockValue: Option<int>, priceValue: Option<int>)
    requires KeyedById(products) && UniqueNames(products) && id in products
    requires stockValue == None || stockValue == Some(0)
    requires priceValue == None || priceValue == Some(0)
    ensures UpdateOutcome(products, id, Patch(Some(""), None, priceValue, stockValue, None)) == Ok(products[id])
  {
    var patch := Patch(Some(""), None, priceValue, stockValue, None);
    assert Patched(products[id], patch) == products[id];
  }

  /** A successful update keeps every other row, the keys and the unique
      names. */
  lemma UpdateKeepsTable(products: map<int, Product>, id: int, patch: Patch)
    requires KeyedById(products) && UniqueNames(products)
    ensures UpdateOutcome(products, id, patch).Ok? ==>
              var t := products[id := UpdateOutcome(products, id, patch).value];
              && t.Keys == products.Keys
              && (forall k | k in products && k != id :: t[k] == products[k])
              && KeyedById(t) && UniqueNames(t)
  {
    var r := UpdateOutcome(products, id, patch);
    if r.Ok? {
      var t := products[id := r.value];
      assert UniqueNames(t);
    }
  }

  /** `update_product` on the database: look the row up, assign each
      truthy field, commit. */
  method UpdateProduct(db: Database, id: int, patch: Patch) returns (r: Result<Product, ProductError>)
    requires db.Valid()
    modifies db`products
    ensures r == UpdateOutcome(old(db.products), id, patch)
    ensures db.products == if r.Ok? then old(db.products)[id := r.value] else old(db.products)
    ensures db.Valid()
  {
    if id !in db.products {
      return Err(ProductNotFound);
    }
    var p := db.products[id];
    if TextGiven(patch.name) { p := p.(name := patch.name.value); }
    if TextGiven(patch.description) { p := p.(description := patch.description.value); }
    if NumberGiven(patch.price) { p := p.(price := patch.price.value); }
    if NumberGiven(patch.stock) { p := p.(stock := patch.stock.value); }
    if patch.imageUrl.Some? { p := p.(imageUrl := patch.imageUrl); }
    if NameTakenByOther(db.products, id, p.name) {
      return Err(NameConstraint);
    }
    UpdateKeepsTable(db.products, id, patch);
    ReferencesSurvive(db.orders, db.products, db.products[id := p]);
    db.products := db.products[id := p];
    r := Ok(p);
  }

  // ------------------------------------------------------------- delete

  /** The disabled row `delete_product` commits, or 404. */
  function DeleteOutcome(products: map<int, Product>, id: int): Result<Product, ProductError>
  {
    if id !in products then Err(ProductNotFound) else Ok(products[id].(isActive := false))
  }

  /** Delete is a soft delete: the row stays, only `isActive` becomes
      false, no other row changes, and deleting again changes nothing. */
  lemma DeleteIsSoft(products: map<int, Product>, id: int)
    ensures DeleteOutcome(products, id).Err? <==> id !in products
    ensures DeleteOutcome(products, id).Ok? ==>
              var p := DeleteOutcome(products, id).value;
              var t := products[id := p];
              && t.Keys == products.Keys
              && !p.isActive
              && p == products[id].(isActive := false)
              && p.name == products[id].name && p.stock == products[id].stock && p.price == products[id].price
              && DeleteOutcome(t, id) == Ok(p)
  {
  }

  /** `delete_product` on the database. */
  method DeleteProduct(db: Database, id: int) returns (r: Result<Product, ProductError>)
    requires db.Valid()
    modifies db`products
    ensures r == DeleteOutcome(old(db.products), id)
    ensures db.products == if r.Ok? then old(db.products)[id := r.value] else old(db.products)
    ensures db.Valid()
  {
    if id !in db.products {
      return Err(ProductNotFound);
    }
    var p := db.products[id];
    p := p.(isActive := false);
    ReferencesSurvive(db.orders, db.products, db.products[id := p]);
    db.products := db.products[id := p];
    r := Ok(p);
    assert db.products.Keys == old(db.products).Keys;
  }

  // ------------------------------------------------------------- search

  /** The optional filters of a search request. */
  datatype SearchFilters = SearchFilters(
    productId: Option<int>,
    name: Option<string>,
    description: Option<string>,
    price: Option<int>,
    stock: Option<int>)

  /** One WHERE condition of the search query. */
  datatype Condition =
    | IdIs(id: int)
    | NameIs(name: string)             // compared in lower case
    | DescriptionIs(description: string) // compared in lower case
    | PriceAtMost(price: int)
    | StockAtMost(stock: int)

  function LowerChar(c: char): char
  {
    if 'A' <= c <= 'Z' then (c as int + 32) as char else c
  }

  /** Lower-casing of the ASCII letters: no capital is left, and every
      character that is not a capital is kept. */
  function Lower(s: string): (r: string)
    ensures |r| == |s|
    ensures forall i | 0 <= i < |r| :: !('A' <= r[i] <= 'Z')
    ensures forall i | 0 <= i < |s| && !('A' <= s[i] <= 'Z') :: r[i] == s[i]
  {
    seq(|s|, i requires 0 <= i < |s| => LowerChar(s[i]))
  }

  /** Two characters that are equal, or a capital and its small letter. */
  predicate SameIgnoringCase(a: char, b: char)
  {
    || a == b
    || ('A' <= a <= 'Z' && b as int == a as int + 32)
    || ('A' <= b <= 'Z' && a as int == b as int + 32)
  }

  /** Two strings compare equal after lower-casing exactly when they have
      the same length and differ, position by position, at most in the
      case of a letter. */
  lemma LowerEqualIff(a: string, b: string)
    ensures Lower(a) == Lower(b) <==>
              |a| == |b| && forall i | 0 <= i < |a| :: SameIgnoringCase(a[i], b[i])
  {
    if Lower(a) == Lower(b) {
      forall i | 0 <= i < |a| ensures SameIgnoringCase(a[i], b[i]) {
        assert Lower(a)[i] == Lower(b)[i];
      }
    }
    if |a| == |b| && forall i | 0 <= i < |a| :: SameIgnoringCase(a[i], b[i]) {
      forall i | 0 <= i < |a| ensures Lower(a)[i] == Lower(b)[i] {
        assert SameIgnoringCase(a[i], b[i]);
      }
    }
  }

  /** Lower-casing twice is lower-casing once. */
  lemma LowerIdempotent(s: string)
    ensures Lower(Lower(s)) == Lower(s)
  {
    var r := Lower(s);
    assert forall i | 0 <= i < |r| :: Lower(r)[i] == r[i];
  }

  predicate Holds(c: Condition, p: Product)
  {
    match c
    case IdIs(id) => p.id == id
    case NameIs(name) => Lower(p.name) == Lower(name)
    case DescriptionIs(d) => Lower(p.description) == Lower(d)
    case PriceAtMost(bound) => p.price <= bound
    case StockAtMost(bound) => p.stock <= bound
  }

  /** The conditions the query accumulates, one per supplied filter, in
      the order the service adds them. */
  function Conditions(f: SearchFilters): seq<Condition>
  {
    var q0: seq<Condition> := [];
    var q1 := if f.productId.Some? then q0 + [IdIs(f.productId.value)] else q0;
    var q2 := if f.name.Some? then q1 + [NameIs(f.name.value)] else q1;
    var q3 := if f.description.Some? then q2 + [DescriptionIs(f.description.value)] else q2;
    var q4 := if f.price.Some? then q3 + [PriceAtMost(f.price.value)] else q3;
    if f.stock.Some? then q4 + [StockAtMost(f.stock.value)] else q4
  }

  /** A row satisfies every condition of the query. */
  function AllHold(conds: seq<Condition>, p: Product): bool
  {
    if conds == [] then true else Holds(conds[0], p) && AllHold(conds[1..], p)
  }

  predicate IdsIncreasing(s: seq<Product>)
  {
    forall i, j :: 0 <= i < j < |s| ==> s[i].id < s[j].id
  }

  /** The rows of `s`, in order, that satisfy the query. */
  function Select(s: seq<Product>, conds: seq<Condition>): (r: seq<Product>)
    ensures forall p :: p in r <==> p in s && AllHold(conds, p)
    ensures IdsIncreasing(s) ==> IdsIncreasing(r)
  {
    if s == [] then []
    else
      var tail := Select(s[1..], conds);
      assert IdsIncreasing(s) ==> forall x :: x in tail ==> s[0].id < x.id by {
        if IdsIncreasing(s) {
          forall x | x in tail ensures s[0].id < x.id {
            var k :| 0 <= k < |s[1..]| && s[1..][k] == x;
            assert s[k + 1] == x;
          }
        }
      }
      if AllHold(conds, s[0]) then [s[0]] + tail else tail
  }

  /** The meaning of a search, stated directly: every supplied filter holds. */
  predicate Matches(p: Product, f: SearchFilters)
  {
    && (f.productId.Some? ==> p.id == f.productId.value)
    && (f.name.Some? ==> Lower(p.name) == Lower(f.name.value))
    && (f.description.Some? ==> Lower(p.description) == Lower(f.description.value))
    && (f.price.Some? ==> p.price <= f.price.value)
    && (f.stock.Some? ==> p.stock <= f.stock.value)
  }

  lemma {:induction false} AllHoldAppend(a: seq<Condition>, b: seq<Condition>, p: Product)
    ensures AllHold(a + b, p) == (AllHold(a, p) && AllHold(b, p))
  {
    if a != [] {
      assert (a + b)[0] == a[0];
      assert (a + b)[1..] == a[1..] + b;
      AllHoldAppend(a[1..], b, p);
    } else {
      assert a + b == b;
    }
  }

  /** The step-by-step query means the conjunction of the supplied filters. */
  lemma ConditionsMeanMatches(f: SearchFilters, p: Product)
    ensures AllHold(Conditions(f), p) == Matches(p, f)
  {
    var q0: seq<Condition> := [];
    var q1 := if f.productId.Some? then q0 + [IdIs(f.productId.value)] else q0;
    var q2 := if f.name.Some? then q1 + [NameIs(f.name.value)] else q1;
    var q3 := if f.description.Some? then q2 + [DescriptionIs(f.description.value)] else q2;
    var q4 := if f.price.Some? then q3 + [PriceAtMost(f.price.value)] else q3;
    if f.productId.Some? { AllHoldAppend(q0, [IdIs(f.productId.value)], p); }
    if f.name.Some? { AllHoldAppend(q1, [NameIs(f.name.value)], p); }
    if f.description.Some? { AllHoldAppend(q2, [DescriptionIs(f.description.value)], p); }
    if f.price.Some? { AllHoldAppend(q3, [PriceAtMost(f.price.value)], p); }
    if f.stock.Some? { AllHoldAppend(q4, [StockAtMost(f.stock.value)], p); }
  }

  /** `search_products`: exactly the rows meeting every supplied filter. */
  function SearchProducts(products: map<int, Product>, f: SearchFilters): (r: seq<Product>)
    requires KeyedById(products)
    ensures forall p :: p in r <==> p in products.Values && Matches(p, f)
    ensures IdsIncreasing(r)
  {
    var r := Select(GetAllProducts(products), Conditions(f));
    assert forall p :: p in r <==> p in products.Values && Matches(p, f) by {
      forall p ensures p in r <==> p in products.Values && Matches(p, f) {
        ConditionsMeanMatches(f, p);
      }
    }
    r
  }

  /** With no filter the search lists every product, by ascending id. */
  lemma SearchWithoutFilters(products: map<int, Product>)
    requires KeyedById(products)
    ensures SearchProducts(products, SearchFilters(None, None, None, None, None)) == GetAllProducts(products)
  {
    var all := GetAllProducts(products);
    assert Conditions(SearchFilters(None, None, None, None, None)) == [];
    SelectAll(all);
  }

  lemma {:induction false} SelectAll(s: seq<Product>)
    ensures Select(s, []) == s
  {
    if s != [] {
      SelectAll(s[1..]);
    }
  }

  /** Name and description compare without regard to ASCII case. */
  lemma SearchIgnoresCase(products: map<int, Product>, name: string)
    requires KeyedById(products)
    ensures forall p :: p in SearchProducts(products, SearchFilters(None, Some(name), None, None, None)) <==>
              p in products.Values && Lower(p.name) == Lower(name)
  {
  }
}
