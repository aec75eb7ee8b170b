# Shop backend and storefront cart, modelled in Dafny

This project models the core of a small shop. The backend is a FastAPI
service with products, orders and payments. The storefront is React, and
its cart lives in browser storage. The model covers these parts:

- **Product catalogue** (`ProductService`). Adding a product, with an id
  assigned when none is given. Partial update. Soft delete. Listing by id.
  Filtered search.
- **Orders and payments** (`OrderService`, `OrderQueries`). Order creation
  checks each requested line against the stock that the earlier lines have
  left, in order. Only an order whose every line passes is committed.
  Viewing one order and listing all orders. Payment, with its guards.
- **Registration rules** (`UserSchemas`). The password-strength rule and the
  role whitelist.
- **Authentication middleware** (`AuthMiddleware`) and the **role guard**
  (`Dependency`). The ordered chain of early returns that either lets a
  request through, with the caller's user attached, or answers it with an
  error.
- **Storefront cart** (`CartContext`). The cart's pure updaters and the
  provider state that keeps it in storage. Also the product page's quantity
  picker and stock check (`ProductDetail`), and the cart page's checkout
  (`CartPage`).

The database tables are maps from primary key to record, held by the
class `Records.Database`, whose invariant `Valid` keeps the primary keys,
the unique product names, the order-id sequence and the foreign key from
order items to products. Each service operation that writes is a method of
its service's module that takes the database (`db: Database`), modifies
only the tables it writes and keeps the invariant. Each such method is
proved equal to a pure function that gives its outcome, and the lemmas about those functions state what the service
promises. The cart store is a class whose `items` field holds the line
list. Its methods are proved against the pure updaters and keep one line
per product id.

Money is an integer count of the smallest currency unit. The token decoder
and the order request are parameters of the model: the decoder is a
function from a token to its claims, and the order request is a function
from the payload to the reply. Rows that a source query returns without an
`ORDER BY` (search, the order listing) are modelled in ascending id order.

Where the code and the documented behaviour differ, the model follows the
code:

- `clearCart` removes the stored cart and then, through the save effect,
  writes the empty list back. So after a clear the stored value is the
  empty cart, not an absent key.
- Orders are listed only when every stored order belongs to the caller.
  This is the first Finding below.

## Model

| member | source | states |
|---|---|---|
| Common.SortedKeys | app/services/product_management_service.py:59 | the ids of a table, each once, in strictly increasing order (the `ORDER BY id` of the listing) |
| Records.ReferencesSurvive | app/models/DataTable.py:47 | the foreign key from order items to products survives every write that keeps or adds product keys |
| ProductService.NextProductId | app/services/product_management_service.py:17-22 | the assigned id exceeds every stored id and is the maximum plus one, or 1 for an empty table |
| ProductService.AddAssignsNextId | app/services/product_management_service.py:16-22 | without an id, a successful add uses the next id; in an empty table it creates product 1 with the requested fields |
| ProductService.AddConflicts | app/services/product_management_service.py:23-36 | a supplied id that is taken is 409 "Product already exists"; a taken name is 409 whether the id was supplied or assigned; every add error is a 409 |
| ProductService.AddInsertsOne | app/services/product_management_service.py:31-48 | an add succeeds exactly when neither the id nor the name is taken; it then inserts one new row with the requested fields, active and without an image, and keys and names stay unique |
| ProductService.AddNeverSucceedsAsWritten | app/services/product_management_service.py:38-45 | as written, no add succeeds: conflicts are reported as intended, and every other request is a 500, even in an empty table |
| ProductService.AddProduct | app/services/product_management_service.py:14-56 | the method's result is the add outcome, and the table gains exactly the new row on success and is unchanged on error |
| ProductService.SortedRowsAreTable | app/services/product_management_service.py:58-63 | reading the rows by the sorted ids yields every stored product and nothing else, as many as the table holds, by strictly ascending id |
| ProductService.GetAllProducts | app/services/product_management_service.py:58-63 | the listing holds exactly the stored products, one per row, by ascending id; an empty table gives an empty list |
| ProductService.UpdateAppliesTruthyFields | app/services/product_management_service.py:66-85 | an unknown id is 404; otherwise each text field changes only to a non-empty value, price and stock only to a non-zero value, the image whenever one is given, and id and activity never |
| ProductService.UpdateIgnoresFalsyValues | app/services/product_management_service.py:72-82 | an update with an empty name and a zero or absent price and stock leaves the row exactly as it was |
| ProductService.UpdateKeepsTable | app/services/product_management_service.py:84-88 | a successful update keeps the keys and every other row, and keeps names unique |
| ProductService.UpdateProduct | app/services/product_management_service.py:65-89 | the method's result is the update outcome (a name already used by another row is the unique-index failure), and only the updated row changes |
| ProductService.DeleteIsSoft | app/services/product_management_service.py:91-106 | delete fails exactly for an unknown id; otherwise the row stays with only `isActive` cleared, and deleting again gives the same row |
| ProductService.DeleteProduct | app/services/product_management_service.py:91-106 | the method's result is the delete outcome, and only the disabled row changes |
| ProductService.Lower | app/services/product_management_service.py:125 | lower-casing keeps the length, leaves no ASCII capital, and keeps every character that is not one |
| ProductService.LowerEqualIff | app/services/product_management_service.py:125 | two strings are equal after lower-casing exactly when they have the same length and differ at each position at most by the case of a letter |
| ProductService.LowerIdempotent | app/services/product_management_service.py:125 | lower-casing twice is lower-casing once |
| ProductService.Select | app/services/product_management_service.py:120-135 | a row is selected exactly when it is in the listing and meets every condition, and the order by id is kept |
| ProductService.ConditionsMeanMatches | app/services/product_management_service.py:120-132 | the query built condition by condition holds exactly when every supplied filter holds |
| ProductService.SearchProducts | app/services/product_management_service.py:108-138 | search returns exactly the stored products meeting every supplied filter, by ascending id |
| ProductService.SearchWithoutFilters | app/services/product_management_service.py:120-138 | a search without filters equals the full listing |
| ProductService.SearchIgnoresCase | app/services/product_management_service.py:124-125 | a name search matches exactly the products whose lower-cased name equals the lower-cased filter, which `LowerEqualIff` reads as equality ignoring ASCII case |
| OrderService.PlaceOkIff | app/services/order_management.py:23-41 | the item loop succeeds exactly when every line's product exists, is active, and has stock for this line together with the earlier lines for the same product |
| OrderService.PlaceFirstRejection | app/services/order_management.py:27-39 | a failing loop reports the first rejected line: 404 for an unknown product, the inactive reply, or 400 naming the stock left and the quantity asked |
| OrderService.PlaceEffect | app/services/order_management.py:41-52 | after a successful loop each product's stock is lower by exactly its total demand, nothing else changes, and there is one item per line carrying price times quantity |
| OrderService.PlaceTotal | app/services/order_management.py:42-48 | the stored line totals of a placed order add up to price times quantity over the request |
| OrderService.CreateOrder | app/services/order_management.py:11-57 | no user is 401; a rejected line leaves products and orders untouched; success commits the decremented stock and one new pending order of the caller, under a fresh id of at least 1; the database invariant, foreign key included, holds afterwards |
| OrderService.PaymentGuards | app/services/order_management.py:148-190 | a non-positive amount is 400, no user 401, an unknown order 404, a paid order is refused, in that order; a payment succeeds exactly when all of these pass and the amount covers the order total, and the receipt shows the amount paid |
| OrderService.PaymentAmountRule | app/services/order_management.py:178-190 | overpaying is accepted and underpaying is 400, reporting the amount paid and the total |
| OrderService.PaymentProcess | app/services/order_management.py:148-210 | the method's result is the payment outcome; on success the order becomes paid and exactly one payment row is added, otherwise nothing changes |
| OrderService.PaidOrderRefusesPayment | app/services/order_management.py:173-176 | once an order is paid, every further payment for it is refused, and no other order changed |
| OrderQueries.GetOrder | app/services/order_management.py:59-97 | an unknown id is 404; otherwise the view carries the order's id and status, the sum of the stored line totals, and per item, in order, the product's id, name and current price with the item's quantity and stored line total |
| OrderQueries.CreatedOrderReadsBack | app/services/order_management.py:54-57 | an order just created reads back as pending with price times quantity of the request as its total, and every item still refers to a product |
| OrderQueries.WalkRefuses | app/services/order_management.py:119-124 | the listing walk fails without a caller, and answers 404 as soon as a remaining order belongs to someone else |
| OrderQueries.WalkAccepts | app/services/order_management.py:118-141 | when every remaining order is the caller's, the walk appends their summaries in order |
| OrderQueries.ListingRefuses | app/services/order_management.py:111-124 | no orders is 404; orders without a caller fail; any order of another user makes the whole listing 404 |
| OrderQueries.ListingLists | app/services/order_management.py:118-146 | when every order is the caller's, the listing is the summaries of all orders by ascending id |
| OrderQueries.ListingIds | app/services/order_management.py:126-127 | entry i of a listing summarises the order under the i-th key |
| OrderQueries.SortedListing | app/services/order_management.py:99-109 | the full listing holds each stored order exactly once, by ascending id |
| OrderQueries.GetAllOrders | app/services/order_management.py:99-146 | the loop's result equals the listing walk over all orders by ascending id |
| OrderQueries.OwnOrders | app/services/order_management.py:119-141 | the corrected listing holds every order of the caller and only those, each with its summary, once each and by strictly ascending id |
| OrderQueries.OwnFrom | app/services/order_management.py:119-141 | over any list of keys, the kept summaries are exactly those of the caller's orders, and they keep the order of strictly increasing keys |
| OrderQueries.MixedOwnersHideOwnOrders | app/services/order_management.py:119-124 | with orders of two users stored, a caller who owns one gets 404 as written, while the corrected listing shows it |
| UserSchemas.PunctuationRanges | app/schemas/user_schemas.py:2 | the four ASCII ranges used are exactly the 32 characters of the punctuation constant |
| UserSchemas.AnyDigit | app/schemas/user_schemas.py:16 | true exactly when some character is a digit |
| UserSchemas.AnyUpper | app/schemas/user_schemas.py:19 | true exactly when some character is an uppercase letter |
| UserSchemas.AnyPunctuation | app/schemas/user_schemas.py:22 | true exactly when some character is punctuation |
| UserSchemas.PasswordValidator | app/schemas/user_schemas.py:10-28 | a password is accepted, and handed back as it is, exactly when it has at least 8 characters, a digit, an uppercase letter and a punctuation character; otherwise it is refused with the rule's message |
| UserSchemas.RoleValidator | app/schemas/user_schemas.py:30-34 | a role is accepted, as it is, exactly when it is user, admin, sale or hr; otherwise it is refused with the role message |
| UserSchemas.EightCharactersSuffice | app/schemas/user_schemas.py:25 | a password of exactly eight characters with all three kinds is accepted |
| UserSchemas.NoPunctuationRejected | app/schemas/user_schemas.py:22-28 | a long password with a digit and an uppercase letter but no punctuation is refused |
| UserSchemas.AcceptedStaysAccepted | app/schemas/user_schemas.py:25 | appending characters to an accepted password keeps it accepted |
| AuthMiddleware.RStrip | app/middleware/AuthMiddleware.py:23 | the result is the longest prefix that does not end in the character, and the removed tail is made of that character only |
| AuthMiddleware.RStripSlashes | app/middleware/AuthMiddleware.py:23 | any number of trailing slashes after a path not ending in one are removed |
| AuthMiddleware.ParseShowInt | app/middleware/AuthMiddleware.py:47 | parsing the decimal text of an integer gives the integer back |
| AuthMiddleware.OptionsPass | app/middleware/AuthMiddleware.py:19-20 | pre-flight requests pass before any other check, without a user |
| AuthMiddleware.ExcludedPathsPass | app/middleware/AuthMiddleware.py:22-25 | every excluded path that does not end in a slash passes without a token, with any number of trailing slashes added |
| AuthMiddleware.ExclusionIsExact | app/middleware/AuthMiddleware.py:11-25 | "/" and "/product/" pass as written, but with one more slash they strip to paths that are not excluded and need a token outside GET |
| AuthMiddleware.ExtendedPathIsGated | app/middleware/AuthMiddleware.py:22-25 | a path that extends an excluded one is 401 without a token |
| AuthMiddleware.ProductReadsArePublic | app/middleware/AuthMiddleware.py:27-29 | GET on a product item passes without a token, while DELETE on it is 401 without one |
| AuthMiddleware.TokenChecksInOrder | app/middleware/AuthMiddleware.py:31-50 | the gated outcomes, in order: 401 no cookie, 401 undecodable token, 401 wrong token type, 400 missing user id, 500 non-numeric id, 404 unknown user |
| AuthMiddleware.ForwardsTokenUser | app/middleware/AuthMiddleware.py:17-53 | a request is handed on with a user exactly when it is gated and its token is a valid access token naming a stored user, and then with that user; an ungated request carries no user |
| AuthMiddleware.LoginTokenAdmits | app/services/authentication_service.py:41 | an access token whose claims include the user id as text and the access type, as the one issued at login does, admits its user on every gated path, whatever other claims it carries |
| Dependency.RoleRequired | app/core/dependency.py:37-45 | no user is 401, a role outside the list 403, and otherwise the user itself; the guard admits exactly a present user with an allowed role |
| Dependency.MissingUserBeforeRole | app/core/dependency.py:39-41 | a missing user is 401 whatever roles are allowed |
| Dependency.ManagerRolesRegistrable | app/routes/v1/product_management_route.py:30 | each product-manager role can be chosen at registration, and the default role is not a product manager |
| Dependency.GatedRouteAdmits | app/core/dependency.py:37-45 | behind the middleware, a gated route's guard admits exactly a request whose token names a stored user with an allowed role |
| Dependency.ProductCreationAlwaysUnauthorized | app/middleware/AuthMiddleware.py:11-14 | POST /product/ never gets a user attached, so the product-manager guard answers 401 whatever the token |
| Dependency.FixedListUnlocksCreation | app/middleware/AuthMiddleware.py:11-29 | without "/product/" on the list, listing stays public, an access token naming a manager, whatever other claims it carries, creates products, and every other path is decided as before |
| CartContext.Removed | frontend/src/context/CartContext.jsx:48-52 | a line is kept exactly when it was in the cart with another product id, and the cart does not grow |
| CartContext.AddToExistingLine | frontend/src/context/CartContext.jsx:27-35 | adding a product already in the cart raises that line's quantity by the amount; length, order, other lines and the product snapshot stay |
| CartContext.AddNewLine | frontend/src/context/CartContext.jsx:36-43 | adding a product not in the cart appends one line with the amount, or 1 when none is given, and the product as its snapshot |
| CartContext.AddKeepsIdsUnique | frontend/src/context/CartContext.jsx:27-43 | adding keeps at most one line per product id |
| CartContext.RemovedKeepsIdsUnique | frontend/src/context/CartContext.jsx:48-52 | removing keeps at most one line per product id |
| CartContext.QuantitySetKeepsIdsUnique | frontend/src/context/CartContext.jsx:61-67 | setting a quantity keeps at most one line per product id |
| CartContext.AddTwice | frontend/src/context/CartContext.jsx:25-43 | two adds of one product equal one add of the sum |
| CartContext.RemoveAbsent | frontend/src/context/CartContext.jsx:48-52 | removing an id that has no line leaves the cart unchanged |
| CartContext.RemoveSplits | frontend/src/context/CartContext.jsx:50 | removal works line by line, so what it keeps stays in order |
| CartContext.RemoveOneLine | frontend/src/context/CartContext.jsx:48-52 | with one line per id, removal drops exactly that line and keeps the rest in order |
| CartContext.UpdateToZeroRemoves | frontend/src/context/CartContext.jsx:56-59 | a quantity of zero or less is exactly a removal, and the id is gone afterwards |
| CartContext.UpdateSetsQuantity | frontend/src/context/CartContext.jsx:61-67 | a positive quantity changes only the matching line's quantity; length and other lines stay, and an absent id changes nothing |
| CartContext.TotalsSplit | frontend/src/context/CartContext.jsx:20-22 | both totals of a concatenation are the sums of the parts' totals |
| CartContext.EmptyCartTotals | frontend/src/context/CartContext.jsx:77-81 | both totals of an empty cart are 0 |
| CartContext.SingleLineTotals | frontend/src/context/CartContext.jsx:77-81 | a one-line cart totals its quantity and its price times quantity |
| CartContext.AddRaisesTotals | frontend/src/context/CartContext.jsx:25-45 | adding an amount raises the total quantity by it and the cart total by price times it, whether it merges or appends |
| CartContext.MergeRaisesTotals | frontend/src/context/CartContext.jsx:31-35 | merging into an existing line raises the totals by the amount and its price |
| CartContext.ReplaceRaisesTotals | frontend/src/context/CartContext.jsx:33 | raising one line's quantity raises the totals by the amount and its price |
| CartContext.LinePriceAdds | frontend/src/context/CartContext.jsx:79 | a line's price grows by the unit price for each unit added |
| CartContext.TotalsReplaceLine | frontend/src/context/CartContext.jsx:77-81 | replacing one line changes each total by the difference of the two lines |
| CartContext.CartStore.Load | frontend/src/context/CartContext.jsx:9-12 | the cart starts with the stored lines, or empty when nothing is stored, and is stored again; stored lines, written by the save effect, hold one line per product id |
| CartContext.CartStore.AddToCart | frontend/src/context/CartContext.jsx:25-45 | the new lines are the add of the old ones, still one per product id, and they are stored |
| CartContext.CartStore.RemoveFromCart | frontend/src/context/CartContext.jsx:48-52 | the new lines are the old ones without the id, still one per product id, and they are stored |
| CartContext.CartStore.UpdateQuantity | frontend/src/context/CartContext.jsx:55-68 | a quantity of zero or less removes the line, a positive one sets it; the result keeps one line per product id and is stored |
| CartContext.CartStore.ClearCart | frontend/src/context/CartContext.jsx:71-74 | the cart is empty and the stored cart is the empty list |
| CartContext.ReloadRestores | frontend/src/context/CartContext.jsx:15-17 | loading what was saved gives back the same lines |
| ProductDetail.Decremented | frontend/src/pages/ProductDetail.jsx:118 | the "−" button never gives less than 1, and lowers by one otherwise |
| ProductDetail.Incremented | frontend/src/pages/ProductDetail.jsx:133 | the "+" button never passes the stock, and raises by one otherwise |
| ProductDetail.Typed | frontend/src/pages/ProductDetail.jsx:129 | a typed quantity is at least 1 and at most the stock when there is stock; a non-number and any stock of 1 or less give 1; a number within range is kept, one above the stock gives the stock (or 1 when the stock is below 2), and one below 1 gives 1 |
| ProductDetail.EnabledButtonHasPicker | frontend/src/pages/ProductDetail.jsx:145 | the add button is disabled when the product is inactive or has no stock, and when enabled the picker is shown |
| ProductDetail.RunStaysInRange | frontend/src/pages/ProductDetail.jsx:118-133 | with stock on hand, no series of picker events takes the quantity out of 1 to stock |
| ProductDetail.ZeroStockPicker | frontend/src/pages/ProductDetail.jsx:129-133 | with no stock a typed quantity is 1, because the lower bound is applied last, while "+" gives 0 |
| ProductDetail.ProductPage.constructor | frontend/src/pages/ProductDetail.jsx:14 | the quantity starts at 1 |
| ProductDetail.ProductPage.Decrement | frontend/src/pages/ProductDetail.jsx:118 | the quantity becomes the decremented one and stays within range |
| ProductDetail.ProductPage.Increment | frontend/src/pages/ProductDetail.jsx:133 | the quantity becomes the incremented one and stays within range |
| ProductDetail.ProductPage.Type | frontend/src/pages/ProductDetail.jsx:129 | the quantity becomes the clamped input and is within range |
| ProductDetail.ProductPage.HandleAddToCart | frontend/src/pages/ProductDetail.jsx:34-42 | a quantity above the stock is refused and the cart is unchanged; otherwise the product is added once with the chosen quantity |
| ProductDetail.RepeatedAddsCanExceedStock | frontend/src/pages/ProductDetail.jsx:35 | the stock check ignores what the cart already holds: from a stock of 5, each add of 3 passes the check, and the two put 6, more than the stock, in the cart |
| CartPage.ExtractOrderId | frontend/src/pages/Cart.jsx:43 | an id is found exactly when one of "Order ID", `order_id`, `id` is present and non-zero, and then it is the first such, in that order |
| CartPage.OrderIdPrecedence | frontend/src/pages/Cart.jsx:43 | "Order ID" wins over `order_id`, which wins over `id`; a zero field is skipped; no field gives no id |
| CartPage.Decide | frontend/src/pages/Cart.jsx:39-47 | the attempt is placed exactly when the reply is a body with an id; otherwise it fails |
| CartPage.CreateOrder | frontend/src/pages/Cart.jsx:18-61 | an empty cart or a visitor not logged in is turned away without a request; otherwise the cart's payload is sent once; the cart is cleared only when an id comes back |
| CartPage.PayloadTotals | frontend/src/pages/Cart.jsx:32-37 | at the snapshot prices, the backend's price of the payload is the cart total, and the payload's quantities add up to the cart's total quantity |
| CartPage.PayloadIdsUnique | frontend/src/pages/Cart.jsx:33-36 | a cart with one line per product sends one line per product |
| CartPage.BackendReplyDecides | app/services/order_management.py:57 | a created order is placed under its id; every backend refusal, including those sent with status 200, fails the attempt and so keeps the cart |
| CartPage.MinusKeepsLine | frontend/src/pages/Cart.jsx:102 | the cart's "−" button never removes a line or takes it below 1, and only that line changes |
| CartPage.PlusIgnoresStock | frontend/src/pages/Cart.jsx:109 | the cart's "+" button raises a line by one with no cap, so a line at the stock goes above it |

## Left out

- Prices and payment amounts are floating point or fixed-point decimals in the source (`Numeric(10, 2)`, `float`, `parseFloat`). The model uses integer counts of the smallest unit, so rounding is not modelled.
- Sessions, `async`, flush and commit are not modelled. An operation that returns early leaves the tables as they were. The order id a failed `create_order` has already flushed is not consumed, so gaps in the id sequence are not modelled.
- Timestamps (`created_at`, `updated_at`, the token expiry) are left out, and so is the `created_at` field of order views.
- Rows returned without `ORDER BY` (search, order listing) are modelled in ascending id order. The database may return another order.
- The product rows a repriced order view reads are always present under the foreign key that `Records.Database.Valid` keeps. The view of an item whose row is missing (empty name, zero price) is a totality device and models nothing in the source.
- JWT encoding, signing and verification are not modelled. The decoder is a parameter that yields the claims or fails.
- `get_current_user`, the refresh-token middleware, CORS, logging, uploads and the authentication routes are not modelled.
- `AuthMiddleware.ParseInt`: the model accepts an optional sign and ASCII digits. Python's `int()` also accepts surrounding whitespace, underscores and non-ASCII digits.
- `AuthMiddleware.ToInt`: claims are text, integers, booleans or null only. A `sub` claim that is a float, a list or an object is not modelled: `int()` truncates a float (3.5 names user 3), and raises on a list or an object, which becomes a 500.
- `UserSchemas.PasswordValidator`: `isdigit` and `isupper` are modelled on ASCII only. Python's versions also accept other Unicode digits and uppercase letters.
- `UserSchemas.PasswordValidator` and `UserSchemas.RoleValidator`: the model reports the rule's message text. The source raises `ValidationError(message)`, which does not build a validation error from a message. What the client sees then depends on the validation library's version.
- `ProductService.Lower` and the search comparisons lower-case ASCII letters only. The database's `lower` may fold more.
- `ProductService.AddOutcome` models the intended image field as absent. The request schema has none to read; the second Finding covers that.
- Browser storage and JSON serialisation are not modelled. The stored cart is a field holding the lines. A malformed stored value is not modelled.
- React rendering, hooks' scheduling, routing, toasts and navigation are not modelled, nor are the pages that only display data (home, products list, orders, payment, admin, navbar). The login state of the cart page is a boolean parameter.
- The axios client and its interceptors are not modelled. The order request is a parameter mapping the payload to the reply.

## Findings

| source | as written | input that shows it | evidently intended | confidence | as-written member | corrected member |
|---|---|---|---|---|---|---|
| app/services/order_management.py:119-124 | the order listing answers 404 as soon as any stored order belongs to another user | orders 1 of user 1 and 2 of user 2, listed by user 1 | list the caller's own orders | not executed | OrderQueries.MixedOwnersHideOwnOrders | OrderQueries.OwnOrders |
| app/services/product_management_service.py:44 | the insert reads `image_url` from the add request, whose schema (app/schemas/product_schemas.py:5-10) declares no such field, so every add that passes the conflict checks fails with a 500 | any add with a free id and a free name, even into an empty table | insert the product without an image | not executed | ProductService.AddNeverSucceedsAsWritten | ProductService.AddInsertsOne |
| app/middleware/AuthMiddleware.py:11-14 | "/product/" is excluded for every method, so a POST there never gets a user and the product-manager guard (app/routes/v1/product_management_route.py:10-12) answers 401 | POST /product/ with a valid admin access token | exclude only the public product reads | not executed | Dependency.ProductCreationAlwaysUnauthorized | Dependency.FixedListUnlocksCreation |
