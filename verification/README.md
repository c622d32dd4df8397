# Cart, catalogue and list logic of an e-commerce backend

This project models the core of a small e-commerce shop in Dafny. The shop
has an Express/Sequelize backend and a React front end. The model covers
these parts of the user controller (`eCommerce-backend/controllers/userController.js`):

- the **cart handlers**: add an item, delete an item, and `increaseItem`, which
  actually *decrements* a line and removes it at quantity 1;
- **checkout** (`createOrder`): the order total, the order header, one order
  item per cart line, taking stock off every line, and emptying the cart;
- the **catalogue** of `getProducts`: one row per product at its lowest price,
  plus a favourite flag and a stock label;
- **product lists**: the two slug rules, the duplicate-name check of
  `createList`, the visibility change of `updateList`, and the duplicate-free
  insertion of `addItemToList`;
- **`formatUserName`**, which masks a name when its flag is exactly 1, and the
  way the listings of a user's own comments (`getProductCommentsByUser`,
  `getSellerCommentsByUser`) call it: only for private comments, and with
  the comment's own flag 0, so as written it never masks.

From the front end it models `groupItemsBySeller`
(`ecommerce/src/components/FullCart.js`).

The modules are:

- `Common`: `Option` and `Result`.
- `CartStore`: the tables as fields of a `Store` class. Each handler is a method
  that returns an `Outcome`. Every path that ends in the handler's `catch`
  block (HTTP 500) is `ServerError`.
- `Catalog`: the dedupe as a method over the query's rows, specified by
  left-fold functions.
- `ProductLists`: slugs, lists and list items, as pure functions on sequences.
- `UserNames`: name masking.
- `FullCart`: the seller grouping as a fold. It is checked against a filter
  reference definition and compared with the reduction as written.

The model follows the handlers as written, including where they fall short of
an all-or-nothing design:

- **Checkout.** The order header and its items are written before any stock
  is checked. When one line's stock falls short, the other lines still take
  their stock and the reply is an error. The header and items stay, and the
  cart is kept.
- **Adding to an existing line.** The line is overwritten with the requested
  quantity rather than increased by it. The request is refused, not clamped,
  when the old quantity plus the request reaches the ceiling.
- **A product not yet in the cart.** The handler reads a field of the missing
  row, so it always ends in a server error, after the cart has been created.

Clock readings (`Date.now()`, `new Date()`) are passed in as natural-number
parameters. Ids the database assigns are also parameters; the order id is the
next position in the order table.

## Model

| member | source | states |
|---|---|---|
| CartStore.Ceiling | eCommerce-backend/controllers/userController.js:161-170 | the add-to-cart ceiling is at most both the stock and the product's purchase cap, and equals one of them |
| CartStore.IndexOf | eCommerce-backend/controllers/userController.js:181-186 | the line found for a seller product is the first line naming it; -1 exactly when the cart has no such line |
| CartStore.RemoveAt | eCommerce-backend/controllers/userController.js:239 | destroying the row at a position: one line fewer, the lines before it unchanged, the lines after it moved up by one in order (also the destroy at 270) |
| CartStore.Without | eCommerce-backend/controllers/userController.js:239 | a cart without a product keeps exactly the lines of the other products and never grows |
| CartStore.RemoveAtIsWithout | eCommerce-backend/controllers/userController.js:234-239 | in a cart with one line per product, destroying the row found for a product is the same as dropping every line of that product |
| CartStore.NoneWithout | eCommerce-backend/controllers/userController.js:234-237 | dropping a product the cart does not hold leaves the cart unchanged |
| CartStore.WithoutKeepsDistinct | eCommerce-backend/controllers/userController.js:239 | removing lines keeps the cart at one line per seller product |
| CartStore.SetQuantityKeepsDistinct | eCommerce-backend/controllers/userController.js:189-192 | overwriting a line's quantity keeps the cart at one line per seller product |
| CartStore.TotalPrice | eCommerce-backend/controllers/userController.js:774-777 | the `reduce` total: quantity times price summed from the first line to the last; its properties are stated by the two lemmas below |
| CartStore.TotalPriceAppend | eCommerce-backend/controllers/userController.js:774-777 | the order total of a cart split in two parts is the sum of the parts' totals |
| CartStore.TotalPriceBounds | eCommerce-backend/controllers/userController.js:774-777 | with non-negative quantities and prices, the total is at least every line's quantity times price, which is non-negative |
| CartStore.OrderItemsFor | eCommerce-backend/controllers/userController.js:788-793 | one order item per cart line, in line order, carrying the new order's id, the line's seller product and its quantity |
| CartStore.SettleLine | eCommerce-backend/controllers/userController.js:795-804 | one line succeeds iff its seller product exists with at least the line's quantity in stock; then that stock drops by the quantity and stays non-negative, otherwise nothing changes; the set of seller products is kept |
| CartStore.Covered | eCommerce-backend/controllers/userController.js:797 | the stock guard `sp && sp.stock >= item.quantity`: the seller product exists and holds at least the line's quantity |
| CartStore.Settle | eCommerce-backend/controllers/userController.js:788-807 | the stock step neither adds nor removes seller products |
| CartStore.SettleChangesOnlyStock | eCommerce-backend/controllers/userController.js:797-801 | the stock step changes nothing about a seller product but its stock |
| CartStore.SettleUntouched | eCommerce-backend/controllers/userController.js:795-801 | a seller product that no cart line names keeps its row through checkout |
| CartStore.SettleSucceedsIff | eCommerce-backend/controllers/userController.js:795-805 | with one line per product, every line finds enough stock iff every line's product exists with at least the line's quantity in the stock checkout started from |
| CartStore.SettleLineStock | eCommerce-backend/controllers/userController.js:797-801 | with one line per product, a covered line's stock drops by exactly its quantity and an uncovered line's stock is unchanged |
| CartStore.SettleKeepsStockNonNegative | eCommerce-backend/controllers/userController.js:797-803 | checkout never drives a stock below zero |
| CartStore.SettleEffect | eCommerce-backend/controllers/userController.js:795-807 | with one line per product, checkout succeeds iff every line's product exists with enough stock; a covered line's stock drops by exactly its quantity, an uncovered one is untouched, and products no line names keep their stock |
| CartStore.PartialCheckout | eCommerce-backend/controllers/userController.js:788-807 | a cart with one line in stock and one short fails the stock step, yet the first line's stock has been taken |
| CartStore.Store.constructor | eCommerce-backend/controllers/userController.js:142-818 | a store holding the given users, seller products and carts, with no orders, valid when stocks are non-negative and carts hold one line per product |
| CartStore.Store.AddItem | eCommerce-backend/controllers/userController.js:142-222 | unknown user and unknown product are answered first and change nothing; the cart is created if missing; a new line is a server error (the cart stays created); an existing line is overwritten with the requested quantity when its old quantity plus the request is below the ceiling, otherwise the limit reply leaves the cart unchanged; stock and orders never change |
| CartStore.Store.DeleteItem | eCommerce-backend/controllers/userController.js:223-246 | an unknown user is a server error, a missing cart or line a not-found reply, each with no change; otherwise exactly that product's line leaves the cart and nothing else changes |
| CartStore.Store.IncreaseItem | eCommerce-backend/controllers/userController.js:247-277 | same error paths as delete; a line above quantity 1 loses one unit in place, a line at 1 or below is removed; nothing else changes |
| CartStore.Store.WriteOrderItems | eCommerce-backend/controllers/userController.js:788-809 | appends the cart's order items and leaves the stock as the stock step computes it, reporting whether every line was in stock; stocks stay non-negative |
| CartStore.Store.CreateOrder | eCommerce-backend/controllers/userController.js:756-818 | unknown user, a missing or empty cart, and a line without a seller product change nothing; otherwise an order with the next id, the clock reading, the cart total and status 1 is appended with its items and the stock step is applied; the cart is emptied and the order returned only when every line was in stock |
| Catalog.FirstSeen | eCommerce-backend/controllers/userController.js:343-349 | the Map's key order as a fold over the rows: an id is appended when first seen; its properties are `FirstSeenIds` and `FirstSeenOrder` |
| Catalog.Cheapest | eCommerce-backend/controllers/userController.js:344-349 | the row the Map holds per id as a fold: a row replaces the held one only when the id is new or the row is strictly cheaper; its properties are `CheapestHeld` and `CheapestLowest` |
| Catalog.FirstSeenIds | eCommerce-backend/controllers/userController.js:343-350 | the map's key order lists each product id once, and exactly the ids of the rows |
| Catalog.FirstSeenOrder | eCommerce-backend/controllers/userController.js:343-350 | the keys are ordered by each product's first row |
| Catalog.CheapestHeld | eCommerce-backend/controllers/userController.js:344-349 | the map holds one row for each product id of the rows, and that row belongs to the product |
| Catalog.CheapestLowest | eCommerce-backend/controllers/userController.js:346-347 | no row of a product is cheaper than the held one, and the held one comes no later than any equally cheap row |
| Catalog.CheapestIsFirstLowest | eCommerce-backend/controllers/userController.js:344-349 | each product keeps one of its own rows, no dearer than any of its rows, and the earliest among equally cheap rows |
| Catalog.UniqueLowestPrice | eCommerce-backend/controllers/userController.js:343-350 | one row per product and every product present; each result row is a query row that is no dearer than any row of its product and comes no later than any equally cheap one; products appear in first-seen order |
| Catalog.FillMap | eCommerce-backend/controllers/userController.js:343-349 | the `forEach` loop leaves the map's key order and contents as the two folds define them |
| Catalog.UniqueRows | eCommerce-backend/controllers/userController.js:350 | reading the map's values in key order yields the five properties of the result |
| Catalog.StockStatusOf | eCommerce-backend/controllers/userController.js:354 | intended label: out of stock iff the stock is zero |
| Catalog.StockQuantityAttribute | eCommerce-backend/controllers/userController.js:354 | the read of `product.stock_quantity`: the seller product model is not modelled; the controller reads the stock only as `stock` (161, 797-799), so the attribute is taken to be undefined for every seller product |
| Catalog.StockStatusAsWritten | eCommerce-backend/controllers/userController.js:354 | the label as written: out of stock only when the attribute read is present and equal to 0 |
| Catalog.AsWrittenNeverOutOfStock | eCommerce-backend/controllers/userController.js:354 | as written, a zero-stock product is labelled in stock, where the intended label says out of stock |
| Catalog.Annotate | eCommerce-backend/controllers/userController.js:352-360 | each row is kept in order, flagged favourite iff its product id is among the user's favourites, and given the corrected stock label (see Findings): out of stock iff its stock is zero |
| ProductLists.Lower | eCommerce-backend/controllers/userController.js:392 | lower-casing keeps the length and maps each character on its own |
| ProductLists.LowerChar | eCommerce-backend/controllers/userController.js:392 | `toLowerCase` on one character: an ASCII capital moves to its small letter, every other character is kept |
| ProductLists.IsSpace | eCommerce-backend/controllers/userController.js:392 | the characters the JavaScript class `\s` matches |
| ProductLists.DropSpaces | eCommerce-backend/controllers/userController.js:392 | removes exactly the leading whitespace run of a string: what it drops is whitespace, what remains is a suffix that does not start with whitespace |
| ProductLists.Hyphenate | eCommerce-backend/controllers/userController.js:392 | the `\s+` rule leaves no whitespace and never lengthens the text; `HyphenateRun` and `HyphenateKeeps` state the rule itself |
| ProductLists.DropSpacesRun | eCommerce-backend/controllers/userController.js:392 | a whitespace run followed by the end or by a non-whitespace character is dropped whole |
| ProductLists.HyphenateRun | eCommerce-backend/controllers/userController.js:392 | a maximal whitespace run becomes exactly one hyphen, and the text after it is handled on its own |
| ProductLists.HyphenateKeeps | eCommerce-backend/controllers/userController.js:392 | a character that is not whitespace is kept, and the text after it is handled on its own |
| ProductLists.HyphenateShorter | eCommerce-backend/controllers/userController.js:392 | text with two whitespace characters in a row gets strictly shorter |
| ProductLists.ReplaceSpaces | eCommerce-backend/controllers/userController.js:483 | the single-space rule keeps the length, turns each space into a hyphen and keeps every other character |
| ProductLists.HyphenateNoSpaces | eCommerce-backend/controllers/userController.js:392 | text without whitespace passes the `\s+` rule unchanged |
| ProductLists.HyphenateIdempotent | eCommerce-backend/controllers/userController.js:392 | applying the `\s+` rule twice is applying it once |
| ProductLists.SlugRulesAgree | eCommerce-backend/controllers/userController.js:392-483 | the create and update slug rules agree on names whose only whitespace is single spaces |
| ProductLists.SlugRulesDiffer | eCommerce-backend/controllers/userController.js:392-483 | on every name with two spaces in a row the two rules differ: the create rule shortens it, the update rule keeps its length |
| ProductLists.NatToString | eCommerce-backend/controllers/userController.js:392 | the rendered timestamp is a non-empty string of decimal digits |
| ProductLists.NatToStringRoundTrip | eCommerce-backend/controllers/userController.js:392 | reading the rendered timestamp back yields the timestamp |
| ProductLists.CreateSlug | eCommerce-backend/controllers/userController.js:392 | the create slug: the lower-cased name under the `\s+` rule, a hyphen, the timestamp; its shape is stated by `CreateSlugShape` |
| ProductLists.UpdateSlug | eCommerce-backend/controllers/userController.js:483 | the update slug: the lower-cased name under the single-space rule, a hyphen, the timestamp; `SlugRulesAgree` and `SlugRulesDiffer` relate it to the create slug |
| ProductLists.CreateSlugShape | eCommerce-backend/controllers/userController.js:392 | a created slug has no whitespace and ends in a hyphen followed by the timestamp, which reads back as the clock value |
| ProductLists.CreateList | eCommerce-backend/controllers/userController.js:381-421 | refused iff the user already has a list of that name; otherwise the new list is appended with a slug iff it is public |
| ProductLists.CreateListKeepsNamesUnique | eCommerce-backend/controllers/userController.js:396-416 | creating a list keeps list names unique per user |
| ProductLists.FindList | eCommerce-backend/controllers/userController.js:463-468 | finds a list owned by the user with that id, -1 iff the user has none |
| ProductLists.UpdateList | eCommerce-backend/controllers/userController.js:452-496 | not found iff the user owns no such list; otherwise only that list changes, only its visibility and slug: a fresh update slug when made public, none when made private |
| ProductLists.UpdateListKeepsNamesUnique | eCommerce-backend/controllers/userController.js:452-496 | updating a list keeps list names unique per user |
| ProductLists.AddItemToList | eCommerce-backend/controllers/userController.js:545-558 | afterwards the list holds the product; the row is appended iff it was absent, nothing else is added |
| ProductLists.AddItemToListIdempotent | eCommerce-backend/controllers/userController.js:545-558 | adding a product twice is adding it once, and lists never hold a product twice |
| UserNames.Stars | eCommerce-backend/controllers/userController.js:1202 | `'*'.repeat(n)`: exactly n asterisks |
| UserNames.FormatUserName | eCommerce-backend/controllers/userController.js:1200-1207 | with the flag exactly 1, the name keeps its length and first character with asterisks elsewhere, and an empty name fails; any other flag returns the name unchanged |
| UserNames.MaskRevealsOnlyFirstAndLength | eCommerce-backend/controllers/userController.js:1201-1203 | two names with the same length and first character mask to the same text |
| UserNames.MaskIdempotent | eCommerce-backend/controllers/userController.js:1201-1203 | masking a masked name changes nothing |
| UserNames.ShownNameAsWritten | eCommerce-backend/controllers/userController.js:899-903 | `getProductCommentsByUser` as written (and `getSellerCommentsByUser` at 1087-1091): a private comment's name goes through `formatUserName` with the flag 0 |
| UserNames.PrivateNameShownInFull | eCommerce-backend/controllers/userController.js:899-903 | as written, the requester's own name on a private comment comes back unchanged |
| UserNames.ShownName | eCommerce-backend/controllers/userController.js:899-903 | as the guard suggests: a private comment's name is masked (fails on an empty name), any other name is shown unchanged |
| UserNames.PrivateNameMasked | eCommerce-backend/controllers/userController.js:899-903 | as the guard suggests, a private commenter's non-empty name shows only its length and first character, and differs from the name whenever a later character is not an asterisk |
| FullCart.Kept | ecommerce/src/components/FullCart.js:12-15 | the skip test: an item is kept iff it is present and has a non-empty seller name |
| FullCart.PrototypeKeys | ecommerce/src/components/FullCart.js:16-19 | the keys a `{}` accumulator inherits from `Object.prototype`, on which `!acc[name]` is false and no array is made |
| FullCart.Place | ecommerce/src/components/FullCart.js:11-21 | one reduction step: a skipped item changes nothing; a kept item is appended to its seller's group, which is created when new, and no other group changes |
| FullCart.GroupItemsBySeller | ecommerce/src/components/FullCart.js:9-23 | the reduction from an object with no inherited keys: a seller has a group iff some kept item names it |
| FullCart.PlaceWellFormed | ecommerce/src/components/FullCart.js:17-20 | one reduction step keeps each key listed once |
| FullCart.PlaceSize | ecommerce/src/components/FullCart.js:12-20 | one reduction step adds one item to the groups for a kept item and none for a skipped one |
| FullCart.GroupingWellFormed | ecommerce/src/components/FullCart.js:9-23 | the grouping lists each seller key exactly once |
| FullCart.GroupIsFilter | ecommerce/src/components/FullCart.js:9-23 | each seller's group is exactly that seller's kept items in cart order; a group exists iff the seller has a kept item; each key is listed once |
| FullCart.GroupSizesMatchKept | ecommerce/src/components/FullCart.js:9-23 | the groups together hold exactly as many items as the cart has kept items |
| FullCart.GroupSizesOutside | ecommerce/src/components/FullCart.js:17-18 | adding a new key does not change the sizes of the listed groups |
| FullCart.GroupSizesInside | ecommerce/src/components/FullCart.js:20 | growing one listed group changes the total by exactly its growth |
| FullCart.GroupAsWritten | ecommerce/src/components/FullCart.js:9-23 | the reduction as written from `{}`: when it succeeds, no kept item's seller is named like an inherited key |
| FullCart.GroupAsWrittenFailsOnPrototypeKeys | ecommerce/src/components/FullCart.js:9-23 | the reduction as written fails iff a kept item's seller is named like an inherited object key, and otherwise equals the grouping |
| FullCart.ConstructorSellerBreaksGrouping | ecommerce/src/components/FullCart.js:17-20 | a single item from seller "constructor" makes the reduction as written fail, while the grouping gives it its own group |

## Left out

- Authentication, `User.findOne` by e-mail and the HTTP layer are not modelled. Users are ids, and replies are `Outcome` values rather than status codes and JSON bodies.
- Concurrency is not modelled. The handlers are `async` and `createOrder` starts its per-line promises together. The model runs each request to completion, and runs the lines of one checkout from first to last. A line whose stock is short still has its order item written, and the other lines still take their stock, as the concurrent promises do. The database is not transactional, and the model does not roll anything back either.
- CartStore.Store.CreateOrder: a failed stock check rejects `Promise.all` and answers 500 while the other lines' promises may still be running. The model applies every line's stock step before answering.
- CartStore.Store.AddItem: `quantity` from the request body is taken as an integer. A string quantity would make `+` concatenate; that is not modelled.
- The catalogue query (the `is_active` filter, the joins and the price ordering) is not modelled. `Catalog.UniqueLowestPrice` takes the query's rows as given, in any order, and its contract holds for every order.
- The favourite ids are an input; the favourites query is not modelled.
- `toLowerCase` is modelled for ASCII letters only. Other case mappings, which can also change the length, are not modelled.
- `formatUserName` counts UTF-16 code units and `charAt(0)` may split a surrogate pair. The model counts characters. A `null` or non-string name is not modelled.
- The default-list branch of `addItemToList` (`findOrCreate` of the favourites list, lines 526-542) is not modelled. The target list id is a parameter. The handler does not check that the list belongs to the user, and neither does the model.
- ProductLists.CreateList, ProductLists.UpdateList: the visibility flag is modelled as a boolean. The handlers branch on the raw request value's truthiness and store that raw value. A value such as the string "0" is truthy and so gets a slug; that is not modelled.
- `createList` and `updateList` for a user that does not exist are not modelled.
- Read-only handlers (product, cart, order, comment and list listings), `deleteList`, login and registration are not part of this model, apart from the way the listings of a user's own comments display the commenter's name.
- The order date is the clock reading passed in. Timestamps are natural numbers, and dates and floating point are not modelled.
- FullCart.GroupItemsBySeller: a JavaScript object enumerates integer-like keys before the others. The `sellers` sequence records insertion order only.
- The sellerProduct, Product, Cart and Order model files are not part of this model. Their columns are taken from the fields the controller reads.

## Findings

| source | as written | input that shows it | evidently intended | confidence | as-written member | corrected member |
|---|---|---|---|---|---|---|
| eCommerce-backend/controllers/userController.js:354 | the stock label compares `product.stock_quantity` with 0, but a seller product carries its stock as `stock`, so the attribute is undefined and every product is labelled in stock | any active seller product with `stock` 0, given that the attribute is undefined (`Catalog.StockQuantityAttribute`) | out of stock exactly when the stock is zero; `Catalog.Annotate` applies this corrected label | medium, not executed | Catalog.AsWrittenNeverOutOfStock | Catalog.StockStatusOf |
| ecommerce/src/components/FullCart.js:10-20 | the reduction starts from `{}`, so a seller named like an inherited key (`constructor`, `toString`, `__proto__`, …) finds a truthy non-array and `push` throws | one cart item whose seller name is `constructor` | every seller with a kept item gets its own group | high, not executed | FullCart.GroupAsWrittenFailsOnPrototypeKeys | FullCart.GroupItemsBySeller |
| eCommerce-backend/controllers/userController.js:899-903 | `getProductCommentsByUser` (from 860) passes a private comment's own flag, 0, to `formatUserName`, which masks only for 1, so the masking call is a no-op; `getSellerCommentsByUser` (from 1062) does the same at 1087-1091. Both list the requester's own comments to the requester, so the unmasked name is the requester's own; the public listing `getProductComments` already shows "Anonymous" for private comments (952-954) | any comment with `is_public` 0 by a user named "Ayse", listed to that user | a private comment shows the name masked, "A***", if the guarded call was meant to do something; showing one's own name to oneself may well be intended | low, not executed | UserNames.PrivateNameShownInFull | UserNames.PrivateNameMasked |
