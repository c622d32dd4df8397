/** The cart, stock and order handlers of the user controller
    (eCommerce-backend/controllers/userController.js): adding to a cart,
    removing or decrementing a cart line, and turning a cart into an order
    while taking the ordered quantities out of stock.

    The ORM tables become the fields of one `Store` object; each request is
    one method call, run to completion before the next one starts. */
module CartStore {

  type UserId = nat
  type SellerProductId = nat

  /** A seller product row joined with its product's purchase cap
      (`sellerProduct` with `include: [Product]`). */
  datatype Listing = Listing(productId: nat, price: int, stock: int, maxBuy: nat)

  /** A cart item row; the cart it belongs to is the key it is stored under. */
  datatype CartLine = CartLine(sellerProductId: SellerProductId, quantity: int)

  /** An order header as written by `Order.create`. */
  datatype Order = Order(orderId: nat, userId: UserId, orderDate: nat, totalPrice: int, statusId: nat)

  datatype OrderItem = OrderItem(orderId: nat, sellerProductId: SellerProductId, quantity: int)

  /** What a handler answers. `ServerError` is every path that ends in the
      handler's `catch` (status 500); the others are the explicit replies. */
  datatype Outcome =
    | ItemAdded
    | ItemDecreased
    | ItemRemoved
    | OrderPlaced(order: Order)
    | UserNotFound
    | ProductNotFound
    | CartNotFound
    | ItemNotFound
    | LimitReached
    | CartEmpty
    | ServerError

  /** The status id every new order gets. */
  const PendingStatus: nat := 1

  // ---------------------------------------------------------------------
  // Add-to-cart ceiling

  /** The most a cart line may hold: the stock when it is below the
      product's cap, the cap otherwise. */
  function Ceiling(stock: int, maxBuy: nat): (c: int)
    ensures c <= stock && c <= maxBuy
    ensures c == stock || c == maxBuy
  {
    if stock < maxBuy then stock else maxBuy
  }

  // ---------------------------------------------------------------------
  // Cart lines

  /** At most one line per seller product in a cart. */
  ghost predicate DistinctProducts(lines: seq<CartLine>)
  {
    forall i, j :: 0 <= i < j < |lines| ==> lines[i].sellerProductId != lines[j].sellerProductId
  }

  /** The position of the line for seller product `id`, or -1 when the cart
      has none (`CartItem.findOne`). */
  function IndexOf(lines: seq<CartLine>, id: SellerProductId): (i: int)
    ensures -1 <= i < |lines|
    ensures 0 <= i ==> lines[i].sellerProductId == id
    ensures 0 <= i ==> forall k :: 0 <= k < i ==> lines[k].sellerProductId != id
    ensures i < 0 <==> forall k :: 0 <= k < |lines| ==> lines[k].sellerProductId != id
  {
    if |lines| == 0 then -1
    else if lines[0].sellerProductId == id then 0
    else
      var j := IndexOf(lines[1..], id);
      if j < 0 then -1 else j + 1
  }

  /** The cart with the row at position `i` destroyed. */
  function RemoveAt(lines: seq<CartLine>, i: nat): (r: seq<CartLine>)
    requires i < |lines|
    ensures |r| == |lines| - 1
    ensures forall k :: 0 <= k < i ==> r[k] == lines[k]
    ensures forall k :: i <= k < |r| ==> r[k] == lines[k + 1]
  {
    lines[..i] + lines[i + 1..]
  }

  /** The cart without any line for seller product `id`. */
  function Without(lines: seq<CartLine>, id: SellerProductId): (r: seq<CartLine>)
    ensures forall l :: l in r <==> l in lines && l.sellerProductId != id
    ensures |r| <= |lines|
  {
    if |lines| == 0 then []
    else (if lines[0].sellerProductId == id then [] else [lines[0]]) + Without(lines[1..], id)
  }

  /** In a cart with one line per product, destroying the row found for
      `id` is the same as dropping every line for `id`. */
  lemma {:induction false} RemoveAtIsWithout(lines: seq<CartLine>, i: nat, id: SellerProductId)
    requires DistinctProducts(lines)
    requires i < |lines| && lines[i].sellerProductId == id
    ensures RemoveAt(lines, i) == Without(lines, id)
  {
    var rest := lines[1..];
    if i == 0 {
      assert forall k :: 0 <= k < |rest| ==> rest[k].sellerProductId != id by {
        assert forall k :: 0 <= k < |rest| ==> rest[k] == lines[k + 1];
      }
      NoneWithout(rest, id);
      assert RemoveAt(lines, i) == rest;
    } else {
      assert DistinctProducts(rest) by {
        assert forall k :: 0 <= k < |rest| ==> rest[k] == lines[k + 1];
      }
      calc {
        RemoveAt(lines, i);
        { assert lines[..i] == [lines[0]] + rest[..i - 1]; assert lines[i + 1..] == rest[i..]; }
        [lines[0]] + RemoveAt(rest, i - 1);
        { RemoveAtIsWithout(rest, i - 1, id); }
        [lines[0]] + Without(rest, id);
        { assert lines[0].sellerProductId != id; }
        Without(lines, id);
      }
    }
  }

  lemma {:induction false} NoneWithout(lines: seq<CartLine>, id: SellerProductId)
    requires forall k :: 0 <= k < |lines| ==> lines[k].sellerProductId != id
    ensures Without(lines, id) == lines
  {
    if |lines| > 0 {
      NoneWithout(lines[1..], id);
      assert lines == [lines[0]] + lines[1..];
    }
  }

  /** Dropping lines keeps the cart at one line per product. */
  lemma {:induction false} WithoutKeepsDistinct(lines: seq<CartLine>, id: SellerProductId)
    requires DistinctProducts(lines)
    ensures DistinctProducts(Without(lines, id))
  {
    if |lines| > 0 {
      WithoutKeepsDistinct(lines[1..], id);
      var rest := Without(lines[1..], id);
      forall l | l in rest
        ensures l.sellerProductId != lines[0].sellerProductId
      {
        var k :| 0 <= k < |lines[1..]| && lines[1..][k] == l;
        assert lines[k + 1] == l;
      }
    }
  }

  /** Changing the quantity of one line keeps the cart at one line per product. */
  lemma SetQuantityKeepsDistinct(lines: seq<CartLine>, i: nat, q: int)
    requires DistinctProducts(lines) && i < |lines|
    ensures DistinctProducts(lines[i := CartLine(lines[i].sellerProductId, q)])
  {
  }

  // ---------------------------------------------------------------------
  // Checkout arithmetic

  /** Every line names a seller product that exists. */
  ghost predicate Priced(lines: seq<CartLine>, listings: map<SellerProductId, Listing>)
  {
    forall k :: 0 <= k < |lines| ==> lines[k].sellerProductId in listings
  }

  /** The order total: quantity times price, summed over the lines from the
      first to the last, as the `reduce` computes it. */
  function TotalPrice(lines: seq<CartLine>, listings: map<SellerProductId, Listing>): int
    requires Priced(lines, listings)
  {
    if |lines| == 0 then 0
    else
      var last := lines[|lines| - 1];
      TotalPrice(lines[..|lines| - 1], listings) + last.quantity * listings[last.sellerProductId].price
  }

  /** The total of a cart is the total of any split of it into two parts. */
  lemma {:induction false} TotalPriceAppend(a: seq<CartLine>, b: seq<CartLine>, listings: map<SellerProductId, Listing>)
    requires Priced(a, listings) && Priced(b, listings)
    ensures Priced(a + b, listings)
    ensures TotalPrice(a + b, listings) == TotalPrice(a, listings) + TotalPrice(b, listings)
    decreases |b|
  {
    if |b| > 0 {
      var b' := b[..|b| - 1];
      assert (a + b)[..|a + b| - 1] == a + b';
      TotalPriceAppend(a, b', listings);
    } else {
      assert a + b == a;
    }
  }

  /** With non-negative quantities and prices the total is non-negative and
      at least the subtotal of every single line. */
  lemma {:induction false} TotalPriceBounds(lines: seq<CartLine>, listings: map<SellerProductId, Listing>, k: nat)
    requires Priced(lines, listings) && k < |lines|
    requires forall j :: 0 <= j < |lines| ==> lines[j].quantity >= 0 && listings[lines[j].sellerProductId].price >= 0
    ensures TotalPrice(lines, listings) >= lines[k].quantity * listings[lines[k].sellerProductId].price >= 0
  {
    var n := |lines|;
    if k < n - 1 {
      TotalPriceBounds(lines[..n - 1], listings, k);
    } else if n > 1 {
      TotalPriceBounds(lines[..n - 1], listings, 0);
    }
  }

  /** The order items written for the lines of a cart, one per line. */
  function OrderItemsFor(orderId: nat, lines: seq<CartLine>): (items: seq<OrderItem>)
    ensures |items| == |lines|
    ensures forall k :: 0 <= k < |lines| ==>
      items[k].orderId == orderId && items[k].sellerProductId == lines[k].sellerProductId && items[k].quantity == lines[k].quantity
  {
    seq(|lines|, k requires 0 <= k < |lines| => OrderItem(orderId, lines[k].sellerProductId, lines[k].quantity))
  }

  ghost predicate StockNonNegative(listings: map<SellerProductId, Listing>)
  {
    forall id | id in listings :: listings[id].stock >= 0
  }

  /** The seller products after the stock step of checkout, and whether every
      line found enough stock. */
  datatype Settlement = Settlement(listings: map<SellerProductId, Listing>, allInStock: bool)

  /** The stock step for one line: take the quantity out of stock when the
      seller product exists and holds at least that much, fail otherwise. */
  function SettleLine(listings: map<SellerProductId, Listing>, line: CartLine): (s: Settlement)
    ensures s.allInStock <==> Covered(listings, line)
    ensures s.listings.Keys == listings.Keys
    ensures !s.allInStock ==> s.listings == listings
    ensures s.allInStock ==> s.listings[line.sellerProductId].stock == listings[line.sellerProductId].stock - line.quantity >= 0
  {
    var id := line.sellerProductId;
    if id in listings && listings[id].stock >= line.quantity then
      Settlement(listings[id := listings[id].(stock := listings[id].stock - line.quantity)], true)
    else
      Settlement(listings, false)
  }

  /** The stock step for every line, from the first to the last, each line
      handled on its own whatever happened to the others. */
  function Settle(listings: map<SellerProductId, Listing>, lines: seq<CartLine>): (s: Settlement)
    ensures s.listings.Keys == listings.Keys
  {
    if |lines| == 0 then Settlement(listings, true)
    else
      var before := Settle(listings, lines[..|lines| - 1]);
      var after := SettleLine(before.listings, lines[|lines| - 1]);
      Settlement(after.listings, before.allInStock && after.allInStock)
  }

  /** Checkout changes nothing about a seller product but its stock. */
  lemma {:induction false} SettleChangesOnlyStock(listings: map<SellerProductId, Listing>, lines: seq<CartLine>)
    ensures forall id | id in listings ::
      Settle(listings, lines).listings[id] == listings[id].(stock := Settle(listings, lines).listings[id].stock)
  {
    if |lines| > 0 {
      SettleChangesOnlyStock(listings, lines[..|lines| - 1]);
    }
  }

  /** The stock step over the first `i + 1` lines is the step over the first
      `i` lines followed by line `i`. */
  lemma SettlePrefixStep(listings: map<SellerProductId, Listing>, lines: seq<CartLine>, i: nat)
    requires i < |lines|
    ensures var before := Settle(listings, lines[..i]);
      var after := SettleLine(before.listings, lines[i]);
      Settle(listings, lines[..i + 1]) == Settlement(after.listings, before.allInStock && after.allInStock)
  {
    assert lines[..i + 1][..i] == lines[..i];
  }

  lemma OrderItemsPrefixStep(orderId: nat, lines: seq<CartLine>, i: nat)
    requires i < |lines|
    ensures OrderItemsFor(orderId, lines[..i + 1])
      == OrderItemsFor(orderId, lines[..i]) + [OrderItem(orderId, lines[i].sellerProductId, lines[i].quantity)]
  {
  }

  /** Checkout never drives a stock below zero. */
  lemma {:induction false} SettleKeepsStockNonNegative(listings: map<SellerProductId, Listing>, lines: seq<CartLine>)
    requires StockNonNegative(listings)
    ensures StockNonNegative(Settle(listings, lines).listings)
  {
    if |lines| > 0 {
      SettleKeepsStockNonNegative(listings, lines[..|lines| - 1]);
    }
  }

  /** `line`'s seller product exists in `listings` and holds at least the
      line's quantity in stock. */
  ghost predicate Covered(listings: map<SellerProductId, Listing>, line: CartLine)
  {
    line.sellerProductId in listings && listings[line.sellerProductId].stock >= line.quantity
  }

  /** A seller product no line names keeps its row through checkout. */
  lemma {:induction false} SettleUntouched(listings: map<SellerProductId, Listing>, lines: seq<CartLine>, id: SellerProductId)
    requires id in listings
    requires forall k :: 0 <= k < |lines| ==> lines[k].sellerProductId != id
    ensures Settle(listings, lines).listings[id] == listings[id]
  {
    if |lines| > 0 {
      SettleUntouched(listings, lines[..|lines| - 1], id);
    }
  }

  /** In a cart with one line per product, checkout succeeds exactly when
      every line is covered by the stock it started from. */
  lemma {:induction false} SettleSucceedsIff(listings: map<SellerProductId, Listing>, lines: seq<CartLine>)
    requires DistinctProducts(lines)
    ensures Settle(listings, lines).allInStock <==> forall k :: 0 <= k < |lines| ==> Covered(listings, lines[k])
  {
    var n := |lines|;
    if n > 0 {
      var prefix := lines[..n - 1];
      var last := lines[n - 1];
      assert DistinctProducts(prefix);
      SettleSucceedsIff(listings, prefix);
      if last.sellerProductId in listings {
        SettleUntouched(listings, prefix, last.sellerProductId);
      }
      assert Covered(Settle(listings, prefix).listings, last) == Covered(listings, last);
      assert forall k :: 0 <= k < n - 1 ==> lines[k] == prefix[k];
    }
  }

  /** In a cart with one line per product, a covered line's stock drops by
      exactly its quantity and an uncovered line's stock stays as it was. */
  lemma {:induction false} SettleLineStock(listings: map<SellerProductId, Listing>, lines: seq<CartLine>)
    requires DistinctProducts(lines)
    ensures forall k | 0 <= k < |lines| ::
      var id := lines[k].sellerProductId;
      id in listings ==>
        Settle(listings, lines).listings[id].stock
          == if Covered(listings, lines[k]) then listings[id].stock - lines[k].quantity else listings[id].stock
  {
    var n := |lines|;
    if n > 0 {
      var prefix := lines[..n - 1];
      var last := lines[n - 1];
      assert DistinctProducts(prefix);
      SettleLineStock(listings, prefix);
      var before := Settle(listings, prefix).listings;
      if last.sellerProductId in listings {
        SettleUntouched(listings, prefix, last.sellerProductId);
      }
      forall k | 0 <= k < n - 1 && lines[k].sellerProductId in listings
        ensures Settle(listings, lines).listings[lines[k].sellerProductId] == before[lines[k].sellerProductId]
      {
        assert lines[k] == prefix[k];
      }
    }
  }

  /** The whole effect of checkout on stock, for a cart with one line per
      product: success exactly when every line is covered, each covered line
      taken out of stock, everything else left as it was. */
  lemma SettleEffect(listings: map<SellerProductId, Listing>, lines: seq<CartLine>)
    requires DistinctProducts(lines)
    ensures Settle(listings, lines).allInStock <==> forall k :: 0 <= k < |lines| ==> Covered(listings, lines[k])
    ensures forall k | 0 <= k < |lines| ::
      var id := lines[k].sellerProductId;
      id in listings ==>
        Settle(listings, lines).listings[id].stock
          == if Covered(listings, lines[k]) then listings[id].stock - lines[k].quantity else listings[id].stock
    ensures forall id | id in listings && (forall k :: 0 <= k < |lines| ==> lines[k].sellerProductId != id) ::
      Settle(listings, lines).listings[id] == listings[id]
  {
    SettleSucceedsIff(listings, lines);
    SettleLineStock(listings, lines);
    forall id | id in listings && (forall k :: 0 <= k < |lines| ==> lines[k].sellerProductId != id)
      ensures Settle(listings, lines).listings[id] == listings[id]
    {
      SettleUntouched(listings, lines, id);
    }
  }

  /** Checkout is not all-or-nothing: with one line in stock and one short,
      the stock step fails, yet the first line's stock is already taken. */
  lemma PartialCheckout()
    ensures var listings := map[1 := Listing(10, 5, 5, 9), 2 := Listing(11, 5, 1, 9)];
      var lines := [CartLine(1, 1), CartLine(2, 3)];
      Settle(listings, lines) == Settlement(listings[1 := Listing(10, 5, 4, 9)], false)
  {
    var listings := map[1 := Listing(10, 5, 5, 9), 2 := Listing(11, 5, 1, 9)];
    var lines := [CartLine(1, 1), CartLine(2, 3)];
    assert lines[..1][..0] == [];
    assert lines[..1] == [CartLine(1, 1)];
    assert Settle(listings, lines[..1]) == Settlement(listings[1 := Listing(10, 5, 4, 9)], true);
  }

  // ---------------------------------------------------------------------
  // The store

  /** The tables the cart and order handlers read and write. */
  class Store {
    /** Users that exist (`User.findOne` by the authenticated e-mail). */
    var users: set<UserId>
    /** Seller products by id, with their product's cap. */
    var listings: map<SellerProductId, Listing>
    /** The cart of each user that has one, as its lines in row order. */
    var carts: map<UserId, seq<CartLine>>
    var orders: seq<Order>
    var orderItems: seq<OrderItem>

    ghost predicate Valid()
      reads this
    {
      && StockNonNegative(listings)
      && (forall u | u in carts :: DistinctProducts(carts[u]))
    }

    constructor (users: set<UserId>, listings: map<SellerProductId, Listing>, carts: map<UserId, seq<CartLine>>)
      requires StockNonNegative(listings)
      requires forall u | u in carts :: DistinctProducts(carts[u])
      ensures Valid()
      ensures this.users == users && this.listings == listings && this.carts == carts
      ensures orders == [] && orderItems == []
    {
      this.users := users;
      this.listings := listings;
      this.carts := carts;
      orders := [];
      orderItems := [];
    }

    /** `addItem`: the cart is created when the user has none; an existing
        line is overwritten with the requested quantity when the old quantity
        plus the request stays strictly below the ceiling, and left alone
        otherwise; a seller product not yet in the cart ends in the handler's
        catch, because the code reads the quantity of the line it did not find. */
    method AddItem(user: UserId, id: SellerProductId, quantity: int) returns (r: Outcome)
      requires Valid()
      modifies this
      ensures Valid()
      ensures users == old(users) && listings == old(listings)
      ensures orders == old(orders) && orderItems == old(orderItems)
      ensures r == UserNotFound <==> user !in users
      ensures r == ProductNotFound <==> user in users && id !in listings
      ensures r.UserNotFound? || r.ProductNotFound? ==> carts == old(carts)
      ensures user in users && id in listings ==>
        var lines := if user in old(carts) then old(carts)[user] else [];
        var i := IndexOf(lines, id);
        var ceiling := Ceiling(listings[id].stock, listings[id].maxBuy);
        if i < 0 then
          r == ServerError && carts == old(carts)[user := lines]
        else if lines[i].quantity + quantity < ceiling then
          r == ItemAdded && carts == old(carts)[user := lines[i := CartLine(id, quantity)]]
          && (lines[i].quantity >= 0 ==> quantity < ceiling)
        else
          r == LimitReached && carts == old(carts)
    {
      if user !in users {
        return UserNotFound;
      }
      if id !in listings {
        return ProductNotFound;
      }
      var sp := listings[id];
      var maxQuantityAllowed := Ceiling(sp.stock, sp.maxBuy);
      if user !in carts {
        carts := carts[user := []];
      }
      var lines := carts[user];
      var i := IndexOf(lines, id);
      if 0 <= i {
        if lines[i].quantity + quantity < maxQuantityAllowed {
          SetQuantityKeepsDistinct(lines, i, quantity);
          carts := carts[user := lines[i := CartLine(id, quantity)]];
          r := ItemAdded;
        } else {
          r := LimitReached;
        }
      } else {
        r := ServerError;
      }
    }

    /** `deleteItem`: removes the user's line for the seller product. */
    method DeleteItem(user: UserId, id: SellerProductId) returns (r: Outcome)
      requires Valid()
      modifies this
      ensures Valid()
      ensures users == old(users) && listings == old(listings)
      ensures orders == old(orders) && orderItems == old(orderItems)
      ensures user !in users ==> r == ServerError && carts == old(carts)
      ensures user in users && user !in old(carts) ==> r == CartNotFound && carts == old(carts)
      ensures user in users && user in old(carts) ==>
        var lines := old(carts)[user];
        if IndexOf(lines, id) < 0 then
          r == ItemNotFound && carts == old(carts)
        else
          r == ItemRemoved && carts == old(carts)[user := Without(lines, id)]
          && |carts[user]| == |lines| - 1
    {
      if user !in users {
        return ServerError;
      }
      if user !in carts {
        return CartNotFound;
      }
      var lines := carts[user];
      var i := IndexOf(lines, id);
      if i < 0 {
        return ItemNotFound;
      }
      RemoveAtIsWithout(lines, i, id);
      WithoutKeepsDistinct(lines, id);
      carts := carts[user := RemoveAt(lines, i)];
      r := ItemRemoved;
    }

    /** `increaseItem`, which despite its name takes one unit off the line,
        and removes the line when it holds one unit or fewer. */
    method IncreaseItem(user: UserId, id: SellerProductId) returns (r: Outcome)
      requires Valid()
      modifies this
      ensures Valid()
      ensures users == old(users) && listings == old(listings)
      ensures orders == old(orders) && orderItems == old(orderItems)
      ensures user !in users ==> r == ServerError && carts == old(carts)
      ensures user in users && user !in old(carts) ==> r == CartNotFound && carts == old(carts)
      ensures user in users && user in old(carts) ==>
        var lines := old(carts)[user];
        var i := IndexOf(lines, id);
        if i < 0 then
          r == ItemNotFound && carts == old(carts)
        else if lines[i].quantity > 1 then
          r == ItemDecreased && carts == old(carts)[user := lines[i := CartLine(id, lines[i].quantity - 1)]]
        else
          r == ItemRemoved && carts == old(carts)[user := Without(lines, id)]
    {
      if user !in users {
        return ServerError;
      }
      if user !in carts {
        return CartNotFound;
      }
      var lines := carts[user];
      var i := IndexOf(lines, id);
      if i < 0 {
        return ItemNotFound;
      }
      if lines[i].quantity > 1 {
        SetQuantityKeepsDistinct(lines, i, lines[i].quantity - 1);
        carts := carts[user := lines[i := CartLine(id, lines[i].quantity - 1)]];
        r := ItemDecreased;
      } else {
        RemoveAtIsWithout(lines, i, id);
        WithoutKeepsDistinct(lines, id);
        carts := carts[user := RemoveAt(lines, i)];
        r := ItemRemoved;
      }
    }

    /** The per-line work of `createOrder` (the `cartItems.map` callback):
        each line gets its order item, then its stock decrement when the
        seller product exists and holds at least the line's quantity. A line
        without enough stock does not stop the lines after it. */
    method WriteOrderItems(orderId: nat, lines: seq<CartLine>) returns (allInStock: bool)
      requires Valid()
      modifies this
      ensures Valid()
      ensures users == old(users) && carts == old(carts) && orders == old(orders)
      ensures Settlement(listings, allInStock) == Settle(old(listings), lines)
      ensures orderItems == old(orderItems) + OrderItemsFor(orderId, lines)
    {
      var i := 0;
      allInStock := true;
      assert lines[..0] == [];
      while i < |lines|
        invariant 0 <= i <= |lines|
        invariant Settle(old(listings), lines[..i]) == Settlement(listings, allInStock)
        invariant orderItems == old(orderItems) + OrderItemsFor(orderId, lines[..i])
        invariant users == old(users) && carts == old(carts) && orders == old(orders)
      {
        var line := lines[i];
        SettlePrefixStep(old(listings), lines, i);
        OrderItemsPrefixStep(orderId, lines, i);
        orderItems := orderItems + [OrderItem(orderId, line.sellerProductId, line.quantity)];
        var id := line.sellerProductId;
        if id in listings && listings[id].stock >= line.quantity {
          listings := listings[id := listings[id].(stock := listings[id].stock - line.quantity)];
        } else {
          allInStock := false;
        }
        i := i + 1;
      }
      assert lines[..i] == lines;
      SettleKeepsStockNonNegative(old(listings), lines);
    }

    /** `createOrder`: an empty or missing cart is refused; otherwise the
        order header is written first, then every line gets its order item
        and, when stock allows, its stock decrement. The cart is emptied only
        when every line found enough stock; on a failure the header, the
        order items and the decrements already made all stay. */
    method CreateOrder(user: UserId, now: nat) returns (r: Outcome)
      requires Valid()
      modifies this
      ensures Valid()
      ensures users == old(users)
      ensures r == UserNotFound <==> user !in users
      ensures r == CartEmpty <==> user in users && (user !in old(carts) || old(carts)[user] == [])
      ensures r.UserNotFound? || r.CartEmpty? ==>
        listings == old(listings) && carts == old(carts) && orders == old(orders) && orderItems == old(orderItems)
      ensures user in users && user in old(carts) && old(carts)[user] != [] && !Priced(old(carts)[user], old(listings)) ==>
        r == ServerError
        && listings == old(listings) && carts == old(carts) && orders == old(orders) && orderItems == old(orderItems)
      ensures user in users && user in old(carts) && old(carts)[user] != [] && Priced(old(carts)[user], old(listings)) ==>
        var lines := old(carts)[user];
        var order := Order(|old(orders)| + 1, user, now, TotalPrice(lines, old(listings)), PendingStatus);
        var s := Settle(old(listings), lines);
        && orders == old(orders) + [order]
        && orderItems == old(orderItems) + OrderItemsFor(order.orderId, lines)
        && listings == s.listings
        && (s.allInStock ==> r == OrderPlaced(order) && carts == old(carts)[user := []])
        && (!s.allInStock ==> r == ServerError && carts == old(carts))
    {
      if user !in users {
        return UserNotFound;
      }
      if user !in carts || |carts[user]| == 0 {
        return CartEmpty;
      }
      var lines := carts[user];
      if exists k :: 0 <= k < |lines| && lines[k].sellerProductId !in listings {
        // the total's `item.sellerProduct.price` fails on a missing row
        return ServerError;
      }
      var order := Order(|orders| + 1, user, now, TotalPrice(lines, listings), PendingStatus);
      orders := orders + [order];

      var allInStock := WriteOrderItems(order.orderId, lines);
      if allInStock {
        carts := carts[user := []];
        r := OrderPlaced(order);
      } else {
        r := ServerError;
      }
    }
  }
}
