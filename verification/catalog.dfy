/** The product listing of `getProducts` (userController.js): of the active
    seller products, returned by the database in ascending price order, keep
    one per product, the cheapest, and mark each with the caller's favourite
    flag and a stock label. */
module Catalog {
  import opened Common
  import opened CartStore

  /** A seller product row as the catalog query returns it. */
  datatype Row = Row(sellerProductId: SellerProductId, listing: Listing)

  function Pid(r: Row): nat
  {
    r.listing.productId
  }

  function Price(r: Row): int
  {
    r.listing.price
  }

  /** The product ids that occur in `rows`. */
  ghost function ProductIds(rows: seq<Row>): set<nat>
  {
    set k | 0 <= k < |rows| :: Pid(rows[k])
  }

  lemma ProductIdsSnoc(rows: seq<Row>, r: Row)
    ensures ProductIds(rows + [r]) == ProductIds(rows) + {Pid(r)}
  {
    var a := rows + [r];
    forall id | id in ProductIds(a)
      ensures id in ProductIds(rows) + {Pid(r)}
    {
      var k :| 0 <= k < |a| && Pid(a[k]) == id;
      if k < |rows| {
        assert a[k] == rows[k];
      }
    }
    forall id | id in ProductIds(rows)
      ensures id in ProductIds(a)
    {
      var k :| 0 <= k < |rows| && Pid(rows[k]) == id;
      assert a[k] == rows[k];
    }
    assert Pid(a[|rows|]) == Pid(r);
  }

  // ---------------------------------------------------------------------
  // The `forEach` over the rows, as two left folds: the order in which the
  // Map first sees each product id, and the row the Map holds for it.

  /** Product ids in the order the Map first receives them. */
  function FirstSeen(rows: seq<Row>): (ids: seq<nat>)
  {
    if |rows| == 0 then []
    else
      var ids := FirstSeen(rows[..|rows| - 1]);
      var id := Pid(rows[|rows| - 1]);
      if id in ids then ids else ids + [id]
  }

  /** The row the Map holds for each product id: a row replaces the held one
      only when it is strictly cheaper. */
  function Cheapest(rows: seq<Row>): (best: map<nat, Row>)
  {
    if |rows| == 0 then map[]
    else
      var best := Cheapest(rows[..|rows| - 1]);
      var r := rows[|rows| - 1];
      if Pid(r) !in best || Price(r) < Price(best[Pid(r)]) then best[Pid(r) := r] else best
  }

  /** The first-seen ids are the product ids of the rows, each once. */
  lemma {:induction false} FirstSeenIds(rows: seq<Row>)
    ensures forall i, j :: 0 <= i < j < |FirstSeen(rows)| ==> FirstSeen(rows)[i] != FirstSeen(rows)[j]
    ensures forall id :: id in FirstSeen(rows) <==> id in ProductIds(rows)
  {
    if |rows| > 0 {
      var prefix := rows[..|rows| - 1];
      FirstSeenIds(prefix);
      ProductIdsSnoc(prefix, rows[|rows| - 1]);
      assert prefix + [rows[|rows| - 1]] == rows;
    }
  }

  /** An id comes before another in first-seen order exactly when the
      earlier one occurs in the rows before any occurrence of the later one. */
  lemma {:induction false} FirstSeenOrder(rows: seq<Row>)
    ensures forall i, j, k | 0 <= i < j < |FirstSeen(rows)| && 0 <= k < |rows| && Pid(rows[k]) == FirstSeen(rows)[j] ::
      FirstSeen(rows)[i] in ProductIds(rows[..k])
  {
    if |rows| > 0 {
      var n := |rows| - 1;
      var prefix := rows[..n];
      FirstSeenOrder(prefix);
      FirstSeenIds(prefix);
      var ids := FirstSeen(prefix);
      var ids' := FirstSeen(rows);
      forall i, j, k | 0 <= i < j < |ids'| && 0 <= k < |rows| && Pid(rows[k]) == ids'[j]
        ensures ids'[i] in ProductIds(rows[..k])
      {
        assert ids'[i] == ids[i];
        if k < n {
          assert rows[..k] == prefix[..k];
          assert prefix[k] == rows[k];
          assert Pid(prefix[k]) in ProductIds(prefix);
          assert j < |ids|;
          assert ids'[j] == ids[j];
        } else {
          assert rows[..k] == prefix;
          assert ids[i] in ProductIds(prefix);
        }
      }
    }
  }

  /** The Map holds one row for each product id of the rows, a row of that
      product. */
  lemma {:induction false} CheapestHeld(rows: seq<Row>)
    ensures Cheapest(rows).Keys == ProductIds(rows)
    ensures forall id | id in Cheapest(rows) :: Pid(Cheapest(rows)[id]) == id && Cheapest(rows)[id] in rows
  {
    if |rows| > 0 {
      var n := |rows| - 1;
      var prefix := rows[..n];
      var r := rows[n];
      CheapestHeld(prefix);
      ProductIdsSnoc(prefix, r);
      assert prefix + [r] == rows;
      var m := Cheapest(prefix);
      var m' := Cheapest(rows);
      forall id | id in m'
        ensures Pid(m'[id]) == id && m'[id] in rows
      {
        if id != Pid(r) || m'[id] != r {
          assert m'[id] == m[id];
          assert m[id] in prefix;
        }
      }
    }
  }

  /** The price facts of the held rows over `rows`. */
  ghost predicate FirstLowest(rows: seq<Row>)
    requires Cheapest(rows).Keys == ProductIds(rows)
  {
    forall k | 0 <= k < |rows| ::
      && Pid(rows[k]) in ProductIds(rows)
      && Price(Cheapest(rows)[Pid(rows[k])]) <= Price(rows[k])
      && (Price(rows[k]) <= Price(Cheapest(rows)[Pid(rows[k])]) ==> Cheapest(rows)[Pid(rows[k])] in rows[..k + 1])
  }

  /** Row `k` of `prefix + [r]` after the Map has seen `r`, from the facts
      about the rows the Map held before. */
  lemma CheapestStep(prefix: seq<Row>, r: Row, k: nat)
    requires k <= |prefix|
    requires k < |prefix| ==>
      && Pid(prefix[k]) in Cheapest(prefix)
      && Price(Cheapest(prefix)[Pid(prefix[k])]) <= Price(prefix[k])
      && (Price(prefix[k]) <= Price(Cheapest(prefix)[Pid(prefix[k])]) ==> Cheapest(prefix)[Pid(prefix[k])] in prefix[..k + 1])
    requires Pid(r) in Cheapest(prefix) ==> Cheapest(prefix)[Pid(r)] in prefix
    ensures var rows := prefix + [r];
      var m' := Cheapest(rows);
      && Pid(rows[k]) in m'
      && Price(m'[Pid(rows[k])]) <= Price(rows[k])
      && (Price(rows[k]) <= Price(m'[Pid(rows[k])]) ==> m'[Pid(rows[k])] in rows[..k + 1])
  {
    var rows := prefix + [r];
    assert rows[..|prefix|] == prefix;
    var m := Cheapest(prefix);
    var m' := Cheapest(rows);
    assert m' == if Pid(r) !in m || Price(r) < Price(m[Pid(r)]) then m[Pid(r) := r] else m;
    var pid := Pid(rows[k]);
    if k < |prefix| {
      assert rows[k] == prefix[k];
      assert rows[..k + 1] == prefix[..k + 1];
    } else {
      assert rows[..k + 1] == rows;
    }
  }

  /** No row of a product is cheaper than the held one, and the held one
      comes no later than any other row of it that is as cheap. */
  lemma {:induction false} CheapestLowest(rows: seq<Row>)
    ensures Cheapest(rows).Keys == ProductIds(rows)
    ensures FirstLowest(rows)
  {
    CheapestHeld(rows);
    if |rows| > 0 {
      var n := |rows| - 1;
      var prefix := rows[..n];
      var r := rows[n];
      CheapestLowest(prefix);
      CheapestHeld(prefix);
      assert prefix + [r] == rows;
      var m := Cheapest(prefix);
      assert Pid(r) in m ==> m[Pid(r)] in prefix;
      forall k | 0 <= k < |rows|
        ensures Pid(rows[k]) in ProductIds(rows)
        ensures Price(Cheapest(rows)[Pid(rows[k])]) <= Price(rows[k])
        ensures Price(rows[k]) <= Price(Cheapest(rows)[Pid(rows[k])]) ==> Cheapest(rows)[Pid(rows[k])] in rows[..k + 1]
      {
        if k < n {
          assert prefix[k] == rows[k];
        }
        CheapestStep(prefix, r, k);
      }
    }
  }

  /** The held row for each id is a row of that product, no row of it is
      cheaper, and it comes no later than any other row of it that is as cheap:
      the first of the cheapest. */
  lemma CheapestIsFirstLowest(rows: seq<Row>)
    ensures Cheapest(rows).Keys == ProductIds(rows)
    ensures forall id | id in Cheapest(rows) :: Pid(Cheapest(rows)[id]) == id && Cheapest(rows)[id] in rows
    ensures forall k | 0 <= k < |rows| :: Price(Cheapest(rows)[Pid(rows[k])]) <= Price(rows[k])
    ensures forall k | 0 <= k < |rows| && Price(rows[k]) <= Price(Cheapest(rows)[Pid(rows[k])]) ::
      Cheapest(rows)[Pid(rows[k])] in rows[..k + 1]
  {
    CheapestHeld(rows);
    CheapestLowest(rows);
  }

  /** `getProducts`' deduplication: the `forEach` that fills a Map keyed by
      product id, followed by `Array.from(map.values())`. The result holds
      exactly one row per product id of the input, in the order the ids first
      occur; each is a row of the input, the cheapest of its product, and of
      equally cheap rows the earliest. */
  method UniqueLowestPrice(rows: seq<Row>) returns (result: seq<Row>)
    ensures forall i, j :: 0 <= i < j < |result| ==> Pid(result[i]) != Pid(result[j])
    ensures ProductIds(result) == ProductIds(rows)
    ensures forall i :: 0 <= i < |result| ==> result[i] in rows
    ensures forall i, k :: 0 <= i < |result| && 0 <= k < |rows| && Pid(rows[k]) == Pid(result[i]) ==>
      Price(result[i]) <= Price(rows[k]) && (Price(rows[k]) == Price(result[i]) ==> result[i] in rows[..k + 1])
    ensures forall i, j, k :: 0 <= i < j < |result| && 0 <= k < |rows| && Pid(rows[k]) == Pid(result[j]) ==>
      Pid(result[i]) in ProductIds(rows[..k])
  {
    var seen, best := FillMap(rows);
    assert forall i :: 0 <= i < |seen| ==> seen[i] in best by {
      FirstSeenIds(rows);
      CheapestIsFirstLowest(rows);
    }
    result := [];
    for i := 0 to |seen|
      invariant |result| == i
      invariant forall j :: 0 <= j < i ==> result[j] == best[seen[j]]
    {
      result := result + [best[seen[i]]];
    }
    UniqueRows(rows, result);
  }

  /** The `forEach` that fills the Map: `seen` is the Map's key order,
      `best` its contents. */
  method FillMap(rows: seq<Row>) returns (seen: seq<nat>, best: map<nat, Row>)
    ensures seen == FirstSeen(rows) && best == Cheapest(rows)
  {
    seen, best := [], map[];
    for i := 0 to |rows|
      invariant seen == FirstSeen(rows[..i])
      invariant best == Cheapest(rows[..i])
    {
      assert rows[..i + 1][..i] == rows[..i];
      var r := rows[i];
      assert Pid(r) in best <==> Pid(r) in seen by {
        FirstSeenIds(rows[..i]);
        CheapestIsFirstLowest(rows[..i]);
      }
      if Pid(r) !in best || Price(r) < Price(best[Pid(r)]) {
        if Pid(r) !in best {
          seen := seen + [Pid(r)];
        }
        best := best[Pid(r) := r];
      }
    }
    assert rows[..|rows|] == rows;
  }

  /** The rows the Map ends with, listed in first-seen order, are one per
      product, each the first of the cheapest of its product. */
  lemma UniqueRows(rows: seq<Row>, result: seq<Row>)
    requires |result| == |FirstSeen(rows)|
    requires forall i :: 0 <= i < |result| ==>
      FirstSeen(rows)[i] in Cheapest(rows) && result[i] == Cheapest(rows)[FirstSeen(rows)[i]]
    ensures forall i, j :: 0 <= i < j < |result| ==> Pid(result[i]) != Pid(result[j])
    ensures ProductIds(result) == ProductIds(rows)
    ensures forall i :: 0 <= i < |result| ==> result[i] in rows
    ensures forall i, k :: 0 <= i < |result| && 0 <= k < |rows| && Pid(rows[k]) == Pid(result[i]) ==>
      Price(result[i]) <= Price(rows[k]) && (Price(rows[k]) == Price(result[i]) ==> result[i] in rows[..k + 1])
    ensures forall i, j, k :: 0 <= i < j < |result| && 0 <= k < |rows| && Pid(rows[k]) == Pid(result[j]) ==>
      Pid(result[i]) in ProductIds(rows[..k])
  {
    var seen := FirstSeen(rows);
    FirstSeenIds(rows);
    FirstSeenOrder(rows);
    CheapestIsFirstLowest(rows);
    assert forall i :: 0 <= i < |result| ==> Pid(result[i]) == seen[i];
    forall id | id in ProductIds(rows)
      ensures id in ProductIds(result)
    {
      var i :| 0 <= i < |seen| && seen[i] == id;
      assert Pid(result[i]) == id;
    }
    forall id | id in ProductIds(result)
      ensures id in ProductIds(rows)
    {
      var i :| 0 <= i < |result| && Pid(result[i]) == id;
      assert seen[i] == id;
    }
  }

  // ---------------------------------------------------------------------
  // Favourite flag and stock label

  datatype StockStatus = InStock | OutOfStock

  datatype CatalogEntry = CatalogEntry(row: Row, isFavorite: bool, stockStatus: StockStatus)

  /** The stock label as intended: out of stock exactly when the stock is zero. */
  function StockStatusOf(l: Listing): (s: StockStatus)
    ensures s == OutOfStock <==> l.stock == 0
  {
    if l.stock == 0 then OutOfStock else InStock
  }

  /** The label as written: a strict comparison with zero of an attribute
      that may be undefined. */
  function StockStatusAsWritten(stockQuantity: Option<int>): StockStatus
  {
    if stockQuantity == Some(0) then OutOfStock else InStock
  }

  /** The attribute the label reads, `stock_quantity`: a seller product row
      carries its stock as `stock`, so this attribute is undefined. */
  function StockQuantityAttribute(l: Listing): Option<int>
  {
    None
  }

  /** As written, every seller product is labelled in stock, also one whose
      stock is zero, which the intended label calls out of stock. */
  lemma AsWrittenNeverOutOfStock(l: Listing)
    requires l.stock == 0
    ensures StockStatusAsWritten(StockQuantityAttribute(l)) == InStock
    ensures StockStatusOf(l) == OutOfStock
  {
  }

  /** The `map` over the unique rows: the favourite flag is membership of the
      product id in the user's favourites, the label comes from the stock. */
  function Annotate(rows: seq<Row>, favorites: seq<nat>): (entries: seq<CatalogEntry>)
    ensures |entries| == |rows|
    ensures forall i :: 0 <= i < |rows| ==>
      && entries[i].row == rows[i]
      && (entries[i].isFavorite <==> exists f :: 0 <= f < |favorites| && favorites[f] == Pid(rows[i]))
      && (entries[i].stockStatus == OutOfStock <==> rows[i].listing.stock == 0)
  {
    seq(|rows|, i requires 0 <= i < |rows| =>
      CatalogEntry(rows[i], Pid(rows[i]) in favorites, StockStatusOf(rows[i].listing)))
  }
}
