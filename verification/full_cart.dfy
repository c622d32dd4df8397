/** The cart page's grouping of cart items by seller (`groupItemsBySeller`
    in FullCart.js): items without a seller name are skipped, the others are
    collected per seller in cart order. */
module FullCart {
  import opened Common

  /** A cart item as the page holds it; only `sellerName` steers the grouping. */
  datatype CartItem = CartItem(id: nat, sellerName: Option<string>, quantity: int, price: int)

  /** A missing item, a missing seller name and an empty one are all skipped. */
  predicate Kept(x: Option<CartItem>)
  {
    x.Some? && x.value.sellerName.Some? && x.value.sellerName.value != ""
  }

  function SellerOf(x: Option<CartItem>): string
    requires Kept(x)
  {
    x.value.sellerName.value
  }

  /** The accumulator object: its keys in the order they were added, and the
      group under each key. */
  datatype Grouping = Grouping(sellers: seq<string>, groups: map<string, seq<CartItem>>)

  /** One step of the reduction. */
  function Place(g: Grouping, x: Option<CartItem>): (r: Grouping)
    ensures !Kept(x) ==> r == g
    ensures Kept(x) ==> r.sellers == g.sellers + if SellerOf(x) in g.groups then [] else [SellerOf(x)]
    ensures r.groups.Keys == g.groups.Keys + if Kept(x) then {SellerOf(x)} else {}
    ensures forall s | s in g.groups && (!Kept(x) || s != SellerOf(x)) :: r.groups[s] == g.groups[s]
    ensures Kept(x) ==>
      r.groups[SellerOf(x)] == (if SellerOf(x) in g.groups then g.groups[SellerOf(x)] else []) + [x.value]
  {
    if !Kept(x) then g
    else
      var s := SellerOf(x);
      if s in g.groups then g.(groups := g.groups[s := g.groups[s] + [x.value]])
      else Grouping(g.sellers + [s], g.groups[s := [x.value]])
  }

  /** `items.reduce(..., {})`, with an accumulator that has no inherited keys. */
  function GroupItemsBySeller(items: seq<Option<CartItem>>): (g: Grouping)
    ensures forall s :: s in g.groups <==> exists i :: 0 <= i < |items| && Kept(items[i]) && SellerOf(items[i]) == s
  {
    if |items| == 0 then Grouping([], map[])
    else Place(GroupItemsBySeller(items[..|items| - 1]), items[|items| - 1])
  }

  /** Reference definition: the kept items of `seller`, in cart order. */
  function ItemsOf(items: seq<Option<CartItem>>, seller: string): seq<CartItem>
  {
    if |items| == 0 then []
    else
      var x := items[|items| - 1];
      ItemsOf(items[..|items| - 1], seller) + if Kept(x) && SellerOf(x) == seller then [x.value] else []
  }

  /** The number of kept items. */
  function KeptCount(items: seq<Option<CartItem>>): nat
  {
    if |items| == 0 then 0
    else KeptCount(items[..|items| - 1]) + if Kept(items[|items| - 1]) then 1 else 0
  }

  /** The key order lists each key of the object exactly once. */
  ghost predicate WellFormed(g: Grouping)
  {
    && (forall i, j :: 0 <= i < j < |g.sellers| ==> g.sellers[i] != g.sellers[j])
    && (forall s :: s in g.groups <==> s in g.sellers)
  }

  /** One step keeps each key listed once. */
  lemma PlaceWellFormed(g: Grouping, x: Option<CartItem>)
    requires WellFormed(g)
    ensures WellFormed(Place(g, x))
  {
    if Kept(x) && SellerOf(x) !in g.groups {
      var s := SellerOf(x);
      var sellers' := g.sellers + [s];
      assert forall i :: 0 <= i < |g.sellers| ==> sellers'[i] == g.sellers[i] != s;
      assert forall t :: t in sellers' <==> t in g.sellers || t == s;
    }
  }

  /** A kept item adds exactly one item to the groups. */
  lemma PlaceSize(g: Grouping, x: Option<CartItem>)
    requires WellFormed(g)
    ensures forall i :: 0 <= i < |g.sellers| ==> g.sellers[i] in g.groups
    ensures forall i :: 0 <= i < |Place(g, x).sellers| ==> Place(g, x).sellers[i] in Place(g, x).groups
    ensures GroupSizes(Place(g, x).sellers, Place(g, x).groups)
      == GroupSizes(g.sellers, g.groups) + if Kept(x) then 1 else 0
  {
    assert forall i :: 0 <= i < |g.sellers| ==> g.sellers[i] in g.groups;
    if Kept(x) {
      var s := SellerOf(x);
      if s in g.groups {
        GroupSizesInside(g.sellers, g.groups, s, g.groups[s] + [x.value]);
      } else {
        var sellers' := g.sellers + [s];
        var groups' := g.groups[s := [x.value]];
        assert Place(g, x) == Grouping(sellers', groups');
        assert sellers'[..|sellers'| - 1] == g.sellers;
        GroupSizesOutside(g.sellers, g.groups, s, [x.value]);
        assert GroupSizes(sellers', groups') == GroupSizes(g.sellers, groups') + 1;
      }
    }
  }

  /** Every grouping the reduction builds lists each key once. */
  lemma {:induction false} GroupingWellFormed(items: seq<Option<CartItem>>)
    ensures WellFormed(GroupItemsBySeller(items))
  {
    if |items| > 0 {
      GroupingWellFormed(items[..|items| - 1]);
      PlaceWellFormed(GroupItemsBySeller(items[..|items| - 1]), items[|items| - 1]);
    }
  }

  /** Each seller's group is exactly that seller's kept items in cart order;
      there is a group for a seller iff the seller has a kept item, so no group
      is empty; and each key is listed once. */
  lemma {:induction false} GroupIsFilter(items: seq<Option<CartItem>>)
    ensures WellFormed(GroupItemsBySeller(items))
    ensures forall s :: s in GroupItemsBySeller(items).groups <==> ItemsOf(items, s) != []
    ensures forall s :: s in GroupItemsBySeller(items).groups ==>
      GroupItemsBySeller(items).groups[s] == ItemsOf(items, s)
  {
    GroupingWellFormed(items);
    if |items| > 0 {
      var prefix := items[..|items| - 1];
      var x := items[|items| - 1];
      GroupIsFilter(prefix);
      var g := GroupItemsBySeller(prefix);
      assert GroupItemsBySeller(items) == Place(g, x);
      forall s
        ensures ItemsOf(items, s) == ItemsOf(prefix, s) + if Kept(x) && SellerOf(x) == s then [x.value] else []
      {
      }
    }
  }

  /** The sum of the group sizes over the listed keys. */
  function GroupSizes(sellers: seq<string>, groups: map<string, seq<CartItem>>): nat
    requires forall i :: 0 <= i < |sellers| ==> sellers[i] in groups
  {
    if |sellers| == 0 then 0
    else GroupSizes(sellers[..|sellers| - 1], groups) + |groups[sellers[|sellers| - 1]]|
  }

  lemma {:induction false} GroupSizesOutside(sellers: seq<string>, groups: map<string, seq<CartItem>>, k: string, v: seq<CartItem>)
    requires forall i :: 0 <= i < |sellers| ==> sellers[i] in groups
    requires k !in sellers
    ensures GroupSizes(sellers, groups[k := v]) == GroupSizes(sellers, groups)
  {
    if |sellers| > 0 {
      GroupSizesOutside(sellers[..|sellers| - 1], groups, k, v);
    }
  }

  lemma {:induction false} GroupSizesInside(sellers: seq<string>, groups: map<string, seq<CartItem>>, k: string, v: seq<CartItem>)
    requires forall i :: 0 <= i < |sellers| ==> sellers[i] in groups
    requires forall i, j :: 0 <= i < j < |sellers| ==> sellers[i] != sellers[j]
    requires k in sellers
    ensures GroupSizes(sellers, groups[k := v]) == GroupSizes(sellers, groups) - |groups[k]| + |v|
  {
    var prefix := sellers[..|sellers| - 1];
    if sellers[|sellers| - 1] == k {
      assert k !in prefix;
      GroupSizesOutside(prefix, groups, k, v);
    } else {
      assert k in prefix;
      GroupSizesInside(prefix, groups, k, v);
    }
  }

  /** No kept item is lost or counted twice: the groups together hold as many
      items as the cart has kept items. */
  lemma {:induction false} GroupSizesMatchKept(items: seq<Option<CartItem>>)
    ensures forall i :: 0 <= i < |GroupItemsBySeller(items).sellers| ==>
      GroupItemsBySeller(items).sellers[i] in GroupItemsBySeller(items).groups
    ensures GroupSizes(GroupItemsBySeller(items).sellers, GroupItemsBySeller(items).groups) == KeptCount(items)
  {
    if |items| > 0 {
      var prefix := items[..|items| - 1];
      GroupSizesMatchKept(prefix);
      GroupingWellFormed(prefix);
      PlaceSize(GroupItemsBySeller(prefix), items[|items| - 1]);
    }
  }

  // ---------------------------------------------------------------------
  // The reduction as written starts from `{}`, which inherits keys

  /** Keys every plain object inherits from `Object.prototype`. Reading one
      yields a function or an object, never an array. */
  const PrototypeKeys: set<string> := {
    "constructor", "hasOwnProperty", "isPrototypeOf", "propertyIsEnumerable",
    "toLocaleString", "toString", "valueOf", "__proto__",
    "__defineGetter__", "__defineSetter__", "__lookupGetter__", "__lookupSetter__"
  }

  /** Calling `push` on an inherited member fails. */
  datatype GroupError = TypeError

  /** The reduction as written: for a seller named like an inherited key,
      `!acc[name]` is false, so no array is made, and `push` then fails. */
  function GroupAsWritten(items: seq<Option<CartItem>>): (r: Result<Grouping, GroupError>)
    ensures r.Ok? ==> forall i :: 0 <= i < |items| && Kept(items[i]) ==> SellerOf(items[i]) !in PrototypeKeys
  {
    if |items| == 0 then Ok(Grouping([], map[]))
    else
      var x := items[|items| - 1];
      match GroupAsWritten(items[..|items| - 1])
      case Err(e) => Err(e)
      case Ok(g) => if Kept(x) && SellerOf(x) in PrototypeKeys then Err(TypeError) else Ok(Place(g, x))
  }

  /** The reduction as written fails exactly when a kept item's seller is
      named like an inherited key, and otherwise agrees with the grouping. */
  lemma {:induction false} GroupAsWrittenFailsOnPrototypeKeys(items: seq<Option<CartItem>>)
    ensures GroupAsWritten(items) ==
      if exists i :: 0 <= i < |items| && Kept(items[i]) && SellerOf(items[i]) in PrototypeKeys
      then Err(TypeError) else Ok(GroupItemsBySeller(items))
  {
    if |items| > 0 {
      var prefix := items[..|items| - 1];
      GroupAsWrittenFailsOnPrototypeKeys(prefix);
      assert forall i :: 0 <= i < |prefix| ==> prefix[i] == items[i];
      if exists i :: 0 <= i < |prefix| && Kept(prefix[i]) && SellerOf(prefix[i]) in PrototypeKeys {
        var i :| 0 <= i < |prefix| && Kept(prefix[i]) && SellerOf(prefix[i]) in PrototypeKeys;
        assert Kept(items[i]) && SellerOf(items[i]) in PrototypeKeys;
      }
    }
  }

  /** A seller called "constructor" makes the page's grouping fail, while the
      intended grouping puts the item in its own group. */
  lemma ConstructorSellerBreaksGrouping()
    ensures var items := [Some(CartItem(1, Some("constructor"), 1, 10))];
      && GroupAsWritten(items) == Err(TypeError)
      && GroupItemsBySeller(items) == Grouping(["constructor"], map["constructor" := [CartItem(1, Some("constructor"), 1, 10)]])
  {
    var items := [Some(CartItem(1, Some("constructor"), 1, 10))];
    assert items[..0] == [];
    assert "constructor" in PrototypeKeys;
  }
}
