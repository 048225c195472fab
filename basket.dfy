/**
 * The basket aggregate: an ordered list of (dish, quantity) lines that a
 * customer edits before checkout, its derived total and the minimum-order
 * gate on checkout.
 *
 * Money is an integer number of minor units of the restaurant's single
 * currency. Quantities are Kotlin `Int`s, so a line's quantity is a 32-bit
 * value and updating it wraps around exactly as Kotlin's `+` and `-` do.
 */
module Baskets {
  import opened Wrappers

  type DishId = nat
  type RestaurantId = nat
  type Address = string

  /** An amount in integer minor units of the restaurant's currency. */
  type Money = int

  const INT32_MIN: int := -0x8000_0000
  const INT32_MAX: int := 0x7fff_ffff
  const INT32_RANGE: int := 0x1_0000_0000

  /** A Kotlin `Int`. */
  type Int32 = x: int | INT32_MIN <= x <= INT32_MAX

  /** Two's-complement reduction of an exact result into the `Int` range, as
      Kotlin's `Int` arithmetic does on overflow. */
  function Wrap32(x: int): (r: Int32)
    ensures INT32_MIN <= x <= INT32_MAX ==> r == x
    ensures x > INT32_MAX && x - INT32_RANGE <= INT32_MAX ==> r == x - INT32_RANGE
    ensures x < INT32_MIN && x + INT32_RANGE >= INT32_MIN ==> r == x + INT32_RANGE
  {
    (x - INT32_MIN) % INT32_RANGE + INT32_MIN
  }

  datatype Dish = Dish(id: DishId, price: Money)

  /** The part of a restaurant the basket reads: its id, its optional minimum
      order amount and its menu. */
  datatype Restaurant = Restaurant(id: RestaurantId, minimumOrderAmount: Option<Money>, dishes: seq<Dish>)

  /** One line of a basket. The line keeps the dish it was created with. */
  datatype BasketItem = BasketItem(dish: Dish, quantity: Int32)

  datatype CheckoutError = BelowMinimumOrder

  /** `BasketItem.totalPrice`. */
  function TotalPrice(item: BasketItem): Money {
    item.dish.price * item.quantity
  }

  /** `items.indexOfFirst { it.dish.id == id }`: the first line for the dish,
      or -1 when the basket has none. */
  function IndexOfDish(items: seq<BasketItem>, id: DishId): (i: int)
    ensures -1 <= i < |items|
    ensures i == -1 <==> forall k :: 0 <= k < |items| ==> items[k].dish.id != id
    ensures 0 <= i ==> items[i].dish.id == id && forall k :: 0 <= k < i ==> items[k].dish.id != id
  {
    if items == [] then -1
    else if items[0].dish.id == id then 0
    else
      var j := IndexOfDish(items[1..], id);
      if j == -1 then -1 else j + 1
  }

  /** The basket's invariant: at most one line per dish id. */
  predicate LinesUnique(items: seq<BasketItem>) {
    forall i, j :: 0 <= i < j < |items| ==> items[i].dish.id != items[j].dish.id
  }

  /** The lines after `addItem(dish, quantity)`. */
  function AddLine(items: seq<BasketItem>, dish: Dish, quantity: Int32): seq<BasketItem> {
    var i := IndexOfDish(items, dish.id);
    if i != -1 then items[i := items[i].(quantity := Wrap32(items[i].quantity + quantity))]
    else items + [BasketItem(dish, quantity)]
  }

  /** The lines after `removeItem(dish, quantity)`. */
  function RemoveLine(items: seq<BasketItem>, dish: Dish, quantity: Int32): seq<BasketItem> {
    var i := IndexOfDish(items, dish.id);
    if i == -1 then items
    else if quantity >= items[i].quantity then items[..i] + items[i + 1..]
    else items[i := items[i].(quantity := Wrap32(items[i].quantity - quantity))]
  }

  /** The sum of the lines' prices, accumulated left to right as `reduce` does;
      zero for an empty basket. */
  function TotalOf(items: seq<BasketItem>): Money {
    if items == [] then 0 else TotalOf(items[..|items| - 1]) + TotalPrice(items[|items| - 1])
  }

  /** The restaurant's minimum order amount, zero when it has none. */
  function MinimumOrder(restaurant: Restaurant): Money {
    restaurant.minimumOrderAmount.GetOr(0)
  }

  predicate AboveMinimum(restaurant: Restaurant, items: seq<BasketItem>) {
    TotalOf(items) > MinimumOrder(restaurant)
  }

  class Basket {
    const owner: string
    const deliveryAddress: Address
    const restaurant: Restaurant
    var items: seq<BasketItem>

    ghost predicate Valid()
      reads this
    {
      LinesUnique(items)
    }

    constructor (owner: string, deliveryAddress: Address, restaurant: Restaurant)
      ensures this.owner == owner && this.deliveryAddress == deliveryAddress
      ensures this.restaurant == restaurant
      ensures items == [] && Valid()
    {
      this.owner := owner;
      this.deliveryAddress := deliveryAddress;
      this.restaurant := restaurant;
      items := [];
    }

    function TotalAmount(): Money
      reads this
    {
      TotalOf(items)
    }

    function IsAboveMinimumOrder(): bool
      reads this
    {
      AboveMinimum(restaurant, items)
    }

    method AddItem(dish: Dish, quantity: Int32)
      requires Valid()
      modifies this
      ensures Valid()
      ensures items == AddLine(old(items), dish, quantity)
    {
      var i := IndexOfDish(items, dish.id);
      if i != -1 {
        items := items[i := items[i].(quantity := Wrap32(items[i].quantity + quantity))];
      } else {
        items := items + [BasketItem(dish, quantity)];
      }
      AddLineKeepsLinesUnique(old(items), dish, quantity);
    }

    method RemoveItem(dish: Dish, quantity: Int32)
      requires Valid()
      modifies this
      ensures Valid()
      ensures items == RemoveLine(old(items), dish, quantity)
    {
      var i := IndexOfDish(items, dish.id);
      // Removing a dish that has no line is not an error.
      if i == -1 {
        return;
      }
      if quantity >= items[i].quantity {
        items := items[..i] + items[i + 1..];
      } else {
        items := items[i := items[i].(quantity := Wrap32(items[i].quantity - quantity))];
      }
      RemoveLineKeepsLinesUnique(old(items), dish, quantity);
    }

    method RemoveAllItems()
      modifies this
      ensures items == [] && Valid()
      ensures TotalAmount() == 0
      ensures MinimumOrder(restaurant) >= 0 ==> !IsAboveMinimumOrder()
    {
      items := [];
    }

    /** Passes exactly when the total strictly exceeds the minimum order
        amount; changes nothing. */
    method Checkout() returns (r: Outcome<CheckoutError>)
      ensures r.Pass? <==> TotalOf(items) > MinimumOrder(restaurant)
      ensures r.Fail? ==> r.error == BelowMinimumOrder
    {
      if !IsAboveMinimumOrder() {
        return Fail(BelowMinimumOrder);
      }
      return Pass;
    }
  }

  // ----- addItem -----

  /** A dish that already has a line: that line's quantity grows by `quantity`
      (modulo the `Int` range), it keeps its original dish, and no line is
      added or otherwise changed. */
  lemma AddLineMergesExisting(items: seq<BasketItem>, dish: Dish, quantity: Int32, i: nat)
    requires i < |items| && items[i].dish.id == dish.id
    requires forall k :: 0 <= k < i ==> items[k].dish.id != dish.id
    ensures |AddLine(items, dish, quantity)| == |items|
    ensures AddLine(items, dish, quantity)[i] == BasketItem(items[i].dish, Wrap32(items[i].quantity + quantity))
    ensures forall k :: 0 <= k < |items| && k != i ==> AddLine(items, dish, quantity)[k] == items[k]
    ensures INT32_MIN <= items[i].quantity + quantity <= INT32_MAX ==>
              AddLine(items, dish, quantity)[i].quantity == items[i].quantity + quantity
  {
  }

  /** `addItem` only appends the new dish or updates a line in place, keeping
      its dish. */
  lemma AddLineDishes(items: seq<BasketItem>, dish: Dish, quantity: Int32)
    ensures var r := AddLine(items, dish, quantity);
            && |items| <= |r| <= |items| + 1
            && (forall k :: 0 <= k < |items| ==> r[k].dish == items[k].dish)
            && (|r| == |items| + 1 ==> r[|items|].dish == dish)
  {
  }

  /** A dish without a line: exactly one line with exactly `quantity` is
      appended at the end and the existing lines are unchanged. */
  lemma AddLineAppendsNew(items: seq<BasketItem>, dish: Dish, quantity: Int32)
    requires forall k :: 0 <= k < |items| ==> items[k].dish.id != dish.id
    ensures AddLine(items, dish, quantity) == items + [BasketItem(dish, quantity)]
  {
  }

  lemma AddLineKeepsLinesUnique(items: seq<BasketItem>, dish: Dish, quantity: Int32)
    requires LinesUnique(items)
    ensures LinesUnique(AddLine(items, dish, quantity))
  {
  }

  /** Adding past `Int.MAX_VALUE` to an existing line wraps its quantity to a
      negative number, as Kotlin's `Int` addition does. */
  lemma AddLineWrapsAroundAtIntMax(dish: Dish)
    ensures AddLine([BasketItem(dish, INT32_MAX)], dish, 1) == [BasketItem(dish, INT32_MIN)]
  {
  }

  // ----- removeItem -----

  /** Removing a dish that has no line leaves the basket as it was. */
  lemma RemoveLineOfMissingDish(items: seq<BasketItem>, dish: Dish, quantity: Int32)
    requires forall k :: 0 <= k < |items| ==> items[k].dish.id != dish.id
    ensures RemoveLine(items, dish, quantity) == items
  {
  }

  /** Removing at least the line's quantity drops exactly that line; removing
      less sets its quantity to the `Int` difference, which is exact for a
      non-negative `quantity`; all other lines are untouched in both cases. */
  lemma RemoveLineOfPresentDish(items: seq<BasketItem>, dish: Dish, quantity: Int32, i: nat)
    requires i < |items| && items[i].dish.id == dish.id
    requires forall k :: 0 <= k < i ==> items[k].dish.id != dish.id
    ensures quantity >= items[i].quantity ==> RemoveLine(items, dish, quantity) == items[..i] + items[i + 1..]
    ensures quantity < items[i].quantity ==>
              && |RemoveLine(items, dish, quantity)| == |items|
              && RemoveLine(items, dish, quantity)[i].dish == items[i].dish
              && RemoveLine(items, dish, quantity)[i].quantity == Wrap32(items[i].quantity - quantity)
              && (0 <= quantity ==> RemoveLine(items, dish, quantity)[i].quantity == items[i].quantity - quantity)
              && forall k :: 0 <= k < |items| && k != i ==> RemoveLine(items, dish, quantity)[k] == items[k]
  {
  }

  lemma RemoveLineKeepsLinesUnique(items: seq<BasketItem>, dish: Dish, quantity: Int32)
    requires LinesUnique(items)
    ensures LinesUnique(RemoveLine(items, dish, quantity))
  {
    var i := IndexOfDish(items, dish.id);
    if i != -1 && quantity >= items[i].quantity {
      var r := items[..i] + items[i + 1..];
      forall a, b | 0 <= a < b < |r| ensures r[a].dish.id != r[b].dish.id {
        var a' := if a < i then a else a + 1;
        var b' := if b < i then b else b + 1;
        assert r[a] == items[a'] && r[b] == items[b'];
      }
    }
  }

  // ----- totalAmount -----

  /** The total of two runs of lines is the sum of their totals. */
  lemma {:induction false} TotalOfConcat(a: seq<BasketItem>, b: seq<BasketItem>)
    ensures TotalOf(a + b) == TotalOf(a) + TotalOf(b)
  {
    if b != [] {
      assert (a + b)[..|a + b| - 1] == a + b[..|b| - 1];
      TotalOfConcat(a, b[..|b| - 1]);
    } else {
      assert a + b == a;
    }
  }

  /** A single line contributes its `totalPrice`. */
  lemma TotalOfSingle(x: BasketItem)
    ensures TotalOf([x]) == TotalPrice(x)
  {
    assert [x][..0] == [];
  }

  /** Replacing one line changes the total by the difference of the two lines'
      prices. */
  lemma TotalOfUpdate(items: seq<BasketItem>, i: nat, x: BasketItem)
    requires i < |items|
    ensures TotalOf(items[i := x]) == TotalOf(items) - TotalPrice(items[i]) + TotalPrice(x)
  {
    assert items == items[..i] + [items[i]] + items[i + 1..];
    assert items[i := x] == items[..i] + [x] + items[i + 1..];
    TotalOfConcat(items[..i] + [items[i]], items[i + 1..]);
    TotalOfConcat(items[..i] + [x], items[i + 1..]);
    TotalOfConcat(items[..i], [items[i]]);
    TotalOfConcat(items[..i], [x]);
    TotalOfSingle(items[i]);
    TotalOfSingle(x);
  }

  /** Dropping one line lowers the total by that line's price. */
  lemma TotalOfDrop(items: seq<BasketItem>, i: nat)
    requires i < |items|
    ensures TotalOf(items[..i] + items[i + 1..]) == TotalOf(items) - TotalPrice(items[i])
  {
    var a, x, b := items[..i], items[i], items[i + 1..];
    assert items == a + [x] + b;
    TotalOfSplit(a, x, b);
    TotalOfConcat(a, b);
  }

  /** The total of lines around one line is the sum of the three parts. */
  lemma TotalOfSplit(a: seq<BasketItem>, x: BasketItem, b: seq<BasketItem>)
    ensures TotalOf(a + [x] + b) == TotalOf(a) + TotalPrice(x) + TotalOf(b)
  {
    TotalOfConcat(a + [x], b);
    TotalOfConcat(a, [x]);
    TotalOfSingle(x);
  }

  /** Without `Int` overflow, `addItem` raises the total by `quantity` times
      the price of the line's dish: the price stored in the existing line if
      there is one, otherwise the added dish's price. */
  lemma TotalOfAddLine(items: seq<BasketItem>, dish: Dish, quantity: Int32)
    requires var i := IndexOfDish(items, dish.id);
             i == -1 || INT32_MIN <= items[i].quantity + quantity <= INT32_MAX
    ensures var i := IndexOfDish(items, dish.id);
            var price := if i == -1 then dish.price else items[i].dish.price;
            TotalOf(AddLine(items, dish, quantity)) == TotalOf(items) + price * quantity
  {
    var i := IndexOfDish(items, dish.id);
    if i == -1 {
      TotalOfConcat(items, [BasketItem(dish, quantity)]);
      TotalOfSingle(BasketItem(dish, quantity));
    } else {
      var x := items[i].(quantity := items[i].quantity + quantity);
      TotalOfUpdate(items, i, x);
      assert TotalPrice(x) == TotalPrice(items[i]) + items[i].dish.price * quantity by {
        var p, q0 := items[i].dish.price, items[i].quantity;
        assert p * (q0 + quantity) == p * q0 + p * quantity;
      }
    }
  }

  /** Lowering one line's quantity by a non-negative `quantity` lowers the
      total by `quantity` times that line's price. */
  lemma TotalOfDecrement(items: seq<BasketItem>, i: nat, quantity: Int32)
    requires i < |items| && 0 <= quantity < items[i].quantity
    ensures TotalOf(items[i := items[i].(quantity := items[i].quantity - quantity)])
              == TotalOf(items) - items[i].dish.price * quantity
  {
    var x := items[i].(quantity := items[i].quantity - quantity);
    TotalOfUpdate(items, i, x);
    var p, q0 := items[i].dish.price, items[i].quantity;
    assert p * (q0 - quantity) == p * q0 - p * quantity;
  }

  /** `removeItem` lowers the total by the dropped line's price, or by
      `quantity` times the line's price when the line stays; removing a dish
      without a line leaves the total as it was. */
  lemma TotalOfRemoveLine(items: seq<BasketItem>, dish: Dish, quantity: Int32)
    requires 0 <= quantity
    ensures var i := IndexOfDish(items, dish.id);
            TotalOf(RemoveLine(items, dish, quantity)) ==
              if i == -1 then TotalOf(items)
              else if quantity >= items[i].quantity then TotalOf(items) - TotalPrice(items[i])
              else TotalOf(items) - items[i].dish.price * quantity
  {
    var i := IndexOfDish(items, dish.id);
    if i != -1 {
      if quantity >= items[i].quantity {
        TotalOfDrop(items, i);
      } else {
        TotalOfDecrement(items, i, quantity);
      }
    }
  }

  /** A basket whose lines all have a positive quantity and a non-negative
      price has a non-negative total, so with no minimum set it can check out
      exactly when some line has a positive price. */
  lemma {:induction false} TotalOfNonNegative(items: seq<BasketItem>)
    requires forall k :: 0 <= k < |items| ==> items[k].quantity > 0 && items[k].dish.price >= 0
    ensures TotalOf(items) >= 0
    ensures TotalOf(items) > 0 <==> exists k :: 0 <= k < |items| && items[k].dish.price > 0
  {
    if items != [] {
      var init := items[..|items| - 1];
      TotalOfNonNegative(init);
      var last := items[|items| - 1];
      assert TotalPrice(last) >= 0 by {
        assert last.dish.price * last.quantity >= 0;
      }
      assert TotalPrice(last) > 0 <==> last.dish.price > 0 by {
        if last.dish.price > 0 {
          assert last.dish.price * last.quantity >= last.dish.price;
        }
      }
      if exists k :: 0 <= k < |items| && items[k].dish.price > 0 {
        var k :| 0 <= k < |items| && items[k].dish.price > 0;
        if k < |items| - 1 {
          assert init[k].dish.price > 0;
        }
      }
      if exists k :: 0 <= k < |init| && init[k].dish.price > 0 {
        var k :| 0 <= k < |init| && init[k].dish.price > 0;
        assert items[k].dish.price > 0;
      }
    }
  }
}
