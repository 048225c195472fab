/**
 * The basket commands `addItemToBasket` and `removeItemFromBasket`: a fixed
 * sequence of lookups and guards that ends in one mutation of the caller's
 * stored basket.
 *
 * The repositories are maps: restaurants by id, each customer's delivery
 * address (`None` for a profile without one, no key for a missing profile),
 * and the stored baskets by owner. The owner is the authenticated user's
 * name, passed in.
 */
module BasketCommands {
  import opened Wrappers
  import opened Baskets

  datatype AddItemToBasketInput = AddItemToBasketInput(
    dishId: DishId, restaurantId: RestaurantId, quantity: Int32, forceNewBasket: bool)

  datatype RemoveFromBasketInput = RemoveFromBasketInput(
    dishId: DishId, restaurantId: RestaurantId, quantity: Int32)

  datatype BasketError =
    | RestaurantNotFound(restaurantId: RestaurantId)
    | DishNotFound
    | InvalidQuantity
    | NoUserProfile
    | DeliveryAddressNotSet
    | BasketNotEmpty
    | NoBasketAvailable

  /** The stored state of one basket, as the commands return it. */
  datatype BasketRecord = BasketRecord(
    owner: string, deliveryAddress: Address, restaurant: Restaurant, items: seq<BasketItem>)

  /** The restaurant repository: each restaurant is found under its own id. */
  type Restaurants = m: map<RestaurantId, Restaurant> | forall id :: id in m ==> m[id].id == id
    witness map[]
  type Profiles = map<string, Option<Address>>
  type Store = map<string, BasketRecord>

  /** `dishes.find { it.id == id }`: the first dish on the menu with that id. */
  function FindDish(dishes: seq<Dish>, id: DishId): (r: Option<Dish>)
    ensures r.None? <==> forall k :: 0 <= k < |dishes| ==> dishes[k].id != id
    ensures r.Some? ==> exists k :: 0 <= k < |dishes| && dishes[k] == r.value && r.value.id == id
                                    && forall j :: 0 <= j < k ==> dishes[j].id != id
  {
    if dishes == [] then None
    else if dishes[0].id == id then Some(dishes[0])
    else
      var r := FindDish(dishes[1..], id);
      assert forall k :: 0 <= k < |dishes| - 1 ==> dishes[1..][k] == dishes[k + 1];
      r
  }

  /** The three checks both commands run first, in this order: the restaurant
      exists, the dish is on its menu, the quantity is positive. */
  function ValidateItem(restaurants: Restaurants, restaurantId: RestaurantId, dishId: DishId, quantity: Int32)
    : Result<(Restaurant, Dish), BasketError>
  {
    if restaurantId !in restaurants then Failure(RestaurantNotFound(restaurantId))
    else
      match FindDish(restaurants[restaurantId].dishes, dishId)
      case None => Failure(DishNotFound)
      case Some(dish) =>
        if quantity <= 0 then Failure(InvalidQuantity)
        else Success((restaurants[restaurantId], dish))
  }

  /** The owner's stored basket, or a new empty one for `restaurant` at the
      profile's delivery address. */
  function CurrentOrNewBasket(profiles: Profiles, store: Store, owner: string, restaurant: Restaurant)
    : Result<BasketRecord, BasketError>
  {
    if owner in store then Success(store[owner])
    else if owner !in profiles then Failure(NoUserProfile)
    else if profiles[owner].None? then Failure(DeliveryAddressNotSet)
    else Success(BasketRecord(owner, profiles[owner].value, restaurant, []))
  }

  /** True when the basket holds lines of a restaurant other than the one the
      command names. */
  predicate HoldsOtherRestaurant(basket: BasketRecord, restaurantId: RestaurantId) {
    basket.items != [] && basket.restaurant.id != restaurantId
  }

  /** The stored baskets after `addItemToBasket`, or its error. */
  function AddItemToBasketSpec(restaurants: Restaurants, profiles: Profiles, store: Store,
                               owner: string, input: AddItemToBasketInput): Result<Store, BasketError>
  {
    var found :- ValidateItem(restaurants, input.restaurantId, input.dishId, input.quantity);
    var basket :- CurrentOrNewBasket(profiles, store, owner, found.0);
    if HoldsOtherRestaurant(basket, input.restaurantId) && !input.forceNewBasket then Failure(BasketNotEmpty)
    else
      var lines := if HoldsOtherRestaurant(basket, input.restaurantId) then [] else basket.items;
      Success(store[owner := basket.(items := AddLine(lines, found.1, input.quantity))])
  }

  /** Once validation and opening the basket succeed, the rest of
      `addItemToBasket` is the restaurant check and `addItem`. */
  lemma AddItemToBasketSpecOnOpenBasket(restaurants: Restaurants, profiles: Profiles, store: Store, owner: string,
                                        input: AddItemToBasketInput, restaurant: Restaurant, dish: Dish, basket: BasketRecord)
    requires ValidateItem(restaurants, input.restaurantId, input.dishId, input.quantity) == Success((restaurant, dish))
    requires CurrentOrNewBasket(profiles, store, owner, restaurant) == Success(basket)
    ensures AddItemToBasketSpec(restaurants, profiles, store, owner, input) ==
              if HoldsOtherRestaurant(basket, input.restaurantId) && !input.forceNewBasket then Failure(BasketNotEmpty)
              else Success(store[owner := basket.(items := AddLine(
                     if HoldsOtherRestaurant(basket, input.restaurantId) then [] else basket.items, dish, input.quantity))])
  {
  }

  /** The stored baskets after `removeItemFromBasket`, or its error. */
  function RemoveItemFromBasketSpec(restaurants: Restaurants, store: Store, owner: string,
                                    input: RemoveFromBasketInput): Result<Store, BasketError>
  {
    var found :- ValidateItem(restaurants, input.restaurantId, input.dishId, input.quantity);
    if owner !in store then Failure(NoBasketAvailable)
    else Success(store[owner := store[owner].(items := RemoveLine(store[owner].items, found.1, input.quantity))])
  }

  /** Every stored basket is filed under its own owner and has at most one
      line per dish. */
  predicate StoreValid(store: Store) {
    forall o :: o in store ==> store[o].owner == o && LinesUnique(store[o].items)
  }

  /** `Basket.asDTO`: the state of a basket object as a value. */
  function Record(b: Basket): BasketRecord
    reads b
  {
    BasketRecord(b.owner, b.deliveryAddress, b.restaurant, b.items)
  }

  /** The last step of `addItemToBasket`: a basket holding another
      restaurant's lines is refused, or emptied when `forceNewBasket` is set;
      then the dish is added. */
  method PutItem(basket: Basket, dish: Dish, quantity: Int32, restaurantId: RestaurantId, forceNewBasket: bool)
    returns (r: Outcome<BasketError>)
    requires basket.Valid()
    modifies basket
    ensures basket.Valid()
    ensures r.Fail? <==> HoldsOtherRestaurant(old(Record(basket)), restaurantId) && !forceNewBasket
    ensures r.Fail? ==> r.error == BasketNotEmpty && basket.items == old(basket.items)
    ensures r.Pass? ==> basket.items == AddLine(
                          if HoldsOtherRestaurant(old(Record(basket)), restaurantId) then [] else old(basket.items),
                          dish, quantity)
  {
    if basket.items != [] && basket.restaurant.id != restaurantId {
      if forceNewBasket {
        basket.RemoveAllItems();
      } else {
        return Fail(BasketNotEmpty);
      }
    }
    basket.AddItem(dish, quantity);
    return Pass;
  }

  class BasketController {
    var restaurants: Restaurants
    var profiles: Profiles
    var baskets: map<string, Basket>

    ghost predicate Valid()
      reads this, baskets.Values
    {
      forall o :: o in baskets ==> baskets[o].owner == o && baskets[o].Valid()
    }

    ghost function Stored(): Store
      reads this, baskets.Values
    {
      map o | o in baskets :: Record(baskets[o])
    }

    constructor (restaurants: Restaurants, profiles: Profiles)
      ensures this.restaurants == restaurants && this.profiles == profiles
      ensures Valid() && baskets == map[] && Stored() == map[]
    {
      this.restaurants := restaurants;
      this.profiles := profiles;
      baskets := map[];
    }

    /** The `orElseGet` branch of `addItemToBasket`: the owner's stored
        basket, or a new one for `restaurant`, saved before it is returned. */
    method OpenBasket(owner: string, restaurant: Restaurant) returns (r: Result<Basket, BasketError>)
      requires Valid()
      modifies this
      ensures Valid()
      ensures restaurants == old(restaurants) && profiles == old(profiles)
      ensures fresh(baskets.Values - old(baskets.Values))
      ensures var spec := CurrentOrNewBasket(old(profiles), old(Stored()), owner, restaurant);
              && r.Success? == spec.Success?
              && (r.Failure? ==> r.error == spec.error && baskets == old(baskets))
              && (r.Success? ==> && owner in baskets && baskets[owner] == r.value
                                 && Record(r.value) == spec.value
                                 && (owner in old(baskets) ==> && baskets == old(baskets) && r.value in old(baskets.Values)
                                                                && Stored() == old(Stored()))
                                 && (owner !in old(baskets) ==> && fresh(r.value) && r.value.items == []
                                                                 && baskets == old(baskets)[owner := r.value])
                                 && Stored() == old(Stored())[owner := Record(r.value)])
    {
      if owner in baskets {
        assert baskets[owner] in baskets.Values;
        return Success(baskets[owner]);
      }
      if owner !in profiles {
        return Failure(NoUserProfile);
      }
      var address := profiles[owner];
      if address.None? {
        return Failure(DeliveryAddressNotSet);
      }
      var basket := new Basket(owner, address.value, restaurant);
      baskets := baskets[owner := basket];
      assert Stored() == old(Stored())[owner := Record(basket)] by {
        forall o | o in baskets && o != owner ensures Record(baskets[o]) == old(Stored())[o] {
        }
      }
      return Success(basket);
    }

    /** `PutItem` on the owner's stored basket; the other baskets are left
        alone. */
    method PutItemInto(owner: string, dish: Dish, quantity: Int32, restaurantId: RestaurantId, forceNewBasket: bool)
      returns (r: Outcome<BasketError>)
      requires Valid() && owner in baskets
      modifies baskets[owner]
      ensures Valid()
      ensures var before := old(Stored())[owner];
              && (r.Fail? <==> HoldsOtherRestaurant(before, restaurantId) && !forceNewBasket)
              && (r.Fail? ==> r.error == BasketNotEmpty && Stored() == old(Stored()))
              && (r.Pass? ==> Stored() == old(Stored())[owner := before.(items := AddLine(
                                if HoldsOtherRestaurant(before, restaurantId) then [] else before.items, dish, quantity))])
    {
      var basket := baskets[owner];
      r := PutItem(basket, dish, quantity, restaurantId, forceNewBasket);
      forall o | o in baskets && o != owner ensures baskets[o] != basket {
        assert baskets[o].owner != basket.owner;
      }
      assert Stored() == old(Stored())[owner := Record(basket)];
    }

    method AddItemToBasket(owner: string, input: AddItemToBasketInput) returns (r: Result<BasketRecord, BasketError>)
      requires Valid()
      modifies this, baskets.Values
      ensures Valid()
      ensures restaurants == old(restaurants) && profiles == old(profiles)
      ensures fresh(baskets.Values - old(baskets.Values))
      ensures var spec := AddItemToBasketSpec(old(restaurants), old(profiles), old(Stored()), owner, input);
              && r.Success? == spec.Success?
              && (r.Failure? ==> r.error == spec.error && Stored() == old(Stored()))
              && (r.Success? ==> Stored() == spec.value && owner in Stored() && r.value == Stored()[owner])
    {
      ghost var store := Stored();
      var valid := ValidateItem(restaurants, input.restaurantId, input.dishId, input.quantity);
      if valid.Failure? {
        return Failure(valid.error);
      }
      var (restaurant, dish) := valid.value;

      var open := OpenBasket(owner, restaurant);
      if open.Failure? {
        return Failure(open.error);
      }
      var basket := open.value;
      ghost var afterOpen := baskets;
      AddItemToBasketSpecOnOpenBasket(restaurants, profiles, store, owner, input, restaurant, dish, Record(basket));
      var put := PutItemInto(owner, dish, input.quantity, input.restaurantId, input.forceNewBasket);
      assert baskets == afterOpen;
      if put.Fail? {
        return Failure(put.error);
      }
      r := Success(Record(basket));
    }

    method RemoveItemFromBasket(owner: string, input: RemoveFromBasketInput) returns (r: Result<BasketRecord, BasketError>)
      requires Valid()
      modifies baskets.Values
      ensures Valid()
      ensures var spec := RemoveItemFromBasketSpec(restaurants, old(Stored()), owner, input);
              && r.Success? == spec.Success?
              && (r.Failure? ==> r.error == spec.error && Stored() == old(Stored()))
              && (r.Success? ==> Stored() == spec.value && owner in Stored() && r.value == Stored()[owner])
    {
      var valid := ValidateItem(restaurants, input.restaurantId, input.dishId, input.quantity);
      if valid.Failure? {
        return Failure(valid.error);
      }
      var dish := valid.value.1;
      if owner !in baskets {
        return Failure(NoBasketAvailable);
      }
      var basket := baskets[owner];
      basket.RemoveItem(dish, input.quantity);
      assert Stored() == old(Stored())[owner := Record(basket)] by {
        forall o | o in baskets && o != owner ensures Record(baskets[o]) == old(Stored())[o] {
          assert baskets[o].owner != basket.owner;
        }
      }
      r := Success(Record(basket));
    }
  }

  // ----- properties of the commands -----

  /** The validation checks run in a fixed order, and validation succeeds
      exactly when the restaurant exists, has the dish on its menu and the
      quantity is positive. */
  lemma ValidateItemChecksInOrder(restaurants: Restaurants, restaurantId: RestaurantId, dishId: DishId, quantity: Int32)
    ensures var v := ValidateItem(restaurants, restaurantId, dishId, quantity);
            && (restaurantId !in restaurants ==> v == Failure(RestaurantNotFound(restaurantId)))
            && (restaurantId in restaurants && (forall k :: 0 <= k < |restaurants[restaurantId].dishes| ==>
                                                 restaurants[restaurantId].dishes[k].id != dishId)
                ==> v == Failure(DishNotFound))
            && (v.Success? <==> && restaurantId in restaurants && quantity > 0
                                && exists k :: 0 <= k < |restaurants[restaurantId].dishes|
                                               && restaurants[restaurantId].dishes[k].id == dishId)
            && (restaurantId in restaurants && quantity <= 0
                && (exists k :: 0 <= k < |restaurants[restaurantId].dishes|
                                && restaurants[restaurantId].dishes[k].id == dishId)
                ==> v == Failure(InvalidQuantity))
            && (v.Success? ==> && v.value.0 == restaurants[restaurantId] && v.value.1.id == dishId
                               && v.value.1 in restaurants[restaurantId].dishes)
  {
  }

  /** A failed validation decides `addItemToBasket` before any basket or
      profile is looked at: the error is the same whatever the stored baskets,
      the profiles, the caller or `forceNewBasket`. */
  lemma AddItemToBasketValidatesBeforeBasket(restaurants: Restaurants, profiles: Profiles, store: Store, owner: string,
                                             profiles': Profiles, store': Store, owner': string,
                                             input: AddItemToBasketInput, forceNewBasket': bool)
    requires ValidateItem(restaurants, input.restaurantId, input.dishId, input.quantity).Failure?
    ensures AddItemToBasketSpec(restaurants, profiles, store, owner, input)
         == AddItemToBasketSpec(restaurants, profiles', store', owner', input.(forceNewBasket := forceNewBasket'))
         == Failure(ValidateItem(restaurants, input.restaurantId, input.dishId, input.quantity).error)
  {
  }

  /** `addItemToBasket` succeeds exactly when validation passes, the caller
      has a basket or a profile with a delivery address, and the basket holds
      no other restaurant's lines or `forceNewBasket` is set; a missing
      profile is reported before a missing address. */
  lemma AddItemToBasketSucceedsExactly(restaurants: Restaurants, profiles: Profiles, store: Store, owner: string,
                                       input: AddItemToBasketInput)
    requires ValidateItem(restaurants, input.restaurantId, input.dishId, input.quantity).Success?
    ensures var r := AddItemToBasketSpec(restaurants, profiles, store, owner, input);
            && (r.Success? <==> && (owner in store || (owner in profiles && profiles[owner].Some?))
                                && (owner in store ==> !HoldsOtherRestaurant(store[owner], input.restaurantId)
                                                       || input.forceNewBasket))
            && (owner !in store && owner !in profiles ==> r == Failure(NoUserProfile))
            && (owner !in store && owner in profiles && profiles[owner].None? ==> r == Failure(DeliveryAddressNotSet))
            && (owner in store && HoldsOtherRestaurant(store[owner], input.restaurantId) && !input.forceNewBasket
                ==> r == Failure(BasketNotEmpty))
  {
  }

  /** On success only the caller's basket changes, and by exactly
      `addItem(dish, quantity)`: on the stored basket, on an emptied one when
      it held another restaurant's lines, or on a new basket for the
      requested restaurant. An existing basket keeps its restaurant. */
  lemma AddItemToBasketEffect(restaurants: Restaurants, profiles: Profiles, store: Store, owner: string,
                              input: AddItemToBasketInput)
    requires AddItemToBasketSpec(restaurants, profiles, store, owner, input).Success?
    ensures input.restaurantId in restaurants
    ensures FindDish(restaurants[input.restaurantId].dishes, input.dishId).Some?
    ensures var r := AddItemToBasketSpec(restaurants, profiles, store, owner, input).value;
            var dish := FindDish(restaurants[input.restaurantId].dishes, input.dishId).value;
            && r.Keys == store.Keys + {owner}
            && (forall o :: o in store && o != owner ==> r[o] == store[o])
            && (owner in store ==>
                  var b := store[owner];
                  && r[owner].restaurant == b.restaurant
                  && r[owner] == b.(items := AddLine(
                                      if HoldsOtherRestaurant(b, input.restaurantId) then [] else b.items,
                                      dish, input.quantity)))
            && (owner !in store ==>
                  r[owner] == BasketRecord(owner, profiles[owner].value, restaurants[input.restaurantId],
                                           [BasketItem(dish, input.quantity)]))
  {
  }

  /** `addItemToBasket` keeps every stored basket filed under its owner with
      at most one line per dish. */
  lemma AddItemToBasketKeepsStoreValid(restaurants: Restaurants, profiles: Profiles, store: Store, owner: string,
                                       input: AddItemToBasketInput)
    requires StoreValid(store)
    requires AddItemToBasketSpec(restaurants, profiles, store, owner, input).Success?
    ensures StoreValid(AddItemToBasketSpec(restaurants, profiles, store, owner, input).value)
  {
    var found := ValidateItem(restaurants, input.restaurantId, input.dishId, input.quantity).value;
    var basket := CurrentOrNewBasket(profiles, store, owner, found.0).value;
    var lines := if HoldsOtherRestaurant(basket, input.restaurantId) then [] else basket.items;
    AddLineKeepsLinesUnique(lines, found.1, input.quantity);
  }

  /** `removeItemFromBasket` runs the same validation first, then fails when
      the caller has no basket; it never creates one, and on success changes
      only the caller's basket, by exactly `removeItem(dish, quantity)`. */
  lemma RemoveItemFromBasketEffect(restaurants: Restaurants, store: Store, owner: string, input: RemoveFromBasketInput)
    ensures var v := ValidateItem(restaurants, input.restaurantId, input.dishId, input.quantity);
            var r := RemoveItemFromBasketSpec(restaurants, store, owner, input);
            && (v.Failure? ==> r == Failure(v.error))
            && (v.Success? && owner !in store ==> r == Failure(NoBasketAvailable))
            && (r.Success? <==> v.Success? && owner in store)
            && (r.Success? ==> && r.value.Keys == store.Keys
                               && (forall o :: o in store && o != owner ==> r.value[o] == store[o])
                               && r.value[owner] == store[owner].(items := RemoveLine(store[owner].items, v.value.1, input.quantity)))
  {
  }

  lemma RemoveItemFromBasketKeepsStoreValid(restaurants: Restaurants, store: Store, owner: string, input: RemoveFromBasketInput)
    requires StoreValid(store)
    requires RemoveItemFromBasketSpec(restaurants, store, owner, input).Success?
    ensures StoreValid(RemoveItemFromBasketSpec(restaurants, store, owner, input).value)
  {
    var found := ValidateItem(restaurants, input.restaurantId, input.dishId, input.quantity).value;
    RemoveLineKeepsLinesUnique(store[owner].items, found.1, input.quantity);
  }

  // ----- a basket switched to another restaurant keeps the old one -----

  /** Every line of the basket is a dish on the menu of the basket's own
      restaurant. */
  predicate LinesFromOwnRestaurant(restaurants: Restaurants, b: BasketRecord) {
    forall k :: 0 <= k < |b.items| ==>
      b.restaurant.id in restaurants && FindDish(restaurants[b.restaurant.id].dishes, b.items[k].dish.id).Some?
  }

  /** As written, `forceNewBasket` empties a basket of restaurant 1 and puts
      restaurant 2's dish in it, but the basket still belongs to restaurant 1;
      adding a second dish of restaurant 2 is then refused as "Basket not
      empty". */
  lemma ForcedNewBasketKeepsOldRestaurant()
    ensures var r1 := Restaurant(1, None, [Dish(10, 500)]);
            var r2 := Restaurant(2, None, [Dish(20, 700)]);
            var restaurants := map[1 := r1, 2 := r2];
            var store := map["ann" := BasketRecord("ann", "home", r1, [BasketItem(Dish(10, 500), 1)])];
            var forced := AddItemToBasketSpec(restaurants, map[], store, "ann", AddItemToBasketInput(20, 2, 1, true));
            && forced == Success(map["ann" := BasketRecord("ann", "home", r1, [BasketItem(Dish(20, 700), 1)])])
            && !LinesFromOwnRestaurant(restaurants, forced.value["ann"])
            && AddItemToBasketSpec(restaurants, map[], forced.value, "ann", AddItemToBasketInput(20, 2, 1, false))
               == Failure(BasketNotEmpty)
  {
    var r1 := Restaurant(1, None, [Dish(10, 500)]);
    var r2 := Restaurant(2, None, [Dish(20, 700)]);
    var restaurants: Restaurants := map[1 := r1, 2 := r2];
    var dish := Dish(20, 700);
    var stored := BasketRecord("ann", "home", r1, [BasketItem(Dish(10, 500), 1)]);
    var forced := BasketRecord("ann", "home", r1, [BasketItem(dish, 1)]);
    assert FindDish(r2.dishes, 20) == Some(dish);
    assert ValidateItem(restaurants, 2, 20, 1) == Success((r2, dish));
    assert AddLine([], dish, 1) == [BasketItem(dish, 1)];
    AddItemToBasketSpecOnOpenBasket(restaurants, map[], map["ann" := stored], "ann",
                                    AddItemToBasketInput(20, 2, 1, true), r2, dish, stored);
    AddItemToBasketSpecOnOpenBasket(restaurants, map[], map["ann" := forced], "ann",
                                    AddItemToBasketInput(20, 2, 1, false), r2, dish, forced);
    assert FindDish(r1.dishes, 20) == None;
    assert restaurants[forced.restaurant.id] == r1 && forced.items[0].dish.id == 20;
    assert HoldsOtherRestaurant(stored, 2);
    assert stored.(items := AddLine([], dish, 1)) == forced;
    assert map["ann" := stored]["ann" := forced] == map["ann" := forced];
    assert AddItemToBasketSpec(restaurants, map[], map["ann" := stored], "ann", AddItemToBasketInput(20, 2, 1, true))
        == Success(map["ann" := forced]);
    assert !LinesFromOwnRestaurant(restaurants, forced);
    assert AddItemToBasketSpec(restaurants, map[], map["ann" := forced], "ann", AddItemToBasketInput(20, 2, 1, false))
        == Failure(BasketNotEmpty);
  }

  /** The scenario of `ForcedNewBasketKeepsOldRestaurant` run on one
      controller: a first add opens a basket of restaurant 1, a forced add of
      restaurant 2's dish keeps that basket on restaurant 1, and the next add
      of the same dish is refused. */
  method ForcedNewBasketOnController() returns (first: Result<BasketRecord, BasketError>,
                                                forced: Result<BasketRecord, BasketError>,
                                                again: Result<BasketRecord, BasketError>)
    ensures first.Success? && first.value.restaurant.id == 1
    ensures forced.Success? && forced.value.restaurant.id == 1
    ensures forced.value.items == [BasketItem(Dish(20, 700), 1)]
    ensures again == Failure(BasketNotEmpty)
  {
    var r1 := Restaurant(1, None, [Dish(10, 500)]);
    var r2 := Restaurant(2, None, [Dish(20, 700)]);
    var restaurants: Restaurants := map[1 := r1, 2 := r2];
    var profiles: Profiles := map["ann" := Some("home")];
    var d1, d2 := Dish(10, 500), Dish(20, 700);
    var started := BasketRecord("ann", "home", r1, [BasketItem(d1, 1)]);
    var switched := BasketRecord("ann", "home", r1, [BasketItem(d2, 1)]);
    var controller := new BasketController(restaurants, profiles);

    assert FindDish(r1.dishes, 10) == Some(d1);
    assert ValidateItem(restaurants, 1, 10, 1) == Success((r1, d1));
    assert AddLine([], d1, 1) == [BasketItem(d1, 1)];
    AddItemToBasketSpecOnOpenBasket(restaurants, profiles, map[], "ann", AddItemToBasketInput(10, 1, 1, false),
                                    r1, d1, BasketRecord("ann", "home", r1, []));
    first := controller.AddItemToBasket("ann", AddItemToBasketInput(10, 1, 1, false));
    assert controller.Stored() == map["ann" := started];

    assert FindDish(r2.dishes, 20) == Some(d2);
    assert ValidateItem(restaurants, 2, 20, 1) == Success((r2, d2));
    assert AddLine([], d2, 1) == [BasketItem(d2, 1)];
    assert started.(items := AddLine([], d2, 1)) == switched;
    assert map["ann" := started]["ann" := switched] == map["ann" := switched];
    AddItemToBasketSpecOnOpenBasket(restaurants, profiles, map["ann" := started], "ann",
                                    AddItemToBasketInput(20, 2, 1, true), r2, d2, started);
    forced := controller.AddItemToBasket("ann", AddItemToBasketInput(20, 2, 1, true));
    assert controller.Stored() == map["ann" := switched];

    AddItemToBasketSpecOnOpenBasket(restaurants, profiles, map["ann" := switched], "ann",
                                    AddItemToBasketInput(20, 2, 1, false), r2, d2, switched);
    again := controller.AddItemToBasket("ann", AddItemToBasketInput(20, 2, 1, false));
  }

  /** `addItemToBasket` as evidently intended: a basket of another restaurant
      that is empty, or that `forceNewBasket` empties, is replaced by a new
      basket for the requested restaurant at the same delivery address. */
  function AddItemToBasketIntended(restaurants: Restaurants, profiles: Profiles, store: Store,
                                   owner: string, input: AddItemToBasketInput): (r: Result<Store, BasketError>)
    ensures r.Success? ==> owner in r.value && r.value[owner].restaurant.id == input.restaurantId
    ensures r.Success? ==> forall o :: o in store && o != owner ==> o in r.value && r.value[o] == store[o]
  {
    var found :- ValidateItem(restaurants, input.restaurantId, input.dishId, input.quantity);
    var basket :- CurrentOrNewBasket(profiles, store, owner, found.0);
    if HoldsOtherRestaurant(basket, input.restaurantId) && !input.forceNewBasket then Failure(BasketNotEmpty)
    else
      var target := if basket.restaurant.id != input.restaurantId
                    then BasketRecord(owner, basket.deliveryAddress, found.0, [])
                    else basket;
      Success(store[owner := target.(items := AddLine(target.items, found.1, input.quantity))])
  }

  /** With the intended behaviour every basket only ever holds dishes of its
      own restaurant's menu. */
  lemma AddItemToBasketIntendedKeepsLinesFromOwnRestaurant(restaurants: Restaurants, profiles: Profiles, store: Store,
                                                           owner: string, input: AddItemToBasketInput)
    requires forall o :: o in store ==> LinesFromOwnRestaurant(restaurants, store[o])
    requires AddItemToBasketIntended(restaurants, profiles, store, owner, input).Success?
    ensures var r := AddItemToBasketIntended(restaurants, profiles, store, owner, input).value;
            forall o :: o in r ==> LinesFromOwnRestaurant(restaurants, r[o])
  {
    var found := ValidateItem(restaurants, input.restaurantId, input.dishId, input.quantity).value;
    var basket := CurrentOrNewBasket(profiles, store, owner, found.0).value;
    var target := if basket.restaurant.id != input.restaurantId
                  then BasketRecord(owner, basket.deliveryAddress, found.0, [])
                  else basket;
    assert LinesFromOwnRestaurant(restaurants, target);
    var lines := AddLine(target.items, found.1, input.quantity);
    AddLineDishes(target.items, found.1, input.quantity);
    forall k | 0 <= k < |lines|
      ensures FindDish(restaurants[input.restaurantId].dishes, lines[k].dish.id).Some?
    {
      if k < |target.items| {
        assert lines[k].dish == target.items[k].dish;
      } else {
        assert lines[k].dish == found.1;
      }
    }
  }

  /** The scenario of `ForcedNewBasketKeepsOldRestaurant` under the intended
      behaviour: the basket moves to restaurant 2 and the second dish is
      accepted. */
  lemma IntendedForcedNewBasketSwitchesRestaurant()
    ensures var r1 := Restaurant(1, None, [Dish(10, 500)]);
            var r2 := Restaurant(2, None, [Dish(20, 700)]);
            var restaurants := map[1 := r1, 2 := r2];
            var store := map["ann" := BasketRecord("ann", "home", r1, [BasketItem(Dish(10, 500), 1)])];
            var forced := AddItemToBasketIntended(restaurants, map[], store, "ann", AddItemToBasketInput(20, 2, 1, true));
            && forced == Success(map["ann" := BasketRecord("ann", "home", r2, [BasketItem(Dish(20, 700), 1)])])
            && AddItemToBasketIntended(restaurants, map[], forced.value, "ann", AddItemToBasketInput(20, 2, 1, false))
               == Success(map["ann" := BasketRecord("ann", "home", r2, [BasketItem(Dish(20, 700), 2)])])
  {
    var r1 := Restaurant(1, None, [Dish(10, 500)]);
    var r2 := Restaurant(2, None, [Dish(20, 700)]);
    var restaurants: Restaurants := map[1 := r1, 2 := r2];
    var dish := Dish(20, 700);
    var stored := BasketRecord("ann", "home", r1, [BasketItem(Dish(10, 500), 1)]);
    var forced := BasketRecord("ann", "home", r2, [BasketItem(dish, 1)]);
    assert FindDish(r2.dishes, 20) == Some(dish);
    assert ValidateItem(restaurants, 2, 20, 1) == Success((r2, dish));
    assert CurrentOrNewBasket(map[], map["ann" := stored], "ann", r2) == Success(stored);
    assert AddLine([], dish, 1) == [BasketItem(dish, 1)];
    assert BasketRecord("ann", stored.deliveryAddress, r2, []).(items := AddLine([], dish, 1)) == forced;
    assert map["ann" := stored]["ann" := forced] == map["ann" := forced];
    assert AddItemToBasketIntended(restaurants, map[], map["ann" := stored], "ann", AddItemToBasketInput(20, 2, 1, true))
        == Success(map["ann" := forced]);
    assert CurrentOrNewBasket(map[], map["ann" := forced], "ann", r2) == Success(forced);
    assert IndexOfDish(forced.items, 20) == 0;
    assert AddLine(forced.items, dish, 1) == [BasketItem(dish, 2)];
    var twice := BasketRecord("ann", "home", r2, [BasketItem(dish, 2)]);
    assert forced.(items := AddLine(forced.items, dish, 1)) == twice;
    assert map["ann" := forced]["ann" := twice] == map["ann" := twice];
  }
}
