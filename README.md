# Delivery domain core in Dafny

A verified model of the domain core of a food-delivery backend written in
Kotlin with Spring. It covers five pieces.

- **The basket aggregate** (`Baskets`, `basket.dfy`). A customer's basket for
  one restaurant is an ordered list of (dish, quantity) lines.
  - `addItem` merges a repeated dish into its line.
  - `removeItem` lowers a line or drops it.
  - The total is the sum of price times quantity over the lines.
  - Checkout is refused unless the total is strictly above the restaurant's
    minimum order.
  - Quantities are Kotlin `Int`s, so updating a line wraps around at 32 bits.
  - Money is an integer number of minor units of one currency.
- **The basket commands** (`BasketCommands`, `basket_controller.dfy`):
  `addItemToBasket` and `removeItemFromBasket`.
  - The repositories are maps: restaurants by id, delivery addresses by
    user, and basket objects by owner.
  - Each command is a method on a `BasketController` class, proved equal to
    a function over value records.
  - Lemmas about those functions state the order of the guards and the
    effect on the stored baskets.
- **Couriers** (`Couriers`, `courier.dfy`). A courier has an on-shift flag,
  which gates order assignment, and a last reported location, which every
  new report overwrites.
- **Delivery requests** (`DeliveryRequests`, `delivery_request.dfy`). A
  request has four statuses and three unconditional setters.
  - The code has no guard against resolving a request twice.
  - The model follows the code: every setter succeeds from any status, and
    the last call wins.
- **The in-process event bus** (`Events`, `event_bus.dfy`). The bus keeps a
  registry of ((topic, event kind), handler) entries.
  - `subscribe` appends an entry, `subscribeAll` appends one per kind, and
    `unsubscribe` removes the first equal entry.
  - `publish` calls, for each event in order, every entry keyed by the topic
    and the event's exact kind.
  - Handlers are ids. A call is recorded in a delivery log, so the order of
    calls and the absence of replay can be stated.

`wrappers.dfy` holds the shared `Option`, `Result` and `Outcome` types.

A stateful operation is modelled in the source's own form: a class with the
source's fields. Each method's `ensures` ties the new state to a function of
the old state. The lemmas next to that function state what the source
promises.

## Model

The getters are plain functions with no contract of their own:
`Baskets.TotalPrice` is `BasketItem.totalPrice` (Basket.kt:91-92),
`Baskets.Basket.TotalAmount` is `totalAmount` (Basket.kt:27-34), and
`Baskets.Basket.IsAboveMinimumOrder` is `isAboveMinimumOrder`
(Basket.kt:36-40), with `Baskets.MinimumOrder` giving zero for a restaurant
without a minimum. The rows for `TotalOf` and `Checkout` below state what
these getters compute.

| member | source | states |
|---|---|---|
| Baskets.Wrap32 | src/main/kotlin/com/delivery/demo/basket/Basket.kt:45 | Kotlin `Int` addition: an in-range result is exact, and one overflow wraps by 2^32 in either direction |
| Baskets.IndexOfDish | src/main/kotlin/com/delivery/demo/basket/Basket.kt:43 | `indexOfFirst`: -1 exactly when no line has the dish id, otherwise the first line that has it |
| Baskets.Basket.constructor | src/main/kotlin/com/delivery/demo/basket/Basket.kt:13-25 | a new basket has the given owner, address and restaurant, no lines, and satisfies the one-line-per-dish invariant |
| Baskets.Basket.AddItem | src/main/kotlin/com/delivery/demo/basket/Basket.kt:42-55 | the lines become `AddLine` of the old lines, and the invariant is kept |
| Baskets.Basket.RemoveItem | src/main/kotlin/com/delivery/demo/basket/Basket.kt:57-66 | the lines become `RemoveLine` of the old lines, and the invariant is kept |
| Baskets.Basket.RemoveAllItems | src/main/kotlin/com/delivery/demo/basket/Basket.kt:79-81 | no lines are left, the total is zero, and with a non-negative minimum the basket is no longer above it |
| Baskets.Basket.Checkout | src/main/kotlin/com/delivery/demo/basket/Basket.kt:36-71 | checkout passes exactly when the total is strictly above the minimum order (zero when unset), and otherwise fails with the below-minimum error |
| Baskets.AddLineMergesExisting | src/main/kotlin/com/delivery/demo/basket/Basket.kt:43-45 | a dish that already has a line adds the quantity to that line (wrapping at 32 bits); no line is added and other lines are unchanged |
| Baskets.AddLineAppendsNew | src/main/kotlin/com/delivery/demo/basket/Basket.kt:46-54 | a dish with no line appends exactly one line with that quantity at the end |
| Baskets.AddLineKeepsLinesUnique | src/main/kotlin/com/delivery/demo/basket/Basket.kt:42-55 | `addItem` preserves "at most one line per dish id" |
| Baskets.AddLineWrapsAroundAtIntMax | src/main/kotlin/com/delivery/demo/basket/Basket.kt:45 | adding 1 to a line at `Int.MAX_VALUE` makes its quantity `Int.MIN_VALUE` |
| Baskets.RemoveLineOfMissingDish | src/main/kotlin/com/delivery/demo/basket/Basket.kt:58-60 | removing a dish with no line leaves the lines unchanged, without failing |
| Baskets.RemoveLineOfPresentDish | src/main/kotlin/com/delivery/demo/basket/Basket.kt:61-65 | when the quantity is at least the line's, that line is removed; otherwise the line's quantity becomes the 32-bit `Int` difference, exactly the difference for a non-negative quantity; other lines are untouched |
| Baskets.RemoveLineKeepsLinesUnique | src/main/kotlin/com/delivery/demo/basket/Basket.kt:57-66 | `removeItem` preserves "at most one line per dish id" |
| Baskets.TotalOfConcat | src/main/kotlin/com/delivery/demo/basket/Basket.kt:27-34 | the total of concatenated line lists is the sum of their totals |
| Baskets.TotalOfSingle | src/main/kotlin/com/delivery/demo/basket/Basket.kt:91-92 | the total of one line is that line's `totalPrice`, price times quantity |
| Baskets.TotalOfUpdate | src/main/kotlin/com/delivery/demo/basket/Basket.kt:27-34 | replacing one line changes the total by the difference of the two line prices |
| Baskets.TotalOfSplit | src/main/kotlin/com/delivery/demo/basket/Basket.kt:27-34 | the total of lines before, at and after one line is the sum of the three parts |
| Baskets.TotalOfDrop | src/main/kotlin/com/delivery/demo/basket/Basket.kt:27-34 | dropping a line lowers the total by that line's price |
| Baskets.TotalOfAddLine | src/main/kotlin/com/delivery/demo/basket/Basket.kt:27-55 | without overflow, `addItem` raises the total by price times quantity, using the price of the dish in the existing line when there is one |
| Baskets.TotalOfDecrement | src/main/kotlin/com/delivery/demo/basket/Basket.kt:64 | lowering a line by q lowers the total by the line's price times q |
| Baskets.TotalOfRemoveLine | src/main/kotlin/com/delivery/demo/basket/Basket.kt:27-66 | `removeItem` lowers the total by the dropped line's price, or by price times quantity on a partial removal, and leaves it alone for a missing dish |
| Baskets.TotalOfNonNegative | src/main/kotlin/com/delivery/demo/basket/Basket.kt:27-34 | with positive quantities and non-negative prices the total is non-negative, and it is positive exactly when some line's dish has a positive price |
| BasketCommands.FindDish | src/main/kotlin/com/delivery/demo/basket/BasketController.kt:60 | `dishes.find`: none exactly when no dish has the id, otherwise the first dish on the menu with it |
| BasketCommands.PutItem | src/main/kotlin/com/delivery/demo/basket/BasketController.kt:80-88 | a basket holding another restaurant's lines fails with "Basket not empty" unless forced; a forced basket is emptied first; then the dish is added |
| BasketCommands.BasketController.constructor | src/main/kotlin/com/delivery/demo/basket/BasketController.kt:32-38 | the controller starts with the given restaurants and profiles and no baskets |
| BasketCommands.BasketController.OpenBasket | src/main/kotlin/com/delivery/demo/basket/BasketController.kt:70-75 | the stored basket is returned unchanged; otherwise a new empty basket at the profile's address is saved, or the call fails with "No user profile" or "Delivery address not set"; the only basket it can add to the store is a new object |
| BasketCommands.BasketController.PutItemInto | src/main/kotlin/com/delivery/demo/basket/BasketController.kt:80-88 | the restaurant check and `addItem` change the caller's basket only |
| BasketCommands.BasketController.AddItemToBasket | src/main/kotlin/com/delivery/demo/basket/BasketController.kt:56-90 | the outcome and the new stored baskets are exactly those of `AddItemToBasketSpec`, a failure changes no basket, and a basket the command adds is a new object, so the controller can run further commands |
| BasketCommands.BasketController.RemoveItemFromBasket | src/main/kotlin/com/delivery/demo/basket/BasketController.kt:94-110 | the outcome and the new stored baskets are exactly those of `RemoveItemFromBasketSpec`, and a failure changes no basket |
| BasketCommands.ValidateItemChecksInOrder | src/main/kotlin/com/delivery/demo/basket/BasketController.kt:57-64 | an unknown restaurant is reported first, then a dish missing from its menu, then (restaurant and dish found) a non-positive quantity; validation succeeds exactly when all three checks pass |
| BasketCommands.AddItemToBasketValidatesBeforeBasket | src/main/kotlin/com/delivery/demo/basket/BasketController.kt:57-75 | a validation error decides the call whatever the baskets, profiles, caller and `forceNewBasket` |
| BasketCommands.AddItemToBasketSucceedsExactly | src/main/kotlin/com/delivery/demo/basket/BasketController.kt:70-86 | after validation, the call succeeds exactly when there is a basket or a profile with an address, and the basket holds no other restaurant's lines or the call is forced; each error case is named |
| BasketCommands.AddItemToBasketEffect | src/main/kotlin/com/delivery/demo/basket/BasketController.kt:70-88 | on success only the caller's basket changes, by exactly `addItem` on it (emptied when forced); an existing basket keeps its restaurant; a missing one is created for the requested restaurant |
| BasketCommands.AddItemToBasketKeepsStoreValid | src/main/kotlin/com/delivery/demo/basket/BasketController.kt:56-90 | every stored basket stays filed under its owner with one line per dish |
| BasketCommands.RemoveItemFromBasketEffect | src/main/kotlin/com/delivery/demo/basket/BasketController.kt:95-107 | the same validation comes first, then "No basket available"; no basket is ever created; on success only the caller's basket changes, by exactly `removeItem` |
| BasketCommands.RemoveItemFromBasketKeepsStoreValid | src/main/kotlin/com/delivery/demo/basket/BasketController.kt:94-110 | every stored basket stays filed under its owner with one line per dish |
| BasketCommands.ForcedNewBasketKeepsOldRestaurant | src/main/kotlin/com/delivery/demo/basket/BasketController.kt:80-88 | a forced switch to restaurant 2 leaves the basket on restaurant 1 with a dish not on its menu, and a second dish of restaurant 2 is then refused |
| BasketCommands.ForcedNewBasketOnController | src/main/kotlin/com/delivery/demo/basket/BasketController.kt:70-88 | the same three adds run on one controller: the forced add leaves the basket on restaurant 1 holding restaurant 2's dish, and the next add is refused with "Basket not empty" |
| BasketCommands.AddItemToBasketIntended | src/main/kotlin/com/delivery/demo/basket/BasketController.kt:70-88 | corrected command: on success the caller's basket belongs to the requested restaurant and every other basket is unchanged |
| Baskets.AddLineDishes | src/main/kotlin/com/delivery/demo/basket/Basket.kt:42-55 | `addItem` keeps every line's dish and can only append the new dish |
| BasketCommands.AddItemToBasketIntendedKeepsLinesFromOwnRestaurant | src/main/kotlin/com/delivery/demo/basket/BasketController.kt:80-88 | with the correction, every line of every basket stays on its own restaurant's menu |
| BasketCommands.IntendedForcedNewBasketSwitchesRestaurant | src/main/kotlin/com/delivery/demo/basket/BasketController.kt:80-88 | with the correction, the forced switch moves the basket to restaurant 2 and the second dish is accepted |
| Couriers.LastShiftIndex | src/main/kotlin/com/delivery/demo/courier/Courier.kt:45-53 | -1 exactly when no shift call was made; otherwise the position of the last `startShift` or `stopShift` call |
| Couriers.LastReportIndex | src/main/kotlin/com/delivery/demo/courier/Courier.kt:62-64 | -1 exactly when no report was sent; otherwise the position of the last `updateLocation` call |
| Couriers.RunOnShift | src/main/kotlin/com/delivery/demo/courier/Courier.kt:45-53 | after any calls, the courier is on shift exactly when the last shift call started it (no shift call: unchanged) |
| Couriers.RunLocation | src/main/kotlin/com/delivery/demo/courier/Courier.kt:42-64 | after any calls, the location is the last report sent, regardless of timestamps (no report: unchanged) |
| Couriers.StepIdempotent | src/main/kotlin/com/delivery/demo/courier/Courier.kt:45-64 | repeating `startShift`, `stopShift` or the same `updateLocation` has no further effect |
| Couriers.OlderReportOverwritesNewer | src/main/kotlin/com/delivery/demo/courier/Courier.kt:62-64 | a report with an older timestamp still replaces a newer one |
| Couriers.Courier.constructor | src/main/kotlin/com/delivery/demo/courier/Courier.kt:33-40 | the courier holds the given id, name, location and shift flag |
| Couriers.Courier.New | src/main/kotlin/com/delivery/demo/courier/Courier.kt:71-74 | `Courier.new` gives a courier off shift with no location |
| Couriers.Courier.StartShift | src/main/kotlin/com/delivery/demo/courier/Courier.kt:45-47 | on shift afterwards; the location, id and name are unchanged |
| Couriers.Courier.StopShift | src/main/kotlin/com/delivery/demo/courier/Courier.kt:49-53 | off shift afterwards; the location, id and name are unchanged |
| Couriers.Courier.AssignOrder | src/main/kotlin/com/delivery/demo/courier/Courier.kt:55-60 | fails exactly when off shift; otherwise returns the order's id, this courier and the order; the courier is not changed |
| Couriers.Courier.UpdateLocation | src/main/kotlin/com/delivery/demo/courier/Courier.kt:62-64 | the stored report becomes the given one, unconditionally, and the shift flag is unchanged |
| DeliveryRequests.Apply | src/main/kotlin/com/delivery/demo/delivery/DeliveryRequest.kt:22-34 | each setter leaves a non-`Requested` status: `Accepted` exactly for accept, `Rejected` for reject, `TimedOut` for timeout |
| DeliveryRequests.RunLastWins | src/main/kotlin/com/delivery/demo/delivery/DeliveryRequest.kt:22-34 | from any status and after any calls, the status is the one the last call sets |
| DeliveryRequests.RunRequestedIffUntouched | src/main/kotlin/com/delivery/demo/delivery/DeliveryRequest.kt:18-34 | a new request is still `Requested` exactly when no setter was called |
| DeliveryRequests.RunIdempotent | src/main/kotlin/com/delivery/demo/delivery/DeliveryRequest.kt:22-34 | repeating the last call changes nothing |
| DeliveryRequests.RunOrderMatters | src/main/kotlin/com/delivery/demo/delivery/DeliveryRequest.kt:22-30 | accept then reject gives `Rejected`, and reject then accept gives `Accepted` |
| DeliveryRequests.DeliveryRequest.constructor | src/main/kotlin/com/delivery/demo/delivery/DeliveryRequest.kt:9-20 | a new request holds its courier and delivery and is `Requested` |
| DeliveryRequests.DeliveryRequest.Accept | src/main/kotlin/com/delivery/demo/delivery/DeliveryRequest.kt:22-25 | the status becomes `Accepted` from any status; nothing else changes |
| DeliveryRequests.DeliveryRequest.Reject | src/main/kotlin/com/delivery/demo/delivery/DeliveryRequest.kt:27-30 | the status becomes `Rejected` from any status; nothing else changes |
| DeliveryRequests.DeliveryRequest.Timeout | src/main/kotlin/com/delivery/demo/delivery/DeliveryRequest.kt:32-34 | the status becomes `TimedOut` from any status; nothing else changes |
| Events.PublishableEvents | src/main/kotlin/com/delivery/demo/DemoApplication.kt:127-138 | the publishable list has ten entries, all distinct |
| Events.PublishableEventsCoverAllKinds | src/main/kotlin/com/delivery/demo/DemoApplication.kt:127-138 | every event kind of the model is in the publishable list |
| Events.DeliverOne | src/main/kotlin/com/delivery/demo/DemoApplication.kt:190-191 | one event makes at most one call per entry, each with that event, to a handler with an entry for (topic, the event's kind) |
| Events.IndexOfEntry | src/main/kotlin/com/delivery/demo/DemoApplication.kt:228 | the first entry equal to the given one, or -1 exactly when there is none |
| Events.IndexOfAppendedEntry | src/main/kotlin/com/delivery/demo/DemoApplication.kt:224-228 | an entry appended after entries that do not contain it is found where it was appended |
| Events.DeliverOneCount | src/main/kotlin/com/delivery/demo/DemoApplication.kt:190-191 | a handler is called for an event exactly as many times as it has entries for (topic, the event's kind) |
| Events.DeliverOneConcat | src/main/kotlin/com/delivery/demo/DemoApplication.kt:188-224 | calls follow registration order: the calls for the entries of `a + b` are those for `a`, then those for `b` |
| Events.DispatchConcat | src/main/kotlin/com/delivery/demo/DemoApplication.kt:189 | events are handled in list order: publishing `a + b` makes the calls for `a`, then those for `b` |
| Events.DispatchSound | src/main/kotlin/com/delivery/demo/DemoApplication.kt:188-192 | every call is of a published event, to a handler with an entry for the topic and that event's exact kind |
| Events.NoDeliveryWithoutEntry | src/main/kotlin/com/delivery/demo/DemoApplication.kt:188-193 | a handler with no entry for the topic and the kind of any published event gets no call, as for one unsubscribed or not yet subscribed |
| Events.RemoveFirstMultiset | src/main/kotlin/com/delivery/demo/DemoApplication.kt:228 | `remove` takes away one copy of the entry, if present, and leaves every other entry's count alone |
| Events.RemoveEachMultiset | src/main/kotlin/com/delivery/demo/DemoApplication.kt:209-228 | cancelling a subscription takes away one copy of each of its entries, as far as copies exist |
| Events.RemoveEachAppended | src/main/kotlin/com/delivery/demo/DemoApplication.kt:206-228 | cancelling the first k of freshly appended entries, none registered before, leaves the registry followed by the remaining appended entries |
| Events.RemoveFirstAppended | src/main/kotlin/com/delivery/demo/DemoApplication.kt:224-228 | `remove` of an entry appended after entries that do not contain it takes out exactly that appended copy |
| Events.SubscribeThenUnsubscribe | src/main/kotlin/com/delivery/demo/DemoApplication.kt:201-232 | subscribing then cancelling always restores the registry's contents, and restores the exact sequence when its entries were new |
| Events.UnsubscribeTwice | src/main/kotlin/com/delivery/demo/DemoApplication.kt:226-229 | a second cancellation removes nothing once the first removed every copy of its entries |
| Events.RemoveEachAbsent | src/main/kotlin/com/delivery/demo/DemoApplication.kt:228 | cancelling entries that are not registered leaves the registry alone |
| Events.EventBus.constructor | src/main/kotlin/com/delivery/demo/DemoApplication.kt:182 | the registry and the delivery log start empty |
| Events.EventBus.Subscribe | src/main/kotlin/com/delivery/demo/DemoApplication.kt:216-232 | appends exactly one entry ((topic, kind), handler) at the end, topic "default" by default; the subscription holds that entry; no handler is called |
| Events.EventBus.SubscribeAll | src/main/kotlin/com/delivery/demo/DemoApplication.kt:201-214 | appends one entry per listed kind, in order, with the same topic and handler; the subscription holds exactly those entries |
| Events.EventBus.Unsubscribe | src/main/kotlin/com/delivery/demo/DemoApplication.kt:208-229 | the registry becomes the old one with the first copy of each of the subscription's entries removed in turn; no handler is called |
| Events.EventBus.Notify | src/main/kotlin/com/delivery/demo/DemoApplication.kt:190-191 | appends one call per entry matching (topic, the event's kind), in registration order |
| Events.EventBus.Publish | src/main/kotlin/com/delivery/demo/DemoApplication.kt:188-193 | appends exactly `Dispatch` of the registry to the log, and the registry itself is unchanged (its frame is only the log) |

## Left out

- I/O, persistence and concurrency are not modelled. This covers the HTTP
  endpoints and DTO mapping, JPA entities and repositories, transactions,
  and `SocketHandler.kt`'s WebSocket sessions and heartbeat. It also covers
  the thread-safety of the bus's `ConcurrentLinkedDeque`: the registry is a
  sequential `seq`.
- `BasketController.checkout` and `CourierController.kt` are not part of
  this model. They call `Restaurant.placeOrder` and `Order` methods whose
  source is not available.
- `LatLng.distanceTo` is not modelled, because it is float arithmetic with
  a square root.
- The Joda `Money` currency is not modelled. Money is one currency in
  integer minor units, so a currency mismatch on `plus` or comparison
  cannot happen.
- BasketCommands.BasketController.AddItemToBasket: the owner is passed in,
  where the code reads it from the request's principal.
- BasketCommands.BasketController.RemoveItemFromBasket: the owner is passed
  in, where the code reads it from the security context.
- `Restaurant.newBasket` is not part of this model. A new basket is taken to
  be `Basket(owner, address, restaurant)` with no lines.
- A restaurant is only its id, optional minimum order and menu. A dish is
  its id and price.
- A basket line is a value, not a JPA entity with its own identity.
  `items.remove(basketItem)` is therefore modelled as removing the line at
  the index found.
- Handlers are opaque ids. Their side effects and any exceptions they throw
  are not modelled, and no handler subscribes or publishes while it is being
  called. An event is its kind and a payload id.
- Couriers.Courier.AssignOrder: an order is reduced to its id, because the
  `Order` class is not part of this model.
- Couriers.Courier.New: the random UUID is a parameter.
- `Courier.toString`, `asDTO` and the generated `equals`/`copy` of the data
  classes are not modelled.
- DeliveryRequests.DeliveryRequest.constructor: the delivery is reduced to
  its id, because `Delivery` is not part of this model. The `Aggregate`
  base class and its events are not modelled either.
- Baskets.TotalOfAddLine: stated only when the merged line's quantity does
  not wrap around. On wrap-around the total jumps by 2^32 times the price.
- Baskets.TotalOfRemoveLine: stated only for a non-negative quantity. The
  commands reject any other quantity, but `removeItem` alone would raise the
  line, and could wrap it.
- Kotlin's `Int` wrap-around is modelled only for line quantities. The
  total is an exact integer, as Joda `multipliedBy(Long)` and `plus` are
  exact.

## Findings

| source | as written | input that shows it | evidently intended | confidence | as-written member | corrected member |
|---|---|---|---|---|---|---|
| src/main/kotlin/com/delivery/demo/basket/BasketController.kt:80-88 | with `forceNewBasket`, the lines of another restaurant's basket are cleared, but the basket keeps its old restaurant. It then holds a dish that is not on that restaurant's menu, and the next dish of the new restaurant is refused as "Basket not empty". | a basket of restaurant 1 holding dish 10; add dish 20 of restaurant 2 with `forceNewBasket = true`, then add dish 20 again without it | a forced (or empty) basket of another restaurant is replaced by a basket of the requested restaurant at the same address | medium, not executed | BasketCommands.ForcedNewBasketKeepsOldRestaurant | BasketCommands.AddItemToBasketIntended |

`BasketCommands.BasketController.AddItemToBasket` models the command as the
code is written. `BasketCommands.AddItemToBasketIntended` is the corrected
definition. With it, the restaurant of the result is the one requested, and
`BasketCommands.AddItemToBasketIntendedKeepsLinesFromOwnRestaurant` proves
that every line stays on its basket's own menu.
`BasketCommands.ForcedNewBasketOnController` runs the as-written scenario on
one controller, through three `AddItemToBasket` calls.
