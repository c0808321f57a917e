# Order service model

A Dafny model of the domain logic of the MiSArch order service, a Rust
service with two parts:

- a GraphQL API, through which a user creates an order from shopping-cart
  items and then places it;
- Dapr pub/sub handlers, through which the service keeps replicas of other
  services' records and compensates orders whose shipment failed.

The repository holds two generations of the same code. The older files sit
directly under `src/`. The current files sit under `src/graphql/` and
`src/event/`. Each file is modelled on its own terms. The older modules carry
a `Legacy` prefix (`LegacyOrderModel`, `LegacyHttpEventService`, …). Where
both generations declare the same thing, one definition is shared and its
doc comment says so: the status enums, `OrderItemInput` and its ordering,
`PaymentAuthorizationInput`, the compensation record and the event data.

Each MongoDB collection is a `map<Uuid, T>` field of a class. The methods
reassign those fields, as the source's `insert_one`, `update_one $set`,
`$push`, `$pull` and upsert calls change documents in place. Sent events
are appended to a `published` sequence field. Identifiers are `nat` with
their natural order. Timestamps are integer milliseconds.

The following are parameters of the operations:

- `Uuid::new()` and `DateTime::now()`;
- whether the store accepts a write (`storeUp`);
- whether a publish request goes through (`sendOk`);
- the iteration order of a `HashMap` (`order`, which must enumerate the map's keys);
- the results of calls to other services.

The model is organised as follows:

- `Pagination`, `Sorting` and `Amounts` hold the shared algorithms:
  - skip/take pagination of nested lists;
  - an in-place sort by `_id` over an `array`;
  - the sums of compensatable amounts.
- `OrderModel`, `OrderItemModel` and their legacy counterparts are the entities.
- `OrderDTOs`, `OrderItemDTOs` and `OrderCompensationDTOs` are the event payloads.
- `OrderCompensations` is the compensation flow; the stored record is in `OrderCompensationRecords`.
- `Mutation` is order creation and placement, with the pure helpers that
  join per-product-variant maps.
- `HttpEventService` and `LegacyHttpEventService` are the event-fed replica
  tables.

Some facts the model makes explicit:

- The shipment-creation-failed handler of src/event/http_event_service.rs
  exists but its topic is not in `list_topic_subscriptions`
  (`ShipmentCreationFailedNotSubscribed`).
- src/main.rs:104-124 mounts no route for `/on-product-variant-updated-event`,
  although that route is subscribed.
- src/main.rs imports handlers that src/http_event_service.rs does not
  define, so the two generations do not build together. Each is modelled
  separately.
- `Ord for OrderItemInput` looks at the shopping cart item id only. A
  `BTreeSet` of inputs therefore holds at most one input per cart item, even
  when two inputs differ in shipment method or coupons (`OrdEqualButUnequal`,
  `InputSetUniqueCartIds`).
- `verify_items_uncompensated` is a MongoDB query whose effect does not match
  its comment. Its outcome is the boolean parameter `itemsUncompensated`.

## Model

| member | source | states |
|---|---|---|
| ForeignTypes.UserFromUuid | src/graphql/model/user.rs:71-78 | a user made from an id carries that id and no addresses |
| OrderDatatypes.DirectionToI32 | src/order_datatypes.rs:19-26 | `Asc` encodes as 1 and `Desc` as -1 |
| OrderDatatypes.DirectionEncodingInjective | src/order_datatypes.rs:19-26 | the i32 encoding is never 0 and tells the two directions apart |
| OrderDatatypes.OrderFieldName | src/order_datatypes.rs:43-53 | the five fields map to "_id", "user._id", "name", "created_at" and "last_updated_at"; its contract says only `Id` maps to "_id", and `OrderFieldNamesDistinct` proves the five names pairwise distinct |
| OrderDatatypes.OrderFieldNamesDistinct | src/order_datatypes.rs:43-53 | the five field names are pairwise distinct |
| OrderDatatypes.CommonFieldName | src/order_datatypes.rs:88-100 | the common field's name is the name of the order `Id` field, "_id" |
| OrderDatatypes.DefaultOrderOrderInput | src/order_datatypes.rs:55-59 | the default order input is ascending, and its field maps to "_id" |
| OrderDatatypes.DefaultCommonOrderInput | src/order_datatypes.rs:111-118 | the default common input is ascending, and its field maps to "_id" |
| OrderDatatypes.SortDirection | src/order_datatypes.rs:12-16 | nested lists sort descending exactly when `Desc` is given, otherwise ascending |
| Sorting.SortByKey | src/graphql/model/order.rs:127-137 | the in-place sort leaves the array ordered by key in the requested direction and a permutation of its old contents |
| Sorting.InsertIntoPrefix | src/graphql/model/order.rs:127-137 | one insertion step extends the sorted prefix by one element and permutes the array |
| Sorting.Swap | src/graphql/model/order.rs:133-136 | exchanges two elements, leaves the others and permutes the array |
| Sorting.SortedPermutationUnique | src/graphql/model/order.rs:127-137 | with distinct keys, two sorted permutations of the same contents are equal |
| Sorting.DistinctKeysPermutation | src/graphql/model/order.rs:127-137 | a permutation keeps keys distinct |
| Sorting.SortedView | src/graphql/model/order_item.rs:130-140 | a strictly ascending list in either direction is sorted, has distinct keys and is a permutation of the list |
| Sorting.SortOfAscending | src/graphql/model/order_item.rs:130-140 | any sort of a strictly ascending list equals its sorted view: the list itself for `Asc`, its reversal for `Desc` |
| Sorting.Reverse | src/graphql/model/order_item.rs:130-140 | the reversal has the same length, and element k is element \|s\|-1-k of the input |
| Sorting.ReversePermutation | src/graphql/model/order_item.rs:130-140 | the reversal is a permutation |
| Pagination.Skip | src/graphql/model/order.rs:65-67 | skipping n drops the first n elements and keeps the rest in order |
| Pagination.Take | src/graphql/model/order.rs:63-68 | taking is unbounded without `first`; otherwise it keeps min(first, length) leading elements |
| Pagination.Paginate | src/graphql/model/order.rs:62-74 | `totalCount` is the list length. The nodes are the elements from index `skip` on, min(first, total-skip) of them. `hasNextPage` holds iff skip + \|nodes\| < total |
| Pagination.WholeListPage | src/graphql/model/order.rs:63-70 | without `first` and `skip` the page is the whole list and no page follows |
| Pagination.PageIsSlice | src/graphql/model/order.rs:64-68 | a non-empty page is the contiguous slice starting at `skip` |
| Pagination.ConsecutivePagesTile | src/graphql/model/order.rs:63-68 | two consecutive pages together form the page of their combined size, so paging neither skips nor repeats |
| Pagination.HasNextPageIffNextNonEmpty | src/graphql/model/order.rs:70 | `hasNextPage` holds exactly when the page after this one is non-empty |
| Pagination.TotalCountIndependent | src/graphql/model/order.rs:62 | `totalCount` does not depend on `first` or `skip` |
| Amounts.Total | src/mutation.rs:104-106 | the sum of no items is 0, and each item's amount is at most the sum |
| Amounts.TotalAppend | src/mutation.rs:104-106 | the sum over a concatenation is the sum of the two sums |
| Amounts.Selected | src/event/order_compensation.rs:68-72 | the filter keeps exactly the items whose id is listed, and no more items than there are |
| Amounts.SelectedDependsOnIdSet | src/event/order_compensation.rs:71 | only which ids are listed matters, not their order or repetition |
| Amounts.RepeatedIdCountedOnce | src/event/order_compensation.rs:71 | listing an id again does not change the compensated amount |
| Amounts.UnmatchedIdAddsNothing | src/event/order_compensation.rs:70-74 | an id that names no item does not change the selection |
| Amounts.NoIdsNothingCompensated | src/event/order_compensation.rs:70-74 | an empty id list compensates 0 |
| Amounts.SelectedTotalBounded | src/event/order_compensation.rs:67-76 | the compensated amount never exceeds the order's total |
| Amounts.AllSelectedIsTotal | src/event/order_compensation.rs:67-76 | naming every item compensates the order's total |
| InputStructs.Cmp | src/graphql/mutation_input_structs.rs:47-51 | inputs compare by shopping cart item id alone |
| InputStructs.PartialCmp | src/graphql/mutation_input_structs.rs:40-45 | `partial_cmp` is always `Some` and agrees with `cmp` |
| InputStructs.CmpIsTotalOrder | src/mutation_input_structs.rs:41-52 | the ordering is antisymmetric and transitive |
| InputStructs.OrdEqualButUnequal | src/graphql/mutation_input_structs.rs:24-51 | two inputs for one cart item but with different methods or coupons compare `Equal`, yet are unequal under `==` |
| InputStructs.InputSetUniqueCartIds | src/graphql/mutation_input_structs.rs:13 | a set of inputs holds at most one input per cart item id |
| PaymentAuthorizations.FromInput | src/graphql/model/payment_authorization.rs:16-23 | the result is `None` iff the cvc is absent; otherwise it is `CVC` of the same u16 |
| PaymentAuthorizations.ToInput | src/graphql/model/payment_authorization.rs:16-23 | the input recovered from a result has a cvc iff the result is `Some` |
| PaymentAuthorizations.InputRoundTrip | src/graphql/model/payment_authorization.rs:16-23 | the conversion loses nothing: every input is recovered from its result |
| PaymentAuthorizations.AuthorizationRoundTrip | src/graphql/model/payment_authorization.rs:12-23 | every authorization, with any u16, is the result of some input |
| ShipmentModel.ShipmentPartialCmp | src/shipment.rs:19-23 | shipments compare by id alone, always `Some` |
| ShipmentModel.MethodPartialCmp | src/shipment.rs:45-49 | methods compare by id; `Equal` iff the methods are equal |
| ShipmentModel.ShipmentToBson | src/shipment.rs:25-29 | the Bson of a shipment is a document holding only `_id` |
| ShipmentModel.MethodToBson | src/shipment.rs:51-55 | the Bson of a method is a document holding only `_id` |
| ShipmentModel.ShipmentToUuid | src/shipment.rs:31-35 | the `Uuid` of a shipment is its id |
| ShipmentModel.MethodToUuid | src/shipment.rs:57-61 | the `Uuid` of a method is its id |
| ShipmentModel.MethodFromUuid | src/shipment.rs:63-67 | the method made from an id has that id; `UuidMethodRoundTrip` and `MethodUuidRoundTrip` prove the two conversions inverse |
| ShipmentModel.UuidMethodRoundTrip | src/shipment.rs:57-67 | id → method → id yields the id |
| ShipmentModel.MethodUuidRoundTrip | src/shipment.rs:38-67 | method → id → method yields the method |
| ShipmentModel.ShipmentConversionsAgree | src/shipment.rs:25-35 | a shipment's Bson `_id` and its `Uuid` agree |
| ShipmentModel.ShipmentOrderingOnlyById | src/shipment.rs:19-23 | shipments with equal ids compare alike against every shipment |
| ShipmentModel.EqualOrderingDistinctShipments | src/shipment.rs:8-23 | two different shipments can compare `Equal` |
| OrderItemModel.New | src/graphql/model/order_item.rs:48-79 | the cart item and method ids come from the input; variant, version, tax rate version, count and discounts are copied; the creation time is the given timestamp |
| OrderItemModel.Cmp | src/graphql/model/order_item.rs:120-124 | items compare by id alone |
| OrderItemModel.PartialCmp | src/graphql/model/order_item.rs:114-118 | `partial_cmp` agrees with `cmp` |
| OrderItemModel.OrderingOnlyById | src/graphql/model/order_item.rs:114-124 | items with equal ids compare alike, whatever their other fields |
| OrderItemModel.SortDiscounts | src/graphql/model/order_item.rs:130-140 | the discounts end up sorted by id in the requested direction, as a permutation |
| OrderItemModel.Discounts | src/graphql/model/order_item.rs:83-112 | the page is the pagination of the discount set in the requested direction: ascending, or reversed for `Desc` |
| OrderModel.AsStr | src/graphql/model/order.rs:91-99 | the statuses are named "PENDING", "PLACED" and "REJECTED"; its contract says only that a name is non-empty, and `StatusRoundTrip`, `StatusNamesDistinct` and `StatusToBson` prove the names are read back, distinct and stored as Bson strings |
| OrderModel.StatusFromStr | src/graphql/model/order.rs:80-89 | a parsed name is the name of the status it yields |
| OrderModel.StatusRoundTrip | src/graphql/model/order.rs:80-99 | every status is recovered from its name |
| OrderModel.StatusNamesDistinct | src/graphql/model/order.rs:91-99 | the three names are pairwise distinct |
| OrderModel.StatusToBson | src/graphql/model/order.rs:101-105 | the Bson of a status is a string that reads back as that status |
| OrderModel.UuidOf | src/graphql/model/order.rs:117-121 | the `Uuid` of an order is its id |
| OrderModel.SortOrderItems | src/graphql/model/order.rs:127-137 | the items end up sorted by id in the requested direction, as a permutation |
| OrderModel.OrderItems | src/graphql/model/order.rs:50-77 | the connection is the pagination of some sorted permutation of the order's items |
| OrderModel.OrderItemsPageDetermined | src/graphql/model/order.rs:50-77 | with distinct item ids, the page does not depend on which sorted permutation was produced |
| LegacyOrderItemModel.New | src/order_item.rs:50-88 | the product item is `None`; a fresh `Pending` shipment uses the input's method; the cart item comes from the input; the other fields are copied |
| LegacyOrderItemModel.Cmp | src/order_item.rs:129-133 | items compare by id alone |
| LegacyOrderItemModel.PartialCmp | src/order_item.rs:123-127 | `partial_cmp` agrees with `cmp` |
| LegacyOrderItemModel.EqualOrderingDistinctItems | src/order_item.rs:123-133 | items that differ only in shipment status compare `Equal` |
| LegacyOrderItemModel.Discounts | src/order_item.rs:92-121 | the page is the pagination of the discount set in the requested direction |
| LegacyOrderModel.SortOrderItems | src/order.rs:126-136 | the items end up sorted by id in the requested direction, as a permutation |
| LegacyOrderModel.OrderItems | src/order.rs:49-75 | the connection is the pagination of some sorted permutation of the order's items |
| LegacyOrderModel.UuidOf | src/order.rs:116-120 | the `Uuid` of an older order is its id |
| LegacyOrderModel.TryFromOrder | src/order.rs:166-193 | fails iff `placed_at` is `None`. Otherwise it copies the ids, status, amount and payment information, takes the two addresses' ids, and converts the items in order |
| OrderItemDTOs.DiscountIds | src/event/model/order_item_dto.rs:37-41 | one id per discount, in the set's iteration order |
| OrderItemDTOs.FromOrderItem | src/event/model/order_item_dto.rs:35-55 | total; copies id, timestamp, count and amount, and replaces each embedded record by its id |
| OrderItemDTOs.DiscountIdsAscending | src/event/model/order_item_dto.rs:37-41 | a payload's discount ids strictly ascend |
| OrderItemDTOs.NewItemPayload | src/event/model/order_item_dto.rs:35-55 | the payload of a new item names the input's cart item and method, and carries its count and amount |
| OrderDTOs.TryFromOrder | src/event/model/order_dto.rs:44-75 | fails iff `placed_at` is `None`. Otherwise it copies the fields, the vat number and the given payment authorization, and converts the items in order |
| OrderDTOs.ProjectedAmounts | src/event/model/order_dto.rs:50-54 | item payloads sum to the same amount as the items |
| OrderDTOs.PayloadAmountsAddUp | src/event/model/order_dto.rs:44-75 | in a placed order's payload the item amounts sum as the order's items do |
| OrderCompensationDTOs.FromCompensation | src/event/model/order_compensation_dto.rs:15-22 | total; keeps the record's id and amount |
| OrderCompensationDTOs.PayloadIgnoresContext | src/event/model/order_compensation_dto.rs:15-22 | order id, item ids and trigger time do not affect the payload |
| OrderCompensations.AmountForOrder | src/event/order_compensation.rs:67-76 | bounded by the order's total, and 0 for no ids |
| OrderCompensations.CalculateAmountToCompensate | src/event/order_compensation.rs:63-77 | fails iff the order is missing; otherwise it is the sum over the named items |
| OrderCompensations.NewCompensation | src/event/order_compensation.rs:47-53 | the record carries the event's order and item ids, the new id, the time and the amount |
| OrderCompensations.CompensationService.constructor | src/event/order_compensation.rs:34-38 | starts with the given collections and nothing sent |
| OrderCompensations.CompensationService.CompensateOrder | src/event/order_compensation.rs:34-57 | a missing order or unverified items fail with nothing changed. Otherwise the record is inserted first; an insert failure stops the flow; only after the insert is the event sent, and its payload is the record's `OrderCompensationDTO` (id and amount) |
| LegacyOrderCompensations.FromCompensation | src/order_compensation.rs:36-43 | keeps id and amount only |
| LegacyOrderCompensations.AmountForOrder | src/order_compensation.rs:69-76 | bounded by the order's total, and 0 for no ids |
| LegacyOrderCompensations.CalculateAmountToCompensate | src/order_compensation.rs:65-78 | fails iff the order is missing; otherwise it is the sum over the named items |
| LegacyOrderCompensations.LegacyCompensationService.constructor | src/order_compensation.rs:45-49 | starts with the given collections and nothing sent |
| LegacyOrderCompensations.LegacyCompensationService.CompensateOrder | src/order_compensation.rs:45-63 | the same flow as the current API's: validate, verify, insert, then send the record's DTO (id and amount) |
| Mutation.ByVariant | src/mutation.rs:558-588 | a cart lookup succeeds iff every input's cart item is in the cart |
| Mutation.BuildCounts | src/mutation.rs:558-571 | succeeds iff every input's cart item is in the cart |
| Mutation.BuildOrderItemInputs | src/mutation.rs:575-588 | succeeds iff every input's cart item is in the cart |
| Mutation.ByVariantFirstMissing | src/mutation.rs:558-571 | an error names the first input whose cart item is missing |
| Mutation.ByVariantKeys | src/mutation.rs:558-588 | the keys are exactly the product variants of the inputs' cart entries |
| Mutation.ByVariantLastWins | src/mutation.rs:558-588 | for a repeated product variant, the last input wins |
| Mutation.BuildersAgree | src/mutation.rs:558-588 | both builders fail together. On success they have the same keys, and each variant maps to the cart item whose entry has that variant and count |
| Mutation.Availabilities | src/mutation.rs:464-482 | succeeds iff every expected id has stock; each flag says stock >= expected; an error names a missing id |
| Mutation.CalculateAvailability | src/mutation.rs:464-482 | succeeds iff every expected id is in stock with enough units. A missing id gives `MissingKey` with that id; otherwise the error is `NotAllAvailable` |
| Mutation.AvailabilityIgnoresUnrequested | src/mutation.rs:464-482 | stock entries for ids not requested do not change the outcome |
| Mutation.AvailabilitiesIgnoreUnrequested | src/mutation.rs:464-482 | stock entries for ids not requested do not change the flags |
| Mutation.FoldPresenceOutcome | src/mutation.rs:990-1002 | the fold keeps its start value when all ids are present, and otherwise reports the last missing id |
| Mutation.ValidateObjects | src/mutation.rs:976-1012 | a failed query fails. Otherwise it succeeds iff every id is present (an empty request succeeds), and an error names the last missing id |
| Mutation.ValidateObject | src/mutation.rs:966-971 | succeeds iff the store answers and the id is present |
| Mutation.LastByVariant | src/mutation.rs:787-803 | its keys are exactly the variants named in the response |
| Mutation.LastByVariantLastWins | src/mutation.rs:787-803 | for duplicate response entries the later one wins |
| Mutation.LastEntryOf | src/mutation.rs:787-803 | the map holds the last response entry for each variant |
| Mutation.RemapDiscounts | src/mutation.rs:781-808 | succeeds iff every requested id is served and no id is requested twice. On success the keys are exactly the requested ids, with the served discounts; an error names the first unserved id |
| Mutation.IndexByVariant | src/mutation.rs:787-803 | the index built by the loop is the last-entry-wins map |
| Mutation.TakeRequested | src/mutation.rs:804-807 | removing each requested entry in turn succeeds iff no id is unserved. Then the keys are exactly the requested ids with their indexed entries; otherwise the first unserved id is named |
| Mutation.NoUnservedMeansDistinct | src/mutation.rs:804-807 | if every request is served, the requested ids are distinct |
| Mutation.Lookup | src/mutation.rs:341-361 | a lookup succeeds iff every attribute map has the id, and otherwise names the id |
| Mutation.ItemFor | src/mutation.rs:362-370 | the item built for a variant has the fresh id and the timestamp. It takes its count, version, tax rate version, discounts, cart item and shipment method from that variant's entries |
| Mutation.Zip | src/mutation.rs:329-374 | succeeds iff every variant's attributes are complete. On success there is one item per variant, in iteration order, each built from that variant's entries |
| Mutation.ZipFirstIncomplete | src/mutation.rs:338-373 | an error names the first variant, in iteration order, that another map lacks |
| Mutation.ZipOneItemPerVariant | src/mutation.rs:329-374 | there is exactly one item per entry of the product variant map, and each variant has an item |
| Mutation.EnumerationSize | src/mutation.rs:329-374 | an enumeration of a map's keys has as many entries as the map |
| Mutation.CalculateOrderAmount | src/mutation.rs:839-847 | the u32 amount is the price sum when that fits, and congruent to it modulo 2^32 otherwise |
| Mutation.SumPricesRemove | src/mutation.rs:839-847 | the sum is one price plus the sum over the rest |
| Mutation.SumPricesAnyOrder | src/mutation.rs:839-847 | the price sum does not depend on order |
| Mutation.OrderAmountAnyOrder | src/mutation.rs:839-847 | the amount is the same for every iteration order of the map |
| Mutation.EnumerationsPermute | src/mutation.rs:839-847 | two enumerations of the same keys are permutations of each other |
| Mutation.ValidateUserAddressAsWritten | src/mutation.rs:937-961 | as written: succeeds iff the user exists |
| Mutation.ForeignAddressAccepted | src/mutation.rs:937-961 | as written, an address not among the user's addresses is accepted |
| Mutation.ValidateUserAddress | src/mutation.rs:937-961 | corrected: succeeds iff the user exists and owns the address |
| Mutation.ShipmentMethodIds | src/mutation.rs:200-212 | one shipment method id per input, in order |
| Mutation.ValidateOrderInput | src/mutation.rs:189-238 | succeeds iff the user exists, all shipment methods and coupons exist, and both addresses belong to the user (the corrected address check of the first finding, stricter than the source); a missing user gives `NotFound` |
| Mutation.NewOrder | src/mutation.rs:63-77 | a new order is `Pending` with no `placed_at` and no rejection reason. Its amount is the sum of the item amounts, 0 for no items. The other fields come from the input |
| Mutation.FullCompensationRefundsNewOrder | src/mutation.rs:104-106 | compensating every item of a new order refunds exactly its amount |
| Mutation.WithinPendingTimeout | src/mutation.rs:130-139 | an order may be placed while at most one hour has passed since its creation |
| Mutation.PendingTimeoutWindow | src/mutation.rs:130-139 | the window is inclusive, closes exactly one hour after creation, and an earlier placement time is inside it whenever a later one is |
| Mutation.WithStatusPlaced | src/mutation.rs:143-160 | the order becomes `Placed` with `placed_at` = now; all other fields are unchanged |
| Mutation.WithStatusRejected | src/mutation.rs:165-186 | the order becomes `Rejected`; `placed_at` and all other fields are unchanged |
| Mutation.CreatedEventAsWritten | src/mutation.rs:94-97 | as written: the event payload is built from the order read before placement, and fails exactly when that order has no `placed_at` |
| Mutation.CreatedEventFromSnapshotFails | src/mutation.rs:94-97 | as written: the event built from the order read before placement fails, while the placed order converts |
| Mutation.CreatedEvent | src/mutation.rs:923-932 | corrected: the event of a placed order always converts and carries its id, status and `placed_at` |
| Mutation.OrderService.constructor | src/mutation.rs:49-53 | starts with the given collections and nothing sent |
| Mutation.OrderService.CreateOrder | src/mutation.rs:49-85 | invalid input (under the corrected address check) or failed items fail, and the store is unchanged. Otherwise the new order is inserted under the fresh id and returned; an insert failure changes nothing |
| Mutation.OrderService.SetStatusPlaced | src/mutation.rs:130-186 | missing order: `NotFound`. Inside the inclusive one-hour window the order becomes `Placed` at now. After it the order becomes `Rejected` and the call fails. Nothing changes when the store is down |
| Mutation.OrderService.PlaceOrder | src/mutation.rs:88-100 | a missing order is `NotFound`. With the store down nothing changes and the error is `PlacingFailed` or `RejectingFailed`. A late order is stored as `Rejected` and fails with `RejectedForTimeout`. Otherwise the placed order is stored. The event is sent only on success; corrected: it is the placed order's event, and the order is returned |
| HttpEventService.DefaultResponse | src/event/http_event_service.rs:38-43 | the default response has status 0 |
| HttpEventService.ListTopicSubscriptions | src/event/http_event_service.rs:147-198 | eight subscriptions, all on "pubsub"; the id-creation route serves exactly the coupon, method and user topics |
| HttpEventService.SubscribedTopicsAccepted | src/event/http_event_service.rs:147-198 | each subscribed route names a handler that accepts its topic. This is not the mounted router, which lacks the updated-variant route |
| HttpEventService.SubscriptionAccepted | src/event/http_event_service.rs:147-224 | the k-th subscription's route leads to a handler that accepts its topic |
| HttpEventService.ShipmentCreationFailedNotSubscribed | src/event/http_event_service.rs:333-350 | the shipment-creation-failed topic has a handler but no subscription |
| HttpEventService.InsertOne | src/event/http_event_service.rs:510-519 | an insert succeeds iff the store is up and the id is new. It adds exactly that record and keeps the rest; a failure is a 500 |
| HttpEventService.VersionFromEvent | src/event/http_event_service.rs:52-68 | the version carries the event's id, price and tax rate id |
| HttpEventService.VariantFromEvent | src/event/http_event_service.rs:410-419 | the new variant carries the event's variant id and version |
| HttpEventService.TaxRateFromEvent | src/event/http_event_service.rs:272-286 | the tax rate carries the event's tax rate id and version id |
| HttpEventService.RemoveAll | src/event/http_event_service.rs:468-483 | `$pull` removes every occurrence of the id and keeps every other id's occurrences |
| HttpEventService.RemoveAllAppend | src/event/http_event_service.rs:468-483 | removal distributes over concatenation |
| HttpEventService.RemoveAbsent | src/event/http_event_service.rs:468-483 | removing an absent id changes nothing |
| HttpEventService.PullUndoesPush | src/event/http_event_service.rs:447-483 | pulling a freshly pushed new id restores the list |
| HttpEventService.HttpEventServiceState.constructor | src/event/http_event_service.rs:207-212 | starts with empty replica tables |
| HttpEventService.HttpEventServiceState.OnIdCreationEvent | src/event/http_event_service.rs:207-224 | the coupon, method and user topics insert the record made from the id into exactly their own collection; another topic is a 500 with nothing changed |
| HttpEventService.HttpEventServiceState.CreateOrUpdateProductVariantInMongodb | src/event/http_event_service.rs:356-419 | an existing variant gets only its current version replaced; otherwise a new variant is inserted |
| HttpEventService.HttpEventServiceState.OnProductVariantVersionCreationEvent | src/event/http_event_service.rs:228-244 | a wrong topic is a 500 with nothing changed. Otherwise the whole new collection is stated: with the store down nothing changes; a stored variant gets the event's version as current version and keeps its other fields; an unknown one is added as made from the event; no other key appears |
| HttpEventService.HttpEventServiceState.UpdateProductVariantVisibilityInMongodb | src/event/http_event_service.rs:489-504 | only the targeted variant's visibility changes |
| HttpEventService.HttpEventServiceState.OnProductVariantUpdateEvent | src/event/http_event_service.rs:248-265 | a wrong topic is a 500 with nothing changed. Otherwise, with the store up, a stored target gets the event's visibility and nothing else changes; with the store down, or an unknown target, the collection is unchanged |
| HttpEventService.HttpEventServiceState.CreateOrUpdateTaxRateInMongodb | src/event/http_event_service.rs:425-441 | the upsert leaves the given tax rate under its id, whether or not it existed |
| HttpEventService.HttpEventServiceState.OnTaxRateVersionCreationEvent | src/event/http_event_service.rs:272-286 | a wrong topic is a 500 with nothing changed. Otherwise, with the store up, the rate made from the event is upserted under its id and nothing else changes; with the store down the collection is unchanged |
| HttpEventService.HttpEventServiceState.InsertUserAddressInMongodb | src/event/http_event_service.rs:447-462 | `$push` appends the address id to that user's list |
| HttpEventService.HttpEventServiceState.RemoveUserAddressInMongodb | src/event/http_event_service.rs:468-483 | `$pull` removes every occurrence of the id from that user's list |
| HttpEventService.HttpEventServiceState.OnUserAddressCreationEvent | src/event/http_event_service.rs:293-306 | a wrong topic is a 500 with nothing changed. Otherwise, with the store up, the id is appended to a stored user's list and nothing else changes; with the store down, or an unknown user, the collection is unchanged |
| HttpEventService.HttpEventServiceState.OnUserAddressArchivedEvent | src/event/http_event_service.rs:313-326 | a wrong topic is a 500 with nothing changed. Otherwise, with the store up, a stored user's list becomes `RemoveAll` of the id, keeping the other ids in order, and nothing else changes; with the store down, or an unknown user, the collection is unchanged |
| HttpEventService.HttpEventServiceState.OnShipmentCreationFailedEvent | src/event/http_event_service.rs:333-350 | a wrong topic is a 500 with nothing changed. Otherwise the order is compensated and any compensation error is a 500. The record is stored exactly when the order exists, its items are verified, the store is up and the id is new. Its `OrderCompensationDTO` is sent exactly when, in addition, the publish goes through; a failed send keeps the stored record |
| LegacyHttpEventService.LegacyVersionFromEvent | src/http_event_service.rs:162-170 | the stored version carries the event's id |
| LegacyHttpEventService.LegacyListTopicSubscriptions | src/http_event_service.rs:70-97 | four subscriptions, all on "pubsub"; coupon, method and user go to "/on-id-creation-event" |
| LegacyHttpEventService.LegacySubscriptionsKept | src/http_event_service.rs:70-97 | every older subscription is still among the current ones |
| LegacyHttpEventService.LegacyHttpEventServiceState.constructor | src/http_event_service.rs:106-111 | starts with empty collections |
| LegacyHttpEventService.LegacyHttpEventServiceState.OnIdCreationEvent | src/http_event_service.rs:106-130 | the coupon, method and user topics insert `T::from(id)` into exactly their collection; an unknown topic or failed insert is a 500 |
| LegacyHttpEventService.LegacyHttpEventServiceState.OnProductVariantVersionCreationEvent | src/http_event_service.rs:134-159 | the right topic inserts the converted version; another topic or a failed insert is a 500 with no insert |

## Left out

- `calculate_compensatable_amount` (src/order_item.rs:152-175, src/graphql/model/order_item.rs:143-155) is f64 arithmetic with truncation. Each item's amount is a parameter of `OrderItemModel.New` and `LegacyOrderItemModel.New`.
- The f64 `rate` of `TaxRateVersionEventData` is floating point and is not carried.
- Integer widths: `u64` amounts and counts and `usize` page arguments are unbounded here. Overflow of the `u64` sums is not modelled.
- Mutation.CalculateOrderAmount: the u32 sum is modelled with release-build wrap-around. A debug build would panic on overflow instead.
- Calls to other services are not modelled. This covers the inventory, shopping cart, discount and shipment queries and the pub/sub publish. Their outcomes are parameters: `items` of `CreateOrder` stands for `create_internal_order_items`, the `stock` map for the inventory answer, the `response` sequence for the discount answer, and `sendOk` for the publish.
- Authentication and authorization (`authenticate_user`, `authorize_user`) are not part of this model.
- `verify_items_uncompensated` is a MongoDB query. Its outcome is the parameter `itemsUncompensated`.
- The iteration order of a `HashMap` is a parameter `order` that enumerates the map's keys. The order in which coupons are flattened is the parameter `couponIds`.
- The `From` conversions of the event data and of the id-only records into the stored records are not part of this model. They are reconstructed from the fields involved. A new variant's initial visibility is a parameter of `VariantFromEvent`.
- `BTreeSet` construction is not modelled. A set is the sequence it iterates, strictly ascending by its ordering key (`InputSet`, `DiscountSet`).
- `User::orders` and the `*_connection.rs` wrappers are not modelled. The first delegates to a pagination library that is not part of this model; the second are field renamings of one connection record.
- The store lookup helpers of src/query.rs and src/graphql/query.rs are modelled only as map lookups, and reads always succeed. `storeUp` decides whether a write, or the query behind `validate_object`, reaches the store.
- `send_order_created_event` (src/mutation.rs:923-932) calls `OrderDTO::from`, but the repository defines only the fallible `TryFrom` conversions. The model converts with the one of src/event/model/order_dto.rs, without a payment authorization.
- Mutation.ValidateOrderInput and Mutation.OrderService.CreateOrder check addresses with the corrected `ValidateUserAddress`, not with `ValidateUserAddressAsWritten`. They therefore refuse an input whose address is not the user's, which the source accepts (first finding below).
- LegacyOrderModel.TryFromOrder takes the item conversion as a parameter `toDto`: src/order.rs:172 calls an `OrderItemDTO::from` for the older `OrderItem` that no file of the repository defines.
- Mutation.OrderService.PlaceOrder sends the event of the placed order, not of the snapshot read before placement as src/mutation.rs:95-98 does. As written, that conversion fails after the order is already placed (second finding below).
- `uuid_from_bson` (src/mutation.rs:111-127) decodes the id returned by an insert. The model uses the fresh id directly.
- The `Order` literal in `create_order` does not set `vat_number`, which the current `Order` requires. The model copies the VAT number from the input.
- Sorting ties: `sort_by` is given a comparator that never returns `Equal`. With duplicate ids the model allows any sorted order; it does not model a comparator-violation panic.
- Server bootstrap, routing and schema output in src/main.rs, and src/collection_helper.rs, which does not compile, are not modelled.

## Findings

| source | as written | input that shows it | evidently intended | confidence | as-written member | corrected member |
|---|---|---|---|---|---|---|
| src/mutation.rs:937-961 | `validate_user_address` only checks that the user exists | user 1 with no addresses, address 2: accepted | the address must be one of the user's addresses; `ValidateOrderInput` and `CreateOrder` use the corrected check | not executed | Mutation.ForeignAddressAccepted | Mutation.ValidateUserAddress |
| src/mutation.rs:94-97 | `place_order` builds the order-created event from the order read before placement, whose `placed_at` is `None`. The order-to-`OrderDTO` conversion refuses such an order, so the call errors after the order was already placed | any pending order placed within the hour | send the event of the placed order; `PlaceOrder` does so | not executed | Mutation.CreatedEventFromSnapshotFails | Mutation.CreatedEvent |
