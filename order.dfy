/** Orders of the current API (src/graphql/model/order.rs). The status and
    rejection reason enums are declared identically in src/order.rs and are
    shared from here. */
module OrderModel {
  import opened Wrappers
  import opened ForeignTypes
  import opened OrderDatatypes
  import opened Sorting
  import opened Pagination
  import opened OrderItemModel

  /** An order starts `Pending` and is either `Placed` or `Rejected` later. */
  datatype OrderStatus = Pending | Placed | Rejected

  datatype RejectionReason = InvalidOrderData | InventoryReservationFailed

  datatype Order = Order(
    id: Uuid,
    user: User,
    createdAt: DateTime,
    orderStatus: OrderStatus,
    placedAt: Option<DateTime>,
    rejectionReason: Option<RejectionReason>,
    internalOrderItems: seq<OrderItem>,
    shipmentAddress: UserAddress,
    invoiceAddress: UserAddress,
    compensatableOrderAmount: nat,
    paymentInformationId: Uuid,
    vatNumber: string)

  /** `OrderStatus::as_str`: the stored, SCREAMING_SNAKE_CASE name. */
  function AsStr(s: OrderStatus): (r: string)
    ensures |r| > 0
  {
    match s
    case Pending => "PENDING"
    case Placed => "PLACED"
    case Rejected => "REJECTED"
  }

  /** Reading a stored status name back (the derived deserialisation). */
  function StatusFromStr(str: string): (r: Option<OrderStatus>)
    ensures r.Some? ==> AsStr(r.value) == str
  {
    if str == "PENDING" then Some(Pending)
    else if str == "PLACED" then Some(Placed)
    else if str == "REJECTED" then Some(Rejected)
    else None
  }

  /** Every status survives being written as its name and read back, so the
      three names are pairwise distinct. */
  lemma StatusRoundTrip(s: OrderStatus)
    ensures StatusFromStr(AsStr(s)) == Some(s)
  {
  }

  lemma StatusNamesDistinct(a: OrderStatus, b: OrderStatus)
    ensures AsStr(a) == AsStr(b) ==> a == b
  {
    StatusRoundTrip(a);
    StatusRoundTrip(b);
  }

  /** `From<OrderStatus> for Bson`: the status name as a Bson string. */
  function StatusToBson(s: OrderStatus): (b: Bson)
    ensures b.BString? && StatusFromStr(b.str) == Some(s)
  {
    StatusRoundTrip(s);
    BString(AsStr(s))
  }

  /** `From<Order> for Uuid`. */
  function UuidOf(o: Order): (r: Uuid)
    ensures r == o.id
  {
    o.id
  }

  /** `sort_order_items`: sorts in place by item id, ascending unless `Desc`
      is asked for. Items with equal ids may end up in either order. */
  method SortOrderItems(orderItems: array<OrderItem>, orderBy: Option<CommonOrderInput>)
    modifies orderItems
    ensures SortedBy(orderItems[..], ItemId, SortDirection(orderBy))
    ensures multiset(orderItems[..]) == multiset(old(orderItems[..]))
  {
    var direction := orderBy.GetOr(DefaultCommonOrderInput()).direction.GetOr(DEFAULT_DIRECTION);
    SortByKey(orderItems, ItemId, direction);
  }

  /** `Order::order_items`: a page of a sorted permutation of the order's
      items. */
  method OrderItems(order: Order, first: Option<nat>, skip: Option<nat>, orderBy: Option<CommonOrderInput>)
    returns (c: Connection<OrderItem>)
    ensures exists sorted :: (SortedBy(sorted, ItemId, SortDirection(orderBy))
      && multiset(sorted) == multiset(order.internalOrderItems)
      && c == Paginate(sorted, first, skip))
  {
    var s := order.internalOrderItems;
    var orderItems := new OrderItem[|s|](i requires 0 <= i < |s| => s[i]);
    assert orderItems[..] == s;
    SortOrderItems(orderItems, orderBy);
    c := Paginate(orderItems[..], first, skip);
  }

  /** Item ids are fresh, hence distinct; then the page is fully determined
      by the arguments whatever sorting algorithm produced it. */
  lemma OrderItemsPageDetermined(items: seq<OrderItem>, sorted1: seq<OrderItem>, sorted2: seq<OrderItem>,
                                 dir: OrderDirection, first: Option<nat>, skip: Option<nat>)
    requires DistinctKeys(items, ItemId)
    requires SortedBy(sorted1, ItemId, dir) && multiset(sorted1) == multiset(items)
    requires SortedBy(sorted2, ItemId, dir) && multiset(sorted2) == multiset(items)
    ensures Paginate(sorted1, first, skip) == Paginate(sorted2, first, skip)
  {
    DistinctKeysPermutation(items, sorted1, ItemId);
    SortedPermutationUnique(sorted1, sorted2, ItemId, dir);
  }
}
