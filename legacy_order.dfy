/** Orders of the older API (src/order.rs) and their event projection.
    The status enums are declared as in the current API and shared. */
module LegacyOrderModel {
  import opened Wrappers
  import opened ForeignTypes
  import opened OrderDatatypes
  import opened Sorting
  import opened Pagination
  import opened LegacyOrderItemModel
  import OrderModel

  datatype LegacyOrder = LegacyOrder(
    id: Uuid,
    user: User,
    createdAt: DateTime,
    orderStatus: OrderModel.OrderStatus,
    placedAt: Option<DateTime>,
    rejectionReason: Option<OrderModel.RejectionReason>,
    internalOrderItems: seq<LegacyOrderItem>,
    shipmentAddress: UserAddress,
    invoiceAddress: UserAddress,
    compensatableOrderAmount: nat,
    paymentInformationId: Uuid)

  /** `From<Order> for Uuid`. */
  function UuidOf(o: LegacyOrder): (r: Uuid)
    ensures r == o.id
  {
    o.id
  }

  /** `sort_order_items` of the older API. */
  method SortOrderItems(orderItems: array<LegacyOrderItem>, orderBy: Option<CommonOrderInput>)
    modifies orderItems
    ensures SortedBy(orderItems[..], ItemId, SortDirection(orderBy))
    ensures multiset(orderItems[..]) == multiset(old(orderItems[..]))
  {
    var direction := orderBy.GetOr(DefaultCommonOrderInput()).direction.GetOr(DEFAULT_DIRECTION);
    SortByKey(orderItems, ItemId, direction);
  }

  /** `Order::order_items` of the older API. */
  method OrderItems(order: LegacyOrder, first: Option<nat>, skip: Option<nat>, orderBy: Option<CommonOrderInput>)
    returns (c: Connection<LegacyOrderItem>)
    ensures exists sorted :: (SortedBy(sorted, ItemId, SortDirection(orderBy))
      && multiset(sorted) == multiset(order.internalOrderItems)
      && c == Paginate(sorted, first, skip))
  {
    var s := order.internalOrderItems;
    var orderItems := new LegacyOrderItem[|s|](i requires 0 <= i < |s| => s[i]);
    assert orderItems[..] == s;
    SortOrderItems(orderItems, orderBy);
    c := Paginate(orderItems[..], first, skip);
  }

  /** `OrderDTO` of the older API. The item DTO type it names is not part of
      this model, so the DTO is generic in it. */
  datatype LegacyOrderDTO<D> = LegacyOrderDTO(
    id: Uuid,
    userId: Uuid,
    createdAt: DateTime,
    orderStatus: OrderModel.OrderStatus,
    placedAt: DateTime,
    rejectionReason: Option<OrderModel.RejectionReason>,
    orderItems: seq<D>,
    shipmentAddressId: Uuid,
    invoiceAddressId: Uuid,
    compensatableOrderAmount: nat,
    paymentInformationId: Uuid)

  const PLACED_AT_MISSING := "OrderDTO cannot be created, `placed_at` of the given Order is `None`"

  /** `TryFrom<Order> for OrderDTO`, with the item conversion `toDto`. */
  function TryFromOrder<D>(order: LegacyOrder, toDto: LegacyOrderItem -> D): (r: Result<LegacyOrderDTO<D>, string>)
    ensures r.Err? <==> order.placedAt.None?
    ensures r.Err? ==> r.error == PLACED_AT_MISSING
    ensures r.Ok? ==> var d := r.value;
      && d.id == order.id && d.userId == order.user.id && d.createdAt == order.createdAt
      && d.orderStatus == order.orderStatus && Some(d.placedAt) == order.placedAt
      && d.rejectionReason == order.rejectionReason
      && d.shipmentAddressId == order.shipmentAddress.id && d.invoiceAddressId == order.invoiceAddress.id
      && d.compensatableOrderAmount == order.compensatableOrderAmount
      && d.paymentInformationId == order.paymentInformationId
    ensures r.Ok? ==> |r.value.orderItems| == |order.internalOrderItems|
    ensures r.Ok? ==> forall k :: 0 <= k < |order.internalOrderItems| ==>
      r.value.orderItems[k] == toDto(order.internalOrderItems[k])
  {
    var items := order.internalOrderItems;
    var orderItemDtos := seq(|items|, k requires 0 <= k < |items| => toDto(items[k]));
    match order.placedAt
    case None => Err(PLACED_AT_MISSING)
    case Some(placedAt) =>
      Ok(LegacyOrderDTO(order.id, order.user.id, order.createdAt, order.orderStatus, placedAt,
        order.rejectionReason, orderItemDtos, order.shipmentAddress.id, order.invoiceAddress.id,
        order.compensatableOrderAmount, order.paymentInformationId))
  }
}
