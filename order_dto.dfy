/** The event payload of a placed order (src/event/model/order_dto.rs). */
module OrderDTOs {
  import opened Wrappers
  import opened ForeignTypes
  import opened Amounts
  import opened OrderItemModel
  import opened OrderModel
  import opened OrderItemDTOs
  import opened PaymentAuthorizations

  datatype OrderDTO = OrderDTO(
    id: Uuid,
    userId: Uuid,
    createdAt: DateTime,
    orderStatus: OrderStatus,
    placedAt: DateTime,
    rejectionReason: Option<RejectionReason>,
    orderItems: seq<OrderItemDTO>,
    shipmentAddressId: Uuid,
    invoiceAddressId: Uuid,
    compensatableOrderAmount: nat,
    paymentInformationId: Uuid,
    paymentAuthorization: Option<PaymentAuthorization>,
    vatNumber: string)

  const PLACED_AT_MISSING := "OrderDTO cannot be created, `placed_at` of the given Order is `None`"

  /** `TryFrom<(Order, Option<PaymentAuthorization>)> for OrderDTO`: fails
      exactly for an order that was never placed. */
  function TryFromOrder(order: Order, paymentAuthorization: Option<PaymentAuthorization>): (r: Result<OrderDTO, string>)
    ensures r.Err? <==> order.placedAt.None?
    ensures r.Err? ==> r.error == PLACED_AT_MISSING
    ensures r.Ok? ==> var d := r.value;
      && d.id == order.id && d.userId == order.user.id && d.createdAt == order.createdAt
      && d.orderStatus == order.orderStatus && Some(d.placedAt) == order.placedAt
      && d.rejectionReason == order.rejectionReason
      && d.shipmentAddressId == order.shipmentAddress.id && d.invoiceAddressId == order.invoiceAddress.id
      && d.compensatableOrderAmount == order.compensatableOrderAmount
      && d.paymentInformationId == order.paymentInformationId
      && d.paymentAuthorization == paymentAuthorization && d.vatNumber == order.vatNumber
    ensures r.Ok? ==> |r.value.orderItems| == |order.internalOrderItems|
    ensures r.Ok? ==> forall k :: 0 <= k < |order.internalOrderItems| ==>
      r.value.orderItems[k] == FromOrderItem(order.internalOrderItems[k])
  {
    var items := order.internalOrderItems;
    var orderItemDtos := seq(|items|, k requires 0 <= k < |items| => FromOrderItem(items[k]));
    match order.placedAt
    case None => Err(PLACED_AT_MISSING)
    case Some(placedAt) =>
      Ok(OrderDTO(order.id, order.user.id, order.createdAt, order.orderStatus, placedAt,
        order.rejectionReason, orderItemDtos, order.shipmentAddress.id, order.invoiceAddress.id,
        order.compensatableOrderAmount, order.paymentInformationId, paymentAuthorization, order.vatNumber))
  }

  lemma {:induction false} ProjectedAmounts(items: seq<OrderItem>, dtos: seq<OrderItemDTO>)
    requires |dtos| == |items|
    requires forall k :: 0 <= k < |items| ==> dtos[k] == FromOrderItem(items[k])
    ensures Total(dtos, DtoAmount) == Total(items, ItemAmount)
  {
    if items != [] {
      ProjectedAmounts(items[1..], dtos[1..]);
    }
  }

  /** The item amounts in the payload add up to the same sum as the order's
      items, so a consumer can check the order total against its items. */
  lemma PayloadAmountsAddUp(order: Order, paymentAuthorization: Option<PaymentAuthorization>)
    requires order.placedAt.Some?
    ensures var d := TryFromOrder(order, paymentAuthorization).value;
      Total(d.orderItems, DtoAmount) == Total(order.internalOrderItems, ItemAmount)
  {
    var d := TryFromOrder(order, paymentAuthorization).value;
    ProjectedAmounts(order.internalOrderItems, d.orderItems);
  }
}
