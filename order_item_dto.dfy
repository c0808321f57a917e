/** The event payload of an order item (src/event/model/order_item_dto.rs). */
module OrderItemDTOs {
  import opened ForeignTypes
  import opened InputStructs
  import opened OrderItemModel

  datatype OrderItemDTO = OrderItemDTO(
    id: Uuid,
    createdAt: DateTime,
    productVariantId: Uuid,
    productVariantVersionId: Uuid,
    taxRateVersionId: Uuid,
    shoppingCartItemId: Uuid,
    count: nat,
    compensatableAmount: nat,
    shipmentMethodId: Uuid,
    discountIds: seq<Uuid>)

  function DtoAmount(d: OrderItemDTO): nat { d.compensatableAmount }

  /** The discount ids in the iteration order of the discount set. */
  function DiscountIds(discounts: DiscountSet): (ids: seq<Uuid>)
    ensures |ids| == |discounts|
    ensures forall k :: 0 <= k < |discounts| ==> ids[k] == discounts[k].id
  {
    seq(|discounts|, k requires 0 <= k < |discounts| => discounts[k].id)
  }

  /** `From<OrderItem> for OrderItemDTO`: total; each embedded record is
      replaced by its id. */
  function FromOrderItem(item: OrderItem): (d: OrderItemDTO)
    ensures d.id == item.id && d.createdAt == item.createdAt
    ensures d.count == item.count && d.compensatableAmount == item.compensatableAmount
    ensures d.productVariantId == item.productVariant.id
    ensures d.productVariantVersionId == item.productVariantVersion.id
    ensures d.taxRateVersionId == item.taxRateVersion.id
    ensures d.shoppingCartItemId == item.shoppingCartItem.id
    ensures d.shipmentMethodId == item.shipmentMethod.id
    ensures d.discountIds == DiscountIds(item.internalDiscounts)
  {
    OrderItemDTO(item.id, item.createdAt, item.productVariant.id, item.productVariantVersion.id,
      item.taxRateVersion.id, item.shoppingCartItem.id, item.count, item.compensatableAmount,
      item.shipmentMethod.id, DiscountIds(item.internalDiscounts))
  }

  /** The discount ids of a payload are strictly ascending, hence free of
      repetitions. */
  lemma DiscountIdsAscending(item: OrderItem)
    ensures forall i, j :: 0 <= i < j < |FromOrderItem(item).discountIds| ==>
      FromOrderItem(item).discountIds[i] < FromOrderItem(item).discountIds[j]
  {
  }

  /** The payload of a freshly built item names the cart item and the
      shipment method of the input it was built from. */
  lemma NewItemPayload(
    input: OrderItemInput, productVariant: ProductVariant, productVariantVersion: ProductVariantVersion,
    taxRateVersion: TaxRateVersion, count: nat, discounts: DiscountSet, now: DateTime, newId: Uuid, amount: nat)
    ensures var d := FromOrderItem(New(input, productVariant, productVariantVersion, taxRateVersion, count, discounts, now, newId, amount));
      && d.shoppingCartItemId == input.shoppingCartItemId && d.shipmentMethodId == input.shipmentMethodId
      && d.productVariantId == productVariant.id && d.count == count && d.compensatableAmount == amount
      && |d.discountIds| == |discounts|
  {
  }
}
