/** Order items of the older API (src/order_item.rs): each item carries a
    product item slot and its own shipment. */
module LegacyOrderItemModel {
  import opened Wrappers
  import opened ForeignTypes
  import opened OrderDatatypes
  import opened Sorting
  import opened Pagination
  import opened InputStructs
  import opened ShipmentModel
  import OrderItemModel

  /** The older, id-only `ProductVariantVersion` record. */
  datatype LegacyProductVariantVersion = LegacyProductVariantVersion(id: Uuid)

  datatype LegacyOrderItem = LegacyOrderItem(
    id: Uuid,
    createdAt: DateTime,
    productItem: Option<ProductItem>,
    productVariantVersion: LegacyProductVariantVersion,
    taxRateVersion: TaxRateVersion,
    shoppingCartItem: ShoppingCartItem,
    count: nat,
    compensatableAmount: nat,
    shipment: Shipment,
    internalDiscounts: DiscountSet)

  function ItemId(i: LegacyOrderItem): nat { i.id }

  function ItemAmount(i: LegacyOrderItem): nat { i.compensatableAmount }

  /** `OrderItem::new` of the older API. The two fresh ids and the
      compensatable amount (computed in floating point from the price, the
      discounts and the shipment fee) are parameters. */
  function New(
    input: OrderItemInput,
    productVariantVersion: LegacyProductVariantVersion,
    taxRateVersion: TaxRateVersion,
    count: nat,
    internalDiscounts: DiscountSet,
    currentTimestamp: DateTime,
    newShipmentId: Uuid,
    newId: Uuid,
    compensatableAmount: nat): (item: LegacyOrderItem)
    ensures item.productItem == None
    ensures item.shipment.status == Pending && item.shipment.id == newShipmentId
    ensures item.shipment.shipmentMethod.id == input.shipmentMethodId
    ensures item.shoppingCartItem.id == input.shoppingCartItemId
    ensures item.id == newId && item.createdAt == currentTimestamp
    ensures item.productVariantVersion == productVariantVersion && item.taxRateVersion == taxRateVersion
    ensures item.count == count && item.internalDiscounts == internalDiscounts
    ensures item.compensatableAmount == compensatableAmount
  {
    var shoppingCartItem := ShoppingCartItem(input.shoppingCartItemId);
    var shipment := Shipment(newShipmentId, Pending, ShipmentMethod(input.shipmentMethodId));
    LegacyOrderItem(newId, currentTimestamp, None, productVariantVersion, taxRateVersion,
      shoppingCartItem, count, compensatableAmount, shipment, internalDiscounts)
  }

  /** `Ord for OrderItem`: by id alone. */
  function Cmp(a: LegacyOrderItem, b: LegacyOrderItem): (r: Ordering)
    ensures r == Less <==> a.id < b.id
    ensures r == Equal <==> a.id == b.id
    ensures r == Greater <==> a.id > b.id
  {
    CmpUuid(a.id, b.id)
  }

  /** `PartialOrd for OrderItem` agrees with `Ord`. The source implements
      it on its own rather than deriving it, so it is a member of its own. */
  function PartialCmp(a: LegacyOrderItem, b: LegacyOrderItem): (r: Option<Ordering>)
    ensures r == Some(Cmp(a, b))
  {
    Some(CmpUuid(a.id, b.id))
  }

  /** Two different items, e.g. with different shipment states, compare
      `Equal` when they share an id. */
  lemma EqualOrderingDistinctItems(a: LegacyOrderItem)
    ensures var b := a.(shipment := a.shipment.(status := Delivered));
      Cmp(a, b) == Equal && (a.shipment.status != Delivered ==> a != b)
  {
  }

  /** `OrderItem::discounts` of the older API; `sort_discounts` is the same
      as in the current API. */
  method Discounts(item: LegacyOrderItem, first: Option<nat>, skip: Option<nat>, orderBy: Option<CommonOrderInput>)
    returns (c: Connection<Discount>)
    ensures c == Paginate(SortedView(item.internalDiscounts, DiscountId, SortDirection(orderBy)), first, skip)
  {
    var s := item.internalDiscounts;
    var discounts := new Discount[|s|](i requires 0 <= i < |s| => s[i]);
    assert discounts[..] == s;
    OrderItemModel.SortDiscounts(discounts, orderBy);
    OrderItemModel.DiscountSetAscending(s);
    SortOfAscending(s, discounts[..], DiscountId, SortDirection(orderBy));
    c := Paginate(discounts[..], first, skip);
  }
}
