/** Order items of the current API (src/graphql/model/order_item.rs). */
module OrderItemModel {
  import opened Wrappers
  import opened ForeignTypes
  import opened OrderDatatypes
  import opened Sorting
  import opened Pagination
  import opened InputStructs
  import ShipmentModel

  datatype OrderItem = OrderItem(
    id: Uuid,
    createdAt: DateTime,
    productVariant: ProductVariant,
    productVariantVersion: ProductVariantVersion,
    taxRateVersion: TaxRateVersion,
    shoppingCartItem: ShoppingCartItem,
    count: nat,
    compensatableAmount: nat,
    shipmentMethod: ShipmentModel.ShipmentMethod,
    internalDiscounts: DiscountSet)

  function ItemId(i: OrderItem): nat { i.id }

  function ItemAmount(i: OrderItem): nat { i.compensatableAmount }

  /** `OrderItem::new`. The fresh id and the compensatable amount, which the
      source computes in floating point from the price and the discounts,
      are parameters. */
  function New(
    input: OrderItemInput,
    productVariant: ProductVariant,
    productVariantVersion: ProductVariantVersion,
    taxRateVersion: TaxRateVersion,
    count: nat,
    internalDiscounts: DiscountSet,
    currentTimestamp: DateTime,
    newId: Uuid,
    compensatableAmount: nat): (item: OrderItem)
    ensures item.id == newId && item.createdAt == currentTimestamp
    ensures item.shoppingCartItem.id == input.shoppingCartItemId
    ensures item.shipmentMethod.id == input.shipmentMethodId
    ensures item.productVariant == productVariant && item.productVariantVersion == productVariantVersion
    ensures item.taxRateVersion == taxRateVersion && item.count == count
    ensures item.internalDiscounts == internalDiscounts
    ensures item.compensatableAmount == compensatableAmount
  {
    OrderItem(newId, currentTimestamp, productVariant, productVariantVersion, taxRateVersion,
      ShoppingCartItem(input.shoppingCartItemId), count, compensatableAmount,
      ShipmentModel.ShipmentMethod(input.shipmentMethodId), internalDiscounts)
  }

  /** `Ord for OrderItem`: by id alone. */
  function Cmp(a: OrderItem, b: OrderItem): (r: Ordering)
    ensures r == Less <==> a.id < b.id
    ensures r == Equal <==> a.id == b.id
    ensures r == Greater <==> a.id > b.id
  {
    CmpUuid(a.id, b.id)
  }

  /** `PartialOrd for OrderItem` agrees with `Ord`. The source implements
      it on its own rather than deriving it, so it is a member of its own. */
  function PartialCmp(a: OrderItem, b: OrderItem): (r: Option<Ordering>)
    ensures r == Some(Cmp(a, b))
  {
    Some(CmpUuid(a.id, b.id))
  }

  /** Items with the same id are interchangeable for the ordering, whatever
      their other fields. */
  lemma OrderingOnlyById(a: OrderItem, b: OrderItem, c: OrderItem)
    requires a.id == b.id
    ensures Cmp(a, c) == Cmp(b, c) && Cmp(c, a) == Cmp(c, b) && Cmp(a, b) == Equal
  {
  }

  lemma DiscountSetAscending(s: DiscountSet)
    ensures StrictlyAscending(s, DiscountId)
  {
  }

  /** `sort_discounts`: sorts in place by id, ascending unless `Desc` is asked for. */
  method SortDiscounts(discounts: array<Discount>, orderBy: Option<CommonOrderInput>)
    modifies discounts
    ensures SortedBy(discounts[..], DiscountId, SortDirection(orderBy))
    ensures multiset(discounts[..]) == multiset(old(discounts[..]))
  {
    var direction := orderBy.GetOr(DefaultCommonOrderInput()).direction.GetOr(DEFAULT_DIRECTION);
    SortByKey(discounts, DiscountId, direction);
  }

  /** `OrderItem::discounts`: the requested page of the item's discounts in
      the requested direction. */
  method Discounts(item: OrderItem, first: Option<nat>, skip: Option<nat>, orderBy: Option<CommonOrderInput>)
    returns (c: Connection<Discount>)
    ensures c == Paginate(SortedView(item.internalDiscounts, DiscountId, SortDirection(orderBy)), first, skip)
  {
    var s := item.internalDiscounts;
    var discounts := new Discount[|s|](i requires 0 <= i < |s| => s[i]);
    assert discounts[..] == s;
    SortDiscounts(discounts, orderBy);
    DiscountSetAscending(s);
    SortOfAscending(s, discounts[..], DiscountId, SortDirection(orderBy));
    c := Paginate(discounts[..], first, skip);
  }
}
