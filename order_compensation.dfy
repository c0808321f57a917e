/** Compensation of order items whose shipment failed
    (src/event/order_compensation.rs). */
module OrderCompensations {
  import opened Wrappers
  import opened ForeignTypes
  import opened Amounts
  import opened OrderItemModel
  import opened OrderModel
  import opened OrderCompensationRecords
  import opened OrderCompensationDTOs

  /** `ShipmentFailedEventData`: the order and the ids of the items whose
      shipment failed. */
  datatype ShipmentFailedEventData = ShipmentFailedEventData(orderId: Uuid, orderItemIds: seq<Uuid>)

  /** Why a compensation failed. */
  datatype CompensationError =
    | OrderNotFound(id: Uuid)
    | ItemsNotVerified(ids: seq<Uuid>)
    | InsertFailed
    | SendFailed

  /** The amount for an order: the summed compensatable amounts of the items
      whose id the event names. */
  function AmountForOrder(order: Order, data: ShipmentFailedEventData): (r: nat)
    ensures r <= Total(order.internalOrderItems, ItemAmount)
    ensures data.orderItemIds == [] ==> r == 0
  {
    SelectedTotalBounded(order.internalOrderItems, ItemId, ItemAmount, data.orderItemIds);
    NoIdsNothingCompensated(order.internalOrderItems, ItemId, ItemAmount);
    SelectedTotal(order.internalOrderItems, ItemId, ItemAmount, data.orderItemIds)
  }

  /** `calculate_amount_to_compensate`: looks the order up, then sums. */
  function CalculateAmountToCompensate(orders: map<Uuid, Order>, data: ShipmentFailedEventData): (r: Result<nat, CompensationError>)
    ensures r.Err? <==> data.orderId !in orders
    ensures r.Err? ==> r.error == OrderNotFound(data.orderId)
    ensures r.Ok? ==> r.value == AmountForOrder(orders[data.orderId], data)
  {
    if data.orderId in orders then Ok(AmountForOrder(orders[data.orderId], data))
    else Err(OrderNotFound(data.orderId))
  }

  /** The record built once the amount is known. */
  function NewCompensation(data: ShipmentFailedEventData, newId: Uuid, now: DateTime, amount: nat): (c: OrderCompensation)
    ensures c.orderId == data.orderId && c.orderItemIds == data.orderItemIds
    ensures c.id == newId && c.triggeredAt == now && c.amountToCompensate == amount
  {
    OrderCompensation(newId, data.orderId, data.orderItemIds, now, amount)
  }

  /** The order and compensation collections, and the compensation event
      payloads sent so far. */
  class CompensationService {
    var orders: map<Uuid, Order>
    var compensations: map<Uuid, OrderCompensation>
    var published: seq<OrderCompensationDTO>

    constructor (orders: map<Uuid, Order>, compensations: map<Uuid, OrderCompensation>)
      ensures this.orders == orders && this.compensations == compensations && published == []
    {
      this.orders := orders;
      this.compensations := compensations;
      published := [];
    }

    /** `compensate_order`. The outcome of `verify_items_uncompensated` is the
        parameter `itemsUncompensated`; `storeUp` and `sendOk` say whether
        the insert and the publish request reach their peers; the payload
        sent is `OrderCompensationDTO::from` of the record; `newId` and
        `now` stand for `Uuid::new()` and `DateTime::now()`. An insert fails
        when the store is down or the id is taken. */
    method CompensateOrder(data: ShipmentFailedEventData, itemsUncompensated: bool, newId: Uuid, now: DateTime,
                           storeUp: bool, sendOk: bool)
      returns (r: Result<Unit, CompensationError>)
      modifies this`compensations, this`published
      ensures data.orderId !in orders ==> r == Err(OrderNotFound(data.orderId))
      ensures data.orderId in orders && !itemsUncompensated ==> r == Err(ItemsNotVerified(data.orderItemIds))
      ensures !(data.orderId in orders && itemsUncompensated) ==>
        compensations == old(compensations) && published == old(published)
      ensures data.orderId in orders && itemsUncompensated ==>
        var inserted := storeUp && newId !in old(compensations);
        var record := NewCompensation(data, newId, now, AmountForOrder(orders[data.orderId], data));
        && (!inserted ==> compensations == old(compensations) && published == old(published) && r == Err(InsertFailed))
        && (inserted ==> compensations == old(compensations)[newId := record])
        && (inserted && sendOk ==> published == old(published) + [FromCompensation(record)] && r.Ok?)
        && (inserted && !sendOk ==> published == old(published) && r == Err(SendFailed))
    {
      if data.orderId !in orders {
        return Err(OrderNotFound(data.orderId));
      }
      if !itemsUncompensated {
        return Err(ItemsNotVerified(data.orderItemIds));
      }
      // The lookup repeats the one above on the same collection, so it succeeds.
      var amount := CalculateAmountToCompensate(orders, data);
      assert amount.Ok?;
      var orderCompensation := NewCompensation(data, newId, now, amount.value);
      if !storeUp || newId in compensations {
        return Err(InsertFailed);
      }
      compensations := compensations[newId := orderCompensation];
      if !sendOk {
        return Err(SendFailed);
      }
      published := published + [FromCompensation(orderCompensation)];
      return Ok(Unit);
    }
  }
}
