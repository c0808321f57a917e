/** Compensation of order items whose shipment failed, older API
    (src/order_compensation.rs), together with its event payload. The event
    data and the record are the same as in the current API. */
module LegacyOrderCompensations {
  import opened Wrappers
  import opened ForeignTypes
  import opened Amounts
  import opened LegacyOrderItemModel
  import opened LegacyOrderModel
  import OrderCompensations
  import OrderCompensationRecords

  /** The DTO declared in the same file: id and amount only. */
  datatype LegacyOrderCompensationDTO = LegacyOrderCompensationDTO(id: Uuid, amountToCompensate: nat)

  function FromCompensation(c: OrderCompensationRecords.OrderCompensation): (d: LegacyOrderCompensationDTO)
    ensures d.id == c.id && d.amountToCompensate == c.amountToCompensate
  {
    LegacyOrderCompensationDTO(c.id, c.amountToCompensate)
  }

  /** The amount for an older order: the summed compensatable amounts of the
      items the event names. */
  function AmountForOrder(order: LegacyOrder, data: OrderCompensations.ShipmentFailedEventData): (r: nat)
    ensures r <= Total(order.internalOrderItems, LegacyOrderItemModel.ItemAmount)
    ensures data.orderItemIds == [] ==> r == 0
  {
    SelectedTotalBounded(order.internalOrderItems, LegacyOrderItemModel.ItemId, LegacyOrderItemModel.ItemAmount, data.orderItemIds);
    NoIdsNothingCompensated(order.internalOrderItems, LegacyOrderItemModel.ItemId, LegacyOrderItemModel.ItemAmount);
    SelectedTotal(order.internalOrderItems, LegacyOrderItemModel.ItemId, LegacyOrderItemModel.ItemAmount, data.orderItemIds)
  }

  /** `calculate_amount_to_compensate` of the older API. */
  function CalculateAmountToCompensate(orders: map<Uuid, LegacyOrder>, data: OrderCompensations.ShipmentFailedEventData): (r: Result<nat, OrderCompensations.CompensationError>)
    ensures r.Err? <==> data.orderId !in orders
    ensures r.Err? ==> r.error == OrderCompensations.OrderNotFound(data.orderId)
    ensures r.Ok? ==> r.value == AmountForOrder(orders[data.orderId], data)
  {
    if data.orderId in orders then Ok(AmountForOrder(orders[data.orderId], data))
    else Err(OrderCompensations.OrderNotFound(data.orderId))
  }

  class LegacyCompensationService {
    var orders: map<Uuid, LegacyOrder>
    var compensations: map<Uuid, OrderCompensationRecords.OrderCompensation>
    var published: seq<LegacyOrderCompensationDTO>

    constructor (orders: map<Uuid, LegacyOrder>, compensations: map<Uuid, OrderCompensationRecords.OrderCompensation>)
      ensures this.orders == orders && this.compensations == compensations && published == []
    {
      this.orders := orders;
      this.compensations := compensations;
      published := [];
    }

    /** `compensate_order` of the older API; the parameters are as in the
        current API's `CompensateOrder`, and, as there, the payload sent is
        the DTO of the record. */
    method CompensateOrder(data: OrderCompensations.ShipmentFailedEventData, itemsUncompensated: bool, newId: Uuid, now: DateTime,
                           storeUp: bool, sendOk: bool)
      returns (r: Result<Unit, OrderCompensations.CompensationError>)
      modifies this`compensations, this`published
      ensures data.orderId !in orders ==> r == Err(OrderCompensations.OrderNotFound(data.orderId))
      ensures data.orderId in orders && !itemsUncompensated ==> r == Err(OrderCompensations.ItemsNotVerified(data.orderItemIds))
      ensures !(data.orderId in orders && itemsUncompensated) ==>
        compensations == old(compensations) && published == old(published)
      ensures data.orderId in orders && itemsUncompensated ==>
        var inserted := storeUp && newId !in old(compensations);
        var record := OrderCompensations.NewCompensation(data, newId, now, AmountForOrder(orders[data.orderId], data));
        && (!inserted ==> compensations == old(compensations) && published == old(published) && r == Err(OrderCompensations.InsertFailed))
        && (inserted ==> compensations == old(compensations)[newId := record])
        && (inserted && sendOk ==> published == old(published) + [FromCompensation(record)] && r.Ok?)
        && (inserted && !sendOk ==> published == old(published) && r == Err(OrderCompensations.SendFailed))
    {
      if data.orderId !in orders {
        return Err(OrderCompensations.OrderNotFound(data.orderId));
      }
      if !itemsUncompensated {
        return Err(OrderCompensations.ItemsNotVerified(data.orderItemIds));
      }
      // The lookup repeats the one above on the same collection, so it succeeds.
      var amount := CalculateAmountToCompensate(orders, data);
      assert amount.Ok?;
      var orderCompensation := OrderCompensations.NewCompensation(data, newId, now, amount.value);
      if !storeUp || newId in compensations {
        return Err(OrderCompensations.InsertFailed);
      }
      compensations := compensations[newId := orderCompensation];
      if !sendOk {
        return Err(OrderCompensations.SendFailed);
      }
      published := published + [FromCompensation(orderCompensation)];
      return Ok(Unit);
    }
  }
}
