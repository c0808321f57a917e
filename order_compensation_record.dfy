/** The compensation record of src/event/order_compensation.rs, kept apart
    so that both the compensation flow and its event payload can name it.
    The older src/order_compensation.rs declares the same record. */
module OrderCompensationRecords {
  import opened ForeignTypes

  /** The compensation record that is stored; its payload is the
      `OrderCompensationDTO`. */
  datatype OrderCompensation = OrderCompensation(
    id: Uuid,
    orderId: Uuid,
    orderItemIds: seq<Uuid>,
    triggeredAt: DateTime,
    amountToCompensate: nat)
}
