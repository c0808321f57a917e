/** The event payload of an order compensation
    (src/event/model/order_compensation_dto.rs). */
module OrderCompensationDTOs {
  import opened ForeignTypes
  import opened OrderCompensationRecords

  datatype OrderCompensationDTO = OrderCompensationDTO(id: Uuid, amountToCompensate: nat)

  /** `From<OrderCompensation> for OrderCompensationDTO`: total, keeps the
      record's id and amount. */
  function FromCompensation(c: OrderCompensation): (d: OrderCompensationDTO)
    ensures d.id == c.id && d.amountToCompensate == c.amountToCompensate
  {
    OrderCompensationDTO(c.id, c.amountToCompensate)
  }

  /** The order, the item ids and the trigger time do not reach the payload. */
  lemma PayloadIgnoresContext(a: OrderCompensation, b: OrderCompensation)
    requires a.id == b.id && a.amountToCompensate == b.amountToCompensate
    ensures FromCompensation(a) == FromCompensation(b)
  {
  }
}
