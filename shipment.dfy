/** Shipments of the older order items and their shipment methods
    (src/shipment.rs). Both are ordered by `_id` alone. */
module ShipmentModel {
  import opened Wrappers
  import opened ForeignTypes

  datatype ShipmentStatus = Pending | InProgress | Delivered | Returned | ReturnInProgress

  datatype ShipmentMethod = ShipmentMethod(id: Uuid)

  datatype Shipment = Shipment(id: Uuid, status: ShipmentStatus, shipmentMethod: ShipmentMethod)

  /** `PartialOrd for Shipment`: compares the ids only. */
  function ShipmentPartialCmp(a: Shipment, b: Shipment): (r: Option<Ordering>)
    ensures r.Some?
    ensures r.value == Less <==> a.id < b.id
    ensures r.value == Equal <==> a.id == b.id
  {
    Some(CmpUuid(a.id, b.id))
  }

  /** `PartialOrd for ShipmentMethod`. */
  function MethodPartialCmp(a: ShipmentMethod, b: ShipmentMethod): (r: Option<Ordering>)
    ensures r.Some?
    ensures r.value == Less <==> a.id < b.id
    ensures r.value == Equal <==> a == b
  {
    Some(CmpUuid(a.id, b.id))
  }

  /** `From<Shipment> for Bson`: a document with the id only. */
  function ShipmentToBson(s: Shipment): (b: Bson)
    ensures b.BDocument? && b.fields.Keys == {"_id"} && b.fields["_id"] == s.id
  {
    IdDocument(s.id)
  }

  /** `From<ShipmentMethod> for Bson`: a document with the id only. The
      source writes this conversion separately from the one for `Shipment`,
      so it is kept as its own member. */
  function MethodToBson(m: ShipmentMethod): (b: Bson)
    ensures b.BDocument? && b.fields.Keys == {"_id"} && b.fields["_id"] == m.id
  {
    IdDocument(m.id)
  }

  /** `From<Shipment> for Uuid`. */
  function ShipmentToUuid(s: Shipment): (r: Uuid)
    ensures r == s.id
  {
    s.id
  }

  /** `From<ShipmentMethod> for Uuid`. */
  function MethodToUuid(m: ShipmentMethod): (r: Uuid)
    ensures r == m.id
  {
    m.id
  }

  /** `From<Uuid> for ShipmentMethod`. */
  function MethodFromUuid(u: Uuid): (m: ShipmentMethod)
    ensures m.id == u
  {
    ShipmentMethod(u)
  }

  /** Converting an id to a method and back yields the id. */
  lemma UuidMethodRoundTrip(u: Uuid)
    ensures MethodToUuid(MethodFromUuid(u)) == u
  {
  }

  /** The id is a method's only field, so the other round trip holds too. */
  lemma MethodUuidRoundTrip(m: ShipmentMethod)
    ensures MethodFromUuid(MethodToUuid(m)) == m
  {
  }

  /** A shipment's Bson document and its `Uuid` carry the same id. */
  lemma ShipmentConversionsAgree(s: Shipment)
    ensures ShipmentToBson(s).fields["_id"] == ShipmentToUuid(s)
  {
  }

  /** The ordering of shipments ignores status and method: shipments with
      equal ids compare the same way against every other shipment. */
  lemma ShipmentOrderingOnlyById(a: Shipment, b: Shipment, c: Shipment)
    requires a.id == b.id
    ensures ShipmentPartialCmp(a, c) == ShipmentPartialCmp(b, c)
    ensures ShipmentPartialCmp(c, a) == ShipmentPartialCmp(c, b)
    ensures ShipmentPartialCmp(a, b) == Some(Equal)
  {
  }

  /** The derived equality looks at every field while the ordering looks at
      the id only: two different shipments can compare `Equal`. */
  lemma EqualOrderingDistinctShipments()
    ensures var a := Shipment(1, Pending, ShipmentMethod(2));
      var b := Shipment(1, Delivered, ShipmentMethod(2));
      ShipmentPartialCmp(a, b) == Some(Equal) && a != b
  {
  }
}
