/** The event handlers of the older API (src/http_event_service.rs): only
    id-creation events and product variant version creation events, each
    inserting one record. Subscriptions, responses, events and the insert
    itself are those of the current API. */
module LegacyHttpEventService {
  import opened Wrappers
  import opened ForeignTypes
  import ShipmentModel
  import opened LegacyOrderItemModel
  import opened HttpEventService

  /** A product variant version as the older catalog announced it. */
  datatype LegacyProductVariantVersionEventData = LegacyProductVariantVersionEventData(
    id: Uuid, price: nat, taxRateVersionId: Uuid)

  /** `ProductVariantVersion::from(ProductVariantVersionEventData)`: the
      older version record keeps only the id. */
  function LegacyVersionFromEvent(d: LegacyProductVariantVersionEventData): (v: LegacyProductVariantVersion)
    ensures v.id == d.id
  {
    LegacyProductVariantVersion(d.id)
  }

  /** `list_topic_subscriptions`: four subscriptions on the `pubsub`
      component; coupon, shipment method and user share the id-creation
      route. */
  function LegacyListTopicSubscriptions(): (r: seq<Pubsub>)
    ensures |r| == 4
    ensures forall k :: 0 <= k < |r| ==> r[k].pubsubName == PUBSUB
    ensures forall k :: 0 <= k < |r| ==>
      (r[k].route == ID_CREATION_ROUTE <==> r[k].topic in {COUPON_CREATED, SHIPMENT_METHOD_CREATED, USER_CREATED})
  {
    [ Pubsub(PUBSUB, PRODUCT_VARIANT_VERSION_CREATED, PRODUCT_VARIANT_VERSION_ROUTE),
      Pubsub(PUBSUB, COUPON_CREATED, ID_CREATION_ROUTE),
      Pubsub(PUBSUB, SHIPMENT_METHOD_CREATED, ID_CREATION_ROUTE),
      Pubsub(PUBSUB, USER_CREATED, ID_CREATION_ROUTE) ]
  }

  /** The older subscriptions are a subset of the current ones. */
  lemma LegacySubscriptionsKept()
    ensures forall s :: s in LegacyListTopicSubscriptions() ==> s in ListTopicSubscriptions()
  {
    var subs := LegacyListTopicSubscriptions();
    var current := ListTopicSubscriptions();
    forall s | s in subs
      ensures s in current
    {
      var k :| 0 <= k < |subs| && subs[k] == s;
      if k == 0 { assert current[1] == s; }
      else if k == 1 { assert current[2] == s; }
      else if k == 2 { assert current[4] == s; }
      else { assert current[5] == s; }
    }
  }

  /** The replica collections the older handlers write. */
  class LegacyHttpEventServiceState {
    var productVariantVersions: map<Uuid, LegacyProductVariantVersion>
    var coupons: map<Uuid, Coupon>
    var shipmentMethods: map<Uuid, ShipmentModel.ShipmentMethod>
    var users: map<Uuid, User>

    constructor ()
      ensures productVariantVersions == map[] && coupons == map[] && shipmentMethods == map[] && users == map[]
    {
      productVariantVersions := map[];
      coupons := map[];
      shipmentMethods := map[];
      users := map[];
    }

    /** `on_id_creation_event` with `add_to_mongodb`: the coupon,
        shipment-method and user topics insert the record made from the id
        into their own collection; any other topic inserts nothing. */
    method OnIdCreationEvent(event: Event<UuidEventData>, storeUp: bool) returns (r: Result<TopicEventResponse, StatusCode>)
      modifies this`coupons, this`shipmentMethods, this`users
      ensures !Accepts(OnIdCreation, event.topic) ==>
        r == Err(InternalServerError) && coupons == old(coupons) && shipmentMethods == old(shipmentMethods) && users == old(users)
      ensures event.topic == COUPON_CREATED ==>
        && shipmentMethods == old(shipmentMethods) && users == old(users)
        && (r.Ok? <==> storeUp && event.data.id !in old(coupons))
        && coupons == (if r.Ok? then old(coupons)[event.data.id := Coupon(event.data.id)] else old(coupons))
      ensures event.topic == SHIPMENT_METHOD_CREATED ==>
        && coupons == old(coupons) && users == old(users)
        && (r.Ok? <==> storeUp && event.data.id !in old(shipmentMethods))
        && shipmentMethods == (if r.Ok? then old(shipmentMethods)[event.data.id := ShipmentModel.MethodFromUuid(event.data.id)]
                               else old(shipmentMethods))
      ensures event.topic == USER_CREATED ==>
        && coupons == old(coupons) && shipmentMethods == old(shipmentMethods)
        && (r.Ok? <==> storeUp && event.data.id !in old(users))
        && users == (if r.Ok? then old(users)[event.data.id := UserFromUuid(event.data.id)] else old(users))
      ensures r.Ok? ==> r.value == DefaultResponse()
      ensures r.Err? ==> r.error == InternalServerError
    {
      var id := event.data.id;
      if event.topic == COUPON_CREATED {
        var inserted := InsertOne(coupons, id, Coupon(id), storeUp);
        if inserted.Err? {
          return Err(InternalServerError);
        }
        coupons := inserted.value;
      } else if event.topic == SHIPMENT_METHOD_CREATED {
        var inserted := InsertOne(shipmentMethods, id, ShipmentModel.MethodFromUuid(id), storeUp);
        if inserted.Err? {
          return Err(InternalServerError);
        }
        shipmentMethods := inserted.value;
      } else if event.topic == USER_CREATED {
        var inserted := InsertOne(users, id, UserFromUuid(id), storeUp);
        if inserted.Err? {
          return Err(InternalServerError);
        }
        users := inserted.value;
      } else {
        return Err(InternalServerError);
      }
      return Ok(DefaultResponse());
    }

    /** `on_product_variant_version_creation_event` with
        `add_product_variant_version_to_mongodb`: inserts the converted
        version; a failed insert or another topic answers 500. */
    method OnProductVariantVersionCreationEvent(event: Event<LegacyProductVariantVersionEventData>, storeUp: bool)
      returns (r: Result<TopicEventResponse, StatusCode>)
      modifies this`productVariantVersions
      ensures !Accepts(OnProductVariantVersionCreation, event.topic) ==>
        r == Err(InternalServerError) && productVariantVersions == old(productVariantVersions)
      ensures Accepts(OnProductVariantVersionCreation, event.topic) ==>
        (r.Ok? <==> storeUp && event.data.id !in old(productVariantVersions))
      ensures r.Ok? ==> r.value == DefaultResponse()
      ensures r.Ok? ==> productVariantVersions == old(productVariantVersions)[event.data.id := LegacyVersionFromEvent(event.data)]
      ensures r.Err? ==> r.error == InternalServerError && productVariantVersions == old(productVariantVersions)
    {
      var version := LegacyVersionFromEvent(event.data);
      if event.topic != PRODUCT_VARIANT_VERSION_CREATED {
        return Err(InternalServerError);
      }
      var inserted := InsertOne(productVariantVersions, version.id, version, storeUp);
      if inserted.Err? {
        return Err(InternalServerError);
      }
      productVariantVersions := inserted.value;
      return Ok(DefaultResponse());
    }
  }
}
