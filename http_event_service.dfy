/** The event handlers of the current API (src/event/http_event_service.rs):
    Dapr delivers each event with its topic to a route, and the handler at
    that route checks the topic and updates one replica collection. Every
    collection is a map keyed by `_id`; `storeUp` says whether the write
    reaches the store. */
module HttpEventService {
  import opened Wrappers
  import opened ForeignTypes
  import ShipmentModel
  import OrderCompensations
  import OrderCompensationDTOs

  /** A subscription announced to Dapr. */
  datatype Pubsub = Pubsub(pubsubName: string, topic: string, route: string)

  /** The body answered to Dapr for a handled event. */
  datatype TopicEventResponse = TopicEventResponse(status: nat)

  /** The only failure status the handlers answer with. */
  datatype StatusCode = InternalServerError

  /** A delivered event: its topic and payload. */
  datatype Event<T> = Event(topic: string, data: T)

  datatype UuidEventData = UuidEventData(id: Uuid)

  /** A product variant version as the catalog announces it. */
  datatype ProductVariantVersionEventData = ProductVariantVersionEventData(
    id: Uuid, retailPrice: nat, taxRateId: Uuid, productVariantId: Uuid)

  /** A tax rate version as the tax service announces it; its floating-point
      rate is not part of this model. */
  datatype TaxRateVersionEventData = TaxRateVersionEventData(id: Uuid, version: nat, taxRateId: Uuid)

  datatype UserAddressEventData = UserAddressEventData(id: Uuid, userId: Uuid)

  datatype UpdateProductVariantEventData = UpdateProductVariantEventData(id: Uuid, isPubliclyVisible: string)

  /** `TopicEventResponse::default()`: status 0, which Dapr reads as success. */
  function DefaultResponse(): (r: TopicEventResponse)
    ensures r.status == 0
  {
    TopicEventResponse(0)
  }

  const PUBSUB := "pubsub"
  const PRODUCT_VARIANT_VERSION_CREATED := "catalog/product-variant-version/created"
  const PRODUCT_VARIANT_UPDATED := "catalog/product-variant/updated"
  const COUPON_CREATED := "discount/coupon/created"
  const TAX_RATE_VERSION_CREATED := "tax/tax-rate-version/created"
  const SHIPMENT_METHOD_CREATED := "shipment/shipment-method/created"
  const USER_CREATED := "user/user/created"
  const USER_ADDRESS_CREATED := "address/user-address/created"
  const USER_ADDRESS_ARCHIVED := "address/user-address/archived"
  const SHIPMENT_CREATION_FAILED := "shipment/shipment/creation-failed"

  const ID_CREATION_ROUTE := "/on-id-creation-event"
  const PRODUCT_VARIANT_VERSION_ROUTE := "/on-product-variant-version-creation-event"
  const PRODUCT_VARIANT_UPDATED_ROUTE := "/on-product-variant-updated-event"
  const TAX_RATE_VERSION_ROUTE := "/on-tax-rate-version-creation-event"
  const USER_ADDRESS_CREATED_ROUTE := "/on-user-address-creation-event"
  const USER_ADDRESS_ARCHIVED_ROUTE := "/on-user-address-archived-event"

  /** `list_topic_subscriptions`: eight subscriptions on the `pubsub`
      component, three of them (coupon, shipment method, user) sharing the
      id-creation route. */
  function ListTopicSubscriptions(): (r: seq<Pubsub>)
    ensures |r| == 8
    ensures forall k :: 0 <= k < |r| ==> r[k].pubsubName == PUBSUB
    ensures forall k :: 0 <= k < |r| ==>
      (r[k].route == ID_CREATION_ROUTE <==> r[k].topic in {COUPON_CREATED, SHIPMENT_METHOD_CREATED, USER_CREATED})
  {
    [ Pubsub(PUBSUB, PRODUCT_VARIANT_UPDATED, PRODUCT_VARIANT_UPDATED_ROUTE),
      Pubsub(PUBSUB, PRODUCT_VARIANT_VERSION_CREATED, PRODUCT_VARIANT_VERSION_ROUTE),
      Pubsub(PUBSUB, COUPON_CREATED, ID_CREATION_ROUTE),
      Pubsub(PUBSUB, TAX_RATE_VERSION_CREATED, TAX_RATE_VERSION_ROUTE),
      Pubsub(PUBSUB, SHIPMENT_METHOD_CREATED, ID_CREATION_ROUTE),
      Pubsub(PUBSUB, USER_CREATED, ID_CREATION_ROUTE),
      Pubsub(PUBSUB, USER_ADDRESS_CREATED, USER_ADDRESS_CREATED_ROUTE),
      Pubsub(PUBSUB, USER_ADDRESS_ARCHIVED, USER_ADDRESS_ARCHIVED_ROUTE) ]
  }

  /** The event handlers. */
  datatype Handler =
    | OnIdCreation | OnProductVariantVersionCreation | OnProductVariantUpdate | OnTaxRateVersionCreation
    | OnUserAddressCreation | OnUserAddressArchived | OnShipmentCreationFailed

  /** The topics each handler's `match` accepts; any other topic is
      answered with `INTERNAL_SERVER_ERROR`. */
  predicate Accepts(h: Handler, topic: string)
  {
    match h
    case OnIdCreation => topic == COUPON_CREATED || topic == SHIPMENT_METHOD_CREATED || topic == USER_CREATED
    case OnProductVariantVersionCreation => topic == PRODUCT_VARIANT_VERSION_CREATED
    case OnProductVariantUpdate => topic == PRODUCT_VARIANT_UPDATED
    case OnTaxRateVersionCreation => topic == TAX_RATE_VERSION_CREATED
    case OnUserAddressCreation => topic == USER_ADDRESS_CREATED
    case OnUserAddressArchived => topic == USER_ADDRESS_ARCHIVED
    case OnShipmentCreationFailed => topic == SHIPMENT_CREATION_FAILED
  }

  /** The handler whose own name a subscription's route spells. This is not
      the router src/main.rs mounts: that router has no entry for
      `/on-product-variant-updated-event` and does have one for
      `/on-shipment-creation-failed-event`. */
  function HandlerAt(route: string): Option<Handler>
  {
    if route == ID_CREATION_ROUTE then Some(OnIdCreation)
    else if route == PRODUCT_VARIANT_VERSION_ROUTE then Some(OnProductVariantVersionCreation)
    else if route == PRODUCT_VARIANT_UPDATED_ROUTE then Some(OnProductVariantUpdate)
    else if route == TAX_RATE_VERSION_ROUTE then Some(OnTaxRateVersionCreation)
    else if route == USER_ADDRESS_CREATED_ROUTE then Some(OnUserAddressCreation)
    else if route == USER_ADDRESS_ARCHIVED_ROUTE then Some(OnUserAddressArchived)
    else None
  }

  /** Every subscribed route names a handler that accepts the subscribed
      topic. Whether the route is mounted is a separate matter (see
      `HandlerAt`). */
  lemma SubscribedTopicsAccepted()
    ensures forall s :: s in ListTopicSubscriptions() ==>
      HandlerAt(s.route).Some? && Accepts(HandlerAt(s.route).value, s.topic)
  {
    var subs := ListTopicSubscriptions();
    forall s | s in subs
      ensures HandlerAt(s.route).Some? && Accepts(HandlerAt(s.route).value, s.topic)
    {
      var k :| 0 <= k < |subs| && subs[k] == s;
      SubscriptionAccepted(k);
    }
  }

  lemma SubscriptionAccepted(k: nat)
    requires k < |ListTopicSubscriptions()|
    ensures var s := ListTopicSubscriptions()[k];
      HandlerAt(s.route).Some? && Accepts(HandlerAt(s.route).value, s.topic)
  {
    var s := ListTopicSubscriptions()[k];
    if k == 0 { assert HandlerAt(s.route) == Some(OnProductVariantUpdate); }
    else if k == 1 { assert HandlerAt(s.route) == Some(OnProductVariantVersionCreation); }
    else if k == 3 { assert HandlerAt(s.route) == Some(OnTaxRateVersionCreation); }
    else if k == 6 { assert HandlerAt(s.route) == Some(OnUserAddressCreation); }
    else if k == 7 { assert HandlerAt(s.route) == Some(OnUserAddressArchived); }
    else { assert HandlerAt(s.route) == Some(OnIdCreation); }
  }

  /** The failed-shipment handler accepts a topic no subscription names, so
      Dapr delivers it no event through the subscription list. */
  lemma ShipmentCreationFailedNotSubscribed()
    ensures forall s :: s in ListTopicSubscriptions() ==> s.topic != SHIPMENT_CREATION_FAILED
    ensures Accepts(OnShipmentCreationFailed, SHIPMENT_CREATION_FAILED)
  {
    var subs := ListTopicSubscriptions();
    forall s | s in subs
      ensures s.topic != SHIPMENT_CREATION_FAILED
    {
      var k :| 0 <= k < |subs| && subs[k] == s;
      assert k < 8;
    }
  }

  /** `insert_one` of a record under a fresh `_id`: fails when the store is
      down or the id is taken; otherwise adds exactly that record. */
  function InsertOne<T>(collection: map<Uuid, T>, id: Uuid, record: T, storeUp: bool): (r: Result<map<Uuid, T>, StatusCode>)
    ensures r.Ok? <==> storeUp && id !in collection
    ensures r.Err? ==> r.error == InternalServerError
    ensures r.Ok? ==> r.value.Keys == collection.Keys + {id} && r.value[id] == record
    ensures r.Ok? ==> forall k :: k in collection ==> r.value[k] == collection[k]
  {
    if storeUp && id !in collection then Ok(collection[id := record]) else Err(InternalServerError)
  }

  /** `ProductVariantVersion::from(ProductVariantVersionEventData)`. */
  function VersionFromEvent(d: ProductVariantVersionEventData): (v: ProductVariantVersion)
    ensures v.id == d.id && v.price == d.retailPrice && v.taxRateId == d.taxRateId
  {
    ProductVariantVersion(d.id, d.retailPrice, d.taxRateId)
  }

  /** `ProductVariant::from(ProductVariantVersionEventData)`: the variant
      named by the event with the event's version as current version; the
      visibility it starts with is the parameter `visibility`. */
  function VariantFromEvent(d: ProductVariantVersionEventData, visibility: Visibility): (v: ProductVariant)
    ensures v.id == d.productVariantId && v.currentVersion == VersionFromEvent(d) && v.isPubliclyVisible == visibility
  {
    ProductVariant(d.productVariantId, VersionFromEvent(d), visibility)
  }

  /** `TaxRate::from(TaxRateVersionEventData)`: the rate named by the event
      with the event's version as current version. */
  function TaxRateFromEvent(d: TaxRateVersionEventData): (t: TaxRate)
    ensures t.id == d.taxRateId && t.currentVersion.id == d.id
  {
    TaxRate(d.taxRateId, TaxRateVersion(d.id))
  }

  /** The list without any occurrence of `x`, in its order (`$pull`). */
  function RemoveAll(s: seq<Uuid>, x: Uuid): (r: seq<Uuid>)
    ensures x !in r
    ensures forall y :: y != x ==> multiset(r)[y] == multiset(s)[y]
    ensures |r| <= |s|
  {
    if s == [] then []
    else
      assert s == [s[0]] + s[1..];
      if s[0] == x then RemoveAll(s[1..], x) else [s[0]] + RemoveAll(s[1..], x)
  }

  /** `$pull` distributes over concatenation, so it keeps the order of the
      remaining ids. */
  lemma {:induction false} RemoveAllAppend(a: seq<Uuid>, b: seq<Uuid>, x: Uuid)
    ensures RemoveAll(a + b, x) == RemoveAll(a, x) + RemoveAll(b, x)
  {
    if a != [] {
      assert (a + b)[1..] == a[1..] + b;
      RemoveAllAppend(a[1..], b, x);
    } else {
      assert a + b == b;
    }
  }

  /** Pulling an id from a list without it changes nothing. */
  lemma {:induction false} RemoveAbsent(s: seq<Uuid>, x: Uuid)
    requires x !in s
    ensures RemoveAll(s, x) == s
  {
    if s != [] {
      RemoveAbsent(s[1..], x);
    }
  }

  /** Archiving an address right after creating it restores the user's list. */
  lemma PullUndoesPush(s: seq<Uuid>, x: Uuid)
    requires x !in s
    ensures RemoveAll(s + [x], x) == s
  {
    RemoveAllAppend(s, [x], x);
    RemoveAbsent(s, x);
    assert RemoveAll([x], x) == [];
  }

  /** The replica collections the handlers write, and the compensation
      service the failed-shipment handler calls. */
  class HttpEventServiceState {
    var productVariants: map<Uuid, ProductVariant>
    var coupons: map<Uuid, Coupon>
    var taxRates: map<Uuid, TaxRate>
    var shipmentMethods: map<Uuid, ShipmentModel.ShipmentMethod>
    var users: map<Uuid, User>
    const compensation: OrderCompensations.CompensationService

    constructor (compensation: OrderCompensations.CompensationService)
      ensures productVariants == map[] && coupons == map[] && taxRates == map[]
      ensures shipmentMethods == map[] && users == map[] && this.compensation == compensation
    {
      productVariants := map[];
      coupons := map[];
      taxRates := map[];
      shipmentMethods := map[];
      users := map[];
      this.compensation := compensation;
    }

    /** `on_id_creation_event` with `create_in_mongodb`: the coupon,
        shipment-method and user topics insert the record made from the id
        into their own collection and nowhere else. */
    method OnIdCreationEvent(event: Event<UuidEventData>, storeUp: bool) returns (r: Result<TopicEventResponse, StatusCode>)
      modifies this`coupons, this`shipmentMethods, this`users
      ensures !Accepts(OnIdCreation, event.topic) ==>
        r == Err(InternalServerError) && coupons == old(coupons) && shipmentMethods == old(shipmentMethods) && users == old(users)
      ensures event.topic == COUPON_CREATED ==>
        && shipmentMethods == old(shipmentMethods) && users == old(users)
        && (r.Ok? <==> storeUp && event.data.id !in old(coupons))
        && coupons == (if r.Ok? then old(coupons)[event.data.id := Coupon(event.data.id)] else old(coupons))
      ensures event.topic == SHIPMENT_METHOD_CREATED ==>
        && coupons == old(coupons) && users == old(users)
        && (r.Ok? <==> storeUp && event.data.id !in old(shipmentMethods))
        && shipmentMethods == (if r.Ok? then old(shipmentMethods)[event.data.id := ShipmentModel.MethodFromUuid(event.data.id)]
                               else old(shipmentMethods))
      ensures event.topic == USER_CREATED ==>
        && coupons == old(coupons) && shipmentMethods == old(shipmentMethods)
        && (r.Ok? <==> storeUp && event.data.id !in old(users))
        && users == (if r.Ok? then old(users)[event.data.id := UserFromUuid(event.data.id)] else old(users))
      ensures r.Ok? ==> r.value == DefaultResponse()
      ensures r.Err? ==> r.error == InternalServerError
    {
      var id := event.data.id;
      if event.topic == COUPON_CREATED {
        var inserted := InsertOne(coupons, id, Coupon(id), storeUp);
        if inserted.Err? {
          return Err(InternalServerError);
        }
        coupons := inserted.value;
      } else if event.topic == SHIPMENT_METHOD_CREATED {
        var inserted := InsertOne(shipmentMethods, id, ShipmentModel.MethodFromUuid(id), storeUp);
        if inserted.Err? {
          return Err(InternalServerError);
        }
        shipmentMethods := inserted.value;
      } else if event.topic == USER_CREATED {
        var inserted := InsertOne(users, id, UserFromUuid(id), storeUp);
        if inserted.Err? {
          return Err(InternalServerError);
        }
        users := inserted.value;
      } else {
        return Err(InternalServerError);
      }
      return Ok(DefaultResponse());
    }

    /** `create_or_update_product_variant_in_mongodb`: a known product
        variant gets the event's version as current version and keeps its
        other fields; an unknown one is created from the event. */
    method CreateOrUpdateProductVariantInMongodb(d: ProductVariantVersionEventData, visibility: Visibility, storeUp: bool)
      returns (r: Result<Unit, StatusCode>)
      modifies this`productVariants
      ensures r.Ok? <==> storeUp
      ensures !storeUp ==> productVariants == old(productVariants)
      ensures storeUp && d.productVariantId in old(productVariants) ==>
        productVariants == old(productVariants)[d.productVariantId :=
          old(productVariants)[d.productVariantId].(currentVersion := VersionFromEvent(d))]
      ensures storeUp && d.productVariantId !in old(productVariants) ==>
        productVariants == old(productVariants)[d.productVariantId := VariantFromEvent(d, visibility)]
    {
      if !storeUp {
        return Err(InternalServerError);
      }
      if d.productVariantId in productVariants {
        var variant := productVariants[d.productVariantId];
        productVariants := productVariants[d.productVariantId := variant.(currentVersion := VersionFromEvent(d))];
      } else {
        var inserted := InsertOne(productVariants, d.productVariantId, VariantFromEvent(d, visibility), storeUp);
        productVariants := inserted.value;
      }
      return Ok(Unit);
    }

    /** `on_product_variant_version_creation_event`. */
    method OnProductVariantVersionCreationEvent(event: Event<ProductVariantVersionEventData>, visibility: Visibility,
                                                storeUp: bool)
      returns (r: Result<TopicEventResponse, StatusCode>)
      modifies this`productVariants
      ensures !Accepts(OnProductVariantVersionCreation, event.topic) ==>
        r == Err(InternalServerError) && productVariants == old(productVariants)
      ensures Accepts(OnProductVariantVersionCreation, event.topic) ==> (r.Ok? <==> storeUp)
      ensures r.Ok? ==> r.value == DefaultResponse()
      ensures r.Ok? ==> (event.data.productVariantId in productVariants
        && productVariants[event.data.productVariantId].currentVersion == VersionFromEvent(event.data))
      ensures r.Ok? ==> forall id :: id in old(productVariants) && id != event.data.productVariantId ==>
        id in productVariants && productVariants[id] == old(productVariants)[id]
      ensures Accepts(OnProductVariantVersionCreation, event.topic) ==>
        var d := event.data;
        productVariants ==
          if !storeUp then old(productVariants)
          else if d.productVariantId in old(productVariants) then
            old(productVariants)[d.productVariantId := old(productVariants)[d.productVariantId].(currentVersion := VersionFromEvent(d))]
          else old(productVariants)[d.productVariantId := VariantFromEvent(d, visibility)]
    {
      if event.topic != PRODUCT_VARIANT_VERSION_CREATED {
        return Err(InternalServerError);
      }
      var written := CreateOrUpdateProductVariantInMongodb(event.data, visibility, storeUp);
      if written.Err? {
        return Err(written.error);
      }
      return Ok(DefaultResponse());
    }

    /** `update_product_variant_visibility_in_mongodb`: `$set` of the
        visibility field to the event's string; a variant that is not
        stored is left alone without error. */
    method UpdateProductVariantVisibilityInMongodb(d: UpdateProductVariantEventData, storeUp: bool)
      returns (r: Result<Unit, StatusCode>)
      modifies this`productVariants
      ensures r.Ok? <==> storeUp
      ensures !(storeUp && d.id in old(productVariants)) ==> productVariants == old(productVariants)
      ensures storeUp && d.id in old(productVariants) ==>
        productVariants == old(productVariants)[d.id := old(productVariants)[d.id].(isPubliclyVisible := VisibleText(d.isPubliclyVisible))]
    {
      if !storeUp {
        return Err(InternalServerError);
      }
      if d.id in productVariants {
        productVariants := productVariants[d.id := productVariants[d.id].(isPubliclyVisible := VisibleText(d.isPubliclyVisible))];
      }
      return Ok(Unit);
    }

    /** `on_product_variant_update_event`: only the visibility of the
        targeted variant changes. */
    method OnProductVariantUpdateEvent(event: Event<UpdateProductVariantEventData>, storeUp: bool)
      returns (r: Result<TopicEventResponse, StatusCode>)
      modifies this`productVariants
      ensures !Accepts(OnProductVariantUpdate, event.topic) ==>
        r == Err(InternalServerError) && productVariants == old(productVariants)
      ensures Accepts(OnProductVariantUpdate, event.topic) ==> (r.Ok? <==> storeUp)
      ensures productVariants.Keys == old(productVariants).Keys
      ensures forall id :: id in productVariants ==>
        productVariants[id].(isPubliclyVisible := old(productVariants)[id].isPubliclyVisible) == old(productVariants)[id]
      ensures forall id :: id in productVariants && id != event.data.id ==> productVariants[id] == old(productVariants)[id]
      ensures r.Ok? && event.data.id in productVariants ==>
        productVariants[event.data.id].isPubliclyVisible == VisibleText(event.data.isPubliclyVisible)
      ensures Accepts(OnProductVariantUpdate, event.topic) ==>
        var d := event.data;
        productVariants ==
          if storeUp && d.id in old(productVariants) then
            old(productVariants)[d.id := old(productVariants)[d.id].(isPubliclyVisible := VisibleText(d.isPubliclyVisible))]
          else old(productVariants)
      ensures r.Ok? ==> r.value == DefaultResponse()
    {
      if event.topic != PRODUCT_VARIANT_UPDATED {
        return Err(InternalServerError);
      }
      var written := UpdateProductVariantVisibilityInMongodb(event.data, storeUp);
      if written.Err? {
        return Err(written.error);
      }
      return Ok(DefaultResponse());
    }

    /** `create_or_update_tax_rate_in_mongodb`: an upsert, so afterwards the
        rate is stored with the given current version whether or not it was
        stored before. */
    method CreateOrUpdateTaxRateInMongodb(taxRate: TaxRate, storeUp: bool) returns (r: Result<Unit, StatusCode>)
      modifies this`taxRates
      ensures r.Ok? <==> storeUp
      ensures storeUp ==> taxRates == old(taxRates)[taxRate.id := taxRate]
      ensures !storeUp ==> taxRates == old(taxRates)
    {
      if !storeUp {
        return Err(InternalServerError);
      }
      taxRates := taxRates[taxRate.id := taxRate];
      return Ok(Unit);
    }

    /** `on_tax_rate_version_creation_event`. */
    method OnTaxRateVersionCreationEvent(event: Event<TaxRateVersionEventData>, storeUp: bool)
      returns (r: Result<TopicEventResponse, StatusCode>)
      modifies this`taxRates
      ensures !Accepts(OnTaxRateVersionCreation, event.topic) ==> r == Err(InternalServerError) && taxRates == old(taxRates)
      ensures Accepts(OnTaxRateVersionCreation, event.topic) ==> (r.Ok? <==> storeUp)
      ensures r.Ok? ==> r.value == DefaultResponse()
      ensures r.Ok? ==> event.data.taxRateId in taxRates && taxRates[event.data.taxRateId].currentVersion.id == event.data.id
      ensures r.Ok? ==> forall id :: id in old(taxRates) && id != event.data.taxRateId ==>
        id in taxRates && taxRates[id] == old(taxRates)[id]
      ensures Accepts(OnTaxRateVersionCreation, event.topic) ==>
        taxRates == if storeUp then old(taxRates)[event.data.taxRateId := TaxRateFromEvent(event.data)] else old(taxRates)
    {
      var taxRate := TaxRateFromEvent(event.data);
      if event.topic != TAX_RATE_VERSION_CREATED {
        return Err(InternalServerError);
      }
      var written := CreateOrUpdateTaxRateInMongodb(taxRate, storeUp);
      if written.Err? {
        return Err(written.error);
      }
      return Ok(DefaultResponse());
    }

    /** `insert_user_address_in_mongodb`: `$push` of the address id onto the
        user's list; an unknown user is left alone without error. */
    method InsertUserAddressInMongodb(d: UserAddressEventData, storeUp: bool) returns (r: Result<Unit, StatusCode>)
      modifies this`users
      ensures r.Ok? <==> storeUp
      ensures !(storeUp && d.userId in old(users)) ==> users == old(users)
      ensures storeUp && d.userId in old(users) ==>
        users == old(users)[d.userId := old(users)[d.userId].(userAddressIds := old(users)[d.userId].userAddressIds + [d.id])]
    {
      if !storeUp {
        return Err(InternalServerError);
      }
      if d.userId in users {
        var user := users[d.userId];
        users := users[d.userId := user.(userAddressIds := user.userAddressIds + [d.id])];
      }
      return Ok(Unit);
    }

    /** `remove_user_address_in_mongodb`: `$pull` of every occurrence of the
        address id from the user's list. */
    method RemoveUserAddressInMongodb(d: UserAddressEventData, storeUp: bool) returns (r: Result<Unit, StatusCode>)
      modifies this`users
      ensures r.Ok? <==> storeUp
      ensures !(storeUp && d.userId in old(users)) ==> users == old(users)
      ensures storeUp && d.userId in old(users) ==>
        users == old(users)[d.userId := old(users)[d.userId].(userAddressIds := RemoveAll(old(users)[d.userId].userAddressIds, d.id))]
    {
      if !storeUp {
        return Err(InternalServerError);
      }
      if d.userId in users {
        var user := users[d.userId];
        users := users[d.userId := user.(userAddressIds := RemoveAll(user.userAddressIds, d.id))];
      }
      return Ok(Unit);
    }

    /** `on_user_address_creation_event`: the address is appended to its
        user's list; other users are unchanged. */
    method OnUserAddressCreationEvent(event: Event<UserAddressEventData>, storeUp: bool)
      returns (r: Result<TopicEventResponse, StatusCode>)
      modifies this`users
      ensures !Accepts(OnUserAddressCreation, event.topic) ==> r == Err(InternalServerError) && users == old(users)
      ensures Accepts(OnUserAddressCreation, event.topic) ==> (r.Ok? <==> storeUp)
      ensures users.Keys == old(users).Keys
      ensures forall id :: id in users && id != event.data.userId ==> users[id] == old(users)[id]
      ensures r.Ok? && event.data.userId in users ==>
        users[event.data.userId].userAddressIds == old(users)[event.data.userId].userAddressIds + [event.data.id]
      ensures Accepts(OnUserAddressCreation, event.topic) ==>
        var d := event.data;
        users ==
          if storeUp && d.userId in old(users) then
            old(users)[d.userId := old(users)[d.userId].(userAddressIds := old(users)[d.userId].userAddressIds + [d.id])]
          else old(users)
      ensures r.Ok? ==> r.value == DefaultResponse()
    {
      if event.topic != USER_ADDRESS_CREATED {
        return Err(InternalServerError);
      }
      var written := InsertUserAddressInMongodb(event.data, storeUp);
      if written.Err? {
        return Err(written.error);
      }
      return Ok(DefaultResponse());
    }

    /** `on_user_address_archived_event`: every occurrence of the address is
        removed from its user's list; other users are unchanged. */
    method OnUserAddressArchivedEvent(event: Event<UserAddressEventData>, storeUp: bool)
      returns (r: Result<TopicEventResponse, StatusCode>)
      modifies this`users
      ensures !Accepts(OnUserAddressArchived, event.topic) ==> r == Err(InternalServerError) && users == old(users)
      ensures Accepts(OnUserAddressArchived, event.topic) ==> (r.Ok? <==> storeUp)
      ensures users.Keys == old(users).Keys
      ensures forall id :: id in users && id != event.data.userId ==> users[id] == old(users)[id]
      ensures r.Ok? && event.data.userId in users ==>
        && event.data.id !in users[event.data.userId].userAddressIds
        && forall a :: a != event.data.id ==>
             multiset(users[event.data.userId].userAddressIds)[a] == multiset(old(users)[event.data.userId].userAddressIds)[a]
      ensures Accepts(OnUserAddressArchived, event.topic) ==>
        var d := event.data;
        users ==
          if storeUp && d.userId in old(users) then
            old(users)[d.userId := old(users)[d.userId].(userAddressIds := RemoveAll(old(users)[d.userId].userAddressIds, d.id))]
          else old(users)
      ensures r.Ok? ==> r.value == DefaultResponse()
    {
      if event.topic != USER_ADDRESS_ARCHIVED {
        return Err(InternalServerError);
      }
      var written := RemoveUserAddressInMongodb(event.data, storeUp);
      if written.Err? {
        return Err(written.error);
      }
      return Ok(DefaultResponse());
    }

    /** `on_shipment_creation_failed_event`: runs the order compensation and
        answers `INTERNAL_SERVER_ERROR` for any of its errors. */
    method OnShipmentCreationFailedEvent(event: Event<OrderCompensations.ShipmentFailedEventData>,
                                         itemsUncompensated: bool, newId: Uuid, now: DateTime, storeUp: bool, sendOk: bool)
      returns (r: Result<TopicEventResponse, StatusCode>)
      modifies compensation`compensations, compensation`published
      ensures !Accepts(OnShipmentCreationFailed, event.topic) ==>
        && r == Err(InternalServerError)
        && compensation.compensations == old(compensation.compensations)
        && compensation.published == old(compensation.published)
      ensures Accepts(OnShipmentCreationFailed, event.topic) ==>
        (r.Ok? <==> event.data.orderId in compensation.orders && itemsUncompensated && storeUp
                    && newId !in old(compensation.compensations) && sendOk)
      ensures r.Ok? ==>
        var record := OrderCompensations.NewCompensation(event.data, newId, now,
          OrderCompensations.AmountForOrder(compensation.orders[event.data.orderId], event.data));
        && r.value == DefaultResponse()
        && compensation.compensations == old(compensation.compensations)[newId := record]
        && compensation.published == old(compensation.published) + [OrderCompensationDTOs.FromCompensation(record)]
      ensures Accepts(OnShipmentCreationFailed, event.topic) ==>
        var inserted := event.data.orderId in compensation.orders && itemsUncompensated && storeUp
                        && newId !in old(compensation.compensations);
        && compensation.compensations ==
             (if inserted then
                old(compensation.compensations)[newId := OrderCompensations.NewCompensation(event.data, newId, now,
                  OrderCompensations.AmountForOrder(compensation.orders[event.data.orderId], event.data))]
              else old(compensation.compensations))
        && compensation.published ==
             (if inserted && sendOk then
                old(compensation.published) + [OrderCompensationDTOs.FromCompensation(OrderCompensations.NewCompensation(
                  event.data, newId, now, OrderCompensations.AmountForOrder(compensation.orders[event.data.orderId], event.data)))]
              else old(compensation.published))
      ensures r.Err? ==> r.error == InternalServerError
    {
      if event.topic != SHIPMENT_CREATION_FAILED {
        return Err(InternalServerError);
      }
      var outcome := compensation.CompensateOrder(event.data, itemsUncompensated, newId, now, storeUp, sendOk);
      if outcome.Err? {
        return Err(InternalServerError);
      }
      return Ok(DefaultResponse());
    }
  }
}
