/** Inputs of the `createOrder` and `placeOrder` mutations
    (src/graphql/mutation_input_structs.rs). The older file
    src/mutation_input_structs.rs declares the same `OrderItemInput`,
    ordering and `PaymentAuthorizationInput`, which are shared from here. */
module InputStructs {
  import opened Wrappers
  import opened ForeignTypes

  type U16 = x: nat | x < 0x1_0000

  /** One requested order item. The derived `==` compares all three fields. */
  datatype OrderItemInput = OrderItemInput(shoppingCartItemId: Uuid, shipmentMethodId: Uuid, couponIds: set<Uuid>)

  /** `Ord for OrderItemInput`: by shopping cart item id alone. */
  function Cmp(a: OrderItemInput, b: OrderItemInput): (r: Ordering)
    ensures r == Less <==> a.shoppingCartItemId < b.shoppingCartItemId
    ensures r == Equal <==> a.shoppingCartItemId == b.shoppingCartItemId
    ensures r == Greater <==> a.shoppingCartItemId > b.shoppingCartItemId
  {
    CmpUuid(a.shoppingCartItemId, b.shoppingCartItemId)
  }

  /** `PartialOrd for OrderItemInput`. */
  function PartialCmp(a: OrderItemInput, b: OrderItemInput): (r: Option<Ordering>)
    ensures r == Some(Cmp(a, b))
  {
    Some(CmpUuid(a.shoppingCartItemId, b.shoppingCartItemId))
  }

  /** The ordering is a total order on cart item ids: antisymmetric and
      transitive, as `BTreeSet` requires. */
  lemma CmpIsTotalOrder(a: OrderItemInput, b: OrderItemInput, c: OrderItemInput)
    ensures Cmp(a, b) == Less <==> Cmp(b, a) == Greater
    ensures Cmp(a, b) == Less && Cmp(b, c) == Less ==> Cmp(a, c) == Less
    ensures Cmp(a, b) == Equal && Cmp(b, c) == Equal ==> Cmp(a, c) == Equal
  {
  }

  /** Shipment method and coupons are invisible to the ordering: two inputs
      for the same cart item compare `Equal` although `==` tells them apart. */
  lemma OrdEqualButUnequal()
    ensures var a := OrderItemInput(7, 1, {});
      var b := OrderItemInput(7, 2, {3});
      Cmp(a, b) == Equal && PartialCmp(a, b) == Some(Equal) && a != b
  {
  }

  /** The iteration order of a `BTreeSet<OrderItemInput>`: strictly
      ascending cart item ids. */
  predicate IsInputSet(s: seq<OrderItemInput>)
  {
    forall i, j :: 0 <= i < j < |s| ==> Cmp(s[i], s[j]) == Less
  }

  /** A `BTreeSet<OrderItemInput>` as the sequence it iterates. */
  type InputSet = s: seq<OrderItemInput> | IsInputSet(s) witness []

  /** A set of inputs holds at most one input per cart item id. */
  lemma InputSetUniqueCartIds(s: InputSet, i: nat, j: nat)
    requires i < |s| && j < |s| && s[i].shoppingCartItemId == s[j].shoppingCartItemId
    ensures i == j
  {
  }

  /** `PaymentAuthorizationInput`. */
  datatype PaymentAuthorizationInput = PaymentAuthorizationInput(cvc: Option<U16>)

  /** `CreateOrderInput` of the current API; the VAT number is optional. */
  datatype CreateOrderInput = CreateOrderInput(
    userId: Uuid,
    orderItemInputs: InputSet,
    shipmentAddressId: Uuid,
    invoiceAddressId: Uuid,
    paymentInformationId: Uuid,
    vatNumber: Option<string>)

  /** `PlaceOrderInput`. */
  datatype PlaceOrderInput = PlaceOrderInput(id: Uuid, paymentAuthorization: Option<PaymentAuthorizationInput>)
}
