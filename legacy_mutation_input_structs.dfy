/** The `createOrder` input of the older API (src/mutation_input_structs.rs):
    the VAT number is mandatory and a payment authorization may come along.
    Its `OrderItemInput`, ordering and `PaymentAuthorizationInput` are the
    ones of the current API. */
module LegacyInputStructs {
  import opened Wrappers
  import opened ForeignTypes
  import opened InputStructs

  datatype LegacyCreateOrderInput = LegacyCreateOrderInput(
    userId: Uuid,
    orderItemInputs: InputSet,
    shipmentAddressId: Uuid,
    invoiceAddressId: Uuid,
    paymentInformationId: Uuid,
    vatNumber: string,
    paymentAuthorization: Option<PaymentAuthorizationInput>)
}
