/** Payment authorization data attached to a placed order
    (src/graphql/model/payment_authorization.rs). */
module PaymentAuthorizations {
  import opened Wrappers
  import opened InputStructs

  /** `PaymentAuthorization::CVC(u16)`; no digit-count check is made. */
  datatype PaymentAuthorization = CVC(cvc: U16)

  /** `From<PaymentAuthorizationInput> for Option<PaymentAuthorization>`. */
  function FromInput(input: PaymentAuthorizationInput): (r: Option<PaymentAuthorization>)
    ensures r.None? <==> input.cvc.None?
    ensures r.Some? ==> r.value == CVC(input.cvc.value)
  {
    match input.cvc
    case Some(definitelyCvc) => Some(CVC(definitelyCvc))
    case None => None
  }

  /** The input a conversion result came from. */
  function ToInput(a: Option<PaymentAuthorization>): (input: PaymentAuthorizationInput)
    ensures input.cvc.None? <==> a.None?
  {
    match a
    case Some(CVC(c)) => PaymentAuthorizationInput(Some(c))
    case None => PaymentAuthorizationInput(None)
  }

  /** The conversion loses nothing: every input is recovered from its result ... */
  lemma InputRoundTrip(input: PaymentAuthorizationInput)
    ensures ToInput(FromInput(input)) == input
  {
  }

  /** ... and every possible result, including every `u16` value, is reached. */
  lemma AuthorizationRoundTrip(a: Option<PaymentAuthorization>)
    ensures FromInput(ToInput(a)) == a
  {
  }
}
