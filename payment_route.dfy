// The payment-order endpoint: it reads the amount and the currency from the request,
// asks the payment provider to create an order in paise with automatic capture,
// and answers with the provider's order, or with status 500 on any failure.
// The JSON parse and the provider call are parameters: `parsed` is None when
// the body cannot be read, and `create` answers None when the provider fails.
module PaymentRoute {

  import opened Wrappers

  /** The request body; a missing `currency` key is None. Amount in rupees. */
  datatype RequestBody = RequestBody(amount: int, currency: Option<string>)

  /** The options handed to the provider. */
  datatype OrderOptions = OrderOptions(amount: int, currency: string, paymentCapture: int)

  /** The provider's order as it returns it; amounts in paise. */
  datatype ProviderOrder = ProviderOrder(id: string, amount: int, currency: string)

  datatype Body = OrderBody(order: ProviderOrder) | ErrorBody(error: string)

  datatype Response = Response(status: int, body: Body)

  const PaisePerRupee: int := 100
  const DefaultCurrency: string := "INR"
  const AutoCapture: int := 1
  const OkStatus: int := 200
  const FailureStatus: int := 500
  const FailureMessage: string := "Failed to create order"

  /** The requested currency when it is present and non-empty, otherwise INR. */
  function Currency(requested: Option<string>): (c: string)
    ensures requested.None? || requested.value == [] ==> c == DefaultCurrency
    ensures requested.Some? && requested.value != [] ==> c == requested.value
    ensures c != []
  {
    match requested
    case None => DefaultCurrency
    case Some(s) => if s == [] then DefaultCurrency else s
  }

  /** Paise back to rupees. */
  function Rupees(paise: int): int
  {
    paise / PaisePerRupee
  }

  /**
   * The options literal: the provider is asked for exactly 100 times the
   * requested amount, a whole number of paise that converts back to the
   * requested rupees, with the defaulted currency and capture on.
   */
  function BuildOptions(body: RequestBody): (o: OrderOptions)
    ensures o.amount == 100 * body.amount
    ensures o.amount % PaisePerRupee == 0 && Rupees(o.amount) == body.amount
    ensures o.currency == Currency(body.currency)
    ensures o.paymentCapture == 1
  {
    OrderOptions(body.amount * PaisePerRupee, Currency(body.currency), AutoCapture)
  }

  /** The handler `POST`. */
  function Post(parsed: Option<RequestBody>, create: OrderOptions -> Option<ProviderOrder>): (r: Response)
    ensures r.status == OkStatus || r.status == FailureStatus
    ensures r.status == OkStatus <==> parsed.Some? && create(BuildOptions(parsed.value)).Some?
  {
    match parsed
    case None => Response(FailureStatus, ErrorBody(FailureMessage))
    case Some(body) =>
      match create(BuildOptions(body))
      case None => Response(FailureStatus, ErrorBody(FailureMessage))
      case Some(order) => Response(OkStatus, OrderBody(order))
  }

  /** On success the body is the provider's order exactly as returned for these options. */
  lemma PostSuccessReturnsOrder(body: RequestBody, create: OrderOptions -> Option<ProviderOrder>, order: ProviderOrder)
    requires create(BuildOptions(body)) == Some(order)
    ensures Post(Some(body), create) == Response(200, OrderBody(order))
  {
  }

  /** Any failure, of the parse or of the provider, is a 500 with the error body and no order. */
  lemma PostFailureIs500(parsed: Option<RequestBody>, create: OrderOptions -> Option<ProviderOrder>)
    requires parsed.None? || create(BuildOptions(parsed.value)).None?
    ensures Post(parsed, create) == Response(500, ErrorBody("Failed to create order"))
  {
  }
}
