/**
 * The payment controller of src/controllers/payment.js: `generate` mints an order
 * id from the clock and asks the gateway for a checkout token; `webhook` echoes the
 * notification's `status`. The gateway and the clock are parameters of the model.
 */
module PaymentController {
  import opened Wrappers
  import opened JsText

  /** The fields `generate` destructures from the request body. */
  datatype GenerateBody = GenerateBody(email: Option<Value>, amount: Option<Value>, name: Option<Value>)

  datatype TransactionDetails = TransactionDetails(order_id: string, gross_amount: Option<Value>)
  datatype CustomerDetails = CustomerDetails(first_name: Option<Value>, email: Option<Value>)
  /** The parameter handed to the gateway's `createTransaction`. */
  datatype TransactionParameter = TransactionParameter(
    transaction_details: TransactionDetails,
    customer_details: CustomerDetails)

  /** What the gateway answers on success. */
  datatype Transaction = Transaction(redirect_url: string, token: string)

  datatype ResponseBody =
    | TokenIssued(success: bool, redirect_url: string, token: string)
    | Failed(success: bool, message: string, error: string)
    | StatusEcho(success: bool, status: Option<Value>)

  datatype Response = Response(status: nat, body: ResponseBody)

  const OrderPrefix := "ORDER-"
  const GenerateFailed := "Error generate new midtrans token"

  /** `"ORDER-" + Date.now()`. */
  function OrderId(now: nat): (id: string)
    ensures |id| > |OrderPrefix| && id[..|OrderPrefix|] == OrderPrefix
    ensures AllDigits(id[|OrderPrefix|..])
  {
    OrderPrefix + Decimal(now)
  }

  /** Reads the clock value back out of an order id: the partner of OrderId. */
  function OrderTime(id: string): Option<nat> {
    if |id| > |OrderPrefix| && id[..|OrderPrefix|] == OrderPrefix && AllDigits(id[|OrderPrefix|..])
    then Some(ParseDecimal(id[|OrderPrefix|..]))
    else None
  }

  lemma OrderIdRoundTrip(now: nat)
    ensures OrderTime(OrderId(now)) == Some(now)
  {
    var id := OrderId(now);
    assert id[|OrderPrefix|..] == Decimal(now);
    ParseDecimalOfDecimal(now);
  }

  /** Distinct clock readings give distinct order ids. */
  lemma OrderIdInjective(t1: nat, t2: nat)
    ensures OrderId(t1) == OrderId(t2) ==> t1 == t2
  {
    OrderIdRoundTrip(t1);
    OrderIdRoundTrip(t2);
  }

  /** The parameter object built from the body and the clock. */
  function TransactionRequest(body: GenerateBody, now: nat): (p: TransactionParameter)
    ensures p.transaction_details.order_id == OrderId(now)
    ensures p.transaction_details.gross_amount == body.amount
    ensures p.customer_details.first_name == body.name
    ensures p.customer_details.email == body.email
  {
    TransactionParameter(
      TransactionDetails(OrderId(now), body.amount),
      CustomerDetails(body.name, body.email))
  }

  /**
   * `generate`: 200 with the gateway's redirect_url and token, unchanged, when the
   * gateway accepts; 500 with its error otherwise. The order id is not returned.
   */
  function Generate(body: GenerateBody, now: nat,
                    createTransaction: TransactionParameter -> Result<Transaction, string>): (r: Response)
    ensures var reply := createTransaction(TransactionRequest(body, now));
      && (r.status == 200 <==> reply.Success?)
      && (r.status == 200 || r.status == 500)
      && (reply.Success? ==> r.body == TokenIssued(true, reply.value.redirect_url, reply.value.token))
      && (reply.Failure? ==> r.body == Failed(false, GenerateFailed, reply.error))
  {
    match createTransaction(TransactionRequest(body, now))
    case Success(t) => Response(200, TokenIssued(true, t.redirect_url, t.token))
    case Failure(e) => Response(500, Failed(false, GenerateFailed, e))
  }

  const WebhookFailed := "midtrans webhook error"

  /**
   * `'raw: ' + notification` converts the body to a primitive: its `valueOf` gives the
   * object back, so its `toString` decides. An own `toString` key holds a JSON value,
   * which is never callable, and the conversion throws a TypeError.
   */
  predicate RawTextThrows(notification: map<string, Value>) {
    "toString" in notification
  }

  /**
   * `webhook`: 200 echoing the notification's `status` (absent stays absent), or the
   * 500 body when the logging line throws. The error is given by its name.
   */
  function Webhook(notification: map<string, Value>): (r: Response)
    ensures r.status == 200 <==> !RawTextThrows(notification)
    ensures RawTextThrows(notification) ==> r == Response(500, Failed(false, WebhookFailed, "TypeError"))
    ensures r.status == 200 ==>
      && r.body.StatusEcho? && r.body.success
      && (r.body.status.Some? <==> "status" in notification)
      && ("status" in notification ==> r.body.status == Some(notification["status"]))
  {
    if RawTextThrows(notification) then Response(500, Failed(false, WebhookFailed, "TypeError"))
    else Response(200, StatusEcho(true, if "status" in notification then Some(notification["status"]) else None))
  }
}
