/** The `/stripe` POST route of the Convex HTTP router: it checks for a
    signature header, logs the receipt, hands the raw body to the webhook
    handler and maps the outcome to a status code. */
module Http {
  import opened Wrappers
  import opened Store
  import Debug
  import Stripe

  /** The parts of the incoming request the route reads: the
      `stripe-signature` header (absent or a string) and the body text. */
  datatype Request = Request(signature: Option<string>, body: string)

  datatype ResponseBody =
    | NoBody
    | Text(text: string)
    /** `JSON.stringify({ error })` */
    | JsonError(error: string)

  datatype Response = Response(status: int, body: ResponseBody)

  /** `!signature`: the header is missing or empty. */
  predicate MissingSignature(req: Request) {
    req.signature.None? || req.signature.value == ""
  }

  /** The response for what the webhook action threw: the message of an
      `Error`, "Unknown error" for any other thrown value. */
  function ErrorResponse(thrown: Thrown): (resp: Response)
    ensures resp.status == 400 && resp.body.JsonError?
    ensures thrown.Error? ==> resp.body.error == thrown.message
    ensures thrown.NonError? ==> resp.body.error == "Unknown error"
  {
    Response(400, JsonError(if thrown.Error? then thrown.message else "Unknown error"))
  }

  /** The status mapping of the route, from the webhook action's outcome. */
  function RouteResponse(outcome: Result<Stripe.Ack>): (resp: Response)
    ensures outcome.Ok? <==> resp.status == 200
    ensures outcome.Ok? ==> resp == Response(200, NoBody)
    ensures outcome.Err? ==> resp == ErrorResponse(outcome.thrown)
  {
    match outcome
    case Ok(_) => Response(200, NoBody)
    case Err(e) => ErrorResponse(e)
  }

  /** The route handler. `isoNow` and `now` are the clock as an ISO string
      and in milliseconds; `constructEvent` and `secret` are what the
      webhook action checks the signature with. Every path returns a
      response: a missing signature answers 400 and touches nothing; with a
      signature, one "received" record is logged first and stays logged
      whatever the action then does. */
  method StripeRoute(
    db: Database, req: Request, isoNow: string, now: int,
    constructEvent: (string, string, string) -> Option<Stripe.Event>, secret: string)
    returns (resp: Response)
    requires db.webhookLogs.Valid() && db.orders.Valid()
    modifies db.webhookLogs, db.orders
    ensures db.webhookLogs.Valid() && db.orders.Valid()
    ensures MissingSignature(req) ==>
      && resp == Response(400, Text("No signature"))
      && db.webhookLogs.docs == old(db.webhookLogs.docs)
      && db.orders.docs == old(db.orders.docs)
    ensures !MissingSignature(req) ==>
      var n := |old(db.webhookLogs.docs)|;
      var d := Stripe.WebhookOrder(constructEvent(req.body, req.signature.value, secret), db.offers.docs);
      && |db.webhookLogs.docs| == n + 1
      && db.webhookLogs.docs[..n] == old(db.webhookLogs.docs)
      && db.webhookLogs.docs[n].fields == WebhookLog("received", Receipt(isoNow, true, |req.body|), now)
      && resp == RouteResponse(if d.Ok? then Ok(Stripe.Ack(true)) else Err(d.thrown))
      && (d.Err? || d.value.None? ==> db.orders.docs == old(db.orders.docs))
      && (d.Ok? && d.value.Some? ==>
            && |db.orders.docs| == |old(db.orders.docs)| + 1
            && db.orders.docs[..|old(db.orders.docs)|] == old(db.orders.docs)
            && db.orders.docs[|old(db.orders.docs)|].fields == Order(d.value.value, now))
  {
    if MissingSignature(req) {
      return Response(400, Text("No signature"));
    }
    var signature := req.signature.value;
    var payload := req.body;
    Debug.LogWebhook(db, "received", Receipt(isoNow, true, |payload|), now);
    var result := Stripe.HandleStripeWebhook(db, payload, signature, secret, constructEvent, now);
    resp := RouteResponse(result);
  }
}
