/**
 * The payment webhook: a decision table from the incoming request (and the
 * outcome of the one database procedure it may call) to the HTTP response.
 * Every response carries the same CORS headers, which are not modelled.
 */
module DodoWebhook {
  import opened Base

  const MonthlyProductId: string := "pdt_qTqiT2IJ8IpwtLFOIrplE"
  const LifetimeProductId: string := "pdt_Hnxf8C6pkmQ8oixcS9ESe"
  const PaymentCompleted: string := "payment.completed"
  const StatusCompleted: string := "completed"

  /** `payload.data`, with each field absent (None) or a string. */
  datatype PaymentData = PaymentData(status: Option<string>, customData: Option<string>, productId: Option<string>)

  /** A parsed JSON value other than null; `data` is None when absent or null. */
  datatype Payload = Payload(eventType: Option<string>, data: Option<PaymentData>)

  /** The request body: not JSON, the JSON literal null, or another JSON value. */
  datatype Body = Malformed | NullPayload | Json(payload: Payload)

  datatype Request = Request(httpMethod: string, body: Body)

  datatype Response = Response(status: nat, text: string)

  /** A call of the `handle_successful_payment` procedure. */
  datatype RpcCall = RpcCall(userId: string, paymentType: string)

  datatype Outcome = Outcome(response: Response, rpc: Option<RpcCall>)

  const Options: Response := Response(200, "ok")
  const NotProcessed: Response := Response(200, "Event not processed")
  const NoUserId: Response := Response(400, "No user ID provided")
  const UnknownProduct: Response := Response(400, "Unknown product")
  const DatabaseError: Response := Response(500, "Database error")
  const Processed: Response := Response(200, "Payment processed successfully")
  const InternalError: Response := Response(500, "Internal server error")

  /** A JavaScript truthiness test on an optional string. */
  predicate Truthy(s: Option<string>): (r: bool)
    ensures !r <==> s == None || s == Some("")
  {
    s.Some? && s.value != ""
  }

  /** The payment type bought by each product. */
  function PaymentType(productId: Option<string>): (t: Option<string>)
    ensures t.Some? <==> productId == Some(MonthlyProductId) || productId == Some(LifetimeProductId)
    ensures t == Some("monthly") <==> productId == Some(MonthlyProductId)
    ensures t == Some("lifetime") <==> productId == Some(LifetimeProductId)
  {
    if productId == Some(MonthlyProductId) then Some("monthly")
    else if productId == Some(LifetimeProductId) then Some("lifetime")
    else None
  }

  /** The request is a completed payment with a user id and a known product. */
  ghost predicate Billable(req: Request): (r: bool)
    ensures r ==> req.body.Json? && req.body.payload.data.Some?
    ensures r ==> req.body.payload.data.value.productId in {Some(MonthlyProductId), Some(LifetimeProductId)}
  {
    && req.httpMethod != "OPTIONS"
    && req.body.Json?
    && req.body.payload.eventType == Some(PaymentCompleted)
    && req.body.payload.data.Some?
    && req.body.payload.data.value.status == Some(StatusCompleted)
    && Truthy(req.body.payload.data.value.customData)
    && PaymentType(req.body.payload.data.value.productId).Some?
  }

  /**
   * The handler. `rpcFails` is whether the database procedure reports an error;
   * it matters only when the procedure is called.
   */
  function Handle(req: Request, rpcFails: bool): (o: Outcome)
    ensures req.httpMethod == "OPTIONS" ==> o == Outcome(Options, None)
    ensures o.rpc.Some? <==> Billable(req)
    ensures o.rpc.Some? ==> o.rpc.value.paymentType == "monthly" || o.rpc.value.paymentType == "lifetime"
    ensures o.rpc.Some? ==> Some(o.rpc.value.userId) == req.body.payload.data.value.customData
    ensures o.rpc.Some? ==> Some(o.rpc.value.paymentType) == PaymentType(req.body.payload.data.value.productId)
    ensures o.rpc.Some? ==> o.response == (if rpcFails then DatabaseError else Processed)
    ensures o.response.status == 200 || o.response.status == 400 || o.response.status == 500
    ensures req.httpMethod != "OPTIONS" && req.body.Json? && req.body.payload.eventType != Some(PaymentCompleted)
      ==> o == Outcome(NotProcessed, None)
    ensures req.httpMethod != "OPTIONS" && !req.body.Json? ==> o == Outcome(InternalError, None)
    ensures (req.httpMethod != "OPTIONS" && req.body.Json? && req.body.payload.eventType == Some(PaymentCompleted)
             && req.body.payload.data.None?) ==> o == Outcome(InternalError, None)
    ensures (req.httpMethod != "OPTIONS" && req.body.Json? && req.body.payload.eventType == Some(PaymentCompleted)
             && req.body.payload.data.Some? && req.body.payload.data.value.status != Some(StatusCompleted))
      ==> o == Outcome(NotProcessed, None)
  {
    if req.httpMethod == "OPTIONS" then Outcome(Options, None)
    else match req.body
      case Malformed => Outcome(InternalError, None)
      case NullPayload => Outcome(InternalError, None)
      case Json(p) =>
        if p.eventType != Some(PaymentCompleted) then Outcome(NotProcessed, None)
        else if p.data.None? then Outcome(InternalError, None)
        else if p.data.value.status != Some(StatusCompleted) then Outcome(NotProcessed, None)
        else if !Truthy(p.data.value.customData) then Outcome(NoUserId, None)
        else match PaymentType(p.data.value.productId)
          case None => Outcome(UnknownProduct, None)
          case Some(t) =>
            var call := RpcCall(p.data.value.customData.value, t);
            Outcome(if rpcFails then DatabaseError else Processed, Some(call))
  }

  /** A completed payment without a user id is refused before its product is looked at. */
  lemma UserIdCheckedFirst(req: Request, rpcFails: bool)
    requires req.httpMethod != "OPTIONS" && req.body.Json?
    requires req.body.payload.eventType == Some(PaymentCompleted)
    requires req.body.payload.data.Some? && req.body.payload.data.value.status == Some(StatusCompleted)
    requires !Truthy(req.body.payload.data.value.customData)
    ensures Handle(req, rpcFails) == Outcome(NoUserId, None)
  {
  }

  /** A completed payment for any other product is refused with 400 and no call. */
  lemma UnknownProductRefused(req: Request, rpcFails: bool)
    requires req.httpMethod != "OPTIONS" && req.body.Json?
    requires req.body.payload.eventType == Some(PaymentCompleted)
    requires req.body.payload.data.Some? && req.body.payload.data.value.status == Some(StatusCompleted)
    requires Truthy(req.body.payload.data.value.customData)
    requires PaymentType(req.body.payload.data.value.productId).None?
    ensures Handle(req, rpcFails) == Outcome(UnknownProduct, None)
  {
  }

  /** The outcome of the procedure never changes the response of a request that does not call it. */
  lemma RpcOutcomeIrrelevantUnlessCalled(req: Request)
    requires !Billable(req)
    ensures Handle(req, true) == Handle(req, false)
  {
  }
}
