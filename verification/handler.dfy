/** The POST handler for payment submissions: method check, request
    validation, the merchant's marketplace credential, then reconciliation of
    the processor's answer. The charge itself happens outside the model: its
    result is an input, consulted only once every check has passed. */
module Handler {
  import opened Common
  import opened Validation
  import opened Ledger

  datatype Response =
    | MethodNotAllowed
    | ValidationFailed(error: string, field: string)
    | MerchantNotConfigured
    | PaymentNotApproved(status: string, details: string)
    | PaymentProcessed(billFullyPaid: bool)

  /** The HTTP status of each response. */
  function StatusCode(r: Response): (code: int)
    ensures code == 200 <==> r.PaymentProcessed?
    ensures code == 405 <==> r.MethodNotAllowed?
    ensures !r.PaymentProcessed? && !r.MethodNotAllowed? ==> code == 400
  {
    match r
    case MethodNotAllowed => 405
    case ValidationFailed(_, _) => 400
    case MerchantNotConfigured => 400
    case PaymentNotApproved(_, _) => 400
    case PaymentProcessed(_) => 200
  }

  const NotConfiguredError: string := "Restaurant not configured for payments."
  const NotConfiguredDetails: string := "Missing marketplace access token"
  const NotApprovedError: string := "Payment not approved"
  const ProcessedMessage: string := "Payment processed successfully"

  const MethodNotAllowedError: string := "M\U{00E9}todo no permitido."

  /** A value in a JSON response body. */
  datatype Json = Str(text: string) | Flag(flag: bool)

  /** The JSON body of each response. Every refusal carries an `error` text
      and a processed payment carries none; a refusal names the failing
      field or passes on the processor's status and detail. */
  function Body(r: Response): (b: map<string, Json>)
    ensures "error" in b <==> StatusCode(r) != 200
    ensures r.ValidationFailed? ==> b == map["error" := Str(r.error), "field" := Str(r.field)]
    ensures r.MerchantNotConfigured? ==>
              b == map["error" := Str(NotConfiguredError), "details" := Str(NotConfiguredDetails)]
    ensures r.PaymentNotApproved? ==>
              "status" in b && b["status"] == Str(r.status) && "details" in b && b["details"] == Str(r.details)
    ensures r.PaymentProcessed? ==>
              "billFullyPaid" in b && b["billFullyPaid"] == Flag(r.billFullyPaid)
  {
    match r
    case MethodNotAllowed => map["error" := Str(MethodNotAllowedError)]
    case ValidationFailed(error, field) => map["error" := Str(error), "field" := Str(field)]
    case MerchantNotConfigured => map["error" := Str(NotConfiguredError), "details" := Str(NotConfiguredDetails)]
    case PaymentNotApproved(status, details) =>
      map["error" := Str(NotApprovedError), "status" := Str(status), "details" := Str(details)]
    case PaymentProcessed(full) => map["message" := Str(ProcessedMessage), "billFullyPaid" := Flag(full)]
  }

  datatype Handled = Handled(store: Store, response: Response)

  /** What the handler answers and what the ledger becomes, for one request.
      `marketplace` is the merchant's credential, `bill` the bill the request
      pays, `charge` what the processor answers, `now` the clock. */
  function Handle(s: Store, httpMethod: string, req: PaymentRequest, marketplace: Option<string>,
                  bill: Bill, charge: ChargeResult, now: Timestamp): (r: Handled)
    // The ledger changes only for a valid POST from a configured merchant whose charge was approved.
    ensures r.store != s ==>
              httpMethod == "POST" && Validate(req).Success? && !FalsyText(marketplace) && charge.status == Approved
    ensures httpMethod != "POST" ==> r == Handled(s, MethodNotAllowed)
    // A validation error names the first failing check.
    ensures httpMethod == "POST" && Validate(req).Failure? ==>
              r == Handled(s, ValidationFailed(ErrorMessage(Validate(req).error), ErrorField(Validate(req).error)))
    ensures httpMethod == "POST" && Validate(req).Success? && FalsyText(marketplace) ==>
              r == Handled(s, MerchantNotConfigured)
    ensures httpMethod == "POST" && Validate(req).Success? && !FalsyText(marketplace) && charge.status != Approved ==>
              r == Handled(s, PaymentNotApproved(charge.status, charge.statusDetail))
    // An approved charge is reconciled, and billFullyPaid says which settlement was taken.
    ensures httpMethod == "POST" && Validate(req).Success? && !FalsyText(marketplace) && charge.status == Approved ==>
              r.response == PaymentProcessed(charge.netAmount == bill.totalAmount)
              && r.store == Settle(s, bill, charge, req.payer.value.email, now).store
  {
    if httpMethod != "POST" then Handled(s, MethodNotAllowed)
    else
      match Validate(req)
      case Failure(e) => Handled(s, ValidationFailed(ErrorMessage(e), ErrorField(e)))
      case Success(v) =>
        if FalsyText(marketplace) then Handled(s, MerchantNotConfigured)
        else
          var settled := Settle(s, bill, charge, v.payer.email, now);
          match settled.outcome
          case NotApproved(status, detail) => Handled(settled.store, PaymentNotApproved(status, detail))
          case Settled(full) => Handled(settled.store, PaymentProcessed(full))
  }

  /** The handler over a ledger updated in place. */
  method ProcessPayment(ledger: BillLedger, httpMethod: string, req: PaymentRequest, marketplace: Option<string>,
                        bill: Bill, charge: ChargeResult, now: Timestamp) returns (response: Response)
    modifies ledger
    ensures Handled(ledger.State(), response)
            == Handle(old(ledger.State()), httpMethod, req, marketplace, bill, charge, now)
    ensures old(Consistent(ledger.State())) ==> Consistent(ledger.State())
  {
    if httpMethod != "POST" {
      return MethodNotAllowed;
    }
    var missing := CheckRequiredFields(req);
    if missing.Some? {
      var e := MissingField(missing.value);
      return ValidationFailed(ErrorMessage(e), ErrorField(e));
    }
    if JsNumber.AtMostZero(AmountValue(req.transactionAmount.value)) {
      return ValidationFailed(ErrorMessage(InvalidAmount), ErrorField(InvalidAmount));
    }
    if FalsyText(marketplace) {
      return MerchantNotConfigured;
    }
    var outcome := ledger.Reconcile(bill, charge, req.payer.value.email, now);
    match outcome
    case NotApproved(status, detail) => response := PaymentNotApproved(status, detail);
    case Settled(full) => response := PaymentProcessed(full);
  }
}
