/** Request validation of the payment handler: the ordered table of required
    fields, the first-falsy-field search over it, and the check that the
    transaction amount reads as a number above zero. */
module Validation {
  import opened Common
  import JsNumber

  datatype Identification = Identification(kind: string, number: string)

  datatype PayerDetails = PayerDetails(email: string, identification: Identification)

  /** The amount as the body carries it: text, as the request interface
      declares it, or a JSON number, as the checkout page sends it. A JSON
      number is always finite (a NaN is serialised as null). */
  datatype Amount = Text(text: string) | Num(number: real)

  /** `Number.parseFloat(amount)`. A number is first turned into the shortest
      text that reads back as itself, so it parses as its own value. */
  function AmountValue(a: Amount): JsNumber.Number
  {
    match a
    case Text(s) => JsNumber.ParseFloat(s)
    case Num(v) => JsNumber.Finite(v)
  }

  /** `!amount`: absent, the empty string, or the number zero. */
  predicate FalsyAmount(a: Option<Amount>)
  {
    match a
    case None => true
    case Some(Text(s)) => s == ""
    case Some(Num(v)) => v == 0.0
  }

  /** The request body as it arrives. A field the client left out (or sent as
      null) is `None`. */
  datatype PaymentRequest = PaymentRequest(
    token: Option<string>,
    issuerId: Option<string>,
    paymentMethodId: Option<string>,
    transactionAmount: Option<Amount>,
    installments: Option<int>,
    payer: Option<PayerDetails>,
    billId: Option<string>)

  /** A request that passed validation: every required field is present. */
  datatype ValidRequest = ValidRequest(
    token: string,
    issuerId: string,
    paymentMethodId: string,
    transactionAmount: Amount,
    installments: int,
    payer: PayerDetails,
    billId: string)

  datatype Field = Token | IssuerId | PaymentMethodId | TransactionAmount | Installments | Payer | BillId

  /** The required-field table, in the order the handler walks it. */
  const RequiredFields: seq<Field> := [Token, IssuerId, PaymentMethodId, TransactionAmount, Installments, Payer, BillId]

  /** The position of a field in the required-field table. */
  function Position(f: Field): (p: nat)
    ensures p < |RequiredFields| && RequiredFields[p] == f
  {
    match f
    case Token => 0
    case IssuerId => 1
    case PaymentMethodId => 2
    case TransactionAmount => 3
    case Installments => 4
    case Payer => 5
    case BillId => 6
  }

  /** The key of the field in the request body, also reported as `field`. */
  function Key(f: Field): string
  {
    match f
    case Token => "token"
    case IssuerId => "issuer_id"
    case PaymentMethodId => "payment_method_id"
    case TransactionAmount => "transaction_amount"
    case Installments => "installments"
    case Payer => "payer"
    case BillId => "bill_id"
  }

  /** The upper-case name used in the error message. */
  function Label(f: Field): string
  {
    match f
    case Token => "TOKEN"
    case IssuerId => "ISSUER_ID"
    case PaymentMethodId => "PAYMENT_METHOD_ID"
    case TransactionAmount => "TRANSACTION_AMOUNT"
    case Installments => "INSTALLMENTS"
    case Payer => "PAYER"
    case BillId => "BILL_ID"
  }

  /** The field is not in the body at all (or is null). */
  predicate Absent(req: PaymentRequest, f: Field)
  {
    match f
    case Token => req.token.None?
    case IssuerId => req.issuerId.None?
    case PaymentMethodId => req.paymentMethodId.None?
    case TransactionAmount => req.transactionAmount.None?
    case Installments => req.installments.None?
    case Payer => req.payer.None?
    case BillId => req.billId.None?
  }

  /** `!body[field]`: the field is absent, an empty string, or the number 0.
      The payer is an object, and an object is never falsy. */
  predicate Falsy(req: PaymentRequest, f: Field)
    ensures Absent(req, f) ==> Falsy(req, f)
    ensures f == Payer ==> (Falsy(req, f) <==> Absent(req, f))
  {
    match f
    case Token => FalsyText(req.token)
    case IssuerId => FalsyText(req.issuerId)
    case PaymentMethodId => FalsyText(req.paymentMethodId)
    case TransactionAmount => FalsyAmount(req.transactionAmount)
    case Installments => req.installments.None? || req.installments.value == 0
    case Payer => req.payer.None?
    case BillId => FalsyText(req.billId)
  }

  /** No required field is falsy. */
  predicate AllPresent(req: PaymentRequest)
    ensures AllPresent(req) ==> !Falsy(req, TransactionAmount) && !Falsy(req, Payer)
  {
    forall f: Field :: !Falsy(req, f)
  }

  /** The index of the first falsy field of the table at or after `from`, or
      the table's length when there is none. */
  function FirstFalsyFrom(req: PaymentRequest, from: nat): (k: nat)
    requires from <= |RequiredFields|
    ensures from <= k <= |RequiredFields|
    ensures forall j :: from <= j < k ==> !Falsy(req, RequiredFields[j])
    ensures k < |RequiredFields| ==> Falsy(req, RequiredFields[k])
    decreases |RequiredFields| - from
  {
    if from == |RequiredFields| || Falsy(req, RequiredFields[from]) then from
    else FirstFalsyFrom(req, from + 1)
  }

  /** The first required field the request lacks, if any. */
  function FirstMissing(req: PaymentRequest): (m: Option<Field>)
    ensures m.None? <==> AllPresent(req)
    ensures m.Some? ==> Falsy(req, m.value)
    ensures m.Some? ==> forall f: Field :: Position(f) < Position(m.value) ==> !Falsy(req, f)
  {
    var k := FirstFalsyFrom(req, 0);
    assert forall f: Field :: Falsy(req, f) ==> k <= Position(f);
    if k < |RequiredFields| then
      assert Position(RequiredFields[k]) == k by {
        PositionOfEntry(k);
      }
      Some(RequiredFields[k])
    else None
  }

  lemma PositionOfEntry(i: nat)
    requires i < |RequiredFields|
    ensures Position(RequiredFields[i]) == i
  {
  }

  /** The loop over the required-field table, returning at the first field the
      body lacks. */
  method CheckRequiredFields(req: PaymentRequest) returns (missing: Option<Field>)
    ensures missing == FirstMissing(req)
  {
    for i := 0 to |RequiredFields|
      invariant forall j :: 0 <= j < i ==> !Falsy(req, RequiredFields[j])
    {
      if Falsy(req, RequiredFields[i]) {
        PositionOfEntry(i);
        return Some(RequiredFields[i]);
      }
    }
    assert AllPresent(req) by {
      forall f: Field ensures !Falsy(req, f) {
        assert RequiredFields[Position(f)] == f;
      }
    }
    return None;
  }

  datatype ValidationError = MissingField(field: Field) | InvalidAmount

  /** The `error` text of the 400 response: it names the missing field by its
      upper-case label, which can be read back from between "No " and
      " provided.", or says the amount is invalid. */
  function ErrorMessage(e: ValidationError): (m: string)
    ensures e.MissingField? ==> m == "No " + Label(e.field) + " provided."
    ensures e.MissingField? ==> |m| >= 13 && m[3..|m| - 10] == Label(e.field)
    ensures e.InvalidAmount? ==> m == "Invalid amount."
  {
    match e
    case MissingField(f) => "No " + Label(f) + " provided."
    case InvalidAmount => "Invalid amount."
  }

  /** The `field` of the 400 response: the body key of the missing field, or
      "amount", which is no body key, so it is reported exactly for the amount
      check. */
  function ErrorField(e: ValidationError): (k: string)
    ensures e.MissingField? ==> k == Key(e.field)
    ensures k == "amount" <==> e.InvalidAmount?
  {
    match e
    case MissingField(f) => Key(f)
    case InvalidAmount => "amount"
  }

  /** The typed request built from a body whose required fields are all
      present: each field is the body's, and none is empty or zero. */
  function Accepted(req: PaymentRequest): (v: ValidRequest)
    requires AllPresent(req)
    ensures req.token == Some(v.token) && req.issuerId == Some(v.issuerId)
            && req.paymentMethodId == Some(v.paymentMethodId)
            && req.transactionAmount == Some(v.transactionAmount)
            && req.installments == Some(v.installments) && req.payer == Some(v.payer)
            && req.billId == Some(v.billId)
    ensures v.token != "" && v.issuerId != "" && v.paymentMethodId != ""
            && v.transactionAmount != Text("") && v.transactionAmount != Num(0.0)
            && v.installments != 0 && v.billId != ""
  {
    assert !Falsy(req, TransactionAmount) && !Falsy(req, Installments) && !Falsy(req, Payer);
    assert !Falsy(req, Token) && !Falsy(req, IssuerId) && !Falsy(req, PaymentMethodId) && !Falsy(req, BillId);
    ValidRequest(req.token.value, req.issuerId.value, req.paymentMethodId.value,
                 req.transactionAmount.value, req.installments.value, req.payer.value,
                 req.billId.value)
  }

  /** All of the request's validation: the required fields in table order,
      then the amount. */
  function Validate(req: PaymentRequest): (r: Result<ValidRequest, ValidationError>)
    ensures r.Failure? && r.error.MissingField? <==> exists f: Field :: Falsy(req, f)
    ensures r.Failure? && r.error.MissingField? ==>
              Falsy(req, r.error.field)
              && forall g: Field :: Position(g) < Position(r.error.field) ==> !Falsy(req, g)
    ensures r == Failure(InvalidAmount) <==>
              AllPresent(req) && JsNumber.AtMostZero(AmountValue(req.transactionAmount.value))
    ensures r.Success? <==>
              AllPresent(req) && !JsNumber.AtMostZero(AmountValue(req.transactionAmount.value))
    ensures r.Success? ==> AllPresent(req) && r.value == Accepted(req)
  {
    match FirstMissing(req)
    case Some(f) => Failure(MissingField(f))
    case None =>
      if JsNumber.AtMostZero(AmountValue(req.transactionAmount.value)) then Failure(InvalidAmount)
      else Success(Accepted(req))
  }

  /** Of two missing fields, the later in the table is never the one
      reported: the error names the earlier one or a field before it. */
  lemma EarlierMissingFieldWins(req: PaymentRequest, f: Field, g: Field)
    requires Falsy(req, f) && Falsy(req, g) && Position(f) < Position(g)
    ensures Validate(req).Failure? && Validate(req).error.MissingField?
    ensures Position(Validate(req).error.field) <= Position(f)
    ensures Validate(req) != Failure(MissingField(g))
  {
  }

  /** `token` heads the table: a request without one gets the `token` error,
      whatever else it lacks. */
  lemma MissingTokenReportedFirst(req: PaymentRequest)
    requires FalsyText(req.token)
    ensures Validate(req) == Failure(MissingField(Token))
    ensures ErrorField(Validate(req).error) == "token"
  {
  }

  /** The client can tell the checks apart: no two errors share a `field`. */
  lemma ErrorFieldsDistinct(d: ValidationError, e: ValidationError)
    requires d != e
    ensures ErrorField(d) != ErrorField(e)
  {
  }

  /** Distinct validation errors also carry distinct `error` texts: the label
      between "No " and " provided." names the field, and only the amount
      check's text does not start with 'N'. */
  lemma ErrorMessagesDistinct(d: ValidationError, e: ValidationError)
    requires d != e
    ensures ErrorMessage(d) != ErrorMessage(e)
  {
    var m, n := ErrorMessage(d), ErrorMessage(e);
    if d.MissingField? && e.MissingField? {
      assert m[3..|m| - 10] == Label(d.field);
      assert n[3..|n| - 10] == Label(e.field);
    } else if d.MissingField? {
      assert m[0] == 'N' != n[0];
    } else {
      assert n[0] == 'N' != m[0];
    }
  }

  /** An amount sent as whole units with two decimals passes the amount
      check exactly when it is above zero, and a negative one never does. */
  lemma {:induction false} CentsAmountChecked(req: PaymentRequest, cents: nat)
    requires AllPresent(req)
    requires req.transactionAmount == Some(Text(JsNumber.CentsText(cents)))
             || req.transactionAmount == Some(Text("-" + JsNumber.CentsText(cents)))
    ensures Validate(req).Success? <==> req.transactionAmount == Some(Text(JsNumber.CentsText(cents))) && cents > 0
    ensures Validate(req).Failure? ==> Validate(req).error == InvalidAmount
  {
    var amount := AmountValue(req.transactionAmount.value);
    if req.transactionAmount == Some(Text(JsNumber.CentsText(cents))) {
      JsNumber.ParseCentsText(cents);
      assert JsNumber.AtMostZero(amount) <==> cents == 0;
    } else {
      JsNumber.ParseNegativeCentsText(cents);
      assert JsNumber.AtMostZero(amount);
    }
  }

  /** The amount check rejects only numbers at most zero: an amount that is
      not a number at all (NaN) passes it. */
  lemma NonNumericAmountPasses(req: PaymentRequest)
    requires AllPresent(req)
    requires AmountValue(req.transactionAmount.value) == JsNumber.NaN
    ensures Validate(req).Success?
  {
  }

  /** An amount that is a word, such as "abc", reads as NaN and so passes. */
  lemma {:induction false} WordAmountPasses(req: PaymentRequest, word: string)
    requires AllPresent(req) && req.transactionAmount == Some(Text(word))
    requires word != [] && 'a' <= word[0] <= 'z'
    ensures Validate(req).Success?
  {
    JsNumber.LetterLedIsNaN(word);
    NonNumericAmountPasses(req);
  }

  /** An amount sent as a JSON number passes exactly when it is above zero; a
      negative one gets the invalid-amount error. */
  lemma NumberAmountChecked(req: PaymentRequest, v: real)
    requires AllPresent(req) && req.transactionAmount == Some(Num(v))
    ensures Validate(req).Success? <==> v > 0.0
    ensures Validate(req).Failure? ==> Validate(req).error == InvalidAmount
  {
  }

  /** An amount of the number 0, as the checkout page sends for an empty or
      zero form amount, is falsy: it is reported as a missing
      `transaction_amount`, not as an invalid amount, when the fields before it
      are present. */
  lemma ZeroNumberIsMissing(req: PaymentRequest)
    requires !FalsyText(req.token) && !FalsyText(req.issuerId) && !FalsyText(req.paymentMethodId)
    requires req.transactionAmount == Some(Num(0.0))
    ensures Validate(req) == Failure(MissingField(TransactionAmount))
    ensures ErrorField(Validate(req).error) == "transaction_amount"
  {
    assert !Falsy(req, Token) && !Falsy(req, IssuerId) && !Falsy(req, PaymentMethodId);
    assert Falsy(req, TransactionAmount);
    assert FirstMissing(req) == Some(TransactionAmount);
  }

  /** The text "0.00", by contrast, is not falsy: with every field present it
      gets the invalid-amount error. */
  lemma ZeroTextIsInvalidAmount(req: PaymentRequest)
    requires AllPresent(req) && req.transactionAmount == Some(Text("0.00"))
    ensures Validate(req) == Failure(InvalidAmount)
  {
    assert JsNumber.CentsText(0) == "0.00";
    CentsAmountChecked(req, 0);
  }
}
