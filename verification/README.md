# Payment processing handler: a verified model

This project models the server-side payment handler of a restaurant
point-of-sale app (`app/api/process_payment/route.ts`). A guest at a table
submits a card payment for the table's bill. The handler:

1. refuses any HTTP method but POST;
2. walks a fixed table of required request fields (`token`, `issuer_id`,
   `payment_method_id`, `transaction_amount`, `installments`, `payer`,
   `bill_id`) and rejects on the first falsy one;
3. rejects an amount that `Number.parseFloat` reads as zero or less;
4. rejects when the merchant has no marketplace credential;
5. has the processor charge the card. The result is an input to the model;
6. reconciles an approved charge against the bill. A net amount equal to
   the bill total settles the bill in full: it is marked paid and one
   payment record is written. Any other net amount, below or above the
   total, is a guest's share: the paid amount grows (only while the bill is
   open) and one bill-share record is written. A charge that was not
   approved changes nothing, and its status is reported back.

Modules, one per component:

- `Common` (`common.dfy`): `Option`, `Result`, and JavaScript falsiness of
  a text field (absent or empty).
- `JsNumber` (`js_number.dfy`): `Number.parseFloat` over exact reals, with
  NaN and the infinities. Proved: leading white space is ignored, and
  `"12.05"` reads back as 1205 cents (`"-12.05"` as its negation).
- `Validation` (`validation.dfy`): the request record, the required-field
  table, the loop over it (`CheckRequiredFields`) proved against its
  specification (`FirstMissing`), and the complete check `Validate`.
  `transaction_amount` is either text or a JSON number.
- `Ledger` (`ledger.dfy`): bills, payment records, bill shares, the
  processor's answer, the reconciliation step `Settle` as a function, and
  the class `BillLedger`, which holds the bills map and the two record
  sequences. Its `Reconcile` method updates them in place and is proved
  equal to `Settle`. Also proved:
  - a consistency invariant that reconciliation keeps: an open bill's paid
    amount is the sum of its shares, and an open bill has no payment record;
  - that partial payments on an open bill are never lost.
- `Handler` (`handler.dfy`): the whole POST path as a function `Handle` and
  as the method `ProcessPayment` over a `BillLedger`, with each response's
  status code and JSON body.

Amounts on the ledger are integer cents. The request's `transaction_amount`
is what the body carries. The request interface declares it as text
(route.ts:16), but the checkout page sends a JSON number
(`Number(cardFormData.amount)`, app/payment-testing/mpc-checkout.tsx:135).
The model admits both. Text is read through the `parseFloat` model, and a
number reads as itself. For `!transaction_amount` the empty text and the
number 0 are both falsy. The bill the request pays, the merchant's
credential, the processor's answer and the clock are explicit inputs.

The handler decides full or partial settlement on the total of the bill
*as it read it* (route.ts:148). The updates go to the stored row with the
same id. A full settlement overwrites the row's paid amount. A partial
settlement adds to it only while the row is unpaid, as the guarded update
at route.ts:172-178 does. The model keeps the two apart: `Settle` takes the
bill that was read and the store separately.

### What the code does not guarantee

A reader might expect four things of a bill ledger:
- a bill's paid amount never exceeds its total;
- a bill is paid exactly when its paid amount equals its total;
- the shares and payment of a bill add up to its paid amount;
- overpayment is rejected.

The code guarantees none of these, and the model follows the code:

- A charge above the total is taken as a partial payment, so the paid
  amount can pass the total. A later charge equal to the total then
  overwrites the paid amount downwards (`Ledger.OverpaymentThenFullSettlement`).
- Partial payments never mark a bill paid, even when they add up to the
  total (`Ledger.SplitBillStaysOpen`, `Ledger.PartialPaymentsAccumulate`).
- A full settlement after partial ones records the shares and a payment of
  the whole total. Together they exceed the paid amount
  (`Ledger.PartialThenFullSettlement`).
- A partial charge on a bill already paid still writes a bill share
  (`Ledger.Settle`).
- An amount that is not a number (NaN) passes the amount check, because
  `NaN <= 0` is false (`Validation.NonNumericAmountPasses`,
  `Validation.WordAmountPasses`).
- Validation checks only that `payer` is present, not its `identification`.
  A truthy payer without one passes validation, then throws when the charge
  body reads `payer.identification.type` (route.ts:126). That happens before
  any charge is made, and the request ends in the catch at route.ts:236-251
  with the ledger untouched.
- `bill_id` is a required field. The checkout page
  (app/payment-testing/mpc-checkout.tsx:131-151) does not send `bill_id`.
  A request from it whose first six fields are all truthy therefore gets the
  `bill_id` error.
- The checkout page sends the amount as a number. An empty or zero form
  amount becomes the number 0, which is falsy. When the fields before it are
  present, the handler answers "No TRANSACTION_AMOUNT provided." with field
  `transaction_amount`, not "Invalid amount." (`Validation.ZeroNumberIsMissing`).
  The text "0.00" is truthy and gets "Invalid amount."
  (`Validation.ZeroTextIsInvalidAmount`).

What the model does prove of the code as written is the invariant in
`Ledger.Consistent`: while a bill is open, its paid amount equals the sum of
its shares and it has no payment record.

## Model

| member | source | states |
|---|---|---|
| `JsNumber.ParseFloat` | app/api/process_payment/route.ts:92 | blank text (empty, or only the white space parseFloat skips) reads as NaN, and text that starts with a digit always reads as a finite number |
| `JsNumber.ParseCentsText` | app/api/process_payment/route.ts:92 | parseFloat reads an amount written as whole units with two decimals back as exactly its cents divided by 100 |
| `JsNumber.ParseNegativeCentsText` | app/api/process_payment/route.ts:92 | a leading minus sign on such an amount makes parseFloat read its negation |
| `JsNumber.LeadingWhitespaceIgnored` | app/api/process_payment/route.ts:92 | white space in front of the amount text does not change what parseFloat reads |
| `JsNumber.NoLiteralIsNaN` | app/api/process_payment/route.ts:92 | text whose first non-blank character cannot begin a number reads as NaN |
| `JsNumber.LetterLedIsNaN` | app/api/process_payment/route.ts:92 | text that starts with a lower-case letter reads as NaN |
| `Validation.Position` | app/api/process_payment/route.ts:66-74 | each field has one place in the required-field table, and the table holds that field there |
| `Validation.Falsy` | app/api/process_payment/route.ts:78 | `!body[field]`: an absent field is always falsy, and the payer, an object, is falsy exactly when absent |
| `Validation.FirstFalsyFrom` | app/api/process_payment/route.ts:77-89 | the index found has every earlier field (from the start point) present and is itself falsy, or is the end of the table |
| `Validation.FirstMissing` | app/api/process_payment/route.ts:77-89 | no field is reported exactly when all are present; a reported field is falsy and every field before it in the table is present |
| `Validation.CheckRequiredFields` | app/api/process_payment/route.ts:77-89 | the early-return loop over the table returns exactly the first missing field |
| `Validation.Validate` | app/api/process_payment/route.ts:66-102 | a missing-field error comes back iff some field is falsy, and names the first in table order; "Invalid amount." comes back iff all fields are present and the amount (text through parseFloat, a number as itself) is at most zero by JavaScript's `<=` (`JsNumber.AtMostZero`: NaN never is, an infinity by its sign); otherwise the request is accepted with every field non-empty (installments non-zero, the amount neither "" nor 0) and the amount not at most zero |
| `Validation.ErrorField` | app/api/process_payment/route.ts:79-101 | the `field` is "amount" exactly for the amount check, so it never collides with a missing field's body key |
| `Validation.ErrorMessagesDistinct` | app/api/process_payment/route.ts:79-101 | no two validation errors share an `error` text: the label inside "No ... provided." tells the missing fields apart, and "Invalid amount." differs from all of them |
| `Validation.ErrorFieldsDistinct` | app/api/process_payment/route.ts:79-101 | no two validation errors share a `field`, so the client can tell which check failed |
| `Validation.EarlierMissingFieldWins` | app/api/process_payment/route.ts:77-89 | with two fields missing, a missing-field error comes back, naming the earlier of the two or a field before it, never the later |
| `Validation.MissingTokenReportedFirst` | app/api/process_payment/route.ts:66-89 | a request without a token gets the `token` error, whatever else it lacks |
| `Validation.CentsAmountChecked` | app/api/process_payment/route.ts:92-102 | with all fields present, a two-decimal amount text is accepted iff it is positive; zero and negative amounts get the invalid-amount error |
| `Validation.NumberAmountChecked` | app/api/process_payment/route.ts:92-102 | with all fields present, an amount sent as a number is accepted iff it is above zero; a negative one gets the invalid-amount error |
| `Validation.NonNumericAmountPasses` | app/api/process_payment/route.ts:92-102 | an amount that parses to NaN passes the amount check |
| `Validation.WordAmountPasses` | app/api/process_payment/route.ts:92-102 | an amount text that starts with a lower-case letter, such as "abc", passes validation |
| `Validation.ZeroNumberIsMissing` | app/api/process_payment/route.ts:77-89 | the number 0 as amount, with the three fields before it present, gets the missing-field error for `transaction_amount`, not the invalid-amount error |
| `Validation.ZeroTextIsInvalidAmount` | app/api/process_payment/route.ts:92-102 | the text "0.00" as amount, with all fields present, gets the invalid-amount error |
| `Ledger.Settle` | app/api/process_payment/route.ts:144-186 | not approved: nothing changes and the status and detail are reported; approved: billFullyPaid iff net equals the bill total; full: the row is paid with paid amount = net and one payment (bill id, bill total, charge id, and the processor's approval date only when it is non-empty, `Ledger.ApprovalDate`) is appended, no share; partial: one share (payer email, net, paid) is appended, no payment, an open row grows by exactly net, a paid row is untouched, isPaid never changes; every other bill is untouched |
| `Ledger.BillLedger.Reconcile` | app/api/process_payment/route.ts:144-186 | the in-place update of the bills map and the two record lists yields exactly `Settle`'s store and outcome, and keeps `Consistent` |
| `Ledger.FreshStoreConsistent` | app/api/process_payment/route.ts:150-185 | a ledger with no records whose open bills have paid nothing satisfies the consistency invariant |
| `Ledger.SettlePreservesConsistency` | app/api/process_payment/route.ts:150-185 | reconciliation keeps every open bill's paid amount equal to the sum of its shares, with no payment record |
| `Ledger.SettleAllPreservesConsistency` | app/api/process_payment/route.ts:144-186 | the same invariant holds after any series of reconciliations |
| `Ledger.PartialPaymentsAccumulate` | app/api/process_payment/route.ts:170-186 | after any series of approved partial charges on an open bill, its paid amount has grown by exactly their sum, one share per charge was written, no payment, and the bill is still open |
| `Ledger.SplitBillStaysOpen` | app/api/process_payment/route.ts:172-178 | 40.00 then 60.00 on a 100.00 bill: paid amount reaches the total, the bill stays open |
| `Ledger.OverpaymentThenFullSettlement` | app/api/process_payment/route.ts:148-178 | a charge above the total is partial and pushes paid past the total; a following full charge lowers it to the total |
| `Ledger.PartialThenFullSettlement` | app/api/process_payment/route.ts:148-185 | a partial then a full charge leave the bill paid at its total while its share plus its payment record amount to more |
| `Handler.StatusCode` | app/api/process_payment/route.ts:29-235 | 200 exactly for a processed payment, 405 exactly for a wrong method, 400 for every other answer |
| `Handler.Body` | app/api/process_payment/route.ts:29-235 | a response body carries an `error` exactly when its status is not 200; a validation failure carries its error and field, a missing credential its fixed error and details, a declined charge the processor's status and detail, a processed payment its billFullyPaid |
| `Handler.Handle` | app/api/process_payment/route.ts:29-235 | the ledger changes only for a valid POST from a merchant with a credential whose charge was approved; each earlier failure returns its own response with the ledger untouched; a declined charge returns the processor's status and detail; an approved one returns billFullyPaid iff net equals the bill total |
| `Handler.ProcessPayment` | app/api/process_payment/route.ts:29-235 | the imperative handler answers and updates the ledger exactly as `Handle` says, and keeps `Consistent` |

## Left out

- The processor call and its idempotency key (route.ts:135-142): a foreign network client and a random value. The charge result is an input.
- The application fee (route.ts:114) and the charge request body (route.ts:117-132). They feed the processor call, and the fee is floating-point rounding. Building the body also reads `payer.identification`, see the next line.
- `Handler.Handle` and `Validation.PayerDetails`: a payer always carries an identification here. A truthy payer without one passes validation, then throws at route.ts:126 before any charge and ends in the catch at route.ts:236-251 with no ledger change. The model does not represent that request.
- Table-token regeneration and the socket event (route.ts:188-218): best-effort external side effects. The response's `newQRGenerated` and its alternative message go with them.
- The mapping of thrown errors to HTTP answers (route.ts:236-251): transport plumbing.
- Concurrency: each reconciliation is one atomic step. The SQL `paidAmount + net` increment is modelled as that step.
- How the bill, the merchant and the table are looked up (the handler uses them without defining them): they are inputs.
- `res`, which the handler also uses without defining it (route.ts:107, 206, 220, 231, 247): the model assumes `res.status(n).json(body)` answers with that status and body. `Handler.StatusCode` and `Handler.Body` give them.
- `JsNumber.ParseFloat`: values are exact reals, not binary64. A positive amount too small for a double (below about 5e-324) reads as 0 in JavaScript and is rejected; here it is accepted. Very large values read as finite instead of Infinity, with the same sign.
- `Validation.Falsy`: `installments` is an integer, so fractions are not modelled. JSON carries no NaN: it arrives as null, which is modelled as absent. The amount may be text or a number; for a number, parseFloat of its string form is taken to give the number back, which holds for every finite double. Any other field of another JSON type than declared is not modelled.
- `Ledger.Settle`: the charge id is kept as a number, not its string form. A charge without an id is not modelled. Inserts are not checked against foreign keys: a record for a bill id with no stored row is still written, as the code issues it.
- The other files (the checkout page, the pages, the database configuration, the global type declarations): UI, network and configuration with no logic of this handler.
