/** Ledger reconciliation of the payment handler: after the processor has
    answered a charge, an approved charge either settles the bill in full
    (when its net amount equals the bill's total) or is recorded as one
    guest's share; any other status leaves the ledger alone. Amounts are
    integer cents. */
module Ledger {
  import opened Common

  type BillId = string

  /** A point in time, as the handler's clock reads it. */
  type Timestamp = int

  datatype Bill = Bill(id: BillId, totalAmount: int, paidAmount: int, isPaid: bool, updatedAt: Timestamp)

  /** A row of the payments table, written on full settlement. */
  datatype PaymentRecord = PaymentRecord(billId: BillId, paidAmount: int, paymentId: nat, dateApproved: Option<string>)

  /** A row of the bill shares table, written on partial settlement. */
  datatype BillShare = BillShare(guestId: string, billId: BillId, amountPaid: int, paid: bool)

  /** What the processor answered to one charge. */
  datatype ChargeResult = ChargeResult(
    status: string, statusDetail: string, netAmount: int, id: nat, dateApproved: Option<string>)

  /** The three tables the handler touches. */
  datatype Store = Store(bills: map<BillId, Bill>, payments: seq<PaymentRecord>, billShares: seq<BillShare>)

  datatype Outcome = Settled(billFullyPaid: bool) | NotApproved(status: string, statusDetail: string)

  datatype Settlement = Settlement(store: Store, outcome: Outcome)

  const Approved: string := "approved"

  /** The approval date stored with a payment: absent when the processor gave
      none or gave an empty one. */
  function ApprovalDate(d: Option<string>): (r: Option<string>)
    ensures r.Some? <==> !FalsyText(d)
    ensures r.Some? ==> r == d
  {
    if FalsyText(d) then None else d
  }

  /** The reconciliation step. `bill` is the bill as the handler read it; the
      full-or-partial decision is taken on its total, and the updates go to the
      stored row with the same id (an update that matches no row changes
      nothing). */
  function Settle(s: Store, bill: Bill, charge: ChargeResult, payerEmail: string, now: Timestamp): (r: Settlement)
    // A charge that was not approved changes nothing and reports the processor's answer.
    ensures charge.status != Approved ==>
              r.store == s && r.outcome == NotApproved(charge.status, charge.statusDetail)
    // billFullyPaid is true exactly when the net amount equals the bill total.
    ensures charge.status == Approved ==> r.outcome == Settled(charge.netAmount == bill.totalAmount)
    // No bill appears or disappears, and every other bill is untouched.
    ensures r.store.bills.Keys == s.bills.Keys
    ensures forall id :: id in s.bills && id != bill.id ==> r.store.bills[id] == s.bills[id]
    // A stored bill keeps its id and total.
    ensures bill.id in s.bills ==>
              r.store.bills[bill.id].id == s.bills[bill.id].id
              && r.store.bills[bill.id].totalAmount == s.bills[bill.id].totalAmount
    // Full settlement: paid, paid amount set to the net amount, one payment appended.
    ensures r.outcome == Settled(true) ==>
              r.store.payments == s.payments + [PaymentRecord(bill.id, bill.totalAmount, charge.id, ApprovalDate(charge.dateApproved))]
              && r.store.billShares == s.billShares
              && (bill.id in s.bills ==>
                    r.store.bills[bill.id].isPaid && r.store.bills[bill.id].paidAmount == charge.netAmount
                    && r.store.bills[bill.id].updatedAt == now)
    // Partial settlement: one share appended, no payment; an unpaid bill grows by
    // the net amount, a paid bill is untouched, and isPaid never changes.
    ensures r.outcome == Settled(false) ==>
              r.store.payments == s.payments
              && r.store.billShares == s.billShares + [BillShare(payerEmail, bill.id, charge.netAmount, true)]
              && (bill.id in s.bills ==>
                    r.store.bills[bill.id].isPaid == s.bills[bill.id].isPaid
                    && r.store.bills[bill.id].paidAmount
                       == s.bills[bill.id].paidAmount + (if s.bills[bill.id].isPaid then 0 else charge.netAmount)
                    && r.store.bills[bill.id].updatedAt
                       == (if s.bills[bill.id].isPaid then s.bills[bill.id].updatedAt else now))
  {
    if charge.status != Approved then
      Settlement(s, NotApproved(charge.status, charge.statusDetail))
    else if bill.totalAmount == charge.netAmount then
      var bills := if bill.id in s.bills
                   then s.bills[bill.id := s.bills[bill.id].(isPaid := true, paidAmount := charge.netAmount, updatedAt := now)]
                   else s.bills;
      var record := PaymentRecord(bill.id, bill.totalAmount, charge.id, ApprovalDate(charge.dateApproved));
      Settlement(Store(bills, s.payments + [record], s.billShares), Settled(true))
    else
      var bills := if bill.id in s.bills && !s.bills[bill.id].isPaid
                   then s.bills[bill.id := s.bills[bill.id].(paidAmount := s.bills[bill.id].paidAmount + charge.netAmount, updatedAt := now)]
                   else s.bills;
      var share := BillShare(payerEmail, bill.id, charge.netAmount, true);
      Settlement(Store(bills, s.payments, s.billShares + [share]), Settled(false))
  }

  /** The bills, payments and bill shares tables, updated in place. */
  class BillLedger {
    var bills: map<BillId, Bill>
    var payments: seq<PaymentRecord>
    var billShares: seq<BillShare>

    constructor (initial: map<BillId, Bill>)
      ensures bills == initial && payments == [] && billShares == []
      ensures (forall id :: id in initial && !initial[id].isPaid ==> initial[id].paidAmount == 0) ==> Consistent(State())
    {
      bills := initial;
      payments := [];
      billShares := [];
    }

    function State(): Store
      reads this
    {
      Store(bills, payments, billShares)
    }

    /** Applies one processor answer to the ledger. */
    method Reconcile(bill: Bill, charge: ChargeResult, payerEmail: string, now: Timestamp) returns (outcome: Outcome)
      modifies this
      ensures Settlement(State(), outcome) == Settle(old(State()), bill, charge, payerEmail, now)
      ensures old(Consistent(State())) ==> Consistent(State())
    {
      ghost var before := State();
      if charge.status == Approved {
        if bill.totalAmount == charge.netAmount {
          if bill.id in bills {
            bills := bills[bill.id := bills[bill.id].(isPaid := true, paidAmount := charge.netAmount, updatedAt := now)];
          }
          payments := payments + [PaymentRecord(bill.id, bill.totalAmount, charge.id, ApprovalDate(charge.dateApproved))];
          outcome := Settled(true);
        } else {
          if bill.id in bills && !bills[bill.id].isPaid {
            bills := bills[bill.id := bills[bill.id].(paidAmount := bills[bill.id].paidAmount + charge.netAmount, updatedAt := now)];
          }
          billShares := billShares + [BillShare(payerEmail, bill.id, charge.netAmount, true)];
          outcome := Settled(false);
        }
      } else {
        outcome := NotApproved(charge.status, charge.statusDetail);
      }
      if Consistent(before) {
        SettlePreservesConsistency(before, bill, charge, payerEmail, now);
      }
    }
  }

  /** The sum of the shares recorded for one bill. */
  function SharesTotal(shares: seq<BillShare>, id: BillId): int
  {
    if shares == [] then 0
    else SharesTotal(shares[..|shares| - 1], id)
         + (if shares[|shares| - 1].billId == id then shares[|shares| - 1].amountPaid else 0)
  }

  /** The number of payment records for one bill. */
  function PaymentCount(payments: seq<PaymentRecord>, id: BillId): nat
  {
    if payments == [] then 0
    else PaymentCount(payments[..|payments| - 1], id) + (if payments[|payments| - 1].billId == id then 1 else 0)
  }

  lemma SharesTotalAppend(shares: seq<BillShare>, share: BillShare, id: BillId)
    ensures SharesTotal(shares + [share], id)
            == SharesTotal(shares, id) + (if share.billId == id then share.amountPaid else 0)
  {
    assert (shares + [share])[..|shares|] == shares;
  }

  lemma PaymentCountAppend(payments: seq<PaymentRecord>, record: PaymentRecord, id: BillId)
    ensures PaymentCount(payments + [record], id) == PaymentCount(payments, id) + (if record.billId == id then 1 else 0)
  {
    assert (payments + [record])[..|payments|] == payments;
  }

  /** The ledger of a bill that is still open is made of its shares alone:
      its paid amount is the sum of its shares and it has no payment record.
      A new store (bills opened at zero, no records) is consistent. */
  predicate Consistent(s: Store)
  {
    forall id :: id in s.bills && !s.bills[id].isPaid ==>
      s.bills[id].paidAmount == SharesTotal(s.billShares, id) && PaymentCount(s.payments, id) == 0
  }

  /** A ledger whose open bills start at zero, with no records yet, is
      consistent. */
  lemma FreshStoreConsistent(bills: map<BillId, Bill>)
    requires forall id :: id in bills && !bills[id].isPaid ==> bills[id].paidAmount == 0
    ensures Consistent(Store(bills, [], []))
  {
  }

  /** Reconciliation keeps every open bill's paid amount equal to the sum of
      its shares, and no open bill ever has a payment record. */
  lemma SettlePreservesConsistency(s: Store, bill: Bill, charge: ChargeResult, payerEmail: string, now: Timestamp)
    requires Consistent(s)
    ensures Consistent(Settle(s, bill, charge, payerEmail, now).store)
  {
    var r := Settle(s, bill, charge, payerEmail, now).store;
    forall id | id in r.bills && !r.bills[id].isPaid
      ensures r.bills[id].paidAmount == SharesTotal(r.billShares, id) && PaymentCount(r.payments, id) == 0
    {
      if charge.status == Approved && charge.netAmount == bill.totalAmount {
        PaymentCountAppend(s.payments, PaymentRecord(bill.id, bill.totalAmount, charge.id, ApprovalDate(charge.dateApproved)), id);
      } else if charge.status == Approved {
        SharesTotalAppend(s.billShares, BillShare(payerEmail, bill.id, charge.netAmount, true), id);
      }
    }
  }

  /** One guest's payment attempt on the bill. */
  datatype Attempt = Attempt(payerEmail: string, charge: ChargeResult, at: Timestamp)

  /** Reconciles a series of attempts on the same bill, one after the other. */
  function SettleAll(s: Store, bill: Bill, attempts: seq<Attempt>): Store
    decreases |attempts|
  {
    if attempts == [] then s
    else
      var a := attempts[0];
      SettleAll(Settle(s, bill, a.charge, a.payerEmail, a.at).store, bill, attempts[1..])
  }

  function NetTotal(attempts: seq<Attempt>): int
  {
    if attempts == [] then 0 else attempts[0].charge.netAmount + NetTotal(attempts[1..])
  }

  /** Approved partial payments on an open bill are never lost: after any
      series of them the bill's paid amount has grown by exactly their sum,
      one share was written for each, no payment was written, and the bill
      is still open (even when the sum has reached the total). */
  lemma {:induction false} PartialPaymentsAccumulate(s: Store, bill: Bill, attempts: seq<Attempt>)
    requires bill.id in s.bills && !s.bills[bill.id].isPaid
    requires forall i :: 0 <= i < |attempts| ==>
               attempts[i].charge.status == Approved && attempts[i].charge.netAmount != bill.totalAmount
    ensures var r := SettleAll(s, bill, attempts);
            bill.id in r.bills && !r.bills[bill.id].isPaid
            && r.bills[bill.id].paidAmount == s.bills[bill.id].paidAmount + NetTotal(attempts)
            && |r.billShares| == |s.billShares| + |attempts|
            && r.payments == s.payments
    decreases |attempts|
  {
    if attempts != [] {
      var a := attempts[0];
      var next := Settle(s, bill, a.charge, a.payerEmail, a.at).store;
      PartialPaymentsAccumulate(next, bill, attempts[1..]);
    }
  }

  /** Consistency holds after any series of attempts on any bill. */
  lemma {:induction false} SettleAllPreservesConsistency(s: Store, bill: Bill, attempts: seq<Attempt>)
    requires Consistent(s)
    ensures Consistent(SettleAll(s, bill, attempts))
    decreases |attempts|
  {
    if attempts != [] {
      var a := attempts[0];
      SettlePreservesConsistency(s, bill, a.charge, a.payerEmail, a.at);
      SettleAllPreservesConsistency(Settle(s, bill, a.charge, a.payerEmail, a.at).store, bill, attempts[1..]);
    }
  }

  /** Two guests split a bill of 100.00 as 40.00 and 60.00: the paid amount
      reaches the total, yet the bill stays open, because partial settlement
      never marks a bill paid. */
  lemma SplitBillStaysOpen(s: Store, bill: Bill, first: Attempt, second: Attempt)
    requires bill.id in s.bills && s.bills[bill.id].paidAmount == 0 && !s.bills[bill.id].isPaid
    requires bill.totalAmount == 10000
    requires first.charge.status == Approved && first.charge.netAmount == 4000
    requires second.charge.status == Approved && second.charge.netAmount == 6000
    ensures var r := SettleAll(s, bill, [first, second]);
            bill.id in r.bills && r.bills[bill.id].paidAmount == bill.totalAmount && !r.bills[bill.id].isPaid
            && |r.billShares| == |s.billShares| + 2 && r.payments == s.payments
  {
    var attempts := [first, second];
    assert attempts[1..] == [second] && attempts[1..][1..] == [];
    assert NetTotal([second]) == 6000 by {
      assert NetTotal([second][1..]) == 0;
    }
    assert NetTotal(attempts) == 10000;
    PartialPaymentsAccumulate(s, bill, attempts);
  }

  /** A charge above the total is taken as a partial payment and pushes the
      paid amount past the total; a later charge equal to the total then
      overwrites the paid amount, which goes down. */
  lemma OverpaymentThenFullSettlement(s: Store, bill: Bill, over: Attempt, full: Attempt)
    requires bill.id in s.bills && s.bills[bill.id].paidAmount == 0 && !s.bills[bill.id].isPaid
    requires bill.totalAmount == 10000
    requires over.charge.status == Approved && over.charge.netAmount == 15000
    requires full.charge.status == Approved && full.charge.netAmount == 10000
    ensures var mid := Settle(s, bill, over.charge, over.payerEmail, over.at);
            var end := Settle(mid.store, bill, full.charge, full.payerEmail, full.at);
            mid.outcome == Settled(false) && end.outcome == Settled(true)
            && mid.store.bills[bill.id].paidAmount == 15000
            && end.store.bills[bill.id].paidAmount == 10000 && end.store.bills[bill.id].isPaid
  {
  }

  /** A partial payment followed by a charge equal to the total: the bill
      ends paid at its total, while its share and its payment record together
      account for more than that. */
  lemma PartialThenFullSettlement(s: Store, bill: Bill, part: Attempt, full: Attempt)
    requires Consistent(s)
    requires bill.id in s.bills && s.bills[bill.id].paidAmount == 0 && !s.bills[bill.id].isPaid
    requires bill.totalAmount == 10000
    requires part.charge.status == Approved && part.charge.netAmount == 4000
    requires full.charge.status == Approved && full.charge.netAmount == 10000
    ensures var mid := Settle(s, bill, part.charge, part.payerEmail, part.at).store;
            var end := Settle(mid, bill, full.charge, full.payerEmail, full.at).store;
            end.bills[bill.id].isPaid && end.bills[bill.id].paidAmount == 10000
            && |end.payments| == |s.payments| + 1
            && SharesTotal(end.billShares, bill.id) + end.payments[|end.payments| - 1].paidAmount == 14000
  {
    var mid := Settle(s, bill, part.charge, part.payerEmail, part.at).store;
    assert mid.billShares == s.billShares + [BillShare(part.payerEmail, bill.id, 4000, true)];
    SharesTotalAppend(s.billShares, BillShare(part.payerEmail, bill.id, 4000, true), bill.id);
    assert SharesTotal(mid.billShares, bill.id) == 4000;
    var end := Settle(mid, bill, full.charge, full.payerEmail, full.at).store;
    assert end.billShares == mid.billShares;
    assert end.payments == mid.payments + [PaymentRecord(bill.id, 10000, full.charge.id, ApprovalDate(full.charge.dateApproved))];
  }
}
