/**
 * The billing engine `PolicyAccounting` (accounting/utils.py) over an
 * in-memory database. The session, query and commit mechanics of the source
 * become reads and assignments of the `Database` fields; the date cursor,
 * which the source defaults to today, is always passed explicitly.
 *
 * Each query method is proved against the specification function of the
 * `Ledger` module, and each state-changing method states the new tables in
 * terms of the old ones and of `Schedule.ScheduledInvoices`.
 */
module Accounting {
  import opened Results
  import opened Dates
  import opened Records
  import opened Schedule
  import opened Ledger

  /** The database tables the engine reads and writes. */
  class Database {
    var policies: map<int, Policy>
    var contacts: map<int, Contact>
    var invoices: seq<Invoice>
    var payments: seq<Payment>

    constructor (policies: map<int, Policy>, contacts: map<int, Contact>,
                 invoices: seq<Invoice>, payments: seq<Payment>)
      requires KeyedById(policies, contacts)
      ensures this.policies == policies && this.contacts == contacts
      ensures this.invoices == invoices && this.payments == payments
      ensures Valid()
    {
      this.policies := policies;
      this.contacts := contacts;
      this.invoices := invoices;
      this.payments := payments;
    }

    /** Every row is stored under its own primary key, so a lookup by key is a lookup by id. */
    predicate Valid()
      reads this
    {
      KeyedById(policies, contacts)
    }
  }

  /** Every policy and contact is stored under its own id. */
  predicate KeyedById(policies: map<int, Policy>, contacts: map<int, Contact>) {
    && (forall k :: k in policies ==> policies[k].id == k)
    && (forall k :: k in contacts ==> contacts[k].id == k)
  }

  /** A falsy contact id (none, or 0) stands for the policy's named insured. */
  function Payer(contactId: Option<int>, namedInsured: Option<int>): (r: Option<int>)
    ensures contactId.Some? && contactId.value != 0 ==> r == contactId
    ensures contactId.None? || contactId.value == 0 ==> r == namedInsured
  {
    if contactId.None? || contactId.value == 0 then namedInsured else contactId
  }

  /**
   * `PolicyAccounting(policy_id)`: fails when no policy has that id;
   * otherwise loads it and generates its invoices if it has none.
   */
  method Open(db: Database, policyId: int) returns (r: Result<PolicyAccounting, Error>)
    requires db.Valid()
    modifies db
    ensures db.Valid()
    ensures policyId !in old(db.policies) ==> r == Failure(PolicyNotFound) && unchanged(db)
    ensures policyId in old(db.policies) ==>
      && r.Success? && fresh(r.value)
      && r.value.db == db && r.value.policy == old(db.policies[policyId])
      && r.value.policy.id == policyId
      && db.policies == old(db.policies) && db.contacts == old(db.contacts)
      && db.payments == old(db.payments)
      && db.invoices == if HasInvoices(old(db.invoices), r.value.policy.id) then old(db.invoices)
                        else old(db.invoices) + ScheduledInvoices(r.value.policy)
  {
    if policyId !in db.policies {
      return Failure(PolicyNotFound);
    }
    var accounting := new PolicyAccounting(db, policyId);
    r := Success(accounting);
  }

  /**
   * Builds the invoice list of a split schedule: `invoices` holds the first
   * invoice, and installments 1 .. n-1 are billed `step * i` months after the
   * effective date, each for the premium divided by `n`.
   */
  method AddInstallments(p: Policy, invoices: seq<Invoice>, n: int, step: nat) returns (r: seq<Invoice>)
    requires |invoices| == 1 && 1 <= n
    ensures |r| == n && r[0] == invoices[0]
    ensures forall i :: 1 <= i < n ==>
      var bill := AddMonths(p.effectiveDate, Offset(i, step));
      r[i] == Invoice(p.id, bill, AddMonths(bill, 1), AddDays(AddMonths(bill, 1), 14), p.annualPremium / n, false)
  {
    r := invoices;
    for i := 1 to n
      invariant |r| == i && r[0] == invoices[0]
      invariant forall j :: 1 <= j < i ==>
        var bill := AddMonths(p.effectiveDate, Offset(j, step));
        r[j] == Invoice(p.id, bill, AddMonths(bill, 1), AddDays(AddMonths(bill, 1), 14), p.annualPremium / n, false)
    {
      var monthsAfterEffDate := Offset(i, step);
      var billDate := AddMonths(p.effectiveDate, monthsAfterEffDate);
      var invoice := Invoice(
        p.id,
        billDate,
        AddMonths(billDate, 1),
        AddDays(AddMonths(billDate, 1), 14),
        p.annualPremium / n,
        false);
      r := r + [invoice];
    }
  }

  /** The invoices a split branch builds are exactly the scheduled ones. */
  lemma SplitBranchScheduled(p: Policy, r: seq<Invoice>, n: int, step: nat)
    requires IsSplitSchedule(p.billingSchedule)
    requires n == InstallmentCount(p.billingSchedule) && step == MonthsBetween(p.billingSchedule)
    requires |r| == n
    requires var eff := p.effectiveDate;
      r[0] == Invoice(p.id, eff, AddMonths(eff, 1), AddDays(AddMonths(eff, 1), 14), p.annualPremium / n, false)
    requires forall i :: 1 <= i < n ==>
      var bill := AddMonths(p.effectiveDate, Offset(i, step));
      r[i] == Invoice(p.id, bill, AddMonths(bill, 1), AddDays(AddMonths(bill, 1), 14), p.annualPremium / n, false)
    ensures r == ScheduledInvoices(p)
  {
    var s := ScheduledInvoices(p);
    forall k | 0 <= k < n
      ensures r[k] == s[k]
    {
      if k == 0 {
        AddMonthsZero(p.effectiveDate);
        assert Offset(0, step) == 0;
      }
      SplitBranchInstallment(p, k, n, step, r[k]);
    }
    SameElements(r, s);
  }

  lemma SameElements(r: seq<Invoice>, s: seq<Invoice>)
    requires |r| == |s| && forall k :: 0 <= k < |r| ==> r[k] == s[k]
    ensures r == s
  {
  }

  /** One invoice a split branch builds is the scheduled installment with the same index. */
  lemma SplitBranchInstallment(p: Policy, k: nat, n: int, step: nat, x: Invoice)
    requires IsSplitSchedule(p.billingSchedule)
    requires n == InstallmentCount(p.billingSchedule) && step == MonthsBetween(p.billingSchedule)
    requires k < n
    requires var bill := AddMonths(p.effectiveDate, Offset(k, step));
      x == Invoice(p.id, bill, AddMonths(bill, 1), AddDays(AddMonths(bill, 1), 14), p.annualPremium / n, false)
    ensures k < |ScheduledInvoices(p)| && x == ScheduledInvoices(p)[k]
  {
    ScheduledInstallment(p, k);
  }

  /** The single full-premium invoice of the other branches is the scheduled set. */
  lemma SingleInvoiceScheduled(p: Policy)
    requires !IsSplitSchedule(p.billingSchedule)
    ensures var eff := p.effectiveDate;
      [Invoice(p.id, eff, AddMonths(eff, 1), AddDays(AddMonths(eff, 1), 14), p.annualPremium, false)]
      == ScheduledInvoices(p)
  {
    AddMonthsZero(p.effectiveDate);
    assert ScheduledInvoices(p)[0] == Installment(p, 0);
  }

  class PolicyAccounting {
    const db: Database
    const policy: Policy

    /** Loads the policy and, when it has no invoices yet, generates them. */
    constructor (db: Database, policyId: int)
      requires policyId in db.policies && db.Valid()
      modifies db
      ensures this.db == db && policy == old(db.policies[policyId]) && policy.id == policyId
      ensures db.Valid()
      ensures db.policies == old(db.policies) && db.contacts == old(db.contacts)
      ensures db.payments == old(db.payments)
      ensures db.invoices == if HasInvoices(old(db.invoices), policy.id) then old(db.invoices)
                             else old(db.invoices) + ScheduledInvoices(policy)
    {
      this.db := db;
      this.policy := db.policies[policyId];
      new;
      if !HasInvoices(db.invoices, policy.id) {
        WithoutAbsentPolicy(db.invoices, policy.id);
        MakeInvoices();
      }
    }

    /** `return_account_balance`: invoiced minus paid, both up to `cursor`. */
    method ReturnAccountBalance(cursor: Date) returns (dueNow: int)
      ensures dueNow == Balance(db.invoices, db.payments, policy.id, cursor)
    {
      var invoices := db.invoices;
      dueNow := 0;
      for i := 0 to |invoices|
        invariant dueNow == InvoicedBy(invoices[..i], policy.id, cursor)
      {
        assert invoices[..i + 1][..i] == invoices[..i];
        if invoices[i].policyId == policy.id && OnOrBefore(invoices[i].billDate, cursor) {
          dueNow := dueNow + invoices[i].amountDue;
        }
      }
      assert invoices[..|invoices|] == invoices;

      var payments := db.payments;
      for i := 0 to |payments|
        invariant dueNow == InvoicedBy(invoices, policy.id, cursor) - PaidBy(payments[..i], policy.id, cursor)
      {
        assert payments[..i + 1][..i] == payments[..i];
        if payments[i].policyId == policy.id && OnOrBefore(payments[i].transactionDate, cursor) {
          dueNow := dueNow - payments[i].amountPaid;
        }
      }
      assert payments[..|payments|] == payments;
    }

    /**
     * `make_payment`: the payer defaults to the named insured; an unknown
     * payer is refused, and so is a non-agent while cancellation is pending
     * for non-payment; otherwise exactly one payment dated `cursor` is added.
     */
    method MakePayment(contactId: Option<int>, cursor: Date, amount: int) returns (r: Result<Payment, Error>)
      requires db.Valid()
      modifies db
      ensures db.Valid()
      ensures db.policies == old(db.policies) && db.contacts == old(db.contacts)
      ensures db.invoices == old(db.invoices)
      ensures var payer := Payer(contactId, policy.namedInsured);
        var pending := PendingNonPay(old(db.invoices), old(db.payments), policy.id, cursor);
        if payer.None? || payer.value !in old(db.contacts) then
          r == Failure(ContactNotFound) && db.payments == old(db.payments)
        else if pending && old(db.contacts)[payer.value].role != Agent then
          r == Failure(PaymentNotAllowed) && db.payments == old(db.payments)
        else
          && r == Success(Payment(policy.id, payer.value, amount, cursor))
          && db.payments == old(db.payments) + [r.value]
    {
      var dueToNonPay := EvaluateCancellationPendingDueToNonPay(cursor);
      var payer := contactId;
      if contactId.None? || contactId.value == 0 {
        payer := policy.namedInsured;
      }
      if payer.None? || payer.value !in db.contacts {
        return Failure(ContactNotFound);
      }
      var contact := db.contacts[payer.value];
      if dueToNonPay && contact.role != Agent {
        return Failure(PaymentNotAllowed);
      }
      var payment := Payment(policy.id, payer.value, amount, cursor);
      db.payments := db.payments + [payment];
      r := Success(payment);
    }

    /**
     * `evaluate_cancellation_pending_due_to_non_pay`: true as soon as an
     * invoice whose window contains `cursor` has a nonzero balance at its
     * due date.
     */
    method EvaluateCancellationPendingDueToNonPay(cursor: Date) returns (pending: bool)
      ensures pending == PendingNonPay(db.invoices, db.payments, policy.id, cursor)
    {
      var invoices := db.invoices;
      var i := 0;
      while i < |invoices|
        invariant 0 <= i <= |invoices|
        invariant forall j :: 0 <= j < i && InNonPayWindow(invoices[j], policy.id, cursor) ==>
          Balance(invoices, db.payments, policy.id, invoices[j].dueDate) == 0
      {
        if InNonPayWindow(invoices[i], policy.id, cursor) {
          var balance := ReturnAccountBalance(invoices[i].dueDate);
          if balance != 0 {
            return true;
          }
        }
        i := i + 1;
      }
      pending := false;
    }

    /**
     * `evaluate_cancel`: the verdict it reports, "should have canceled" when
     * an invoice whose cancel date has passed has a nonzero balance at that
     * cancel date.
     */
    method EvaluateCancel(cursor: Date) returns (shouldCancel: bool)
      ensures shouldCancel == ShouldCancel(db.invoices, db.payments, policy.id, cursor)
    {
      var invoices := db.invoices;
      shouldCancel := false;
      var i := 0;
      while i < |invoices|
        invariant 0 <= i <= |invoices|
        invariant !shouldCancel
        invariant forall j :: 0 <= j < i && PastCancelDate(invoices[j], policy.id, cursor) ==>
          Balance(invoices, db.payments, policy.id, invoices[j].cancelDate) == 0
      {
        if PastCancelDate(invoices[i], policy.id, cursor) {
          var balance := ReturnAccountBalance(invoices[i].cancelDate);
          if balance != 0 {
            shouldCancel := true;
            break;
          }
        }
        i := i + 1;
      }
    }

    /**
     * `make_invoices`: deletes every invoice of the policy, then adds the
     * invoices of its billing schedule.
     */
    method MakeInvoices()
      requires db.Valid()
      modifies db
      ensures db.Valid()
      ensures db.invoices == WithoutPolicy(old(db.invoices), policy.id) + ScheduledInvoices(policy)
      ensures db.policies == old(db.policies) && db.contacts == old(db.contacts)
      ensures db.payments == old(db.payments)
    {
      // delete the policy's invoices
      var kept: seq<Invoice> := [];
      for i := 0 to |db.invoices|
        invariant kept == WithoutPolicy(db.invoices[..i], policy.id)
      {
        assert db.invoices[..i + 1][..i] == db.invoices[..i];
        if db.invoices[i].policyId != policy.id {
          kept := kept + [db.invoices[i]];
        }
      }
      assert db.invoices[..|db.invoices|] == db.invoices;
      db.invoices := kept;

      var eff := policy.effectiveDate;
      var firstInvoice := Invoice(policy.id, eff, AddMonths(eff, 1), AddDays(AddMonths(eff, 1), 14),
                                  policy.annualPremium, false);
      var invoices := [firstInvoice];
      var schedule := policy.billingSchedule;
      SplitScheduleCounts();
      if schedule == "Annual" {
        SingleInvoiceScheduled(policy);
      } else if schedule == "Two-Pay" {
        var n := BillingSchedules[schedule].value;
        invoices := invoices[0 := invoices[0].(amountDue := invoices[0].amountDue / n)];
        invoices := AddInstallments(policy, invoices, n, 6);
        SplitBranchScheduled(policy, invoices, n, 6);
      } else if schedule == "Quarterly" {
        var n := BillingSchedules[schedule].value;
        invoices := invoices[0 := invoices[0].(amountDue := invoices[0].amountDue / n)];
        invoices := AddInstallments(policy, invoices, n, 3);
        SplitBranchScheduled(policy, invoices, n, 3);
      } else if schedule == "Monthly" {
        var n := BillingSchedules[schedule].value;
        invoices := invoices[0 := invoices[0].(amountDue := invoices[0].amountDue / n)];
        invoices := AddInstallments(policy, invoices, n, 1);
        SplitBranchScheduled(policy, invoices, n, 1);
      } else {
        // an unknown schedule is only reported: the single full-premium invoice is kept
        SingleInvoiceScheduled(policy);
      }
      db.invoices := db.invoices + invoices;
    }
  }
}
