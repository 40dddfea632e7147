/**
 * The cases of accounting/tests.py, derived from the general lemmas: a
 * policy with an annual premium of 1200, which in the tests takes effect on
 * 2015-01-01 (the balances below hold for any effective date).
 */
module Scenarios {
  import opened Dates
  import opened Records
  import opened Schedule
  import opened Ledger
  import opened Results
  import opened Accounting

  /** "Annual": one invoice, for the whole premium, all due on the effective date. */
  lemma AnnualSchedule(p: Policy)
    requires p.billingSchedule == "Annual" && p.annualPremium == 1200
    ensures |ScheduledInvoices(p)| == 1
    ensures ScheduledInvoices(p)[0].amountDue == 1200
    ensures Balance(ScheduledInvoices(p), [], p.id, p.effectiveDate) == 1200
  {
    assert InstallmentCount(p.billingSchedule) == 1;
    InstallmentSpacing(p, 0);
    InvoicedThroughInstallment(p, 0);
  }

  /** "Quarterly": 300 due on the effective date and 1200 on the fourth bill date. */
  lemma QuarterlySchedule(p: Policy)
    requires p.billingSchedule == "Quarterly" && p.annualPremium == 1200
    ensures |ScheduledInvoices(p)| == 4
    ensures Balance(ScheduledInvoices(p), [], p.id, p.effectiveDate) == 300
    ensures Balance(ScheduledInvoices(p), [], p.id, ScheduledInvoices(p)[3].billDate) == 1200
  {
    SplitScheduleCounts();
    assert InstallmentAmount(p) == 300;
    InstallmentSpacing(p, 0);
    InvoicedThroughInstallment(p, 0);
    InvoicedThroughInstallment(p, 3);
  }

  /** "Monthly": 100 due on the effective date. */
  lemma MonthlySchedule(p: Policy)
    requires p.billingSchedule == "Monthly" && p.annualPremium == 1200
    ensures Balance(ScheduledInvoices(p), [], p.id, p.effectiveDate) == 100
  {
    SplitScheduleCounts();
    assert InstallmentAmount(p) == 100;
    InstallmentSpacing(p, 0);
    InvoicedThroughInstallment(p, 0);
  }

  /** "Quarterly" with 600 paid on the second bill date: nothing is left due that day. */
  lemma QuarterlyPaidInFull(p: Policy, payer: int)
    requires p.billingSchedule == "Quarterly" && p.annualPremium == 1200
    ensures |ScheduledInvoices(p)| == 4
    ensures var bill := ScheduledInvoices(p)[1].billDate;
      Balance(ScheduledInvoices(p), [Payment(p.id, payer, 600, bill)], p.id, bill) == 0
  {
    SplitScheduleCounts();
    assert InstallmentAmount(p) == 300;
    var s := ScheduledInvoices(p);
    InvoicedThroughInstallment(p, 1);
    PaymentLowersBalance(s, [], Payment(p.id, payer, 600, s[1].billDate), p.id, s[1].billDate);
  }

  /** With the tests' effective date 2015-01-01, the quarterly bill dates fall on the first of January, April, July and October. */
  lemma QuarterlyBillDates2015(p: Policy)
    requires p.billingSchedule == "Quarterly" && p.effectiveDate == CalendarDate(2015, 1, 1)
    ensures |ScheduledInvoices(p)| == 4
    ensures ScheduledInvoices(p)[1].billDate == CalendarDate(2015, 4, 1)
    ensures ScheduledInvoices(p)[2].billDate == CalendarDate(2015, 7, 1)
    ensures ScheduledInvoices(p)[3].billDate == CalendarDate(2015, 10, 1)
  {
    SplitScheduleCounts();
    var start := p.effectiveDate;
    assert AddMonths(start, 3) == CalendarDate(2015, 4, 1);
    assert AddMonths(start, 6) == CalendarDate(2015, 7, 1);
    assert AddMonths(start, 9) == CalendarDate(2015, 10, 1);
    InstallmentSpacing(p, 1);
    InstallmentSpacing(p, 2);
    InstallmentSpacing(p, 3);
  }

  /**
   * Monthly billing from 2015-01-31: each bill date is counted from the
   * effective date and clamped to the month's end, so the third bill falls on
   * 2015-03-31, not on the 28th that chaining from the second bill would give.
   */
  lemma MonthlyFromEndOfMonth(p: Policy)
    requires p.billingSchedule == "Monthly" && p.effectiveDate == CalendarDate(2015, 1, 31)
    ensures |ScheduledInvoices(p)| == 12
    ensures ScheduledInvoices(p)[1].billDate == CalendarDate(2015, 2, 28)
    ensures ScheduledInvoices(p)[2].billDate == CalendarDate(2015, 3, 31)
    ensures AddMonths(ScheduledInvoices(p)[1].billDate, 1) == CalendarDate(2015, 3, 28)
  {
    SplitScheduleCounts();
    var start := p.effectiveDate;
    assert AddMonths(start, 1) == CalendarDate(2015, 2, 28);
    assert AddMonths(start, 2) == CalendarDate(2015, 3, 31);
    assert AddMonths(CalendarDate(2015, 2, 28), 1) == CalendarDate(2015, 3, 28);
    InstallmentSpacing(p, 1);
    InstallmentSpacing(p, 2);
  }

  /**
   * The full-payment test through the engine: a quarterly policy of 1200 is
   * opened on a database holding only it and its named insured (which
   * generates its invoices), the named insured, passed as the contact, pays
   * 600 on the second bill date, and the balance on that day is 0.
   */
  method QuarterlyFullPayment(p: Policy, insured: Contact) returns (paid: Result<Payment, Error>, balance: int)
    requires p.billingSchedule == "Quarterly" && p.annualPremium == 1200
    requires p.namedInsured == Some(insured.id)
    ensures paid == Success(Payment(p.id, insured.id, 600, ScheduledInvoices(p)[1].billDate))
    ensures balance == 0
  {
    var db := new Database(map[p.id := p], map[insured.id := insured], [], []);
    var loaded := Open(db, p.id);
    var accounting := loaded.value;
    var s := ScheduledInvoices(p);
    assert db.invoices == s;
    SplitScheduleCounts();
    var cursor := s[1].billDate;
    NotPendingOnBillDates(p, [], 1);
    paid := accounting.MakePayment(p.namedInsured, cursor, 600);
    balance := accounting.ReturnAccountBalance(cursor);
    QuarterlyPaidInFull(p, insured.id);
  }
}
