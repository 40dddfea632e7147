/**
 * The billing schedule table and the invoice set that `make_invoices`
 * generates for a policy (accounting/utils.py).
 *
 * The generator creates a first invoice billed on the effective date for the
 * whole annual premium, then branches on the schedule name:
 * - "Annual" keeps that single invoice;
 * - "Two-Pay", "Quarterly" and "Monthly" divide the first invoice's amount by
 *   the table's installment count (Python 2 integer division) and add the
 *   remaining installments, billed 6, 3 and 1 months apart from the
 *   effective date, each for the premium divided by that count;
 * - every other name, "Semi-Annual" included, keeps the single full-premium
 *   invoice (the source only reports the bad schedule).
 * Each invoice is due one month after its bill date and may be cancelled
 * fourteen days after that.
 *
 * Python 2 `/` on integers floors; with the positive divisors used here that
 * is Dafny's Euclidean `/`.
 */
module Schedule {
  import opened Results
  import opened Dates
  import opened Records

  /** BILLING_SCHEDULES: installments per schedule name; "Annual" maps to nothing. */
  const BillingSchedules: map<string, Option<int>> := map[
    "Annual" := None,
    "Semi-Annual" := Some(3),
    "Quarterly" := Some(4),
    "Monthly" := Some(12),
    "Two-Pay" := Some(2)
  ]

  /** The schedules for which `make_invoices` has a branch that splits the premium. */
  predicate IsSplitSchedule(schedule: string) {
    schedule == "Two-Pay" || schedule == "Quarterly" || schedule == "Monthly"
  }

  /** Number of invoices `make_invoices` creates for a schedule name. */
  function InstallmentCount(schedule: string): (n: int)
    ensures 1 <= n <= 12 && 12 % n == 0
    ensures IsSplitSchedule(schedule) ==> Some(n) == BillingSchedules[schedule]
  {
    if schedule == "Two-Pay" then 2
    else if schedule == "Quarterly" then 4
    else if schedule == "Monthly" then 12
    else 1
  }

  /** The month step the source writes in each branch (`i * 6`, `i * 3`, `i`). */
  function MonthsBetween(schedule: string): nat {
    if schedule == "Two-Pay" then 6
    else if schedule == "Quarterly" then 3
    else if schedule == "Monthly" then 1
    else 0
  }

  /** The amount of every installment. */
  function InstallmentAmount(p: Policy): int {
    if IsSplitSchedule(p.billingSchedule)
    then p.annualPremium / InstallmentCount(p.billingSchedule)
    else p.annualPremium
  }

  /** The month offset of installment `k` when installments are `step` months apart. */
  function Offset(k: nat, step: nat): nat {
    k * step
  }

  function BillDate(p: Policy, k: nat): Date {
    AddMonths(p.effectiveDate, Offset(k, MonthsBetween(p.billingSchedule)))
  }

  /** A live invoice billed on `bill`: due one month later and cancellable fourteen days after that. */
  function BilledInvoice(policyId: int, bill: Date, amount: int): Invoice {
    var due := AddMonths(bill, 1);
    Invoice(policyId, bill, due, AddDays(due, 14), amount, false)
  }

  /** Installment `k` (counting from 0) of policy `p`. */
  function Installment(p: Policy, k: nat): Invoice {
    BilledInvoice(p.id, BillDate(p, k), InstallmentAmount(p))
  }

  /** The invoices `make_invoices` persists for `p`, in creation order. */
  function ScheduledInvoices(p: Policy): seq<Invoice> {
    seq(InstallmentCount(p.billingSchedule), k requires 0 <= k => Installment(p, k))
  }

  /** Sum of the amounts due of a sequence of invoices. */
  function TotalDue(s: seq<Invoice>): int {
    if s == [] then 0 else TotalDue(s[..|s| - 1]) + s[|s| - 1].amountDue
  }

  // ---------------------------------------------------------------------------
  // Properties of the generated invoices

  /** One invoice for "Annual", 2, 4 and 12 for the split schedules, and one for any other name. */
  lemma InvoiceCount(p: Policy)
    ensures var s := p.billingSchedule;
      |ScheduledInvoices(p)|
      == if s == "Two-Pay" then 2
         else if s == "Quarterly" then 4
         else if s == "Monthly" then 12
         else 1
    ensures p.billingSchedule == "Semi-Annual" ==> |ScheduledInvoices(p)| == 1
  {
  }

  /**
   * Installments are spaced 12/N months apart, each computed from the
   * effective date rather than from the previous bill date; the first is
   * billed on the effective date.
   */
  lemma InstallmentSpacing(p: Policy, k: nat)
    requires k < |ScheduledInvoices(p)|
    ensures var step: nat := 12 / InstallmentCount(p.billingSchedule);
      ScheduledInvoices(p)[k].billDate == AddMonths(p.effectiveDate, Offset(k, step))
    ensures ScheduledInvoices(p)[0].billDate == p.effectiveDate
  {
    ScheduledInstallment(p, k);
    StepIsTwelfthOfYear(p.billingSchedule, k);
    ScheduledInstallment(p, 0);
    AddMonthsZero(p.effectiveDate);
  }

  lemma StepIsTwelfthOfYear(schedule: string, k: nat)
    requires k < InstallmentCount(schedule)
    ensures var step: nat := 12 / InstallmentCount(schedule);
      Offset(k, step) == Offset(k, MonthsBetween(schedule))
  {
    SplitScheduleCounts();
    if IsSplitSchedule(schedule) {
      assert 12 / InstallmentCount(schedule) == MonthsBetween(schedule);
    } else {
      assert k == 0;
    }
  }

  /** Installment `k` written out: billed `k` steps after the effective date. */
  lemma ScheduledInstallment(p: Policy, k: nat)
    requires k < |ScheduledInvoices(p)|
    ensures var bill := AddMonths(p.effectiveDate, Offset(k, MonthsBetween(p.billingSchedule)));
      ScheduledInvoices(p)[k]
      == BilledInvoice(p.id, bill, InstallmentAmount(p))
  {
    assert ScheduledInvoices(p)[k] == Installment(p, k);
  }

  /** The table entries the three split branches read. */
  lemma SplitScheduleCounts()
    ensures InstallmentCount("Two-Pay") == 2 && MonthsBetween("Two-Pay") == 6
    ensures InstallmentCount("Quarterly") == 4 && MonthsBetween("Quarterly") == 3
    ensures InstallmentCount("Monthly") == 12 && MonthsBetween("Monthly") == 1
  {
  }

  /** Every generated invoice belongs to the policy, is live, and has bill < due < cancel. */
  lemma InstallmentDates(p: Policy, k: nat)
    requires k < |ScheduledInvoices(p)|
    ensures var inv := ScheduledInvoices(p)[k];
      && inv.policyId == p.id
      && !inv.deleted
      && inv.dueDate == AddMonths(inv.billDate, 1)
      && inv.cancelDate == AddDays(inv.dueDate, 14)
      && Before(inv.billDate, inv.dueDate)
      && Before(inv.dueDate, inv.cancelDate)
      && Ordinal(inv.cancelDate) == Ordinal(inv.dueDate) + 14
  {
    var inv := ScheduledInvoices(p)[k];
    AddMonthsLater(inv.billDate, 1);
    AddDaysLater(inv.dueDate, 14);
    AddDaysOrdinal(inv.dueDate, 14);
  }

  /** Bill dates strictly increase along the generated sequence. */
  lemma BillDatesIncrease(p: Policy, i: nat, j: nat)
    requires i < j < |ScheduledInvoices(p)|
    ensures Before(ScheduledInvoices(p)[i].billDate, ScheduledInvoices(p)[j].billDate)
  {
    var step := MonthsBetween(p.billingSchedule);
    assert step > 0;
    assert Offset(i, step) < Offset(j, step);
    AddMonthsStrictlyIncreasing(p.effectiveDate, Offset(i, step), Offset(j, step));
  }

  /** Every installment is the annual premium divided by the installment count, truncated. */
  lemma InstallmentAmounts(p: Policy, k: nat)
    requires k < |ScheduledInvoices(p)|
    ensures ScheduledInvoices(p)[k].amountDue == p.annualPremium / InstallmentCount(p.billingSchedule)
  {
    assert ScheduledInvoices(p)[k] == Installment(p, k);
    if !IsSplitSchedule(p.billingSchedule) {
      assert InstallmentCount(p.billingSchedule) == 1;
      assert p.annualPremium / 1 == p.annualPremium;
    }
  }

  lemma {:induction false} TotalOfEqualAmounts(s: seq<Invoice>, a: int)
    requires forall k :: 0 <= k < |s| ==> s[k].amountDue == a
    ensures TotalDue(s) == |s| * a
  {
    if s != [] {
      TotalOfEqualAmounts(s[..|s| - 1], a);
    }
  }

  /**
   * The generated amounts add up to N * (premium div N): never more than the
   * premium, and equal to it exactly when N divides the premium.
   */
  lemma ScheduledTotal(p: Policy)
    ensures var n := InstallmentCount(p.billingSchedule);
      && TotalDue(ScheduledInvoices(p)) == n * (p.annualPremium / n)
      && TotalDue(ScheduledInvoices(p)) <= p.annualPremium
      && (TotalDue(ScheduledInvoices(p)) == p.annualPremium <==> p.annualPremium % n == 0)
  {
    var n := InstallmentCount(p.billingSchedule);
    var s := ScheduledInvoices(p);
    forall k | 0 <= k < |s|
      ensures s[k].amountDue == p.annualPremium / n
    {
      InstallmentAmounts(p, k);
    }
    TotalOfEqualAmounts(s, p.annualPremium / n);
    DivisionRemainder(p.annualPremium, n);
  }

  /** Floor division by one of the installment counts leaves a remainder in [0, n). */
  lemma DivisionRemainder(x: int, n: int)
    requires n == 1 || n == 2 || n == 4 || n == 12
    ensures x == n * (x / n) + x % n && 0 <= x % n < n
  {
  }
}
