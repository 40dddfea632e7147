/**
 * What the engine's read-only queries compute, as functions of the invoice
 * and payment tables (accounting/utils.py, `return_account_balance`,
 * `evaluate_cancellation_pending_due_to_non_pay`, `evaluate_cancel`).
 *
 * As in the source, the `deleted` flag of an invoice is not consulted, and a
 * balance counts as outstanding whenever it is nonzero, negative included.
 */
module Ledger {
  import opened Dates
  import opened Records
  import opened Schedule

  /** Sum of amount_due over the invoices of `policyId` billed on or before `cursor`. */
  function InvoicedBy(invoices: seq<Invoice>, policyId: int, cursor: Date): int {
    if invoices == [] then 0
    else
      var last := invoices[|invoices| - 1];
      InvoicedBy(invoices[..|invoices| - 1], policyId, cursor)
      + (if last.policyId == policyId && OnOrBefore(last.billDate, cursor) then last.amountDue else 0)
  }

  /** Sum of amount_paid over the payments of `policyId` made on or before `cursor`. */
  function PaidBy(payments: seq<Payment>, policyId: int, cursor: Date): int {
    if payments == [] then 0
    else
      var last := payments[|payments| - 1];
      PaidBy(payments[..|payments| - 1], policyId, cursor)
      + (if last.policyId == policyId && OnOrBefore(last.transactionDate, cursor) then last.amountPaid else 0)
  }

  /** The account balance of a policy at a date. */
  function Balance(invoices: seq<Invoice>, payments: seq<Payment>, policyId: int, cursor: Date): int {
    InvoicedBy(invoices, policyId, cursor) - PaidBy(payments, policyId, cursor)
  }

  /** The invoice belongs to the policy and `cursor` lies in its window [due_date, cancel_date]. */
  predicate InNonPayWindow(inv: Invoice, policyId: int, cursor: Date) {
    inv.policyId == policyId && OnOrBefore(inv.dueDate, cursor) && OnOrBefore(cursor, inv.cancelDate)
  }

  /** The invoice belongs to the policy and its cancel_date is on or before `cursor`. */
  predicate PastCancelDate(inv: Invoice, policyId: int, cursor: Date) {
    inv.policyId == policyId && OnOrBefore(inv.cancelDate, cursor)
  }

  /**
   * Cancellation is pending for non-payment: some invoice of the policy whose
   * window contains `cursor` leaves a nonzero balance at its own due date.
   */
  predicate PendingNonPay(invoices: seq<Invoice>, payments: seq<Payment>, policyId: int, cursor: Date) {
    exists i :: 0 <= i < |invoices|
      && InNonPayWindow(invoices[i], policyId, cursor)
      && Balance(invoices, payments, policyId, invoices[i].dueDate) != 0
  }

  /**
   * The policy should have been cancelled: some invoice of the policy whose
   * cancel date has passed leaves a nonzero balance at that cancel date.
   */
  predicate ShouldCancel(invoices: seq<Invoice>, payments: seq<Payment>, policyId: int, cursor: Date) {
    exists i :: 0 <= i < |invoices|
      && PastCancelDate(invoices[i], policyId, cursor)
      && Balance(invoices, payments, policyId, invoices[i].cancelDate) != 0
  }

  /** The invoice table once every invoice of `policyId` has been deleted. */
  function WithoutPolicy(invoices: seq<Invoice>, policyId: int): (r: seq<Invoice>)
    ensures forall inv :: inv in r <==> inv in invoices && inv.policyId != policyId
    ensures |r| <= |invoices|
  {
    if invoices == [] then []
    else
      var last := invoices[|invoices| - 1];
      WithoutPolicy(invoices[..|invoices| - 1], policyId)
      + (if last.policyId != policyId then [last] else [])
  }

  /** True when some invoice of the table belongs to the policy (`policy.invoices` is not empty). */
  predicate HasInvoices(invoices: seq<Invoice>, policyId: int) {
    exists i :: 0 <= i < |invoices| && invoices[i].policyId == policyId
  }

  // ---------------------------------------------------------------------------
  // Lemmas

  /** Billed amounts add up over a split of the invoice table. */
  lemma {:induction false} InvoicedByAppend(a: seq<Invoice>, b: seq<Invoice>, policyId: int, cursor: Date)
    ensures InvoicedBy(a + b, policyId, cursor) == InvoicedBy(a, policyId, cursor) + InvoicedBy(b, policyId, cursor)
    decreases |b|
  {
    if b == [] {
      assert a + b == a;
    } else {
      assert (a + b)[..|a + b| - 1] == a + b[..|b| - 1];
      InvoicedByAppend(a, b[..|b| - 1], policyId, cursor);
    }
  }

  /**
   * A policy with no invoice billed and no payment made by `cursor` has a zero
   * balance then, whatever the tables hold for other policies or later dates.
   */
  lemma EmptyBalance(invoices: seq<Invoice>, payments: seq<Payment>, policyId: int, cursor: Date)
    requires forall i :: 0 <= i < |invoices| && invoices[i].policyId == policyId ==>
      !OnOrBefore(invoices[i].billDate, cursor)
    requires forall i :: 0 <= i < |payments| && payments[i].policyId == policyId ==>
      !OnOrBefore(payments[i].transactionDate, cursor)
    ensures Balance(invoices, payments, policyId, cursor) == 0
  {
    NothingBilledYet(invoices, policyId, cursor);
    NothingPaidYet(payments, policyId, cursor);
  }

  lemma {:induction false} NothingBilledYet(invoices: seq<Invoice>, policyId: int, cursor: Date)
    requires forall i :: 0 <= i < |invoices| && invoices[i].policyId == policyId ==>
      !OnOrBefore(invoices[i].billDate, cursor)
    ensures InvoicedBy(invoices, policyId, cursor) == 0
    decreases |invoices|
  {
    if invoices != [] {
      NothingBilledYet(invoices[..|invoices| - 1], policyId, cursor);
    }
  }

  lemma {:induction false} NothingPaidYet(payments: seq<Payment>, policyId: int, cursor: Date)
    requires forall i :: 0 <= i < |payments| && payments[i].policyId == policyId ==>
      !OnOrBefore(payments[i].transactionDate, cursor)
    ensures PaidBy(payments, policyId, cursor) == 0
    decreases |payments|
  {
    if payments != [] {
      NothingPaidYet(payments[..|payments| - 1], policyId, cursor);
    }
  }

  /** Once a policy's invoices are deleted, none of them is billed to it. */
  lemma {:induction false} NothingBilledWithoutPolicy(invoices: seq<Invoice>, policyId: int, cursor: Date)
    ensures InvoicedBy(WithoutPolicy(invoices, policyId), policyId, cursor) == 0
    decreases |invoices|
  {
    if invoices != [] {
      var init := invoices[..|invoices| - 1];
      var last := invoices[|invoices| - 1];
      NothingBilledWithoutPolicy(init, policyId, cursor);
      InvoicedByAppend(WithoutPolicy(init, policyId), if last.policyId != policyId then [last] else [], policyId, cursor);
    }
  }

  /** Deleting one policy's invoices leaves what is billed to every other policy unchanged. */
  lemma {:induction false} OtherPoliciesUnaffected(invoices: seq<Invoice>, policyId: int, other: int, cursor: Date)
    requires other != policyId
    ensures InvoicedBy(WithoutPolicy(invoices, policyId), other, cursor) == InvoicedBy(invoices, other, cursor)
    decreases |invoices|
  {
    if invoices != [] {
      var init := invoices[..|invoices| - 1];
      var last := invoices[|invoices| - 1];
      OtherPoliciesUnaffected(init, policyId, other, cursor);
      InvoicedByAppend(WithoutPolicy(init, policyId), if last.policyId != policyId then [last] else [], other, cursor);
    }
  }

  /** A table without invoices of the policy is left as it is by deleting them. */
  lemma {:induction false} WithoutAbsentPolicy(invoices: seq<Invoice>, policyId: int)
    requires !HasInvoices(invoices, policyId)
    ensures WithoutPolicy(invoices, policyId) == invoices
    decreases |invoices|
  {
    if invoices != [] {
      var init := invoices[..|invoices| - 1];
      assert !HasInvoices(init, policyId) by {
        forall i | 0 <= i < |init| ensures init[i].policyId != policyId {
          assert init[i] == invoices[i];
        }
      }
      WithoutAbsentPolicy(init, policyId);
      assert invoices == init + [invoices[|invoices| - 1]];
    }
  }

  /**
   * Regenerating the invoices of `p` (delete, then add the scheduled set):
   * the policy's balance is computed from the new set alone, and every other
   * policy's balance is unchanged.
   */
  lemma RegeneratedBalance(invoices: seq<Invoice>, payments: seq<Payment>, p: Policy, other: int, cursor: Date)
    ensures Balance(WithoutPolicy(invoices, p.id) + ScheduledInvoices(p), payments, p.id, cursor)
         == Balance(ScheduledInvoices(p), payments, p.id, cursor)
    ensures other != p.id ==>
      Balance(WithoutPolicy(invoices, p.id) + ScheduledInvoices(p), payments, other, cursor)
      == Balance(invoices, payments, other, cursor)
  {
    var kept, scheduled := WithoutPolicy(invoices, p.id), ScheduledInvoices(p);
    InvoicedByAppend(kept, scheduled, p.id, cursor);
    NothingBilledWithoutPolicy(invoices, p.id, cursor);
    if other != p.id {
      OtherPolicyAfterRegeneration(invoices, p, other, cursor);
    }
  }

  lemma OtherPolicyAfterRegeneration(invoices: seq<Invoice>, p: Policy, other: int, cursor: Date)
    requires other != p.id
    ensures InvoicedBy(WithoutPolicy(invoices, p.id) + ScheduledInvoices(p), other, cursor)
         == InvoicedBy(invoices, other, cursor)
  {
    var kept, scheduled := WithoutPolicy(invoices, p.id), ScheduledInvoices(p);
    InvoicedByAppend(kept, scheduled, other, cursor);
    OtherPoliciesUnaffected(invoices, p.id, other, cursor);
    forall i | 0 <= i < |scheduled|
      ensures scheduled[i].policyId == p.id
    {
      assert scheduled[i] == Installment(p, i);
    }
    NotBilledToOthers(scheduled, p.id, other, cursor);
  }

  lemma {:induction false} NotBilledToOthers(invoices: seq<Invoice>, policyId: int, other: int, cursor: Date)
    requires other != policyId
    requires forall i :: 0 <= i < |invoices| ==> invoices[i].policyId == policyId
    ensures InvoicedBy(invoices, other, cursor) == 0
    decreases |invoices|
  {
    if invoices != [] {
      NotBilledToOthers(invoices[..|invoices| - 1], policyId, other, cursor);
    }
  }

  /**
   * A payment of `amount` made at `cursor` lowers the policy's balance by
   * `amount` from that date on, and changes no earlier balance and no balance
   * of another policy.
   */
  lemma PaymentLowersBalance(invoices: seq<Invoice>, payments: seq<Payment>, pay: Payment, policyId: int, at: Date)
    ensures pay.policyId == policyId && OnOrBefore(pay.transactionDate, at) ==>
      Balance(invoices, payments + [pay], policyId, at) == Balance(invoices, payments, policyId, at) - pay.amountPaid
    ensures pay.policyId != policyId || Before(at, pay.transactionDate) ==>
      Balance(invoices, payments + [pay], policyId, at) == Balance(invoices, payments, policyId, at)
  {
    assert (payments + [pay])[..|payments|] == payments;
  }

  /**
   * Billed amounts when the first `m` invoices of a policy-only table are
   * billed by `cursor` and the rest are not, all for the same amount.
   */
  lemma {:induction false} InvoicedPrefix(invoices: seq<Invoice>, policyId: int, cursor: Date, m: nat, a: int)
    requires m <= |invoices|
    requires forall i :: 0 <= i < |invoices| ==> invoices[i].policyId == policyId && invoices[i].amountDue == a
    requires forall i :: 0 <= i < m ==> OnOrBefore(invoices[i].billDate, cursor)
    requires forall i :: m <= i < |invoices| ==> !OnOrBefore(invoices[i].billDate, cursor)
    ensures InvoicedBy(invoices, policyId, cursor) == m * a
    decreases |invoices|
  {
    if invoices != [] {
      var init := invoices[..|invoices| - 1];
      if m == |invoices| {
        InvoicedPrefix(init, policyId, cursor, m - 1, a);
        assert (m - 1) * a + a == m * a;
      } else {
        InvoicedPrefix(init, policyId, cursor, m, a);
      }
    }
  }

  /** Installment `i` is the policy's, for the installment amount, and billed by the `k`-th bill date iff `i <= k`. */
  lemma InstallmentBilledBy(p: Policy, k: nat, i: nat)
    requires k < |ScheduledInvoices(p)| && i < |ScheduledInvoices(p)|
    ensures var s := ScheduledInvoices(p);
      && s[i].policyId == p.id && s[i].amountDue == InstallmentAmount(p)
      && (OnOrBefore(s[i].billDate, s[k].billDate) <==> i <= k)
  {
    var s := ScheduledInvoices(p);
    assert s[i] == Installment(p, i);
    if i < k {
      BillDatesIncrease(p, i, k);
    } else if k < i {
      BillDatesIncrease(p, k, i);
      BeforeExcludes(s[k].billDate, s[i].billDate);
    }
  }

  /**
   * On the bill date of installment `k`, exactly the first `k + 1`
   * installments of a freshly generated schedule are billed.
   */
  lemma InvoicedThroughInstallment(p: Policy, k: nat)
    requires k < |ScheduledInvoices(p)|
    ensures InvoicedBy(ScheduledInvoices(p), p.id, ScheduledInvoices(p)[k].billDate)
         == (k + 1) * InstallmentAmount(p)
  {
    var s := ScheduledInvoices(p);
    var cursor := s[k].billDate;
    forall i | 0 <= i < |s|
      ensures s[i].policyId == p.id && s[i].amountDue == InstallmentAmount(p)
      ensures i <= k ==> OnOrBefore(s[i].billDate, cursor)
      ensures k < i ==> !OnOrBefore(s[i].billDate, cursor)
    {
      InstallmentBilledBy(p, k, i);
    }
    InvoicedPrefix(s, p.id, cursor, k + 1, InstallmentAmount(p));
  }

  /**
   * With Two-Pay or Quarterly billing, no invoice's non-payment window
   * contains a bill date: earlier invoices may be cancelled before it (their
   * window closes 14 days after a due date at least two months earlier) and
   * later invoices are not yet due. So on its bill dates such a policy is
   * never pending cancellation for non-payment, whatever has been paid.
   */
  lemma NotPendingOnBillDates(p: Policy, payments: seq<Payment>, k: nat)
    requires p.billingSchedule == "Two-Pay" || p.billingSchedule == "Quarterly"
    requires k < |ScheduledInvoices(p)|
    ensures !PendingNonPay(ScheduledInvoices(p), payments, p.id, ScheduledInvoices(p)[k].billDate)
  {
    var s := ScheduledInvoices(p);
    forall j | 0 <= j < |s|
      ensures !InNonPayWindow(s[j], p.id, s[k].billDate)
    {
      OutsideNonPayWindow(p, j, k);
    }
  }

  /** The `k`-th bill date lies outside the non-payment window of invoice `j`. */
  lemma OutsideNonPayWindow(p: Policy, j: nat, k: nat)
    requires p.billingSchedule == "Two-Pay" || p.billingSchedule == "Quarterly"
    requires j < |ScheduledInvoices(p)| && k < |ScheduledInvoices(p)|
    ensures !InNonPayWindow(ScheduledInvoices(p)[j], p.id, ScheduledInvoices(p)[k].billDate)
  {
    var s := ScheduledInvoices(p);
    var cursor := s[k].billDate;
    if j < k {
      EarlierWindowClosed(p, j, k);
      BeforeExcludes(s[j].cancelDate, cursor);
    } else {
      InstallmentDates(p, j);
      if k < j {
        BillDatesIncrease(p, k, j);
        BeforeTransitive(cursor, s[j].billDate, s[j].dueDate);
      }
      BeforeExcludes(cursor, s[j].dueDate);
    }
  }

  /** With a step of at least two months, an invoice's window closes before any later bill date. */
  lemma EarlierWindowClosed(p: Policy, j: nat, k: nat)
    requires p.billingSchedule == "Two-Pay" || p.billingSchedule == "Quarterly"
    requires j < k < |ScheduledInvoices(p)|
    ensures Before(ScheduledInvoices(p)[j].cancelDate, ScheduledInvoices(p)[k].billDate)
  {
    var s := ScheduledInvoices(p);
    var step := MonthsBetween(p.billingSchedule);
    assert step == 6 || step == 3;
    assert Offset(k, step) >= Offset(j, step) + 3 by {
      if step == 6 {
        assert k * 6 >= j * 6 + 6;
      } else {
        assert k * 3 >= j * 3 + 3;
      }
    }
    assert s[j] == Installment(p, j) && s[k] == Installment(p, k);
    AddMonthsIndex(p.effectiveDate, Offset(j, step));
    AddMonthsIndex(p.effectiveDate, Offset(k, step));
    AddMonthsIndex(s[j].billDate, 1);
    MonthsApart(s[j].dueDate, s[k].billDate);
    AddDaysOrdinal(s[j].dueDate, 14);
    OrdinalOrder(s[j].cancelDate, s[k].billDate);
  }

  /** Once a policy should cancel, it still should at every later date (with the same tables). */
  lemma ShouldCancelPersists(invoices: seq<Invoice>, payments: seq<Payment>, policyId: int, c1: Date, c2: Date)
    requires ShouldCancel(invoices, payments, policyId, c1)
    requires OnOrBefore(c1, c2)
    ensures ShouldCancel(invoices, payments, policyId, c2)
  {
    var i :| 0 <= i < |invoices|
      && PastCancelDate(invoices[i], policyId, c1)
      && Balance(invoices, payments, policyId, invoices[i].cancelDate) != 0;
    OnOrBeforeTransitive(invoices[i].cancelDate, c1, c2);
  }
}
