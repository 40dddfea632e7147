# Policy billing engine

This project is a Dafny model of the billing engine `PolicyAccounting` (accounting/utils.py) of an insurance policy accounting system. It covers:

- the `BILLING_SCHEDULES` table;
- invoice generation (`make_invoices`), run at construction when a policy has no invoices;
- the account balance at a date cursor (`return_account_balance`);
- the two delinquency verdicts (`evaluate_cancellation_pending_due_to_non_pay`, `evaluate_cancel`);
- the gated payment operation (`make_payment`).

The record shapes come from accounting/models.py.

Modules, leaf first:

- `Results`: `Option` and `Result` datatypes. Exceptions become `Failure` values.
- `Dates`: proleptic Gregorian dates.
  - `AddMonths` is dateutil's `relativedelta(months=n)`: the month moves forward and the day is clamped to the end of the target month.
  - `AddDays` is `timedelta(days=n)`.
  - `Ordinal` is Python's `toordinal`, in the same closed form. It is the reference that both the day arithmetic and the date order are proved against.
- `Records`: policies, contacts, invoices and payments, their enumerations, and the engine's errors.
- `Schedule`: the schedule table and `ScheduledInvoices`, the invoice set that generation produces for a policy.
  - Python 2 `/` on integers floors. With the positive installment counts used here, that is Dafny's `/`.
- `Ledger`: the balance and the two verdicts, as functions of the invoice and payment tables, with lemmas about them.
- `Accounting`: the `Database` tables and the `PolicyAccounting` class.
  - The methods that only read (balance, pending, cancel) are loops proved equal to the `Ledger` functions.
  - The methods that write (construction, `MakeInvoices`, `MakePayment`) state the new tables in terms of the old ones.
  - `Database.Valid` keeps every policy and contact under its own id, so a lookup by key is the source's lookup by id (`filter_by(id=...)`). Every operation requires it and preserves it.
- `Scenarios`: the cases of accounting/tests.py, derived from the general lemmas. The full-payment test is also restated through the class, as a verified method.

The model follows the code as written:

- The balance and both verdicts ignore the invoices' `deleted` flag.
- A balance is outstanding when it is nonzero. A negative balance counts.
- Only "Two-Pay", "Quarterly" and "Monthly" split the premium. "Annual", "Semi-Annual" (which the table maps to 3) and every unknown name produce one invoice for the full premium. An unknown name is only reported.
- Installments are truncated (premium div N). Their total is N·(premium div N). This is at most the premium, and equals it exactly when N divides the premium; no remainder is reconciled.
- `make_invoices` deletes the policy's previous invoices outright. It does not tombstone them.
- The code has no schedule-switching operation and no cancellation operation. Opening a cancelled policy does not fail. None of these is modelled.

## Model

| member | source | states |
|---|---|---|
| Schedule.InstallmentCount | accounting/utils.py:17-23 | between 1 and 12 and a divisor of 12; for the split schedules it is the table's entry |
| Schedule.InvoiceCount | accounting/utils.py:163-227 | generation yields 2 invoices for Two-Pay, 4 for Quarterly, 12 for Monthly, and 1 for Annual, Semi-Annual and any other name |
| Schedule.InstallmentSpacing | accounting/utils.py:179-183 | installment k is billed k·(12/N) months after the effective date, computed from that date (not chained); the first is billed on the effective date |
| Schedule.InstallmentDates | accounting/utils.py:164-168 | every invoice belongs to the policy, is not deleted, is due one month after billing and cancellable 14 days (by ordinal) after the due date, so bill < due < cancel |
| Schedule.BillDatesIncrease | accounting/utils.py:197-201 | bill dates strictly increase along the generated invoices |
| Schedule.InstallmentAmounts | accounting/utils.py:176-178 | every installment equals the annual premium divided by N, truncated |
| Schedule.ScheduledTotal | accounting/utils.py:189-190 | the amounts total N·(premium div N) ≤ premium, equal to the premium iff N divides it |
| Dates.AddMonths | accounting/utils.py:167 | the day of the result never exceeds the original day and is either kept or clamped to the month's last day |
| Dates.AddMonthsStrictlyIncreasing | accounting/utils.py:215-216 | larger month offsets from one date give strictly later dates |
| Dates.AddDaysOrdinal | accounting/utils.py:168 | adding n days lands exactly n days later by the reference day count |
| Dates.OrdinalOrder | accounting/utils.py:49 | the year-month-day comparison the queries use agrees with the day count, for < and for <= |
| Dates.MonthsApart | accounting/utils.py:117-118 | dates two calendar months apart are more than 28 days apart |
| Ledger.WithoutPolicy | accounting/utils.py:160-161 | deleting a policy's invoices keeps exactly the other policies' invoices |
| Ledger.WithoutAbsentPolicy | accounting/utils.py:34-35 | when a policy has no invoices, deleting them changes nothing |
| Ledger.EmptyBalance | accounting/utils.py:46-66 | a policy with no invoice billed and no payment made by the cursor has balance 0 then, whatever rows other policies or later dates hold |
| Ledger.InvoicedByAppend | accounting/utils.py:53-55 | billed amounts add up over a split of the invoice table |
| Ledger.RegeneratedBalance | accounting/utils.py:156-231 | after regeneration a policy's balance comes from the new invoice set alone; other policies' balances are unchanged |
| Ledger.PaymentLowersBalance | accounting/utils.py:96-98 | a payment lowers its policy's balance by its amount from its transaction date on and changes no other balance |
| Ledger.InvoicedThroughInstallment | accounting/utils.py:46-55 | on the k-th bill date of a generated schedule exactly k+1 installments are billed |
| Ledger.NotPendingOnBillDates | accounting/utils.py:114-127 | with Two-Pay or Quarterly billing no invoice window contains a bill date, so pending non-pay is false there whatever was paid |
| Ledger.EarlierWindowClosed | accounting/utils.py:117-118 | with a step of 3 or 6 months an invoice's cancel date precedes every later bill date |
| Ledger.ShouldCancelPersists | accounting/utils.py:139-152 | once a policy should cancel, it still should at every later cursor |
| Accounting.Payer | accounting/utils.py:79-83 | a missing or zero contact id is replaced by the named insured; any other id is kept |
| Accounting.Open | accounting/utils.py:31-35 | an unknown policy id fails with PolicyNotFound and changes nothing; otherwise the policy with exactly that id is loaded and invoices generated iff it had none; the store stays keyed by id |
| Accounting.AddInstallments | accounting/utils.py:179-192 | installments 1..n-1 are billed step·i months after the effective date, due a month later, cancellable 14 days after that, each for premium div n |
| Accounting.PolicyAccounting.constructor | accounting/utils.py:31-35 | loads the policy whose id is the one requested; invoices are generated only when the policy has none, and nothing else changes |
| Accounting.PolicyAccounting.ReturnAccountBalance | accounting/utils.py:37-66 | returns the invoices billed by the cursor minus the payments made by it, for this policy only |
| Accounting.PolicyAccounting.MakePayment | accounting/utils.py:68-100 | unknown payer: ContactNotFound; non-agent while pending non-pay: PaymentNotAllowed; otherwise exactly one Payment(policy, payer, amount, cursor) is appended; invoices never change |
| Accounting.PolicyAccounting.EvaluateCancellationPendingDueToNonPay | accounting/utils.py:102-127 | true iff some invoice of the policy with due ≤ cursor ≤ cancel has a nonzero balance at its due date |
| Accounting.PolicyAccounting.EvaluateCancel | accounting/utils.py:129-154 | true ("should have canceled") iff some invoice of the policy with cancel ≤ cursor has a nonzero balance at its cancel date |
| Accounting.PolicyAccounting.MakeInvoices | accounting/utils.py:156-231 | the invoice table becomes the other policies' invoices followed by the scheduled set; payments, contacts and policies are unchanged |
| Scenarios.AnnualSchedule | accounting/tests.py:47-56 | Annual with premium 1200: one invoice of 1200, balance 1200 on the effective date |
| Scenarios.QuarterlySchedule | accounting/tests.py:98-123 | Quarterly with premium 1200: four invoices, balance 300 on the effective date and 1200 on the fourth bill date |
| Scenarios.MonthlySchedule | accounting/tests.py:105-110 | Monthly with premium 1200: balance 100 on the effective date |
| Scenarios.QuarterlyPaidInFull | accounting/tests.py:125-143 | 600 paid on the second quarterly bill date leaves a balance of 0 that day |
| Scenarios.QuarterlyBillDates2015 | accounting/tests.py:26 | from 2015-01-01 the quarterly bill dates are 2015-04-01, 2015-07-01 and 2015-10-01 |
| Scenarios.MonthlyFromEndOfMonth | accounting/utils.py:216 | monthly billing from 2015-01-31 bills 2015-02-28 then 2015-03-31 (clamped per offset, not chained to 2015-03-28) |
| Scenarios.QuarterlyFullPayment | accounting/tests.py:125-143 | through the class, with the named insured passed as the contact as the test does: the payment of 600 on the second bill date is accepted and the balance that day is 0 |

## Left out

- Database mechanics are not modelled: sessions, queries, `commit`, and the row ids the database assigns to invoices and payments. The tables are fields of `Database`. Each operation is one atomic update.
- The `datetime.now()` default of every date cursor is not modelled. The cursor is always a parameter.
- The `amount=0` default of `make_payment` is not modelled. The amount is always a parameter, and passing 0 gives the same payment.
- Printed messages are not modelled. `evaluate_cancel`'s verdict is returned as a bool. The "bad billing schedule" message of `make_invoices` is dropped; only its effect on the invoices is kept.
- `evaluate_cancellation_pending_due_to_non_pay` returns `True` or `None` in the source. Here it returns true or false.
- The queries' `ORDER BY bill_date` is not modelled. Scans run in table order. Both verdicts are existential, so the order decides only which invoice is found first, not the result.
- Dates have no upper year bound. Python's `OverflowError` past year 9999 is not modelled.
- Exceptions become `Error` values. `make_payment`'s bare `except` around the named-insured default has no counterpart. Reading the attribute can fail only inside the database session (for example, when a stale row is reloaded after being deleted), and the session mechanics are left out.
- The ORM relationship `policy.invoices` is read once, at construction, as "some invoice row has this policy id". Later changes to the policy row by other code are not modelled: `PolicyAccounting.policy` is the value loaded at construction.
- `build_or_refresh_db` and `insert_data` (database seeding) are left out. The Flask application, its views and the interactive shell are left out too: accounting/__init__.py, accounting/views.py and shell.py are not part of this model.
