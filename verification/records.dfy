/**
 * The record shapes of the accounting database (`accounting/models.py`):
 * policies, contacts, invoices and payments, with their enumerations.
 * Amounts are the INTEGER columns of the schema, so they are `int`.
 * Row identifiers that the database assigns to invoices and payments are not
 * used by any logic and are not part of these values.
 */
module Records {
  import opened Results
  import opened Dates

  datatype PolicyStatus = Active | Canceled | Expired

  datatype Role = NamedInsured | Agent

  datatype Contact = Contact(id: int, name: string, role: Role)

  datatype Policy = Policy(
    id: int,
    policyNumber: string,
    effectiveDate: Date,
    status: PolicyStatus,
    /** The schedule name as stored; names outside the billing table are possible. */
    billingSchedule: string,
    annualPremium: int,
    namedInsured: Option<int>,
    agent: Option<int>)

  datatype Invoice = Invoice(
    policyId: int,
    billDate: Date,
    dueDate: Date,
    cancelDate: Date,
    amountDue: int,
    deleted: bool)

  datatype Payment = Payment(
    policyId: int,
    contactId: int,
    amountPaid: int,
    transactionDate: Date)

  /** The exceptions the engine raises, as values. */
  datatype Error =
    | PolicyNotFound     // `.one()` on the policy query finds no row
    | ContactNotFound    // `.one()` on the contact query finds no row
    | PaymentNotAllowed  // non-agent payment while cancellation is pending for non-payment
}
