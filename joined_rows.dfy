/**
 * One row of the document builder's input: an InvoiceLines row joined with
 * its Invoices and Products rows and, when they exist, its customer's
 * Countries row. The query itself is not modelled; the builder receives
 * the joined rows as a sequence.
 */
module JoinedRows {
  import opened Wrappers

  datatype JoinedRow = JoinedRow(
    lineId: int,
    invoiceNo: string,
    stockCode: string,
    quantity: int,
    unitPrice: real,
    invoiceDate: Option<string>,
    customerId: Option<int>,
    invoiceCancelled: int,
    description: string,
    countryName: Option<string>)

  /** The grouping key of the transaction-centric documents. */
  function InvoiceKey(r: JoinedRow): string { r.invoiceNo }

  /** `row['Quantity'] * row['UnitPrice']`, the amount of one line. */
  function Amount(r: JoinedRow): real
  {
    r.quantity as real * r.unitPrice
  }

  /** `bool(row['InvoiceCancelled'])`. */
  function IsCancelled(r: JoinedRow): bool { r.invoiceCancelled != 0 }
}
