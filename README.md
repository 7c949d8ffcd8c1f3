# Online Retail ETL core in Dafny

This project models the two data-moving steps of the Online Retail assignment
pipeline and proves what they promise.

* **Relational load** (`q1.py`). Spreadsheet rows are coerced with `safe_int`
  and `safe_float`. Then:
  - the sale-line fields are derived: trimming, the "nan"/blank country rule,
    the cancelled flag and the line total;
  - the records are written with `INSERT OR IGNORE` into the keyed tables
    Countries, Customers, Products and Invoices;
  - each row is added with a plain `INSERT` into InvoiceLines;
  - the loop stops after `MAX_ROWS` rows, or raises at a row whose
    CustomerID or Quantity does not fit SQLite's 64-bit INTEGER.

  Cells are the datatype `Cell = Missing | IntVal | RealVal | Text`. Each
  table is a map from its primary key to the rest of its record,
  InvoiceLines is a sequence, and the AUTOINCREMENT counter of Countries is
  kept beside its table.
* **Document builder** (`q4.py`). The joined sale-line rows are folded into
  two dictionaries of documents:
  - the transaction-centric one, keyed by invoice number, with line items
    and a running total;
  - the customer-centric one, keyed by customer id, with per-invoice
    transactions found by linear search, items and two running totals.

  Both loops are methods over the rows that update local maps. Python's
  dictionary insertion order is returned as a separate key sequence.

Each loop is proved against a declarative group-by specification in module
`Seqs`, in which every definition builds on the last element of its input:
* `KeysOf` and `FirstSeen` are the keys and their first-occurrence order;
* `Select` is the rows bearing a key, in input order;
* `SumReal`, `SumInt` and `GroupSums` are the sums.

Each document equals the function of its group of rows, for example
`TxDocOf(Select(data, InvoiceKey, inv))`. The properties are lemmas about
those functions:
* the header comes from the group's first row;
* the line items are exactly the group's rows, in order;
* the totals are the sums of the item totals;
* invoice numbers are unique within a customer;
* rows without a customer are skipped;
* the loaded tables satisfy the schema's foreign keys.

Modules:
* `Wrappers`: the `Option` type.
* `Seqs`: the group-by specification.
* `PyText`: `str.strip`, `str.lower`, `int(text)`, `float(text)`, and `str()`
  of ints and floats.
* `Coercion`: cells, `safe_int` and `safe_float`.
* `RelationalLoad`: `q1.py`.
* `JoinedRows`, `TransactionCentric` and `CustomerCentric`: `q4.py`.

`int(text)` and `float(text)` skip less white space than `strip()`: the
separators U+001C to U+001F count as white space for `strip()` but not
for the number parsers, so a number behind one reads as the default.

A missing Description is written to Products as the text "nan", because the
code stores `str(desc)` of the NaN cell; it is not stored as absent. The
Description is not trimmed, unlike InvoiceNo and StockCode.

## Model

| member | source | states |
|---|---|---|
| Coercion.SafeInt | assignment/Assignment-4/src/q1.py:10-18 | with a default given, `safe_int` always yields an integer |
| Coercion.SafeIntTruncatesSafeFloat | assignment/Assignment-4/src/q1.py:10-25 | `safe_int` and `safe_float` fall back on their defaults for exactly the same cells: missing, or text that `float()` rejects; on every other cell `safe_int` is `safe_float` rounded toward zero, so the `int(float(x))` fallback always agrees with `int(x)` |
| Coercion.TextTruncation | assignment/Assignment-4/src/q1.py:12-18 | on a text cell, `safe_int` gives its default exactly when `float()` rejects the text, and otherwise gives the truncation of `safe_float`'s value |
| Coercion.QuantityCoercion | assignment/Assignment-4/src/q1.py:97 | the Quantity is always an integer: 0 for a missing or unreadable cell, otherwise the float value with its fraction dropped toward zero |
| Coercion.SafeIntReadsIntText | assignment/Assignment-4/src/q1.py:13 | an integer written as text by `str()` is read back unchanged by `safe_int` |
| Coercion.SeparatorFallsBack | assignment/Assignment-4/src/q1.py:10-25 | a number preceded by the separator U+001C, which `int()` and `float()` do not skip, makes both helpers return their default |
| PyText.SeparatorIsNotNumberSpace | assignment/Assignment-4/src/q1.py:13-16 | `strip()` removes a leading U+001C but `int()` and `float()` do not, so both reject the text "\x1c5" |
| PyText.IntTextRoundTrip | assignment/Assignment-4/src/q1.py:13 | `int(str(n)) == n` for every integer `n` |
| PyText.IntTextIsFloatText | assignment/Assignment-4/src/q1.py:13-16 | any text that `int()` accepts, `float()` also accepts, with the same value |
| PyText.Truncate | assignment/Assignment-4/src/q1.py:16 | `int()` of a float is the integer between 0 and the value that lies less than 1 from it |
| PyText.StripMeaning | assignment/Assignment-4/src/q1.py:94-95 | `strip()` removes a run of leading and a run of trailing white space and leaves a result with no white space at either end |
| PyText.StripLeadingSpaces | assignment/Assignment-4/src/q1.py:102 | everything removed before the stripped text is white space |
| PyText.StripTrailingSpaces | assignment/Assignment-4/src/q1.py:102 | everything removed after the stripped text is white space |
| PyText.LowerChars | assignment/Assignment-4/src/q1.py:105 | `lower()` maps each character to its lower-case form and keeps the length |
| PyText.FloatToString | assignment/Assignment-4/src/q1.py:102 | `str()` of a float contains a '.', starts with a sign or a digit, and ends with a digit |
| RelationalLoad.LowerIsNan | assignment/Assignment-4/src/q1.py:105 | `t.lower() == "nan"` holds exactly for the eight upper/lower-case spellings of "nan" |
| RelationalLoad.CountryAbsence | assignment/Assignment-4/src/q1.py:102-106 | the country is None exactly when the cell is missing, or is text whose stripped form is empty or spells "nan"; a number never becomes None; a present country is non-empty and trimmed |
| RelationalLoad.CancelledFromFirstRow | assignment/Assignment-4/src/q1.py:124-127 | an Invoices record is the one its invoice's first row writes (date, customer and flag), and the stored InvoiceCancelled is 0 or 1, and 1 exactly when that first row's trimmed number starts with 'C' or its quantity is negative; so a later line with a negative quantity never cancels a stored invoice |
| RelationalLoad.Normalize | assignment/Assignment-4/src/q1.py:94-130 | one row's derived values: the quantity truncates `safe_float` of the cell, the price is `safe_float` with default 0.0, the customer id is `safe_int` with no default, the cancelled flag follows the trimmed invoice number and the quantity, and the line total is quantity times price |
| RelationalLoad.NormalizedAt | assignment/Assignment-4/src/q1.py:90-130 | the k-th derived sale line is the derivation of the k-th spreadsheet row |
| RelationalLoad.InsertOrIgnoreKeeps | assignment/Assignment-4/src/q1.py:116-127 | `INSERT OR IGNORE` leaves the key present, never changes a record already in the table, and gives a new key the inserted values |
| RelationalLoad.FirstWinsInsert | assignment/Assignment-4/src/q1.py:121-127 | if a keyed table holds the first row's record for each key seen so far, inserting one more row with `INSERT OR IGNORE` keeps that so |
| RelationalLoad.NumberedInsert | assignment/Assignment-4/src/q1.py:107-111 | every row that names a country draws the next AUTOINCREMENT value, even when the insert is then ignored; each country keeps the id one past the position, among those rows, of the first row naming it |
| RelationalLoad.CustomersInsert | assignment/Assignment-4/src/q1.py:107-118 | inserting a customer keeps every customer recorded with the CountryID of its first row's country, and that country has a Countries record |
| RelationalLoad.CountryIdsAreAutoincrement | assignment/Assignment-4/src/q1.py:52-55 | after a load, every CountryID lies between 1 and the AUTOINCREMENT counter, different countries have different ids, and the ids increase in the order in which countries first occur |
| RelationalLoad.IgnoredCountryUsesAnId | assignment/Assignment-4/src/q1.py:107-111 | ignored inserts leave gaps: after rows naming UK, UK and France, France has CountryID 3 |
| RelationalLoad.LinesReferenceTables | assignment/Assignment-4/src/q1.py:76-85 | after a load, every InvoiceLines row refers to an existing Invoices row and an existing Products row |
| RelationalLoad.InvoicesReferenceCustomers | assignment/Assignment-4/src/q1.py:68-74 | after a load, every invoice with a CustomerID refers to an existing Customers row |
| RelationalLoad.CustomersReferenceCountries | assignment/Assignment-4/src/q1.py:57-61 | after a load, every customer's CountryID, when present, is the id of a Countries row |
| RelationalLoad.CountriesAfter | assignment/Assignment-4/src/q1.py:104-113 | writing a row never renumbers or removes a country, and a row's present country has a record afterwards |
| RelationalLoad.WriteRow | assignment/Assignment-4/src/q1.py:129-133 | writing a row appends exactly one InvoiceLines row and keeps the earlier ones |
| RelationalLoad.WriteRowLoads | assignment/Assignment-4/src/q1.py:104-133 | if the tables reflect the rows so far, they still do after one more row is written: each country's id and the counter follow the AUTOINCREMENT rule; Customers, Products and Invoices store each key's first row; there is one line per row, in order |
| RelationalLoad.StoreRow | assignment/Assignment-4/src/q1.py:104-133 | the loop body's successive statements produce exactly the tables the row's writes describe, with the counter advanced before the Countries insert |
| RelationalLoad.Load | assignment/Assignment-4/src/q1.py:89-135 | the loop raises exactly when one of the rows it reaches (the first `MAX_ROWS`) has a CustomerID or Quantity outside SQLite's 64-bit INTEGER, and then at the first such row, with nothing committed; otherwise `inserted` is the smaller of the row count and `MAX_ROWS`, InvoiceLines holds exactly `inserted` rows, and all tables reflect exactly the first `inserted` rows |
| TransactionCentric.LineItems | assignment/Assignment-4/src/q4.py:79-88 | one line item per row |
| TransactionCentric.LineItemsAt | assignment/Assignment-4/src/q4.py:79-88 | the k-th line item is built from the k-th row |
| TransactionCentric.LineTotalsAreProducts | assignment/Assignment-4/src/q4.py:85 | every line item's `line_total` is its quantity times its unit price |
| TransactionCentric.TotalIsSumOfLineTotals | assignment/Assignment-4/src/q4.py:85-89 | an invoice document's `total_amount` is the sum of its line items' `line_total` |
| TransactionCentric.HeaderFromFirstRow | assignment/Assignment-4/src/q4.py:68-77 | a document's number, date, customer, country and cancelled flag are those of the first row bearing that invoice |
| TransactionCentric.LaterRowsKeepHeader | assignment/Assignment-4/src/q4.py:68-89 | further rows never change a document's header, and only extend its line items |
| TransactionCentric.EveryRowListed | assignment/Assignment-4/src/q4.py:79-88 | every row, with or without a customer, appears as a line item of its invoice's document |
| TransactionCentric.TxDocAppend | assignment/Assignment-4/src/q4.py:88-89 | one more row appends its line item and adds its amount to the total |
| TransactionCentric.GroupedStep | assignment/Assignment-4/src/q4.py:65-89 | one iteration keeps every document equal to the document of its invoice's rows so far |
| TransactionCentric.AddLine | assignment/Assignment-4/src/q4.py:66-89 | the loop body: a new invoice gets a fresh document and enters the key order; then the row's line item and amount are added to its invoice's document, and nothing else changes |
| TransactionCentric.BuildTransactions | assignment/Assignment-4/src/q4.py:63-89 | one document per distinct invoice number, in order of first occurrence, each equal to the document of exactly the rows bearing that number |
| TransactionCentric.OneDocumentPerInvoice | assignment/Assignment-4/src/q4.py:68-77 | the documents are as many as the distinct invoice numbers, listed without repetition |
| TransactionCentric.GrandTotal | assignment/Assignment-4/src/q4.py:63-89 | the documents' totals add up to the sum of quantity times unit price over all rows |
| TransactionCentric.DocsAsGroups | assignment/Assignment-4/src/q4.py:85-89 | the sum of totals over any listed invoices is the sum of their groups' amounts |
| Seqs.FirstSeenOrder | assignment/Assignment-4/src/q4.py:68-69 | keys are listed in the order of their first occurrence |
| Seqs.GroupingPreservesSum | assignment/Assignment-4/src/q4.py:89 | grouping loses and duplicates nothing: the groups' sums add up to the sum over all rows |
| CustomerCentric.FindTransaction | assignment/Assignment-4/src/q4.py:118-123 | the linear search finds the first transaction with the invoice number, and finds none exactly when no transaction has it |
| CustomerCentric.TransactionsExtend | assignment/Assignment-4/src/q4.py:120-142 | a row of an invoice that already has a transaction only appends its item to that transaction |
| CustomerCentric.KnownInvoiceTransactions | assignment/Assignment-4/src/q4.py:120-142 | a row of a known invoice appends its item to the matching transaction and changes no other |
| CustomerCentric.AbsentInvoice | assignment/Assignment-4/src/q4.py:119-125 | when the search finds no match, the invoice has not been seen for this customer |
| CustomerCentric.NewInvoiceTransactions | assignment/Assignment-4/src/q4.py:125-132 | a row of an unseen invoice appends one new transaction, with that row's number, date and cancelled flag and its one item |
| CustomerCentric.FileItem | assignment/Assignment-4/src/q4.py:118-142 | search, create if missing, append the item: the transactions become those of the customer's rows with this row added |
| CustomerCentric.AddItem | assignment/Assignment-4/src/q4.py:118-144 | filing a row keeps the document equal to the document of the customer's rows with this row added: transactions, `total_spent` and `total_items_purchased` |
| CustomerCentric.TotalsGrow | assignment/Assignment-4/src/q4.py:143-144 | a row adds its item total to `total_spent` and the absolute value of its quantity to `total_items_purchased` |
| CustomerCentric.CustomersStep | assignment/Assignment-4/src/q4.py:109-144 | one iteration keeps every customer document equal to the document of that customer's rows so far |
| CustomerCentric.AddCustomerRow | assignment/Assignment-4/src/q4.py:109-144 | the body for a row with a customer: a new customer gets a fresh document and enters the key order, then the row is filed |
| CustomerCentric.CustomerRowsStep | assignment/Assignment-4/src/q4.py:103-107 | a row with a falsy `CustomerID` is skipped; any other row is handed on |
| CustomerCentric.BuildCustomers | assignment/Assignment-4/src/q4.py:101-144 | one document per distinct non-zero customer id, in order of first occurrence, each equal to the document of exactly that customer's rows |
| CustomerCentric.TotalSpentIsItemSum | assignment/Assignment-4/src/q4.py:134-143 | `total_spent` is the sum of `item.total` over all items of all the customer's transactions |
| CustomerCentric.ItemsPurchasedNonNegative | assignment/Assignment-4/src/q4.py:144 | `total_items_purchased` is never negative |
| CustomerCentric.TransactionsOfCustomer | assignment/Assignment-4/src/q4.py:118-132 | a customer has one transaction per distinct invoice among its rows, in first-seen order, with unique invoice numbers, each holding the items of exactly that invoice's rows in order |
| CustomerCentric.CustomerHeaderFromFirstRow | assignment/Assignment-4/src/q4.py:109-116 | a customer document's id is its key, and its country is that of the customer's first row |
| CustomerCentric.NoGuestCustomer | assignment/Assignment-4/src/q4.py:104-107 | no document is keyed by a missing or zero customer id |
| CustomerCentric.SkippedRowIgnored | assignment/Assignment-4/src/q4.py:104-107 | inserting a row with a falsy `CustomerID` anywhere in the input changes no customer document |

## Left out

- `safe_date_iso` (`q1.py:27-32`) wraps `pandas.to_datetime`, a foreign library. Each row carries its InvoiceDate already rendered, as an optional ISO string.
- Reading the workbook with pandas, normalising its column names, and `row.get` defaults for absent columns are I/O. Every modelled row has all eight columns; a blank cell is `Missing`.
- The SQLite connection, the schema DDL, `PRAGMA foreign_keys`, commits and row counts are I/O. The tables are maps. The foreign keys are proved of the loaded tables rather than enforced.
- In `q4.py`, the join query and every MongoDB call are I/O. The joined rows are the builder's input sequence. `drop_database`, `delete_many` and `insert_many` are not modelled.
- `q3.py`, `q2_verify.py`, `q4_verify.py` and `run_queries.py` are not part of this model. They benchmark, connect and print.
- IEEE floating point is not modelled. Prices and totals are `real`, and a float cell is an exact decimal, so there is no rounding in sums or products.
- The AUTOINCREMENT counter of Countries is modelled as the number of rows that attempted an insert, and a new country takes the counter's next value. SQLite takes one past the larger of the counter and the largest id; the counter is never below the largest id, so SQLite's choice is always the counter plus one. InvoiceLineID is a line's position plus one, because its plain inserts never fail.
- An OverflowError from binding an integer outside 64 bits ends the load with nothing committed but the empty tables. The traceback itself, and any later statement of the script, are not modelled.
- `customer_id`, `country` and the other joined columns are taken as the SQLite driver returns them. No NaN can reach the builder.
- Coercion.SafeFloat: text spelling "nan", "inf" or "infinity" reads as the default instead of a NaN or infinite float. Digits separated by `_`, and non-ASCII digits, are not accepted.
- Coercion.SafeInt: digit text with `_` separators, and non-ASCII digits, fall through to the default. Python's `int()` would accept them.
- PyText.FloatToString: writes every float positionally. It does not model Python's exponent form for very large or very small magnitudes, or the sign of negative zero.
- PyText.Lower: case-folds ASCII letters only.
