/**
 * The customer-centric documents: one document per customer that has a
 * (truthy) CustomerID, holding that customer's transactions (one per
 * invoice number, in order of first appearance, each listing its rows as
 * items) and two running totals, money spent and items purchased.
 */
module CustomerCentric {
  import opened Wrappers
  import opened Seqs
  import opened JoinedRows

  datatype Item = Item(stockCode: string, description: string, quantity: int, unitPrice: real, total: real)

  datatype CustomerTransaction = CustomerTransaction(
    invoiceNo: string, invoiceDate: Option<string>, cancelled: bool, items: seq<Item>)

  datatype CustomerDoc = CustomerDoc(
    customerId: int,
    country: Option<string>,
    transactions: seq<CustomerTransaction>,
    totalSpent: real,
    totalItemsPurchased: int)

  /** A row the loop does not skip: its CustomerID is neither NULL nor 0, the two falsy values. */
  predicate IsCustomerRow(r: JoinedRow) { r.customerId.Some? && r.customerId.value != 0 }

  /** The grouping key of the customer-centric documents. */
  function CustomerKey(r: JoinedRow): int { if r.customerId.Some? then r.customerId.value else 0 }

  /** The rows that reach the customer-centric documents, in input order. */
  function CustomerRows(data: seq<JoinedRow>): seq<JoinedRow> { Where(data, IsCustomerRow) }

  function Abs(n: int): nat { if n < 0 then -n else n }

  /** `abs(row['Quantity'])`, a row's contribution to `total_items_purchased`. */
  function QuantityBought(r: JoinedRow): int { Abs(r.quantity) }

  function ItemOf(r: JoinedRow): Item
  {
    Item(r.stockCode, r.description, r.quantity, r.unitPrice, Amount(r))
  }

  function ItemTotal(item: Item): real { item.total }

  /** One item per row, in the rows' order. */
  function Items(rows: seq<JoinedRow>): (items: seq<Item>)
    ensures |items| == |rows|
  {
    if rows == [] then [] else Items(rows[..|rows| - 1]) + [ItemOf(rows[|rows| - 1])]
  }

  /**
   * A customer's transaction for the rows of one invoice: the invoice
   * number, date and cancelled flag of its first row, then every row as an
   * item. Every listed invoice has rows; an empty group gives an empty
   * transaction.
   */
  function TransactionOf(group: seq<JoinedRow>): CustomerTransaction
  {
    if group == [] then CustomerTransaction("", None, false, [])
    else CustomerTransaction(group[0].invoiceNo, group[0].invoiceDate, IsCancelled(group[0]), Items(group))
  }

  /** One transaction per listed invoice number of `rows`, in the listed order. */
  function TransactionsOf(rows: seq<JoinedRow>, invs: seq<string>): (txs: seq<CustomerTransaction>)
    ensures |txs| == |invs|
  {
    if invs == [] then []
    else TransactionsOf(rows, invs[..|invs| - 1]) + [TransactionOf(Select(rows, InvoiceKey, invs[|invs| - 1]))]
  }

  /**
   * The document that a customer's rows build under the header
   * (`customerId`, `country`): the rows grouped by invoice number in order
   * of first appearance, and the totals of their amounts and absolute
   * quantities. With no rows it is the document the loop opens for a new
   * customer.
   */
  function DocOf(customerId: int, country: Option<string>, rows: seq<JoinedRow>): CustomerDoc
  {
    CustomerDoc(customerId, country, TransactionsOf(rows, FirstSeen(rows, InvoiceKey)),
                SumReal(rows, Amount), SumInt(rows, QuantityBought))
  }

  /** The document of one customer's rows, with id and country from the first row (and none to take them from without rows). */
  function CustomerDocOf(rows: seq<JoinedRow>): CustomerDoc
  {
    if rows == [] then DocOf(0, None, []) else DocOf(CustomerKey(rows[0]), rows[0].countryName, rows)
  }

  // ---------------------------------------------------------------------
  // The transactions of a customer

  lemma ItemsAppend(rows: seq<JoinedRow>, r: JoinedRow)
    ensures Items(rows + [r]) == Items(rows) + [ItemOf(r)]
  {
    AppendInit(rows, r);
  }

  /** The items of a transaction are its invoice's rows, one for one and in order. */
  lemma {:induction false} ItemsAt(rows: seq<JoinedRow>)
    ensures forall k :: 0 <= k < |rows| ==> Items(rows)[k] == ItemOf(rows[k])
  {
    if rows != [] {
      var init := rows[..|rows| - 1];
      ItemsAt(init);
      ItemsAppend(init, rows[|rows| - 1]);
      assert rows == init + [rows[|rows| - 1]];
    }
  }

  /** The k-th transaction is the transaction of the k-th listed invoice number. */
  lemma {:induction false} TransactionsAt(rows: seq<JoinedRow>, invs: seq<string>)
    ensures forall k :: 0 <= k < |invs| ==> TransactionsOf(rows, invs)[k] == TransactionOf(Select(rows, InvoiceKey, invs[k]))
  {
    if invs != [] {
      TransactionsAt(rows, invs[..|invs| - 1]);
    }
  }

  /** The k-th transaction of a customer bears the k-th invoice number in order of first appearance. */
  lemma TransactionNumbers(rows: seq<JoinedRow>, invs: seq<string>)
    requires invs == FirstSeen(rows, InvoiceKey)
    ensures forall k :: 0 <= k < |invs| ==> TransactionsOf(rows, invs)[k].invoiceNo == invs[k]
  {
    TransactionsAt(rows, invs);
    FirstSeenGroups(rows, InvoiceKey);
    forall k | 0 <= k < |invs|
      ensures TransactionsOf(rows, invs)[k].invoiceNo == invs[k]
    {
      assert invs[k] in invs;
    }
  }

  /** A row of an invoice that is not listed changes none of the listed transactions. */
  lemma {:induction false} TransactionsUnaffected(rows: seq<JoinedRow>, r: JoinedRow, invs: seq<string>)
    requires r.invoiceNo !in invs
    ensures TransactionsOf(rows + [r], invs) == TransactionsOf(rows, invs)
  {
    if invs != [] {
      var init, last := invs[..|invs| - 1], invs[|invs| - 1];
      assert r.invoiceNo !in init by {
        forall k | 0 <= k < |init| ensures init[k] != r.invoiceNo {
          assert init[k] == invs[k];
        }
      }
      TransactionsUnaffected(rows, r, init);
      SelectAppend(rows, r, InvoiceKey, last);
      assert last != r.invoiceNo;
      assert Select(rows + [r], InvoiceKey, last) == Select(rows, InvoiceKey, last);
      assert TransactionsOf(rows + [r], invs) == TransactionsOf(rows + [r], init) + [TransactionOf(Select(rows + [r], InvoiceKey, last))];
      assert TransactionsOf(rows, invs) == TransactionsOf(rows, init) + [TransactionOf(Select(rows, InvoiceKey, last))];
    }
  }

  /** A later row of an invoice adds one item to the end of the invoice's transaction. */
  lemma TransactionGrows(g: seq<JoinedRow>, r: JoinedRow)
    requires g != []
    ensures TransactionOf(g + [r]) == TransactionOf(g).(items := TransactionOf(g).items + [ItemOf(r)])
  {
    ItemsAppend(g, r);
    assert (g + [r])[0] == g[0];
  }

  /** A later row of the last listed invoice extends the last transaction only. */
  lemma ExtendLastTransaction(rows: seq<JoinedRow>, r: JoinedRow, invs: seq<string>)
    requires Select(rows, InvoiceKey, r.invoiceNo) != []
    requires Distinct(invs) && invs != [] && invs[|invs| - 1] == r.invoiceNo
    ensures var txs := TransactionsOf(rows, invs);
            var j := |invs| - 1;
            TransactionsOf(rows + [r], invs) == txs[j := txs[j].(items := txs[j].items + [ItemOf(r)])]
  {
    var init := invs[..|invs| - 1];
    var g := Select(rows, InvoiceKey, r.invoiceNo);
    SelectAppend(rows, r, InvoiceKey, r.invoiceNo);
    assert Select(rows + [r], InvoiceKey, r.invoiceNo) == g + [r];
    DistinctInit(invs);
    TransactionsUnaffected(rows, r, init);
    var pre := TransactionsOf(rows, init);
    assert TransactionsOf(rows, invs) == pre + [TransactionOf(g)];
    assert TransactionsOf(rows + [r], invs) == pre + [TransactionOf(g + [r])];
    TransactionGrows(g, r);
    UpdateLast(pre, TransactionOf(g), TransactionOf(g + [r]));
  }

  /** A later row of a listed invoice appends one item to that invoice's transaction and to no other. */
  lemma {:induction false} TransactionsExtend(rows: seq<JoinedRow>, r: JoinedRow, invs: seq<string>, j: nat)
    requires Select(rows, InvoiceKey, r.invoiceNo) != []
    requires Distinct(invs) && j < |invs| && invs[j] == r.invoiceNo
    ensures var txs := TransactionsOf(rows, invs);
            TransactionsOf(rows + [r], invs) == txs[j := txs[j].(items := txs[j].items + [ItemOf(r)])]
  {
    if j == |invs| - 1 {
      ExtendLastTransaction(rows, r, invs);
    } else {
      var init, last := invs[..|invs| - 1], invs[|invs| - 1];
      var g := Select(rows, InvoiceKey, last);
      assert last != r.invoiceNo by {
        assert invs[j] != invs[|invs| - 1];
      }
      SelectAppend(rows, r, InvoiceKey, last);
      assert Select(rows + [r], InvoiceKey, last) == g;
      DistinctInit(invs);
      assert init[j] == invs[j];
      TransactionsExtend(rows, r, init, j);
      var pre := TransactionsOf(rows, init);
      assert TransactionsOf(rows, invs) == pre + [TransactionOf(g)];
      assert TransactionsOf(rows + [r], invs) == TransactionsOf(rows + [r], init) + [TransactionOf(g)];
      UpdateAppend(pre, TransactionOf(g), j, pre[j].(items := pre[j].items + [ItemOf(r)]));
    }
  }

  // ---------------------------------------------------------------------
  // How a document grows by one row

  /** A row of an invoice the customer already has: its item goes to that invoice's transaction. */
  lemma KnownInvoiceTransactions(rows: seq<JoinedRow>, r: JoinedRow, j: nat)
    requires j < |FirstSeen(rows, InvoiceKey)| && FirstSeen(rows, InvoiceKey)[j] == r.invoiceNo
    ensures var txs := TransactionsOf(rows, FirstSeen(rows, InvoiceKey));
            TransactionsOf(rows + [r], FirstSeen(rows + [r], InvoiceKey)) == txs[j := txs[j].(items := txs[j].items + [ItemOf(r)])]
  {
    var invs := FirstSeen(rows, InvoiceKey);
    assert r.invoiceNo in invs;
    FirstSeenGroups(rows, InvoiceKey);
    FirstSeenKeys(rows, InvoiceKey);
    FirstSeenAppend(rows, r, InvoiceKey);
    TransactionsExtend(rows, r, invs, j);
  }

  /** An invoice number no transaction bears is not among the customer's invoice numbers. */
  lemma AbsentInvoice(rows: seq<JoinedRow>, invoiceNo: string)
    requires var txs := TransactionsOf(rows, FirstSeen(rows, InvoiceKey));
             forall k :: 0 <= k < |txs| ==> txs[k].invoiceNo != invoiceNo
    ensures invoiceNo !in FirstSeen(rows, InvoiceKey)
  {
    var invs := FirstSeen(rows, InvoiceKey);
    TransactionNumbers(rows, invs);
    forall k | 0 <= k < |invs| ensures invs[k] != invoiceNo {
      assert TransactionsOf(rows, invs)[k].invoiceNo == invs[k];
    }
  }

  /** A row of an invoice the customer does not have yet: a new transaction holding its item goes last. */
  lemma NewInvoiceTransactions(rows: seq<JoinedRow>, r: JoinedRow)
    requires r.invoiceNo !in FirstSeen(rows, InvoiceKey)
    ensures TransactionsOf(rows + [r], FirstSeen(rows + [r], InvoiceKey))
            == TransactionsOf(rows, FirstSeen(rows, InvoiceKey)) + [CustomerTransaction(r.invoiceNo, r.invoiceDate, IsCancelled(r), [ItemOf(r)])]
  {
    var invs := FirstSeen(rows, InvoiceKey);
    FirstSeenKeys(rows, InvoiceKey);
    FirstSeenAppend(rows, r, InvoiceKey);
    var invs' := invs + [r.invoiceNo];
    assert FirstSeen(rows + [r], InvoiceKey) == invs';
    assert invs'[..|invs'| - 1] == invs;
    TransactionsUnaffected(rows, r, invs);
    KeysOfSelect(rows, InvoiceKey, r.invoiceNo);
    SelectAppend(rows, r, InvoiceKey, r.invoiceNo);
    assert Select(rows + [r], InvoiceKey, r.invoiceNo) == [r];
    ItemsAppend([], r);
    assert [] + [r] == [r];
    assert TransactionOf([r]) == CustomerTransaction(r.invoiceNo, r.invoiceDate, IsCancelled(r), [ItemOf(r)]);
  }

  /** Both totals of a document grow by the row's amount and absolute quantity. */
  lemma TotalsGrow(rows: seq<JoinedRow>, r: JoinedRow)
    ensures SumReal(rows + [r], Amount) == SumReal(rows, Amount) + ItemOf(r).total
    ensures SumInt(rows + [r], QuantityBought) == SumInt(rows, QuantityBought) + Abs(r.quantity)
  {
    SumRealAppend(rows, r, Amount);
    SumIntAppend(rows, r, QuantityBought);
  }

  // ---------------------------------------------------------------------
  // The loop body

  /** The linear search for the customer's transaction with this invoice number: the first match, if any. */
  method FindTransaction(txs: seq<CustomerTransaction>, invoiceNo: string) returns (found: Option<nat>)
    ensures found.Some? ==> found.value < |txs| && txs[found.value].invoiceNo == invoiceNo
    ensures found.Some? ==> forall k :: 0 <= k < found.value ==> txs[k].invoiceNo != invoiceNo
    ensures found.None? <==> forall k :: 0 <= k < |txs| ==> txs[k].invoiceNo != invoiceNo
  {
    found := None;
    var k := 0;
    while k < |txs|
      invariant k <= |txs|
      invariant forall i :: 0 <= i < k ==> txs[i].invoiceNo != invoiceNo
    {
      if txs[k].invoiceNo == invoiceNo {
        found := Some(k);
        break;
      }
      k := k + 1;
    }
  }

  /**
   * Files a row's item under a customer whose transactions are those built
   * from `rows`, the customer's earlier rows: into the transaction the
   * search finds, or into a new transaction appended last.
   */
  method FileItem(txs: seq<CustomerTransaction>, row: JoinedRow, ghost rows: seq<JoinedRow>)
    returns (txs': seq<CustomerTransaction>)
    requires txs == TransactionsOf(rows, FirstSeen(rows, InvoiceKey))
    ensures txs' == TransactionsOf(rows + [row], FirstSeen(rows + [row], InvoiceKey))
  {
    var invoiceNo := row.invoiceNo;
    var found := FindTransaction(txs, invoiceNo);
    var item := ItemOf(row);
    if found.None? {
      AbsentInvoice(rows, invoiceNo);
      NewInvoiceTransactions(rows, row);
      var t := CustomerTransaction(invoiceNo, row.invoiceDate, IsCancelled(row), []);
      UpdateLast(txs, t, t.(items := t.items + [item]));
      txs' := txs + [t];
      txs' := txs'[|txs'| - 1 := txs'[|txs'| - 1].(items := txs'[|txs'| - 1].items + [item])];
    } else {
      var j := found.value;
      TransactionNumbers(rows, FirstSeen(rows, InvoiceKey));
      KnownInvoiceTransactions(rows, row, j);
      txs' := txs[j := txs[j].(items := txs[j].items + [item])];
    }
  }

  /**
   * Files one row under a customer whose document is the one built from
   * `rows`, the customer's earlier rows: the item goes to its transaction
   * and both totals grow.
   */
  method AddItem(doc: CustomerDoc, row: JoinedRow, ghost rows: seq<JoinedRow>) returns (doc': CustomerDoc)
    requires doc == DocOf(doc.customerId, doc.country, rows)
    ensures doc' == DocOf(doc.customerId, doc.country, rows + [row])
  {
    var txs := FileItem(doc.transactions, row, rows);
    TotalsGrow(rows, row);
    doc' := doc.(transactions := txs,
                 totalSpent := doc.totalSpent + ItemOf(row).total,
                 totalItemsPurchased := doc.totalItemsPurchased + Abs(row.quantity));
  }

  /** A map holds, for each customer of `owned`, the document of that customer's rows, and nothing else. */
  ghost predicate GroupedCustomers(m: map<int, CustomerDoc>, owned: seq<JoinedRow>)
  {
    GroupedBy(m, owned, CustomerKey, CustomerDocOf)
  }

  /** Storing a customer's grown document keeps the map in step with the customer rows. */
  lemma CustomersStep(m: map<int, CustomerDoc>, owned: seq<JoinedRow>, r: JoinedRow, d: CustomerDoc)
    requires GroupedCustomers(m, owned)
    requires d == CustomerDocOf(Select(owned, CustomerKey, CustomerKey(r)) + [r])
    ensures GroupedCustomers(m[CustomerKey(r) := d], owned + [r])
  {
    GroupedByStore(m, owned, r, CustomerKey, CustomerDocOf);
  }

  lemma OtherCustomer(owned: seq<JoinedRow>, r: JoinedRow, c: int)
    requires c != CustomerKey(r)
    ensures Select(owned + [r], CustomerKey, c) == Select(owned, CustomerKey, c)
  {
    SelectAppend(owned, r, CustomerKey, c);
  }

  lemma SameCustomer(owned: seq<JoinedRow>, r: JoinedRow)
    ensures Select(owned + [r], CustomerKey, CustomerKey(r)) == Select(owned, CustomerKey, CustomerKey(r)) + [r]
  {
    SelectAppend(owned, r, CustomerKey, CustomerKey(r));
  }

  /** The loop body for a row that is not skipped: finds or opens the customer's document and files the row in it. */
  method AddCustomerRow(customers: map<int, CustomerDoc>, order: seq<int>, row: JoinedRow, ghost owned: seq<JoinedRow>)
    returns (customers': map<int, CustomerDoc>, order': seq<int>)
    requires IsCustomerRow(row)
    requires GroupedCustomers(customers, owned) && order == FirstSeen(owned, CustomerKey)
    ensures GroupedCustomers(customers', owned + [row]) && order' == FirstSeen(owned + [row], CustomerKey)
  {
    var customerId := row.customerId.value;
    ghost var group := Select(owned, CustomerKey, customerId);
    var doc: CustomerDoc;
    if customerId !in customers {
      doc := CustomerDoc(customerId, row.countryName, [], 0.0, 0);
      order' := order + [customerId];
      KeysOfSelect(owned, CustomerKey, customerId);
    } else {
      doc := customers[customerId];
      order' := order;
    }
    doc := AddItem(doc, row, group);
    customers' := customers[customerId := doc];
    CustomersStep(customers, owned, row, doc);
    FirstSeenAppend(owned, row, CustomerKey);
  }

  // ---------------------------------------------------------------------
  // The build loop

  /** One more input row adds itself to the customer rows exactly when the loop does not skip it. */
  lemma CustomerRowsStep(data: seq<JoinedRow>, i: nat)
    requires i < |data|
    ensures CustomerRows(data[..i + 1]) ==
              if IsCustomerRow(data[i]) then CustomerRows(data[..i]) + [data[i]] else CustomerRows(data[..i])
  {
    PrefixSnoc(data, i);
    WhereAppend(data[..i], data[i], IsCustomerRow);
  }

  /**
   * Folds the joined rows into a map from customer id to document,
   * skipping rows without a customer; `order` is the map's insertion
   * order, in which the documents are handed to the document store.
   */
  method BuildCustomers(data: seq<JoinedRow>) returns (customers: map<int, CustomerDoc>, order: seq<int>)
    ensures order == FirstSeen(CustomerRows(data), CustomerKey)
    ensures customers.Keys == KeysOf(CustomerRows(data), CustomerKey)
    ensures forall c :: c in customers ==>
              Select(CustomerRows(data), CustomerKey, c) != [] &&
              customers[c] == CustomerDocOf(Select(CustomerRows(data), CustomerKey, c))
  {
    customers := map[];
    order := [];
    var i := 0;
    while i < |data|
      invariant i <= |data|
      invariant order == FirstSeen(CustomerRows(data[..i]), CustomerKey)
      invariant GroupedCustomers(customers, CustomerRows(data[..i]))
    {
      var row := data[i];
      CustomerRowsStep(data, i);
      if row.customerId.None? || row.customerId.value == 0 {
        i := i + 1;
        continue;
      }
      customers, order := AddCustomerRow(customers, order, row, CustomerRows(data[..i]));
      i := i + 1;
    }
    assert data[..i] == data;
  }

  // ---------------------------------------------------------------------
  // Properties of the documents

  /** The money in one transaction: the sum of its items' totals. */
  function TransactionTotal(t: CustomerTransaction): real
  {
    SumReal(t.items, ItemTotal)
  }

  lemma {:induction false} ItemsTotal(g: seq<JoinedRow>)
    ensures SumReal(Items(g), ItemTotal) == SumReal(g, Amount)
  {
    if g != [] {
      var init, r := g[..|g| - 1], g[|g| - 1];
      assert g == init + [r];
      ItemsTotal(init);
      ItemsAppend(init, r);
      SumRealAppend(Items(init), ItemOf(r), ItemTotal);
      SumRealAppend(init, r, Amount);
    }
  }

  lemma {:induction false} TransactionsTotal(rows: seq<JoinedRow>, invs: seq<string>)
    ensures SumReal(TransactionsOf(rows, invs), TransactionTotal) == GroupSums(invs, rows, InvoiceKey, Amount)
  {
    if invs != [] {
      var init := invs[..|invs| - 1];
      var g := Select(rows, InvoiceKey, invs[|invs| - 1]);
      TransactionsTotal(rows, init);
      ItemsTotal(g);
      SumRealAppend(TransactionsOf(rows, init), TransactionOf(g), TransactionTotal);
    }
  }

  /** A customer's `total_spent` is the sum of the totals of all items of all of its transactions. */
  lemma TotalSpentIsItemSum(customerId: int, country: Option<string>, rows: seq<JoinedRow>)
    ensures var d := DocOf(customerId, country, rows);
            d.totalSpent == SumReal(d.transactions, TransactionTotal)
  {
    TransactionsTotal(rows, FirstSeen(rows, InvoiceKey));
    GroupingPreservesSum(rows, InvoiceKey, Amount);
  }

  /** A customer's `total_items_purchased` adds up absolute quantities, so it is never negative. */
  lemma ItemsPurchasedNonNegative(customerId: int, country: Option<string>, rows: seq<JoinedRow>)
    ensures DocOf(customerId, country, rows).totalItemsPurchased >= 0
  {
    SumIntNonNegative(rows, QuantityBought);
  }

  /**
   * Within one customer the transactions bear distinct invoice numbers, in
   * the order in which those invoices first occur among its rows, and each
   * lists the rows of its invoice, in input order, as items.
   */
  lemma TransactionsOfCustomer(customerId: int, country: Option<string>, rows: seq<JoinedRow>)
    ensures var txs := DocOf(customerId, country, rows).transactions;
            var invs := FirstSeen(rows, InvoiceKey);
            && |txs| == |invs|
            && (forall k :: 0 <= k < |txs| ==> txs[k].invoiceNo == invs[k])
            && (forall k :: 0 <= k < |txs| ==> txs[k].items == Items(Select(rows, InvoiceKey, invs[k])))
            && (forall a, b :: 0 <= a < b < |txs| ==> txs[a].invoiceNo != txs[b].invoiceNo)
  {
    var invs := FirstSeen(rows, InvoiceKey);
    var txs := TransactionsOf(rows, invs);
    TransactionNumbers(rows, invs);
    TransactionsAt(rows, invs);
    FirstSeenGroups(rows, InvoiceKey);
    forall k | 0 <= k < |txs| ensures txs[k].items == Items(Select(rows, InvoiceKey, invs[k])) {
      assert invs[k] in invs;
    }
  }

  /** A customer's document has that customer's id and the country of the customer's first row. */
  lemma CustomerHeaderFromFirstRow(data: seq<JoinedRow>, c: int)
    requires c in KeysOf(CustomerRows(data), CustomerKey)
    ensures var owned := CustomerRows(data);
            && Select(owned, CustomerKey, c) != []
            && FirstIndex(owned, CustomerKey, c) < |owned|
            && CustomerDocOf(Select(owned, CustomerKey, c)).customerId == c
            && CustomerDocOf(Select(owned, CustomerKey, c)).country == owned[FirstIndex(owned, CustomerKey, c)].countryName
  {
    SelectHead(CustomerRows(data), CustomerKey, c);
  }

  /** No document belongs to the customer key 0: rows without a truthy CustomerID never reach the map. */
  lemma NoGuestCustomer(data: seq<JoinedRow>)
    ensures 0 !in KeysOf(CustomerRows(data), CustomerKey)
  {
    var owned := CustomerRows(data);
    KeysOfSelect(owned, CustomerKey, 0);
    if Select(owned, CustomerKey, 0) != [] {
      var g := Select(owned, CustomerKey, 0);
      SelectElements(owned, CustomerKey, 0);
      assert g[0] in owned;
      WhereMember(data, g[0]);
      assert false;
    }
  }

  lemma WhereMember(data: seq<JoinedRow>, r: JoinedRow)
    requires r in CustomerRows(data)
    ensures IsCustomerRow(r)
  {
    var i :| 0 <= i < |CustomerRows(data)| && CustomerRows(data)[i] == r;
  }

  /**
   * A row the loop skips changes no customer document: the customer rows,
   * and with them every document built from them, are those of the input
   * without that row.
   */
  lemma SkippedRowIgnored(a: seq<JoinedRow>, r: JoinedRow, b: seq<JoinedRow>)
    requires !IsCustomerRow(r)
    ensures CustomerRows(a + [r] + b) == CustomerRows(a + b)
  {
    WhereConcat(a + [r], b, IsCustomerRow);
    WhereConcat(a, b, IsCustomerRow);
    WhereAppend(a, r, IsCustomerRow);
  }
}
