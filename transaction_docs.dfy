/**
 * The transaction-centric documents: one document per invoice number,
 * whose header comes from the first row bearing that invoice, whose line
 * items are that invoice's rows in input order, and whose total is the
 * running sum of the line totals.
 */
module TransactionCentric {
  import opened Wrappers
  import opened Seqs
  import opened JoinedRows

  datatype LineItem = LineItem(
    lineId: int, stockCode: string, description: string, quantity: int, unitPrice: real, lineTotal: real)

  datatype TransactionDoc = TransactionDoc(
    invoiceNo: string,
    invoiceDate: Option<string>,
    customerId: Option<int>,
    country: Option<string>,
    cancelled: bool,
    lineItems: seq<LineItem>,
    totalAmount: real)

  function LineItemOf(r: JoinedRow): LineItem
  {
    LineItem(r.lineId, r.stockCode, r.description, r.quantity, r.unitPrice, Amount(r))
  }

  function LineTotalOf(item: LineItem): real { item.lineTotal }

  /** One line item per row, in the rows' order. */
  function LineItems(rows: seq<JoinedRow>): (items: seq<LineItem>)
    ensures |items| == |rows|
  {
    if rows == [] then [] else LineItems(rows[..|rows| - 1]) + [LineItemOf(rows[|rows| - 1])]
  }

  /** The document of one invoice's rows: the header of the first row, every row as a line item, and their amounts summed. */
  function TxDocOf(group: seq<JoinedRow>): TransactionDoc
    requires group != []
  {
    var first := group[0];
    TransactionDoc(first.invoiceNo, first.invoiceDate, first.customerId, first.countryName, IsCancelled(first),
                   LineItems(group), SumReal(group, Amount))
  }

  // ---------------------------------------------------------------------
  // What a document holds

  /** The line items are the group's rows, one for one and in order. */
  lemma {:induction false} LineItemsAt(rows: seq<JoinedRow>)
    ensures forall k :: 0 <= k < |rows| ==> LineItems(rows)[k] == LineItemOf(rows[k])
  {
    if rows != [] {
      var init := rows[..|rows| - 1];
      LineItemsAt(init);
      LineItemsAppend(init, rows[|rows| - 1]);
      assert rows == init + [rows[|rows| - 1]];
    }
  }

  lemma {:induction false} LineItemsConcat(a: seq<JoinedRow>, b: seq<JoinedRow>)
    ensures LineItems(a + b) == LineItems(a) + LineItems(b)
    decreases |b|
  {
    if b == [] {
      assert a + b == a;
    } else {
      var b', x := b[..|b| - 1], b[|b| - 1];
      assert b == b' + [x];
      assert a + b == (a + b') + [x];
      LineItemsConcat(a, b');
      LineItemsAppend(a + b', x);
      LineItemsAppend(b', x);
    }
  }

  /** Every line total is the line's quantity times its unit price. */
  lemma LineTotalsAreProducts(rows: seq<JoinedRow>)
    ensures forall item :: item in LineItems(rows) ==> item.lineTotal == item.quantity as real * item.unitPrice
  {
    LineItemsAt(rows);
  }

  /** A document's total amount is the sum of its line totals. */
  lemma {:induction false} TotalIsSumOfLineTotals(group: seq<JoinedRow>)
    requires group != []
    ensures TxDocOf(group).totalAmount == SumReal(TxDocOf(group).lineItems, LineTotalOf)
  {
    ItemSums(group);
  }

  lemma {:induction false} ItemSums(rows: seq<JoinedRow>)
    ensures SumReal(LineItems(rows), LineTotalOf) == SumReal(rows, Amount)
  {
    if rows != [] {
      var init, x := rows[..|rows| - 1], rows[|rows| - 1];
      assert rows == init + [x];
      ItemSums(init);
      LineItemsAppend(init, x);
      SumRealAppend(LineItems(init), LineItemOf(x), LineTotalOf);
      SumRealAppend(init, x, Amount);
    }
  }

  /**
   * The header of an invoice's document is that of the first row bearing
   * the invoice number, and rows appended later change neither the header
   * nor the line items already listed.
   */
  lemma HeaderFromFirstRow(data: seq<JoinedRow>, inv: string)
    requires inv in KeysOf(data, InvoiceKey)
    ensures Select(data, InvoiceKey, inv) != [] && FirstIndex(data, InvoiceKey, inv) < |data|
    ensures var d, first := TxDocOf(Select(data, InvoiceKey, inv)), data[FirstIndex(data, InvoiceKey, inv)];
            && d.invoiceNo == inv
            && d.invoiceDate == first.invoiceDate
            && d.customerId == first.customerId
            && d.country == first.countryName
            && d.cancelled == IsCancelled(first)
  {
    SelectHead(data, InvoiceKey, inv);
  }

  lemma LaterRowsKeepHeader(data: seq<JoinedRow>, more: seq<JoinedRow>, inv: string)
    requires Select(data, InvoiceKey, inv) != []
    ensures Select(data + more, InvoiceKey, inv) != []
    ensures var d, d' := TxDocOf(Select(data, InvoiceKey, inv)), TxDocOf(Select(data + more, InvoiceKey, inv));
            && d'.(lineItems := [], totalAmount := 0.0) == d.(lineItems := [], totalAmount := 0.0)
            && d.lineItems <= d'.lineItems
  {
    var g, h := Select(data, InvoiceKey, inv), Select(more, InvoiceKey, inv);
    SelectConcat(data, more, InvoiceKey, inv);
    LineItemsConcat(g, h);
    assert (g + h)[0] == g[0];
  }

  /** Each row is listed among the line items of its own invoice's document. */
  lemma EveryRowListed(data: seq<JoinedRow>, i: nat)
    requires i < |data|
    ensures Select(data, InvoiceKey, data[i].invoiceNo) != []
    ensures LineItemOf(data[i]) in TxDocOf(Select(data, InvoiceKey, data[i].invoiceNo)).lineItems
  {
    var g := Select(data, InvoiceKey, data[i].invoiceNo);
    SelectContains(data, InvoiceKey, i);
    LineItemsAt(g);
    var k :| 0 <= k < |g| && g[k] == data[i];
    assert LineItems(g)[k] == LineItemOf(data[i]);
  }

  // ---------------------------------------------------------------------
  // How a document grows by one row

  lemma LineItemsAppend(rows: seq<JoinedRow>, r: JoinedRow)
    ensures LineItems(rows + [r]) == LineItems(rows) + [LineItemOf(r)]
  {
    AppendInit(rows, r);
  }

  /** A later row of the same invoice appends one line item and adds its amount; the header stays. */
  lemma TxDocAppend(group: seq<JoinedRow>, r: JoinedRow)
    requires group != []
    ensures var d := TxDocOf(group);
            TxDocOf(group + [r]) == d.(lineItems := d.lineItems + [LineItemOf(r)], totalAmount := d.totalAmount + Amount(r))
  {
    LineItemsAppend(group, r);
    SumRealAppend(group, r, Amount);
    assert (group + [r])[0] == group[0];
  }

  /** The document of an invoice's first row. */
  lemma TxDocFirst(r: JoinedRow)
    ensures TxDocOf([r]) == TransactionDoc(r.invoiceNo, r.invoiceDate, r.customerId, r.countryName, IsCancelled(r),
                                           [LineItemOf(r)], 0.0 + Amount(r))
  {
    LineItemsAppend([], r);
    SumRealAppend([], r, Amount);
  }

  /** A map holds, for each invoice number of `s`, the document of that invoice's rows, and nothing else. */
  ghost predicate Grouped(m: map<string, TransactionDoc>, s: seq<JoinedRow>)
  {
    && m.Keys == KeysOf(s, InvoiceKey)
    && forall inv :: inv in m ==> Select(s, InvoiceKey, inv) != [] && m[inv] == TxDocOf(Select(s, InvoiceKey, inv))
  }

  /**
   * The effect of one row on the map: its invoice's document is opened
   * from the row when new, and gets the row's line item and amount; every
   * other document stays.
   */
  ghost predicate AddsLine(m: map<string, TransactionDoc>, m': map<string, TransactionDoc>, r: JoinedRow)
  {
    && m'.Keys == m.Keys + {r.invoiceNo}
    && (forall inv :: inv in m && inv != r.invoiceNo ==> m'[inv] == m[inv])
    && (r.invoiceNo in m ==>
          m'[r.invoiceNo] == m[r.invoiceNo].(lineItems := m[r.invoiceNo].lineItems + [LineItemOf(r)],
                                             totalAmount := m[r.invoiceNo].totalAmount + Amount(r)))
    && (r.invoiceNo !in m ==>
          m'[r.invoiceNo] == TransactionDoc(r.invoiceNo, r.invoiceDate, r.customerId, r.countryName,
                                            IsCancelled(r), [LineItemOf(r)], 0.0 + Amount(r)))
  }

  /** Adding one row's line keeps every document equal to the document of its invoice's rows. */
  lemma {:induction false} GroupedStep(m: map<string, TransactionDoc>, m': map<string, TransactionDoc>,
                                       s: seq<JoinedRow>, r: JoinedRow)
    requires Grouped(m, s)
    requires AddsLine(m, m', r)
    ensures Grouped(m', s + [r])
  {
    KeysOfAppend(s, r, InvoiceKey);
    forall inv | inv in m'
      ensures Select(s + [r], InvoiceKey, inv) != [] && m'[inv] == TxDocOf(Select(s + [r], InvoiceKey, inv))
    {
      if inv != r.invoiceNo {
        OtherInvoice(s, r, inv);
      } else if inv in m {
        SameInvoice(s, r);
      } else {
        NewInvoice(s, r);
        TxDocFirst(r);
      }
    }
  }

  lemma OtherInvoice(s: seq<JoinedRow>, r: JoinedRow, inv: string)
    requires inv != r.invoiceNo
    ensures Select(s + [r], InvoiceKey, inv) == Select(s, InvoiceKey, inv)
  {
    SelectAppend(s, r, InvoiceKey, inv);
  }

  lemma SameInvoice(s: seq<JoinedRow>, r: JoinedRow)
    requires Select(s, InvoiceKey, r.invoiceNo) != []
    ensures Select(s + [r], InvoiceKey, r.invoiceNo) != []
    ensures var d := TxDocOf(Select(s, InvoiceKey, r.invoiceNo));
            TxDocOf(Select(s + [r], InvoiceKey, r.invoiceNo)) ==
              d.(lineItems := d.lineItems + [LineItemOf(r)], totalAmount := d.totalAmount + Amount(r))
  {
    SelectAppend(s, r, InvoiceKey, r.invoiceNo);
    TxDocAppend(Select(s, InvoiceKey, r.invoiceNo), r);
  }

  lemma NewInvoice(s: seq<JoinedRow>, r: JoinedRow)
    requires r.invoiceNo !in KeysOf(s, InvoiceKey)
    ensures Select(s + [r], InvoiceKey, r.invoiceNo) == [r]
  {
    SelectAppend(s, r, InvoiceKey, r.invoiceNo);
    KeysOfSelect(s, InvoiceKey, r.invoiceNo);
  }

  /** The insertion order grows by the row's invoice number exactly when the map did not hold it. */
  lemma OrderStep(m: map<string, TransactionDoc>, s: seq<JoinedRow>, r: JoinedRow)
    requires m.Keys == KeysOf(s, InvoiceKey)
    ensures FirstSeen(s + [r], InvoiceKey) ==
              if r.invoiceNo in m then FirstSeen(s, InvoiceKey) else FirstSeen(s, InvoiceKey) + [r.invoiceNo]
  {
    FirstSeenAppend(s, r, InvoiceKey);
  }

  // ---------------------------------------------------------------------
  // The build loop

  /**
   * One pass of the loop body: opens the row's document from the row when
   * its invoice number is new (the dictionary then remembers the new key
   * last in its insertion order), then appends the row's line item and
   * adds its line total.
   */
  method AddLine(transactions: map<string, TransactionDoc>, order: seq<string>, row: JoinedRow)
    returns (transactions': map<string, TransactionDoc>, order': seq<string>)
    ensures order' == if row.invoiceNo in transactions then order else order + [row.invoiceNo]
    ensures AddsLine(transactions, transactions', row)
  {
    transactions', order' := transactions, order;
    var invoiceNo := row.invoiceNo;
    if invoiceNo !in transactions' {
      transactions' := transactions'[invoiceNo := TransactionDoc(
        invoiceNo, row.invoiceDate, row.customerId, row.countryName, IsCancelled(row), [], 0.0)];
      order' := order' + [invoiceNo];
    }
    var item := LineItemOf(row);
    var t := transactions'[invoiceNo];
    transactions' := transactions'[invoiceNo := t.(lineItems := t.lineItems + [item],
                                                   totalAmount := t.totalAmount + item.lineTotal)];
  }

  /**
   * Folds the joined rows into a map from invoice number to document;
   * `order` is the map's insertion order, in which the documents are
   * handed to the document store.
   */
  method BuildTransactions(data: seq<JoinedRow>) returns (transactions: map<string, TransactionDoc>, order: seq<string>)
    ensures order == FirstSeen(data, InvoiceKey)
    ensures transactions.Keys == KeysOf(data, InvoiceKey)
    ensures forall inv :: inv in transactions ==>
              Select(data, InvoiceKey, inv) != [] && transactions[inv] == TxDocOf(Select(data, InvoiceKey, inv))
  {
    transactions := map[];
    order := [];
    var i := 0;
    while i < |data|
      invariant i <= |data|
      invariant order == FirstSeen(data[..i], InvoiceKey)
      invariant Grouped(transactions, data[..i])
    {
      ghost var before := transactions;
      transactions, order := AddLine(transactions, order, data[i]);
      GroupedStep(before, transactions, data[..i], data[i]);
      OrderStep(before, data[..i], data[i]);
      PrefixSnoc(data, i);
      i := i + 1;
    }
    assert data[..i] == data;
  }

  // ---------------------------------------------------------------------
  // The collection as a whole

  /** The sum of the documents' totals, in the given order. */
  function TotalOfDocs(m: map<string, TransactionDoc>, order: seq<string>): real
    requires forall inv :: inv in order ==> inv in m
  {
    if order == [] then 0.0
    else TotalOfDocs(m, order[..|order| - 1]) + m[order[|order| - 1]].totalAmount
  }

  /** One document per distinct invoice number, listed once each. */
  lemma OneDocumentPerInvoice(data: seq<JoinedRow>, m: map<string, TransactionDoc>)
    requires Grouped(m, data)
    ensures Distinct(FirstSeen(data, InvoiceKey))
    ensures |m| == |FirstSeen(data, InvoiceKey)| == |KeysOf(data, InvoiceKey)|
  {
    FirstSeenKeys(data, InvoiceKey);
    FirstSeenCount(data, InvoiceKey);
    MapSize(m, FirstSeen(data, InvoiceKey));
  }

  /** Splitting the rows into invoices loses no amount: the documents' totals add up to all rows' amounts. */
  lemma {:induction false} GrandTotal(data: seq<JoinedRow>, m: map<string, TransactionDoc>)
    requires Grouped(m, data)
    ensures forall inv :: inv in FirstSeen(data, InvoiceKey) ==> inv in m
    ensures TotalOfDocs(m, FirstSeen(data, InvoiceKey)) == SumReal(data, Amount)
  {
    FirstSeenKeys(data, InvoiceKey);
    DocsAsGroups(data, m, FirstSeen(data, InvoiceKey));
    GroupingPreservesSum(data, InvoiceKey, Amount);
  }

  lemma {:induction false} DocsAsGroups(data: seq<JoinedRow>, m: map<string, TransactionDoc>, ks: seq<string>)
    requires Grouped(m, data)
    requires forall inv :: inv in ks ==> inv in m
    ensures TotalOfDocs(m, ks) == GroupSums(ks, data, InvoiceKey, Amount)
  {
    if ks != [] {
      var init, k := ks[..|ks| - 1], ks[|ks| - 1];
      assert forall inv :: inv in init ==> inv in ks;
      DocsAsGroups(data, m, init);
    }
  }
}
