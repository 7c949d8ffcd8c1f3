/**
 * The spreadsheet-to-relational load: each row is normalised, then written
 * with `INSERT OR IGNORE` into the Countries, Customers, Products and
 * Invoices tables (keyed, so the first row for a key fixes its record) and
 * with a plain `INSERT` into InvoiceLines, for at most `MAX_ROWS` rows.
 * The tables are maps from primary key to the rest of the record.
 */
module RelationalLoad {
  import opened Wrappers
  import opened PyText
  import opened Coercion
  import opened Seqs

  /** The processing cap of the load loop. */
  const MAX_ROWS: nat := 1000

  /** One spreadsheet row by column. InvoiceDate arrives already rendered by date parsing. */
  datatype SheetRow = SheetRow(
    invoiceNo: Cell, stockCode: Cell, description: Cell, quantity: Cell,
    invoiceDate: Option<string>, unitPrice: Cell, customerId: Cell, country: Cell)

  /** The values the loader derives from one row before it writes anything. */
  datatype SaleLine = SaleLine(
    invoiceNo: string, stockCode: string, description: string, quantity: int,
    invoiceDate: Option<string>, unitPrice: real, customerId: Option<int>,
    country: Option<string>, cancelled: int, lineTotal: real)

  // ---------------------------------------------------------------------
  // Per-row derivation

  /** `t.lower() == "nan"` holds exactly for the eight spellings of "nan". */
  predicate IsNanSpelling(t: string)
  {
    |t| == 3 && (t[0] == 'n' || t[0] == 'N') && (t[1] == 'a' || t[1] == 'A') && (t[2] == 'n' || t[2] == 'N')
  }

  /** The Country column: trimmed text, or `None` when blank or "nan" in any case. */
  function CountryOf(x: Cell): Option<string>
  {
    var t := Strip(CellText(x));
    if t == "" || Lower(t) == "nan" then None else Some(t)
  }

  lemma LowerIsNan(t: string)
    ensures Lower(t) == "nan" <==> IsNanSpelling(t)
  {
    if |t| == 3 {
      LowerChars(t);
      assert Lower(t) == [AsciiLower(t[0]), AsciiLower(t[1]), AsciiLower(t[2])];
    }
  }

  /**
   * A country is absent exactly when the cell is missing, or is text that
   * is blank or spells "nan"; a number never reads as absent. A present
   * country is non-empty and trimmed.
   */
  lemma CountryAbsence(x: Cell)
    ensures CountryOf(x).None? <==>
              x.Missing? || (x.Text? && (Strip(x.s) == "" || IsNanSpelling(Strip(x.s))))
    ensures CountryOf(x).Some? ==>
              var t := CountryOf(x).value;
              t != "" && !IsSpace(t[0]) && !IsSpace(t[|t| - 1])
  {
    CountryTrimmed(x);
    match x
    case Missing =>
      MissingCountry();
    case IntVal(i) =>
      IntCountry(i);
    case RealVal(d) =>
      FloatCountry(d);
    case Text(s) =>
      TextCountry(s);
  }

  lemma CountryTrimmed(x: Cell)
    ensures CountryOf(x).Some? ==>
              var t := CountryOf(x).value;
              t != "" && !IsSpace(t[0]) && !IsSpace(t[|t| - 1])
  {
  }

  lemma IntCountry(i: int)
    ensures CountryOf(IntVal(i)).Some?
  {
    IntToStringShape(i);
    NumberIsCountry(IntToString(i));
  }

  lemma FloatCountry(d: Decimal)
    ensures CountryOf(RealVal(d)).Some?
  {
    NumberIsCountry(FloatToString(d));
  }

  lemma MissingCountry()
    ensures CountryOf(Missing) == None
  {
    MissingIsNanText();
    NanTextCountry();
  }

  lemma MissingIsNanText()
    ensures CellText(Missing) == "nan"
  {
  }

  lemma NanStrip()
    ensures Strip("nan") == "nan"
  {
    var nan := "nan";
    assert !IsSpace(nan[0]) && !IsSpace(nan[2]);
    StripUnchanged(nan);
  }

  lemma NanTextCountry()
    ensures CountryOf(Text("nan")) == None
  {
    NanStrip();
    TextCountry("nan");
  }

  lemma TextCountry(s: string)
    ensures CountryOf(Text(s)).None? <==> Strip(s) == "" || IsNanSpelling(Strip(s))
    ensures CountryOf(Text(s)).Some? ==> CountryOf(Text(s)).value == Strip(s)
  {
    LowerIsNan(Strip(s));
  }

  /** Text that starts with a sign or digit and ends with a digit is already trimmed and is not "nan". */
  lemma NumberIsCountry(u: string)
    requires u != [] && (u[0] == '-' || IsDigit(u[0])) && IsDigit(u[|u| - 1])
    ensures CountryOf(Text(u)) == Some(u)
  {
    StripUnchanged(u);
    NotNan(u);
    var t := Strip(CellText(Text(u)));
    assert t == u;
    assert CountryOf(Text(u)) == if t == "" || Lower(t) == "nan" then None else Some(t);
  }

  lemma NotNan(u: string)
    requires u != [] && (u[0] == '-' || IsDigit(u[0]))
    ensures Lower(u) != "nan"
  {
    assert Lower(u)[0] == AsciiLower(u[0]) != 'n';
  }

  /** The InvoiceCancelled flag: 1 for an invoice number starting with 'C' or a negative quantity. */
  function Cancelled(invoiceNo: string, quantity: int): (flag: int)
    ensures flag == 0 || flag == 1
  {
    if (|invoiceNo| > 0 && invoiceNo[0] == 'C') || quantity < 0 then 1 else 0
  }

  /** `line_total = qty * price`. */
  function LineTotal(quantity: int, price: real): real
  {
    quantity as real * price
  }

  /** The loop body's derivation of one row's values. */
  function Normalize(row: SheetRow): (l: SaleLine)
    ensures IsTruncation(l.quantity, SafeFloat(row.quantity, 0.0))
    ensures l.unitPrice == SafeFloat(row.unitPrice, 0.0)
    ensures l.customerId == SafeInt(row.customerId, None)
    ensures l.cancelled == 1 <==> (|l.invoiceNo| > 0 && l.invoiceNo[0] == 'C') || l.quantity < 0
    ensures l.lineTotal == LineTotal(l.quantity, l.unitPrice)
  {
    QuantityCoercion(row.quantity);
    var invoiceNo := Strip(CellText(row.invoiceNo));
    var quantity := SafeInt(row.quantity, Some(0)).value;
    var price := SafeFloat(row.unitPrice, 0.0);
    SaleLine(
      invoiceNo, Strip(CellText(row.stockCode)), CellText(row.description), quantity,
      row.invoiceDate, price, SafeInt(row.customerId, None), CountryOf(row.country),
      Cancelled(invoiceNo, quantity), LineTotal(quantity, price))
  }

  /** The derived values of each row, in order. */
  function Normalized(rows: seq<SheetRow>): (ls: seq<SaleLine>)
    ensures |ls| == |rows|
  {
    Mapped(rows, Normalize)
  }

  /** The k-th derived line is the derivation of the k-th row. */
  lemma NormalizedAt(rows: seq<SheetRow>)
    ensures forall k :: 0 <= k < |rows| ==> Normalized(rows)[k] == Normalize(rows[k])
  {
    MappedAt(rows, Normalize);
  }

  // ---------------------------------------------------------------------
  // Tables

  datatype InvoiceRow = InvoiceRow(invoiceDate: Option<string>, customerId: Option<int>, cancelled: int)

  datatype InvoiceLineRow = InvoiceLineRow(
    invoiceNo: string, stockCode: string, quantity: int, unitPrice: real, lineTotal: real)

  /**
   * Countries: CountryName to CountryID, with `countrySeq` the AUTOINCREMENT
   * counter SQLite keeps for it in `sqlite_sequence`. Customers: CustomerID
   * to CountryID. Products: StockCode to Description. Invoices: InvoiceNo to
   * the rest. InvoiceLines in insertion order (InvoiceLineID is the position
   * plus one: its plain inserts never fail).
   */
  datatype Tables = Tables(
    countries: map<string, nat>,
    countrySeq: nat,
    customers: map<int, Option<nat>>,
    products: map<string, string>,
    invoices: map<string, InvoiceRow>,
    invoiceLines: seq<InvoiceLineRow>)

  /** `INSERT OR IGNORE` into a table whose primary key is `k`: an existing record is left alone. */
  function InsertOrIgnore<K, V>(table: map<K, V>, k: K, v: V): map<K, V>
  {
    if k in table then table else table[k := v]
  }

  /** The key is present afterwards; records already there are untouched; a new key gets the given values. */
  lemma InsertOrIgnoreKeeps<K, V>(table: map<K, V>, k: K, v: V)
    ensures InsertOrIgnore(table, k, v).Keys == table.Keys + {k}
    ensures forall j :: j in table ==> InsertOrIgnore(table, k, v)[j] == table[j]
    ensures k !in table ==> InsertOrIgnore(table, k, v)[k] == v
  {
  }

  function InvoiceNoOf(l: SaleLine): string { l.invoiceNo }

  function StockCodeOf(l: SaleLine): string { l.stockCode }

  function DescriptionOf(l: SaleLine): string { l.description }

  function InvoiceRowOf(l: SaleLine): InvoiceRow { InvoiceRow(l.invoiceDate, l.customerId, l.cancelled) }

  function LineRowOf(l: SaleLine): InvoiceLineRow
  {
    InvoiceLineRow(l.invoiceNo, l.stockCode, l.quantity, l.unitPrice, l.lineTotal)
  }

  predicate HasCustomer(l: SaleLine) { l.customerId.Some? }

  function CustomerIdOf(l: SaleLine): int { if l.customerId.Some? then l.customerId.value else 0 }

  predicate HasCountry(l: SaleLine) { l.country.Some? }

  function CountryNameOf(l: SaleLine): string { if l.country.Some? then l.country.value else "" }

  /** The CountryID a Customers record points to, if its country has a row. */
  function CountryIdOf(countries: map<string, nat>, country: Option<string>): Option<nat>
  {
    if country.Some? && country.value in countries then Some(countries[country.value]) else None
  }

  // ---------------------------------------------------------------------
  // What the tables hold after a sequence of rows

  /** A keyed table written with `INSERT OR IGNORE`: one record per key, taken from the first row bearing it. */
  ghost predicate FirstWins<T, K(!new), V>(table: map<K, V>, s: seq<T>, key: T -> K, val: T -> V)
  {
    && table.Keys == KeysOf(s, key)
    && forall k :: k in table ==> Select(s, key, k) != [] && table[k] == val(Select(s, key, k)[0])
  }

  /**
   * Countries after the inserts of the rows `named` that name a country.
   * Each of them draws the next AUTOINCREMENT value before the UNIQUE check
   * on CountryName, so an ignored insert uses up an id too: the counter is
   * the number of those rows, and a country's id is one more than the
   * position of the first of them naming it.
   */
  ghost predicate Numbered(countries: map<string, nat>, counter: nat, named: seq<SaleLine>)
  {
    && counter == |named|
    && countries.Keys == KeysOf(named, CountryNameOf)
    && forall n :: n in countries ==> countries[n] == FirstIndex(named, CountryNameOf, n) + 1
  }

  /** Each customer is recorded with the country of its first row, which has a Countries row. */
  ghost predicate CustomersFrom(customers: map<int, Option<nat>>, owned: seq<SaleLine>, countries: map<string, nat>)
  {
    && customers.Keys == KeysOf(owned, CustomerIdOf)
    && forall c :: c in customers ==>
         && Select(owned, CustomerIdOf, c) != []
         && var first := Select(owned, CustomerIdOf, c)[0];
         && (first.country.Some? ==> first.country.value in countries)
         && customers[c] == CountryIdOf(countries, first.country)
  }

  ghost predicate LoadedFrom(db: Tables, ls: seq<SaleLine>)
  {
    && Numbered(db.countries, db.countrySeq, Where(ls, HasCountry))
    && CustomersFrom(db.customers, Where(ls, HasCustomer), db.countries)
    && FirstWins(db.products, ls, StockCodeOf, DescriptionOf)
    && FirstWins(db.invoices, ls, InvoiceNoOf, InvoiceRowOf)
    && |db.invoiceLines| == |ls|
    && forall i :: 0 <= i < |ls| ==> db.invoiceLines[i] == LineRowOf(ls[i])
  }

  const EmptyTables := Tables(map[], 0, map[], map[], map[], [])

  // ---------------------------------------------------------------------
  // The schema's constraints hold of loaded tables

  /** Every InvoiceLines row points at an Invoices row and a Products row. */
  lemma LinesReferenceTables(db: Tables, ls: seq<SaleLine>)
    requires LoadedFrom(db, ls)
    ensures forall i :: 0 <= i < |db.invoiceLines| ==>
              db.invoiceLines[i].invoiceNo in db.invoices && db.invoiceLines[i].stockCode in db.products
  {
    forall i | 0 <= i < |db.invoiceLines|
      ensures db.invoiceLines[i].invoiceNo in db.invoices && db.invoiceLines[i].stockCode in db.products
    {
      assert InvoiceNoOf(ls[i]) in KeysOf(ls, InvoiceNoOf);
      assert StockCodeOf(ls[i]) in KeysOf(ls, StockCodeOf);
    }
  }

  /** An invoice with a CustomerID points at a Customers row. */
  lemma InvoicesReferenceCustomers(db: Tables, ls: seq<SaleLine>)
    requires LoadedFrom(db, ls)
    ensures forall inv :: inv in db.invoices && db.invoices[inv].customerId.Some? ==>
              db.invoices[inv].customerId.value in db.customers
  {
    forall inv | inv in db.invoices && db.invoices[inv].customerId.Some?
      ensures db.invoices[inv].customerId.value in db.customers
    {
      var x := Select(ls, InvoiceNoOf, inv)[0];
      SelectElements(ls, InvoiceNoOf, inv);
      WhereContains(ls, HasCustomer, x);
      var owned := Where(ls, HasCustomer);
      var j :| 0 <= j < |owned| && owned[j] == x;
      assert CustomerIdOf(owned[j]) in KeysOf(owned, CustomerIdOf);
    }
  }

  /** A customer's CountryID, when present, is the CountryID of a Countries row. */
  lemma CustomersReferenceCountries(db: Tables, ls: seq<SaleLine>)
    requires LoadedFrom(db, ls)
    ensures forall c :: c in db.customers && db.customers[c].Some? ==> db.customers[c].value in db.countries.Values
  {
    forall c | c in db.customers && db.customers[c].Some?
      ensures db.customers[c].value in db.countries.Values
    {
      var first := Select(Where(ls, HasCustomer), CustomerIdOf, c)[0];
      assert db.countries[first.country.value] == db.customers[c].value;
    }
  }

  /**
   * An Invoices record is written by the invoice's first row, and the stored
   * InvoiceCancelled flag is 1 exactly when that row's trimmed number starts
   * with 'C' or its quantity is negative: a later line with a negative
   * quantity does not cancel an invoice that was stored as not cancelled.
   */
  lemma CancelledFromFirstRow(db: Tables, rows: seq<SheetRow>, inv: string)
    requires LoadedFrom(db, Normalized(rows))
    requires inv in db.invoices
    ensures FirstIndex(Normalized(rows), InvoiceNoOf, inv) < |rows|
    ensures var j := FirstIndex(Normalized(rows), InvoiceNoOf, inv);
            var first := Normalize(rows[j]);
            && first.invoiceNo == inv
            && (forall i :: 0 <= i < j ==> Normalize(rows[i]).invoiceNo != inv)
            && db.invoices[inv] == InvoiceRow(first.invoiceDate, first.customerId, first.cancelled)
            && (db.invoices[inv].cancelled == 0 || db.invoices[inv].cancelled == 1)
            && (db.invoices[inv].cancelled == 1 <==> (|inv| > 0 && inv[0] == 'C') || first.quantity < 0)
  {
    var ls := Normalized(rows);
    NormalizedAt(rows);
    SelectHead(ls, InvoiceNoOf, inv);
  }

  /**
   * AUTOINCREMENT: every CountryID lies between 1 and the counter, different
   * countries have different ids, and ids increase in the order in which the
   * countries first occur.
   */
  lemma CountryIdsAreAutoincrement(db: Tables, ls: seq<SaleLine>)
    requires LoadedFrom(db, ls)
    ensures forall n :: n in db.countries ==> 1 <= db.countries[n] <= db.countrySeq
    ensures forall n, m :: n in db.countries && m in db.countries && n != m ==> db.countries[n] != db.countries[m]
    ensures var order := FirstSeen(Where(ls, HasCountry), CountryNameOf);
            && (forall k :: 0 <= k < |order| ==> order[k] in db.countries)
            && forall i, j :: 0 <= i < j < |order| ==> db.countries[order[i]] < db.countries[order[j]]
  {
    CountryIdBounds(db.countries, db.countrySeq, Where(ls, HasCountry));
    CountryIdsDistinct(db.countries, db.countrySeq, Where(ls, HasCountry));
    CountryIdsIncrease(db.countries, db.countrySeq, Where(ls, HasCountry));
  }

  lemma CountryIdBounds(countries: map<string, nat>, counter: nat, named: seq<SaleLine>)
    requires Numbered(countries, counter, named)
    ensures forall n :: n in countries ==> 1 <= countries[n] <= counter
  {
    forall n | n in countries
      ensures countries[n] <= counter
    {
      KeysOfSelect(named, CountryNameOf, n);
    }
  }

  lemma CountryIdsDistinct(countries: map<string, nat>, counter: nat, named: seq<SaleLine>)
    requires Numbered(countries, counter, named)
    ensures forall n, m :: n in countries && m in countries && n != m ==> countries[n] != countries[m]
  {
    forall n, m | n in countries && m in countries && n != m
      ensures countries[n] != countries[m]
    {
      KeysOfSelect(named, CountryNameOf, n);
      KeysOfSelect(named, CountryNameOf, m);
      var i, j := FirstIndex(named, CountryNameOf, n), FirstIndex(named, CountryNameOf, m);
      assert CountryNameOf(named[i]) == n && CountryNameOf(named[j]) == m;
    }
  }

  lemma CountryIdsIncrease(countries: map<string, nat>, counter: nat, named: seq<SaleLine>)
    requires Numbered(countries, counter, named)
    ensures var order := FirstSeen(named, CountryNameOf);
            && (forall k :: 0 <= k < |order| ==> order[k] in countries)
            && forall i, j :: 0 <= i < j < |order| ==> countries[order[i]] < countries[order[j]]
  {
    var order := FirstSeen(named, CountryNameOf);
    FirstSeenKeys(named, CountryNameOf);
    forall i, j | 0 <= i < j < |order|
      ensures countries[order[i]] < countries[order[j]]
    {
      FirstSeenOrder(named, CountryNameOf, i, j);
    }
  }

  /** An ignored insert leaves a gap: after rows naming UK, UK and France, France has CountryID 3. */
  lemma IgnoredCountryUsesAnId(uk: SaleLine, fr: SaleLine)
    requires uk.country == Some("UK") && fr.country == Some("France")
    ensures WriteRow(WriteRow(WriteRow(EmptyTables, uk), uk), fr).countries["France"] == 3
  {
  }

  // ---------------------------------------------------------------------
  // One row's writes keep the tables in step with the rows

  lemma FirstWinsInsert<T, K(!new), V>(table: map<K, V>, s: seq<T>, x: T, key: T -> K, val: T -> V)
    requires FirstWins(table, s, key, val)
    ensures FirstWins(InsertOrIgnore(table, key(x), val(x)), s + [x], key, val)
  {
    var t := InsertOrIgnore(table, key(x), val(x));
    KeysOfAppend(s, x, key);
    forall k | k in t
      ensures Select(s + [x], key, k) != [] && t[k] == val(Select(s + [x], key, k)[0])
    {
      SelectAppend(s, x, key, k);
      KeysOfSelect(s, key, k);
    }
  }

  lemma NumberedInsert(countries: map<string, nat>, named: seq<SaleLine>, x: SaleLine)
    requires Numbered(countries, |named|, named)
    ensures Numbered(InsertOrIgnore(countries, CountryNameOf(x), |named| + 1), |named| + 1, named + [x])
  {
    var t := InsertOrIgnore(countries, CountryNameOf(x), |named| + 1);
    KeysOfAppend(named, x, CountryNameOf);
    forall n | n in t
      ensures t[n] == FirstIndex(named + [x], CountryNameOf, n) + 1
    {
      FirstIndexAppend(named, x, CountryNameOf, n);
      KeysOfSelect(named, CountryNameOf, n);
    }
  }

  lemma CustomersInsert(customers: map<int, Option<nat>>, owned: seq<SaleLine>,
                        countries: map<string, nat>, countries': map<string, nat>, x: SaleLine)
    requires CustomersFrom(customers, owned, countries)
    requires forall n :: n in countries ==> n in countries' && countries'[n] == countries[n]
    requires x.country.Some? ==> x.country.value in countries'
    ensures CustomersFrom(customers, owned, countries')
    ensures CustomersFrom(InsertOrIgnore(customers, CustomerIdOf(x), CountryIdOf(countries', x.country)),
                          owned + [x], countries')
  {
    var t := InsertOrIgnore(customers, CustomerIdOf(x), CountryIdOf(countries', x.country));
    KeysOfAppend(owned, x, CustomerIdOf);
    forall c | c in t
      ensures Select(owned + [x], CustomerIdOf, c) != []
      ensures var first := Select(owned + [x], CustomerIdOf, c)[0];
              && (first.country.Some? ==> first.country.value in countries')
              && t[c] == CountryIdOf(countries', first.country)
    {
      SelectAppend(owned, x, CustomerIdOf, c);
      KeysOfSelect(owned, CustomerIdOf, c);
    }
  }

  lemma NormalizedAppend(rows: seq<SheetRow>, i: nat)
    requires i < |rows|
    ensures Normalized(rows[..i + 1]) == Normalized(rows[..i]) + [Normalize(rows[i])]
  {
    assert rows[..i + 1][..i] == rows[..i];
  }

  /** The records one normalised row writes, table by table, in the loader's order. */
  function WriteRow(db: Tables, l: SaleLine): (r: Tables)
    ensures |r.invoiceLines| == |db.invoiceLines| + 1
    ensures r.invoiceLines[..|db.invoiceLines|] == db.invoiceLines
  {
    var counter := if l.country.Some? then db.countrySeq + 1 else db.countrySeq;
    var countries := if l.country.Some? then InsertOrIgnore(db.countries, l.country.value, counter)
                     else db.countries;
    var customers := if l.customerId.Some?
                     then InsertOrIgnore(db.customers, l.customerId.value, CountryIdOf(countries, l.country))
                     else db.customers;
    Tables(countries, counter, customers,
           InsertOrIgnore(db.products, l.stockCode, l.description),
           InsertOrIgnore(db.invoices, l.invoiceNo, InvoiceRowOf(l)),
           db.invoiceLines + [LineRowOf(l)])
  }

  /** Writing one more row keeps every table in step with the rows seen so far. */
  lemma WriteRowLoads(db: Tables, ls: seq<SaleLine>, l: SaleLine)
    requires LoadedFrom(db, ls)
    ensures LoadedFrom(WriteRow(db, l), ls + [l])
  {
    CountriesStep(db, ls, l);
    CustomersStep(db, ls, l);
    FirstWinsInsert(db.products, ls, l, StockCodeOf, DescriptionOf);
    FirstWinsInsert(db.invoices, ls, l, InvoiceNoOf, InvoiceRowOf);
    LinesStep(db, ls, l);
  }

  lemma CountriesStep(db: Tables, ls: seq<SaleLine>, l: SaleLine)
    requires Numbered(db.countries, db.countrySeq, Where(ls, HasCountry))
    ensures Numbered(WriteRow(db, l).countries, WriteRow(db, l).countrySeq, Where(ls + [l], HasCountry))
  {
    WhereAppend(ls, l, HasCountry);
    if l.country.Some? {
      NumberedInsert(db.countries, Where(ls, HasCountry), l);
      assert Where(ls + [l], HasCountry) == Where(ls, HasCountry) + [l];
      assert WriteRow(db, l).countries == InsertOrIgnore(db.countries, CountryNameOf(l), db.countrySeq + 1);
    } else {
      assert Where(ls + [l], HasCountry) == Where(ls, HasCountry);
      assert WriteRow(db, l).countries == db.countries;
    }
  }

  lemma CustomersStep(db: Tables, ls: seq<SaleLine>, l: SaleLine)
    requires CustomersFrom(db.customers, Where(ls, HasCustomer), db.countries)
    ensures CustomersFrom(WriteRow(db, l).customers, Where(ls + [l], HasCustomer), WriteRow(db, l).countries)
  {
    var r := WriteRow(db, l);
    WhereAppend(ls, l, HasCustomer);
    CountriesAfter(db, l);
    CustomersInsert(db.customers, Where(ls, HasCustomer), db.countries, r.countries, l);
    if l.customerId.Some? {
      assert Where(ls + [l], HasCustomer) == Where(ls, HasCustomer) + [l];
      assert r.customers == InsertOrIgnore(db.customers, CustomerIdOf(l), CountryIdOf(r.countries, l.country));
    } else {
      assert Where(ls + [l], HasCustomer) == Where(ls, HasCustomer);
      assert r.customers == db.customers;
    }
  }

  lemma LinesStep(db: Tables, ls: seq<SaleLine>, l: SaleLine)
    requires |db.invoiceLines| == |ls|
    requires forall i :: 0 <= i < |ls| ==> db.invoiceLines[i] == LineRowOf(ls[i])
    ensures |WriteRow(db, l).invoiceLines| == |ls + [l]|
    ensures forall i :: 0 <= i < |ls + [l]| ==> WriteRow(db, l).invoiceLines[i] == LineRowOf((ls + [l])[i])
  {
    var r := WriteRow(db, l);
    forall i | 0 <= i < |ls + [l]|
      ensures r.invoiceLines[i] == LineRowOf((ls + [l])[i])
    {
      if i < |ls| {
        assert r.invoiceLines[i] == db.invoiceLines[i];
      }
    }
  }

  /** The Countries table only grows, and a row's own country has a record once the row is written. */
  lemma CountriesAfter(db: Tables, l: SaleLine)
    ensures forall n :: n in db.countries ==>
              n in WriteRow(db, l).countries && WriteRow(db, l).countries[n] == db.countries[n]
    ensures l.country.Some? ==> l.country.value in WriteRow(db, l).countries
  {
  }

  /** The statements of one loop iteration that write a row's records. */
  method StoreRow(db0: Tables, l: SaleLine) returns (db: Tables)
    ensures db == WriteRow(db0, l)
  {
    db := db0;
    // Countries
    var countryId: Option<nat> := None;
    if l.country.Some? {
      // the id is drawn before the UNIQUE check can ignore the insert
      db := db.(countrySeq := db.countrySeq + 1);
      db := db.(countries := InsertOrIgnore(db.countries, l.country.value, db.countrySeq));
      countryId := if l.country.value in db.countries then Some(db.countries[l.country.value]) else None;
    }
    // Customers
    if l.customerId.Some? {
      db := db.(customers := InsertOrIgnore(db.customers, l.customerId.value, countryId));
    }
    // Products
    db := db.(products := InsertOrIgnore(db.products, l.stockCode, l.description));
    // Invoices
    db := db.(invoices := InsertOrIgnore(db.invoices, l.invoiceNo, InvoiceRow(l.invoiceDate, l.customerId, l.cancelled)));
    // InvoiceLines
    db := db.(invoiceLines := db.invoiceLines + [LineRowOf(l)]);
  }

  // ---------------------------------------------------------------------
  // The load loop

  /** The range of an SQLite INTEGER, which sqlite3 checks when it binds a Python int. */
  predicate FitsInt64(n: int) { -0x8000_0000_0000_0000 <= n <= 0x7FFF_FFFF_FFFF_FFFF }

  /** Whether the row's integer parameters (CustomerID and Quantity) can be bound. */
  predicate Bindable(l: SaleLine)
  {
    FitsInt64(l.quantity) && (l.customerId.Some? ==> FitsInt64(l.customerId.value))
  }

  /** The number of rows the loop reaches before its `MAX_ROWS` check stops it. */
  function Reached(rows: seq<SheetRow>): nat
  {
    if |rows| < MAX_ROWS then |rows| else MAX_ROWS
  }

  /** The first `n` rows can all be bound. */
  predicate BindablePrefix(rows: seq<SheetRow>, n: nat)
    requires n <= |rows|
  {
    forall j :: 0 <= j < n ==> Bindable(Normalize(rows[j]))
  }

  lemma BindablePrefixStep(rows: seq<SheetRow>, i: nat)
    requires i < |rows| && BindablePrefix(rows, i)
    ensures BindablePrefix(rows, i + 1) <==> Bindable(Normalize(rows[i]))
  {
  }

  /** A row the loop reaches that cannot be bound spoils every longer prefix. */
  lemma RaisedBeforeLimit(rows: seq<SheetRow>, i: nat)
    requires i < Reached(rows) && !Bindable(Normalize(rows[i]))
    ensures !BindablePrefix(rows, Reached(rows))
  {
  }

  /**
   * How the load ends: committed with `inserted` lines, or with the
   * OverflowError of the row at `at`, raised before `commit`, so that the
   * database keeps only the empty tables committed after the schema.
   */
  datatype LoadOutcome = Committed(db: Tables, inserted: nat) | Raised(at: nat)

  /** One pass of the loop body for the row at `i`: its records are written. */
  method LoadRow(db0: Tables, rows: seq<SheetRow>, i: nat) returns (db: Tables)
    requires i < |rows| && LoadedFrom(db0, Normalized(rows[..i]))
    ensures LoadedFrom(db, Normalized(rows[..i + 1]))
  {
    var l := Normalize(rows[i]);
    db := StoreRow(db0, l);
    WriteRowLoads(db0, Normalized(rows[..i]), l);
    NormalizedAppend(rows, i);
  }

  /**
   * The loader's main loop over `rows` (the tables start out empty): stops
   * after `MAX_ROWS` rows, and `inserted` counts the InvoiceLines rows
   * written; a row whose CustomerID or Quantity has no SQLite INTEGER
   * raises instead.
   */
  method Load(rows: seq<SheetRow>) returns (outcome: LoadOutcome)
    ensures outcome.Raised? <==> !BindablePrefix(rows, Reached(rows))
    ensures outcome.Raised? ==>
              && outcome.at < Reached(rows)
              && !Bindable(Normalize(rows[outcome.at]))
              && BindablePrefix(rows, outcome.at)
    ensures outcome.Committed? ==>
              && outcome.inserted == Reached(rows)
              && |outcome.db.invoiceLines| == outcome.inserted
              && LoadedFrom(outcome.db, Normalized(rows[..outcome.inserted]))
  {
    var db := EmptyTables;
    var inserted := 0;
    var i := 0;
    while i < |rows|
      invariant i == inserted <= MAX_ROWS && i <= |rows|
      invariant LoadedFrom(db, Normalized(rows[..i]))
      invariant BindablePrefix(rows, i)
    {
      if inserted >= MAX_ROWS {
        break;
      }
      BindablePrefixStep(rows, i);
      if !Bindable(Normalize(rows[i])) {
        RaisedBeforeLimit(rows, i);
        return Raised(i);
      }
      db := LoadRow(db, rows, i);
      inserted := inserted + 1;
      i := i + 1;
    }
    return Committed(db, inserted);
  }
}
