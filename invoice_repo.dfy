/**
 * The invoice repository: creating an invoice with its line items inside
 * one transaction, and the two reads, both of which inner-join the
 * invoice's customer to report its name.
 */
module InvoiceRepo {
  import opened Common
  import opened Models
  import opened Seqs
  import opened Db

  /**
   * Which step of `CreateInvoice`, if any, the driver fails: `db.Begin`, the
   * header insert, `tx.Prepare`, the insert of the item at `index`, or the commit.
   */
  datatype TxFault = NoFault | FailBegin | FailHeaderInsert | FailPrepare | FailItemInsert(index: nat) | FailCommit

  /** The row inserted for one line item: its own fresh id, and the invoice's id. */
  function ItemRow(item: InvoiceItem, itemId: string, invoiceId: string): InvoiceItem {
    item.(id := itemId, invoiceId := invoiceId)
  }

  function ItemRows(items: seq<InvoiceItem>, itemIds: seq<string>, invoiceId: string): (rows: seq<InvoiceItem>)
    requires |itemIds| == |items|
    ensures |rows| == |items|
    ensures forall k :: 0 <= k < |items| ==> rows[k] == ItemRow(items[k], itemIds[k], invoiceId)
  {
    seq(|items|, k requires 0 <= k < |items| => ItemRow(items[k], itemIds[k], invoiceId))
  }

  /** The item ids are new to the table and pairwise distinct. */
  predicate FreshItemIds(t: seq<InvoiceItem>, itemIds: seq<string>) {
    && (forall i :: 0 <= i < |itemIds| ==> !HasKey(t, ItemKey, itemIds[i]))
    && (forall i, j :: 0 <= i < j < |itemIds| ==> itemIds[i] != itemIds[j])
  }

  /** A fault that the run over `n` items reaches. */
  predicate Fires(fault: TxFault, n: nat) {
    !fault.NoFault? && !(fault.FailItemInsert? && fault.index >= n)
  }

  /** When the whole transaction commits: no step fails and every new id is free. */
  predicate CreateSucceeds(invoices: seq<Invoice>, itemTable: seq<InvoiceItem>, invoiceId: string, itemIds: seq<string>,
                           fault: TxFault)
  {
    && !Fires(fault, |itemIds|)
    && !HasKey(invoices, InvoiceKey, invoiceId)
    && FreshItemIds(itemTable, itemIds)
  }

  /** After inserting the first rows, an id is taken when the table or an earlier row holds it. */
  lemma ItemKeyAfterRows(t: seq<InvoiceItem>, items: seq<InvoiceItem>, itemIds: seq<string>, invoiceId: string, x: string)
    requires |itemIds| == |items|
    ensures HasKey(t + ItemRows(items, itemIds, invoiceId), ItemKey, x)
        <==> HasKey(t, ItemKey, x) || x in itemIds
  {
    var s := t + ItemRows(items, itemIds, invoiceId);
    if x in itemIds {
      var j :| 0 <= j < |itemIds| && itemIds[j] == x;
      assert ItemKey(s[|t| + j]) == x;
    }
    if HasKey(t, ItemKey, x) {
      var j :| 0 <= j < |t| && ItemKey(t[j]) == x;
      assert ItemKey(s[j]) == x;
    }
    if HasKey(s, ItemKey, x) {
      var j :| 0 <= j < |s| && ItemKey(s[j]) == x;
      if j >= |t| {
        assert itemIds[j - |t|] == x;
      } else {
        assert ItemKey(t[j]) == x;
      }
    }
  }

  lemma ItemRowsAppend(items: seq<InvoiceItem>, itemIds: seq<string>, invoiceId: string, k: nat)
    requires |itemIds| == |items| && k < |items|
    ensures ItemRows(items[..k + 1], itemIds[..k + 1], invoiceId)
         == ItemRows(items[..k], itemIds[..k], invoiceId) + [ItemRow(items[k], itemIds[k], invoiceId)]
  {
  }

  /** An id already in the table, or taken by an earlier item, makes the ids not fresh. */
  lemma TakenItemId(t: seq<InvoiceItem>, itemIds: seq<string>, k: nat)
    requires k < |itemIds|
    requires HasKey(t, ItemKey, itemIds[k]) || itemIds[k] in itemIds[..k]
    ensures !FreshItemIds(t, itemIds)
  {
    if itemIds[k] in itemIds[..k] {
      var j :| 0 <= j < k && itemIds[..k][j] == itemIds[k];
      assert itemIds[j] == itemIds[k];
    }
  }

  /** A free id that no earlier item took keeps the ids fresh. */
  lemma FreshItemIdsStep(t: seq<InvoiceItem>, itemIds: seq<string>, k: nat)
    requires k < |itemIds|
    requires FreshItemIds(t, itemIds[..k])
    requires !HasKey(t, ItemKey, itemIds[k]) && itemIds[k] !in itemIds[..k]
    ensures FreshItemIds(t, itemIds[..k + 1])
  {
    assert itemIds[..k + 1] == itemIds[..k] + [itemIds[k]];
  }

  /**
   * `CreateInvoice`: inside one transaction, gives the invoice a new id,
   * inserts its header, then one row per item in input order, and commits.
   * Any failure returns an error after the deferred rollback has removed
   * everything the transaction wrote. `stamped` is the caller's invoice as
   * the repository leaves it: with the new id once the transaction has begun.
   */
  method CreateInvoice(db: Database, invoice: Invoice, items: seq<InvoiceItem>, invoiceId: string, itemIds: seq<string>,
                       fault: TxFault)
    returns (stamped: Invoice, r: Result<Invoice, DbError>)
    requires db.Valid()
    requires |itemIds| == |items|
    modifies db
    ensures db.Valid()
    ensures stamped == if fault == FailBegin then invoice else invoice.(id := invoiceId)
    ensures r.Ok? <==> CreateSucceeds(old(db.invoices), old(db.items), invoiceId, itemIds, fault)
    ensures r.Ok? ==> r.value == stamped
    ensures r.Ok? ==> (&& db.invoices == old(db.invoices) + [HeaderRow(stamped)]
                       && db.items == old(db.items) + ItemRows(items, itemIds, invoiceId))
    ensures r.Err? ==> db.invoices == old(db.invoices) && db.items == old(db.items)
    ensures db.customers == old(db.customers) && db.products == old(db.products)
  {
    if fault == FailBegin {
      return invoice, Err(DriverError);
    }
    var tx := new Tx.Begin(db);
    stamped := invoice.(id := invoiceId);
    var err := tx.InsertInvoice(HeaderRow(stamped), fault == FailHeaderInsert);
    if err.Some? {
      tx.Rollback();
      return stamped, Err(err.value);
    }
    if fault == FailPrepare {
      tx.Rollback();
      return stamped, Err(DriverError);
    }
    for k := 0 to |items|
      invariant tx.Valid() && !tx.done && tx.db == db
      invariant tx.invoicesAtBegin == old(db.invoices) && tx.itemsAtBegin == old(db.items)
      invariant db.customers == old(db.customers) && db.products == old(db.products)
      invariant db.invoices == old(db.invoices) + [HeaderRow(stamped)]
      invariant db.items == old(db.items) + ItemRows(items[..k], itemIds[..k], invoiceId)
      invariant FreshItemIds(old(db.items), itemIds[..k])
      invariant forall j :: 0 <= j < k ==> fault != FailItemInsert(j)
    {
      ItemKeyAfterRows(old(db.items), items[..k], itemIds[..k], invoiceId, itemIds[k]);
      ItemRowsAppend(items, itemIds, invoiceId, k);
      err := tx.InsertItem(ItemRow(items[k], itemIds[k], invoiceId), fault == FailItemInsert(k));
      if err.Some? {
        tx.Rollback();
        if fault != FailItemInsert(k) {
          TakenItemId(old(db.items), itemIds, k);
        }
        return stamped, Err(err.value);
      }
      FreshItemIdsStep(old(db.items), itemIds, k);
    }
    assert items[..|items|] == items && itemIds[..|itemIds|] == itemIds;
    err := tx.Commit(fault == FailCommit);
    tx.Rollback();
    if err.Some? {
      return stamped, Err(err.value);
    }
    return stamped, Ok(stamped);
  }

  /**
   * On success the store gains one header and exactly one row per item, in
   * input order, each carrying the new invoice's id and its own new id, and
   * copying the item's product, description, quantity and prices.
   */
  lemma CreatedRowsMeaning(t: seq<InvoiceItem>, items: seq<InvoiceItem>, itemIds: seq<string>, invoiceId: string)
    requires |itemIds| == |items|
    ensures var s := t + ItemRows(items, itemIds, invoiceId);
      && |s| == |t| + |items|
      && forall k :: 0 <= k < |items| ==>
           var row := s[|t| + k];
           && row.id == itemIds[k] && row.invoiceId == invoiceId
           && row.productId == items[k].productId && row.description == items[k].description
           && row.quantity == items[k].quantity && row.unitPrice == items[k].unitPrice
           && row.totalPrice == items[k].totalPrice
  {
  }

  // ---------------------------------------------------------------------------
  // Reads.

  /** The columns `GetInvoiceByID` scans from the joined row: the whole header and the customer's name. */
  function ScannedHeader(row: Invoice): Invoice {
    row.(items := Nil)
  }

  /** The item columns `GetInvoiceByID` scans: every one but `invoice_id`. */
  function ScannedItem(row: InvoiceItem): InvoiceItem {
    row.(invoiceId := "")
  }

  /**
   * `SELECT ... FROM invoices i JOIN customers c ON i.customer_id = c.id
   * WHERE i.id = ? AND i.company_id = ?`: the first joined row that matches.
   */
  function FindInvoice(db: Database, invoiceId: string, companyId: string): Option<Invoice>
    reads db
  {
    FirstWhere(JoinAll(db.invoices, db.customers), (i: Invoice) => i.id == invoiceId && i.companyId == companyId)
  }

  /** What the lookup finds is a stored invoice of that id and company, with its existing customer's name. */
  lemma FindInvoiceSound(db: Database, invoiceId: string, companyId: string)
    ensures var r := FindInvoice(db, invoiceId, companyId);
      r.Some? ==> && r.value.id == invoiceId && r.value.companyId == companyId
                  && (exists k :: 0 <= k < |db.invoices| && JoinCustomer(db.invoices[k], db.customers) == r)
                  && exists c :: 0 <= c < |db.customers| && db.customers[c].id == r.value.customerId
                                 && db.customers[c].name == r.value.customerName
  {
    var r := FindInvoice(db, invoiceId, companyId);
    JoinAllMeaning(db.invoices, db.customers);
    if r.Some? {
      assert r.value in JoinAll(db.invoices, db.customers);
      var i :| i in db.invoices && JoinCustomer(i, db.customers) == Some(r.value);
      var k :| 0 <= k < |db.invoices| && db.invoices[k] == i;
    }
  }

  /** An invoice stored with that id and company, whose customer exists, is found. */
  lemma FindInvoiceComplete(db: Database, invoiceId: string, companyId: string, k: int)
    requires 0 <= k < |db.invoices| && db.invoices[k].id == invoiceId && db.invoices[k].companyId == companyId
    requires JoinCustomer(db.invoices[k], db.customers).Some?
    ensures FindInvoice(db, invoiceId, companyId).Some?
  {
    var joined := JoinAll(db.invoices, db.customers);
    var p := (i: Invoice) => i.id == invoiceId && i.companyId == companyId;
    JoinAllMeaning(db.invoices, db.customers);
    var x := JoinCustomer(db.invoices[k], db.customers).value;
    assert db.invoices[k] in db.invoices;
    assert x in joined;
    var m :| 0 <= m < |joined| && joined[m] == x;
    assert p(joined[m]);
  }

  /**
   * The lookup finds an invoice exactly when one is stored with that id in that
   * company and its customer still exists; what it finds is that invoice with
   * its customer's name.
   */
  lemma FindInvoiceMeaning(db: Database, invoiceId: string, companyId: string)
    ensures var r := FindInvoice(db, invoiceId, companyId);
      && (r.Some? <==> exists k :: 0 <= k < |db.invoices| && db.invoices[k].id == invoiceId
                                   && db.invoices[k].companyId == companyId
                                   && JoinCustomer(db.invoices[k], db.customers).Some?)
      && (r.Some? ==> r.value.id == invoiceId && r.value.companyId == companyId
                      && exists c :: 0 <= c < |db.customers| && db.customers[c].id == r.value.customerId
                                     && db.customers[c].name == r.value.customerName)
  {
    FindInvoiceSound(db, invoiceId, companyId);
    if exists k :: 0 <= k < |db.invoices| && db.invoices[k].id == invoiceId && db.invoices[k].companyId == companyId
                   && JoinCustomer(db.invoices[k], db.customers).Some? {
      var k :| 0 <= k < |db.invoices| && db.invoices[k].id == invoiceId && db.invoices[k].companyId == companyId
               && JoinCustomer(db.invoices[k], db.customers).Some?;
      FindInvoiceComplete(db, invoiceId, companyId, k);
    }
  }

  /** The items of a scanned invoice: nil when there are none, as the row loop starts from a nil slice. */
  function ScannedItems(rows: seq<InvoiceItem>): (r: Slice<InvoiceItem>)
    ensures r.Nil? <==> rows == []
    ensures |r.Elems()| == |rows|
    ensures forall k :: 0 <= k < |rows| ==> r.Elems()[k] == ScannedItem(rows[k])
  {
    if rows == [] then Nil else Made(seq(|rows|, k requires 0 <= k < |rows| => ScannedItem(rows[k])))
  }

  /**
   * `GetInvoiceByID`: the invoice with that id in the caller's company, with
   * its customer's name and every item row stored under that id.
   * `headerFault` and `itemsFault` are driver failures of the two queries.
   */
  method GetInvoiceByID(db: Database, invoiceId: string, companyId: string, headerFault: bool, itemsFault: bool)
    returns (r: Result<Invoice, DbError>)
    ensures headerFault ==> r == Err(DriverError)
    ensures !headerFault && FindInvoice(db, invoiceId, companyId).None? ==> r == Err(ErrNoRows)
    ensures !headerFault && FindInvoice(db, invoiceId, companyId).Some? && itemsFault ==> r == Err(DriverError)
    ensures r.Ok? ==> (&& FindInvoice(db, invoiceId, companyId).Some?
                       && r.value == ScannedHeader(FindInvoice(db, invoiceId, companyId).value)
                                       .(items := ScannedItems(ItemsOf(db.items, invoiceId))))
    ensures !headerFault && !itemsFault && FindInvoice(db, invoiceId, companyId).Some? ==> r.Ok?
  {
    if headerFault {
      return Err(DriverError);
    }
    var header := FindInvoice(db, invoiceId, companyId);
    if header.None? {
      return Err(ErrNoRows);
    }
    var invoice := ScannedHeader(header.value);
    if itemsFault {
      return Err(DriverError);
    }
    var items := ScanItems(ItemsOf(db.items, invoiceId));
    return Ok(invoice.(items := items));
  }

  /** The `rows.Next()` loop of `GetInvoiceByID`: appends each scanned item to a slice that starts nil. */
  method ScanItems(rows: seq<InvoiceItem>) returns (items: Slice<InvoiceItem>)
    ensures items == ScannedItems(rows)
  {
    items := Nil;
    for k := 0 to |rows|
      invariant items.Nil? <==> k == 0
      invariant |items.Elems()| == k
      invariant forall j :: 0 <= j < k ==> items.Elems()[j] == ScannedItem(rows[j])
    {
      items := items.Append(ScannedItem(rows[k]));
    }
  }

  /** The items returned are exactly the stored rows of that invoice, in storage order. */
  lemma ItemsOfMeaning(t: seq<InvoiceItem>, invoiceId: string)
    ensures var rows := ItemsOf(t, invoiceId);
      && (forall k :: 0 <= k < |rows| ==> rows[k] in t && rows[k].invoiceId == invoiceId)
      && (forall k :: 0 <= k < |t| && t[k].invoiceId == invoiceId ==> t[k] in rows)
      && (forall x: InvoiceItem :: multiset(rows)[x] == if x.invoiceId == invoiceId then multiset(t)[x] else 0)
  {
    forall x: InvoiceItem ensures multiset(ItemsOf(t, invoiceId))[x] == if x.invoiceId == invoiceId then multiset(t)[x] else 0 {
      FilterMultiset(t, (it: InvoiceItem) => it.invoiceId == invoiceId, x);
    }
  }

  /** The summary columns `GetInvoicesByCompanyID` scans. */
  function ListedInvoice(row: Invoice): Invoice {
    EmptyInvoice.(id := row.id, invoiceNumber := row.invoiceNumber, issueDate := row.issueDate, total := row.total,
                  status := row.status, customerName := row.customerName)
  }

  /**
   * `GetInvoicesByCompanyID`: the company's invoices with a customer, latest
   * issue date first. The list starts nil, so a company without invoices gets nil.
   */
  method GetInvoicesByCompanyID(db: Database, companyId: string, fault: bool)
    returns (r: Result<Slice<Invoice>, DbError>)
    ensures r.Err? <==> fault
    ensures r.Err? ==> r.error == DriverError
    ensures r.Ok? ==> var rows := InvoicesOfCompany(db.invoices, db.customers, companyId);
      && (r.value.Nil? <==> rows == [])
      && |r.value.Elems()| == |rows|
      && forall k :: 0 <= k < |rows| ==> r.value.Elems()[k] == ListedInvoice(rows[k])
  {
    if fault {
      return Err(DriverError);
    }
    var invoices := ScanListed(InvoicesOfCompany(db.invoices, db.customers, companyId));
    return Ok(invoices);
  }

  /** The `rows.Next()` loop of `GetInvoicesByCompanyID`: appends each row's summary to a slice that starts nil. */
  method ScanListed(rows: seq<Invoice>) returns (invoices: Slice<Invoice>)
    ensures invoices.Nil? <==> rows == []
    ensures |invoices.Elems()| == |rows|
    ensures forall k :: 0 <= k < |rows| ==> invoices.Elems()[k] == ListedInvoice(rows[k])
  {
    invoices := Nil;
    for k := 0 to |rows|
      invariant invoices.Nil? <==> k == 0
      invariant |invoices.Elems()| == k
      invariant forall j :: 0 <= j < k ==> invoices.Elems()[j] == ListedInvoice(rows[j])
    {
      invoices := invoices.Append(ListedInvoice(rows[k]));
    }
  }

  /** One row of the join over the company's invoices, read back. */
  lemma JoinedRowMeaning(invs: seq<Invoice>, customers: seq<Customer>, companyId: string, x: Invoice)
    requires x in JoinAll(Filter(invs, (i: Invoice) => i.companyId == companyId), customers)
    ensures x.companyId == companyId
    ensures exists i :: i in invs && x == i.(customerName := x.customerName)
    ensures exists c :: 0 <= c < |customers| && customers[c].id == x.customerId
                        && customers[c].name == x.customerName
  {
    var kept := Filter(invs, (i: Invoice) => i.companyId == companyId);
    JoinAllMeaning(kept, customers);
    var i :| i in kept && JoinCustomer(i, customers) == Some(x);
    var m :| 0 <= m < |kept| && kept[m] == i;
  }

  /**
   * Every row the listing's SELECT returns is one of the company's stored
   * invoices with its customer's name, and that customer exists.
   */
  lemma InvoicesOfCompanySound(invs: seq<Invoice>, customers: seq<Customer>, companyId: string)
    ensures var rows := InvoicesOfCompany(invs, customers, companyId);
      forall k :: 0 <= k < |rows| ==>
        && rows[k].companyId == companyId
        && (exists i :: i in invs && rows[k] == i.(customerName := rows[k].customerName))
        && exists c :: 0 <= c < |customers| && customers[c].id == rows[k].customerId
                       && customers[c].name == rows[k].customerName
  {
    var joined := JoinAll(Filter(invs, (i: Invoice) => i.companyId == companyId), customers);
    var rows := SortBy(joined, IssuedLaterFirst);
    forall k | 0 <= k < |rows|
      ensures rows[k].companyId == companyId
      ensures exists i :: i in invs && rows[k] == i.(customerName := rows[k].customerName)
      ensures exists c :: 0 <= c < |customers| && customers[c].id == rows[k].customerId
                          && customers[c].name == rows[k].customerName
    {
      assert rows[k] in multiset(rows);
      JoinedRowMeaning(invs, customers, companyId, rows[k]);
    }
  }

  /**
   * Every stored invoice of the company whose customer exists is listed, and
   * the list comes latest issue date first.
   */
  lemma InvoicesOfCompanyComplete(invs: seq<Invoice>, customers: seq<Customer>, companyId: string)
    ensures SortedBy(InvoicesOfCompany(invs, customers, companyId), IssuedLaterFirst)
    ensures forall k :: 0 <= k < |invs| && invs[k].companyId == companyId && JoinCustomer(invs[k], customers).Some?
                        ==> JoinCustomer(invs[k], customers).value in InvoicesOfCompany(invs, customers, companyId)
  {
    var kept := Filter(invs, (i: Invoice) => i.companyId == companyId);
    var joined := JoinAll(kept, customers);
    JoinAllMeaning(kept, customers);
    forall k | 0 <= k < |invs| && invs[k].companyId == companyId && JoinCustomer(invs[k], customers).Some?
      ensures JoinCustomer(invs[k], customers).value in InvoicesOfCompany(invs, customers, companyId)
    {
      var x := JoinCustomer(invs[k], customers).value;
      assert invs[k] in kept;
      assert x in joined;
      assert x in multiset(joined);
    }
    OrdersArePreorders();
    SortBySorted(joined, IssuedLaterFirst);
  }
}
