/**
 * The invoice service: point-of-sale invoice creation and the two reads.
 *
 * `CreateInvoice` finds (or creates) the company's walk-in customer, prices
 * every requested line from the company's own products, totals the lines,
 * adds a fixed 10% tax, rounds the three amounts to cents independently and
 * hands a `paid` header with the lines to the invoice repository.
 */
module InvoiceService {
  import opened Common
  import opened Models
  import opened Seqs
  import opened Text
  import opened Db
  import opened Money
  import opened AppErrors
  import CustomerRepo
  import ProductRepo
  import InvoiceRepo

  /** The name of the customer every point-of-sale invoice is billed to. */
  const WalkInName := "Khách vãng lai"

  const TaxRate: real := 0.10

  /**
   * What the service takes from its surroundings: which driver calls fail,
   * the ids `uuid.New()` hands out and the instants `time.Now()` reads.
   * `productFaults` holds the positions of the request lines whose product
   * lookup fails in the driver.
   */
  datatype Env = Env(
    walkInLookupFault: bool,
    walkInId: string,
    walkInNow: Time,
    walkInInsertFault: bool,
    productFaults: set<nat>,
    numberClock: Time,
    issueClock: Time,
    dueClock: Time,
    invoiceId: string,
    itemIds: seq<string>,
    txFault: InvoiceRepo.TxFault)

  /** The customer the service creates when the company has no walk-in customer yet. */
  function WalkInCustomer(companyId: string): Customer {
    EmptyCustomer.(name := WalkInName, companyId := companyId)
  }

  /** Whether the lookup reported no walk-in customer and creating one then succeeds. */
  predicate CreatesWalkIn(found: Result<Customer, DbError>, customers: seq<Customer>, env: Env) {
    found == Err(ErrNoRows) && !env.walkInInsertFault && !HasKey(customers, CustomerKey, env.walkInId)
  }

  /** The customer the invoice is billed to, given what the walk-in lookup found. */
  function WalkIn(found: Result<Customer, DbError>, customers: seq<Customer>, companyId: string, env: Env)
    : Result<Customer, AppError>
  {
    if found.Ok? then Ok(found.value)
    else if CreatesWalkIn(found, customers, env) then Ok(WalkInCustomer(companyId).(id := env.walkInId))
    else Err(ErrInternalServerError)
  }

  /** The customer rows the walk-in step adds. */
  function WalkInRows(found: Result<Customer, DbError>, customers: seq<Customer>, companyId: string, env: Env)
    : seq<Customer>
  {
    if CreatesWalkIn(found, customers, env)
    then [CustomerRepo.StoredCustomer(WalkInCustomer(companyId).(id := env.walkInId), env.walkInNow)]
    else []
  }

  /**
   * Whoever the invoice is billed to is a customer of the company named
   * "Khách vãng lai" that the store holds afterwards; an existing one is the
   * first such row, and one is created only when the lookup found none.
   */
  lemma WalkInMeaning(db: Database, companyId: string, env: Env)
    ensures var customers := db.customers;
      var found := CustomerRepo.FindCustomerByName(db, WalkInName, companyId, env.walkInLookupFault);
      var w := WalkIn(found, customers, companyId, env);
      var after := customers + WalkInRows(found, customers, companyId, env);
      && (w.Ok? ==> w.value.name == WalkInName && w.value.companyId == companyId
                    && exists k :: 0 <= k < |after| && after[k].id == w.value.id
                                   && after[k].name == WalkInName && after[k].companyId == companyId)
      && (w.Ok? && (exists k :: 0 <= k < |customers| && customers[k].name == WalkInName
                                && customers[k].companyId == companyId)
          ==> after == customers)
      && (w.Err? <==> env.walkInLookupFault
                      || (found == Err(ErrNoRows) && (env.walkInInsertFault || HasKey(customers, CustomerKey, env.walkInId))))
      && (w.Err? ==> w.error == ErrInternalServerError && after == customers)
  {
    var customers := db.customers;
    var found := CustomerRepo.FindCustomerByName(db, WalkInName, companyId, env.walkInLookupFault);
    var after := customers + WalkInRows(found, customers, companyId, env);
    if found.Ok? {
      var k :| 0 <= k < |customers| && customers[k].name == WalkInName && customers[k].companyId == companyId
               && found.value == CustomerRepo.ScannedCustomer(customers[k]);
      assert after[k] == customers[k];
    } else if CreatesWalkIn(found, customers, env) {
      assert after[|customers|].id == env.walkInId;
    }
  }

  /**
   * The walk-in step of `CreateInvoice`: looks the customer up by name in the
   * company and creates it on `sql.ErrNoRows`; any other failure is a 500.
   */
  method ResolveWalkIn(db: Database, companyId: string, env: Env) returns (r: Result<Customer, AppError>)
    requires db.Valid()
    modifies db
    ensures db.Valid()
    ensures var found := old(CustomerRepo.FindCustomerByName(db, WalkInName, companyId, env.walkInLookupFault));
      && r == WalkIn(found, old(db.customers), companyId, env)
      && db.customers == old(db.customers) + WalkInRows(found, old(db.customers), companyId, env)
    ensures db.products == old(db.products) && db.invoices == old(db.invoices) && db.items == old(db.items)
  {
    var found := CustomerRepo.FindCustomerByName(db, WalkInName, companyId, env.walkInLookupFault);
    if found.Err? {
      if found.error == ErrNoRows {
        var created, err := CustomerRepo.CreateCustomer(db, WalkInCustomer(companyId), env.walkInId, env.walkInNow,
                                                        env.walkInInsertFault);
        if err.Some? {
          return Err(ErrInternalServerError);
        }
        return Ok(created);
      } else {
        return Err(ErrInternalServerError);
      }
    }
    return Ok(found.value);
  }

  /** The 400 error a request line naming an unknown product gets. */
  function ProductNotFound(productId: string): AppError {
    ApplyOptions(Fresh(StatusBadRequest, "Product with ID " + productId + " not found"), [WithCode("PRODUCT_NOT_FOUND")])
  }

  /** A line's total: the quantity times the unit price. */
  function LineTotal(quantity: int, unitPrice: real): real {
    quantity as real * unitPrice
  }

  /** The line item for one request line: the product's name and price as they are now, times the quantity. */
  function LineFor(line: ItemRequest, p: Product): InvoiceItem {
    EmptyItem.(productId := line.productId, description := p.name, quantity := line.quantity,
               unitPrice := p.unitPrice, totalPrice := LineTotal(line.quantity, p.unitPrice))
  }

  /**
   * The request lines priced in order, each from its product in the company,
   * stopping at the first line whose product lookup fails.
   */
  function Priced(db: Database, lines: seq<ItemRequest>, companyId: string, faults: set<nat>)
    : (r: Result<seq<InvoiceItem>, AppError>)
    reads db`products
    ensures r.Ok? ==> |r.value| == |lines|
    decreases |lines|
  {
    if lines == [] then Ok([])
    else
      var n := |lines| - 1;
      match Priced(db, lines[..n], companyId, faults)
      case Err(e) => Err(e)
      case Ok(items) =>
        var p := ProductRepo.GetProductByID(db, lines[n].productId, companyId, n in faults);
        if p.Err? then Err(ProductNotFound(lines[n].productId)) else Ok(items + [LineFor(lines[n], p.value)])
  }

  /** The sum of the lines' totals, added up in order. */
  function LinesTotal(items: seq<InvoiceItem>): real {
    if items == [] then 0.0 else LinesTotal(items[..|items| - 1]) + items[|items| - 1].totalPrice
  }

  lemma LinesTotalAppend(items: seq<InvoiceItem>, item: InvoiceItem)
    ensures LinesTotal(items + [item]) == LinesTotal(items) + item.totalPrice
  {
    assert (items + [item])[..|items|] == items;
  }

  /** A failure on a prefix of the request is the failure of the whole request. */
  lemma {:induction false} PricedFailureSticks(db: Database, lines: seq<ItemRequest>, companyId: string, faults: set<nat>,
                                               k: nat)
    requires k <= |lines| && Priced(db, lines[..k], companyId, faults).Err?
    ensures Priced(db, lines, companyId, faults) == Priced(db, lines[..k], companyId, faults)
    decreases |lines| - k
  {
    if k < |lines| {
      assert lines[..k + 1][..k] == lines[..k];
      PricedFailureSticks(db, lines, companyId, faults, k + 1);
    } else {
      assert lines[..k] == lines;
    }
  }

  /** Pricing one more line: the prefix's items and that line's item, unless one of them fails. */
  lemma PricedStep(db: Database, lines: seq<ItemRequest>, companyId: string, faults: set<nat>, k: nat)
    requires k < |lines| && Priced(db, lines[..k], companyId, faults).Ok?
    ensures var p := ProductRepo.GetProductByID(db, lines[k].productId, companyId, k in faults);
      Priced(db, lines[..k + 1], companyId, faults)
        == if p.Err? then Err(ProductNotFound(lines[k].productId))
           else Ok(Priced(db, lines[..k], companyId, faults).value + [LineFor(lines[k], p.value)])
  {
    assert lines[..k + 1][..k] == lines[..k];
  }

  /**
   * The item loop of `CreateInvoice`: one line item per request line, in
   * request order, and the running subtotal; the first unknown product ends
   * it with a 400. The slice stays nil when the request has no lines.
   */
  method PriceItems(db: Database, lines: seq<ItemRequest>, companyId: string, faults: set<nat>)
    returns (r: Result<Slice<InvoiceItem>, AppError>, subtotal: real)
    ensures var priced := Priced(db, lines, companyId, faults);
      && (r.Err? <==> priced.Err?)
      && (r.Err? ==> r.error == priced.error)
      && (r.Ok? ==> r.value.Elems() == priced.value && (r.value.Nil? <==> lines == [])
                    && subtotal == LinesTotal(r.value.Elems()))
  {
    var items: Slice<InvoiceItem> := Nil;
    subtotal := 0.0;
    for k := 0 to |lines|
      invariant Priced(db, lines[..k], companyId, faults) == Ok(items.Elems())
      invariant items.Nil? <==> k == 0
      invariant subtotal == LinesTotal(items.Elems())
    {
      PricedStep(db, lines, companyId, faults, k);
      var product := ProductRepo.GetProductByID(db, lines[k].productId, companyId, k in faults);
      if product.Err? {
        var e := NewAppError(StatusBadRequest, "Product with ID " + lines[k].productId + " not found",
                             [WithCode("PRODUCT_NOT_FOUND")]);
        PricedFailureSticks(db, lines, companyId, faults, k + 1);
        return Err(e), subtotal;
      }
      var totalPrice := LineTotal(lines[k].quantity, product.value.unitPrice);
      subtotal := subtotal + totalPrice;
      var item := LineFor(lines[k], product.value);
      assert item.totalPrice == totalPrice;
      LinesTotalAppend(items.Elems(), item);
      assert items.Append(item).Elems() == items.Elems() + [item];
      items := items.Append(item);
    }
    assert lines[..|lines|] == lines;
    return Ok(items), subtotal;
  }

  /** Pricing succeeds exactly when every line's product is found in the company. */
  lemma {:induction false} PricedLines(db: Database, lines: seq<ItemRequest>, companyId: string, faults: set<nat>)
    ensures Priced(db, lines, companyId, faults).Ok? <==>
              forall k :: 0 <= k < |lines| ==> ProductRepo.GetProductByID(db, lines[k].productId, companyId, k in faults).Ok?
    decreases |lines|
  {
    if lines != [] {
      var n := |lines| - 1;
      PricedLines(db, lines[..n], companyId, faults);
      assert forall k :: 0 <= k < n ==> lines[..n][k] == lines[k];
      if Priced(db, lines[..n], companyId, faults).Err? {
        var j :| 0 <= j < n && ProductRepo.GetProductByID(db, lines[..n][j].productId, companyId, j in faults).Err?;
      }
    }
  }

  /**
   * Each line item carries the request's product id and quantity, and the
   * name and price of that product as the company's store holds it now.
   */
  lemma PricedItemFields(db: Database, lines: seq<ItemRequest>, companyId: string, faults: set<nat>, k: int)
    requires Priced(db, lines, companyId, faults).Ok? && 0 <= k < |lines|
    ensures var item := Priced(db, lines, companyId, faults).value[k];
      && item.productId == lines[k].productId && item.quantity == lines[k].quantity
      && item.totalPrice == lines[k].quantity as real * item.unitPrice
      && exists j :: 0 <= j < |db.products| && db.products[j].id == lines[k].productId
                     && db.products[j].companyId == companyId
                     && item.description == db.products[j].name && item.unitPrice == db.products[j].unitPrice
  {
    var item := Priced(db, lines, companyId, faults).value[k];
    var p := ProductRepo.GetProductByID(db, lines[k].productId, companyId, k in faults);
    PricedAt(db, lines, companyId, faults, k);
    FoundProductStored(db, lines[k].productId, companyId, k in faults);
  }

  /** A product the lookup finds is a stored row of the company with that id. */
  lemma FoundProductStored(db: Database, productId: string, companyId: string, fault: bool)
    requires ProductRepo.GetProductByID(db, productId, companyId, fault).Ok?
    ensures var p := ProductRepo.GetProductByID(db, productId, companyId, fault).value;
      exists j :: 0 <= j < |db.products| && db.products[j].id == productId && db.products[j].companyId == companyId
                  && p.name == db.products[j].name && p.unitPrice == db.products[j].unitPrice
  {
    ProductRepo.GetProductByIDFinds(db, productId, companyId, fault);
  }

  /** The items match the request lines one to one, in order: item `k` is line `k` priced from its product. */
  lemma {:induction false} PricedAt(db: Database, lines: seq<ItemRequest>, companyId: string, faults: set<nat>, k: int)
    requires Priced(db, lines, companyId, faults).Ok? && 0 <= k < |lines|
    ensures var p := ProductRepo.GetProductByID(db, lines[k].productId, companyId, k in faults);
      p.Ok? && Priced(db, lines, companyId, faults).value[k] == LineFor(lines[k], p.value)
    decreases |lines|
  {
    var n := |lines| - 1;
    if k < n {
      assert lines[..n][k] == lines[k];
      PricedAt(db, lines[..n], companyId, faults, k);
    }
  }

  /** A failed pricing reports the first line whose product is not found. */
  lemma {:induction false} PricedFailure(db: Database, lines: seq<ItemRequest>, companyId: string, faults: set<nat>)
    requires Priced(db, lines, companyId, faults).Err?
    ensures exists k :: (&& 0 <= k < |lines|
                         && ProductRepo.GetProductByID(db, lines[k].productId, companyId, k in faults).Err?
                         && (forall j :: 0 <= j < k ==>
                               ProductRepo.GetProductByID(db, lines[j].productId, companyId, j in faults).Ok?)
                         && Priced(db, lines, companyId, faults).error == ProductNotFound(lines[k].productId))
    decreases |lines|
  {
    var n := |lines| - 1;
    assert forall k :: 0 <= k < n ==> lines[..n][k] == lines[k];
    if Priced(db, lines[..n], companyId, faults).Err? {
      PricedFailure(db, lines[..n], companyId, faults);
      var k :| 0 <= k < n
        && ProductRepo.GetProductByID(db, lines[..n][k].productId, companyId, k in faults).Err?
        && (forall j :: 0 <= j < k ==> ProductRepo.GetProductByID(db, lines[..n][j].productId, companyId, j in faults).Ok?)
        && Priced(db, lines[..n], companyId, faults).error == ProductNotFound(lines[..n][k].productId);
    } else {
      PricedLines(db, lines[..n], companyId, faults);
    }
  }

  /** The 400 product error: its status, message and code. */
  lemma ProductNotFoundError(productId: string)
    ensures ProductNotFound(productId).statusCode == 400
    ensures ProductNotFound(productId).message == "Product with ID " + productId + " not found"
    ensures ProductNotFound(productId).code == "PRODUCT_NOT_FOUND"
    ensures ProductNotFound(productId).details.None? && ProductNotFound(productId).cause.None?
  {
    var opts := [WithCode("PRODUCT_NOT_FOUND")];
    LastCodeWins(Fresh(StatusBadRequest, "Product with ID " + productId + " not found"), opts);
    assert IsLast(opts, 0, CodeField);
    DetailsUntouched(Fresh(StatusBadRequest, "Product with ID " + productId + " not found"), opts);
    CauseUntouched(Fresh(StatusBadRequest, "Product with ID " + productId + " not found"), opts);
  }

  /** `fmt.Sprintf("POS-%d", t.Unix())`: the invoice number drawn from the clock. */
  function InvoiceNumber(t: Time): string {
    "POS-" + IntToDecimal(UnixSeconds(t))
  }

  /**
   * The header `CreateInvoice` hands to the repository for an unrounded
   * subtotal: tax is a tenth of it, the total their sum, and each of the three
   * is rounded to cents on its own.
   */
  function Header(companyId: string, customerId: string, subtotal: real, env: Env): Invoice {
    var tax := subtotal * TaxRate;
    EmptyInvoice.(companyId := companyId, customerId := customerId, invoiceNumber := InvoiceNumber(env.numberClock),
                  issueDate := env.issueClock, dueDate := env.dueClock,
                  subtotal := Round2(subtotal), tax := Round2(tax), total := Round2(subtotal + tax), status := "paid")
  }

  /** What `CreateInvoice` leaves behind: its result and the three tables it may write. */
  datatype Outcome = Outcome(
    result: Result<Invoice, AppError>,
    customers: seq<Customer>,
    invoices: seq<Invoice>,
    items: seq<InvoiceItem>)

  /**
   * The outcome of `CreateInvoice` from what the walk-in lookup found, the
   * tables before the call and the pricing of the request.
   */
  function Expected(found: Result<Customer, DbError>, customers: seq<Customer>, invoices: seq<Invoice>,
                    itemTable: seq<InvoiceItem>, priced: Result<seq<InvoiceItem>, AppError>, companyId: string, env: Env)
    : Outcome
    requires priced.Ok? ==> |env.itemIds| == |priced.value|
  {
    var w := WalkIn(found, customers, companyId, env);
    var withWalkIn := customers + WalkInRows(found, customers, companyId, env);
    if w.Err? then Outcome(Err(w.error), withWalkIn, invoices, itemTable)
    else if priced.Err? then Outcome(Err(priced.error), withWalkIn, invoices, itemTable)
    else
      var h := Header(companyId, w.value.id, LinesTotal(priced.value), env).(id := env.invoiceId);
      if InvoiceRepo.CreateSucceeds(invoices, itemTable, env.invoiceId, env.itemIds, env.txFault)
      then Outcome(Ok(h), withWalkIn, invoices + [HeaderRow(h)],
                   itemTable + InvoiceRepo.ItemRows(priced.value, env.itemIds, env.invoiceId))
      else Outcome(Err(ErrInternalServerError), withWalkIn, invoices, itemTable)
  }

  /**
   * `CreateInvoice`: bills the company's walk-in customer for the requested
   * lines. A walk-in customer created on the way stays even when a later
   * step fails; nothing reaches the invoice tables unless every product is
   * found and the repository's transaction commits.
   */
  method CreateInvoice(db: Database, lines: seq<ItemRequest>, companyId: string, env: Env)
    returns (r: Result<Invoice, AppError>)
    requires db.Valid() && |env.itemIds| == |lines|
    modifies db
    ensures db.Valid()
    ensures Outcome(r, db.customers, db.invoices, db.items)
         == Expected(old(CustomerRepo.FindCustomerByName(db, WalkInName, companyId, env.walkInLookupFault)),
                     old(db.customers), old(db.invoices), old(db.items),
                     old(Priced(db, lines, companyId, env.productFaults)), companyId, env)
    ensures db.products == old(db.products)
  {
    ghost var priced := Priced(db, lines, companyId, env.productFaults);
    var customer := ResolveWalkIn(db, companyId, env);
    if customer.Err? {
      return Err(customer.error);
    }
    assert Priced(db, lines, companyId, env.productFaults) == priced;
    var items, subtotal := PriceItems(db, lines, companyId, env.productFaults);
    if items.Err? {
      return Err(items.error);
    }
    var invoice := Header(companyId, customer.value.id, subtotal, env);
    var _, created := InvoiceRepo.CreateInvoice(db, invoice, items.value.Elems(), env.invoiceId, env.itemIds, env.txFault);
    if created.Err? {
      return Err(ErrInternalServerError);
    }
    return Ok(created.value);
  }

  /**
   * All or nothing: a failed `CreateInvoice` writes no invoice row and no item
   * row, while a successful one adds exactly its header and one row per
   * priced line, in order, each pointing at the new invoice. In every case
   * a walk-in customer created on the way stays.
   */
  lemma CreateInvoiceAllOrNothing(found: Result<Customer, DbError>, customers: seq<Customer>, invoices: seq<Invoice>,
                                  itemTable: seq<InvoiceItem>, priced: Result<seq<InvoiceItem>, AppError>,
                                  companyId: string, env: Env)
    requires priced.Ok? ==> |env.itemIds| == |priced.value|
    ensures var o := Expected(found, customers, invoices, itemTable, priced, companyId, env);
      && o.customers == customers + WalkInRows(found, customers, companyId, env)
      && (o.result.Err? ==> o.invoices == invoices && o.items == itemTable)
      && (o.result.Ok? ==>
            && priced.Ok? && WalkIn(found, customers, companyId, env).Ok?
            && o.invoices == invoices + [HeaderRow(o.result.value)]
            && |o.items| == |itemTable| + |priced.value| && o.items[..|itemTable|] == itemTable
            && forall k :: 0 <= k < |priced.value| ==>
                 && o.items[|itemTable| + k].invoiceId == o.result.value.id
                 && o.items[|itemTable| + k].id == env.itemIds[k]
                 && o.items[|itemTable| + k].productId == priced.value[k].productId
                 && o.items[|itemTable| + k].quantity == priced.value[k].quantity
                 && o.items[|itemTable| + k].totalPrice == priced.value[k].totalPrice)
  {
    var o := Expected(found, customers, invoices, itemTable, priced, companyId, env);
    if o.result.Ok? {
      var rows := InvoiceRepo.ItemRows(priced.value, env.itemIds, env.invoiceId);
      assert o.items == itemTable + rows;
      assert forall k :: 0 <= k < |priced.value| ==> o.items[|itemTable| + k] == rows[k];
    }
  }

  /**
   * Why `CreateInvoice` fails: the walk-in step or the repository yields the
   * generic 500, and a missing product yields the pricing error, before the
   * repository is reached.
   */
  lemma CreateInvoiceFailures(found: Result<Customer, DbError>, customers: seq<Customer>, invoices: seq<Invoice>,
                              itemTable: seq<InvoiceItem>, priced: Result<seq<InvoiceItem>, AppError>,
                              companyId: string, env: Env)
    requires priced.Ok? ==> |env.itemIds| == |priced.value|
    ensures var o := Expected(found, customers, invoices, itemTable, priced, companyId, env);
      var w := WalkIn(found, customers, companyId, env);
      && (w.Err? ==> o.result == Err(ErrInternalServerError))
      && (w.Ok? && priced.Err? ==> o.result == Err(priced.error))
      && (w.Ok? && priced.Ok? ==>
            (o.result.Ok? <==> InvoiceRepo.CreateSucceeds(invoices, itemTable, env.invoiceId, env.itemIds, env.txFault)))
      && (o.result.Err? ==> o.result.error == ErrInternalServerError || (priced.Err? && o.result.error == priced.error))
  {
  }

  /**
   * A created invoice belongs to the caller's company, is billed to the
   * walk-in customer, is `paid`, carries the new id, and its amounts are the
   * priced lines' total, a tenth of it as tax and their sum, each to cents.
   */
  lemma CreatedInvoiceHeader(found: Result<Customer, DbError>, customers: seq<Customer>, invoices: seq<Invoice>,
                             itemTable: seq<InvoiceItem>, priced: Result<seq<InvoiceItem>, AppError>,
                             companyId: string, env: Env)
    requires priced.Ok? ==> |env.itemIds| == |priced.value|
    ensures var o := Expected(found, customers, invoices, itemTable, priced, companyId, env);
      o.result.Ok? ==>
        var h := o.result.value;
        var s := LinesTotal(priced.value);
        && h.id == env.invoiceId && h.companyId == companyId && h.status == "paid"
        && h.customerId == WalkIn(found, customers, companyId, env).value.id
        && h.invoiceNumber == InvoiceNumber(env.numberClock)
        && h.issueDate == env.issueClock && h.dueDate == env.dueClock
        && h.subtotal == Round2(s) && h.tax == Round2(s / 10.0) && h.total == Round2(s + s / 10.0)
        && h.items.Nil? && h.customerName == ""
  {
    var o := Expected(found, customers, invoices, itemTable, priced, companyId, env);
    if o.result.Ok? {
      var s := LinesTotal(priced.value);
      assert s * TaxRate == s / 10.0;
    }
  }

  /**
   * The invoice number is "POS-" followed by the clock's Unix seconds, which
   * read back from the digits after the prefix.
   */
  lemma InvoiceNumberReadsBack(t: Time)
    requires UnixSeconds(t) >= 0
    ensures |InvoiceNumber(t)| > 4 && InvoiceNumber(t)[..4] == "POS-"
    ensures var digits := InvoiceNumber(t)[4..];
      (forall i :: 0 <= i < |digits| ==> IsDigit(digits[i])) && ParseDecimal(digits) == UnixSeconds(t)
  {
    var n := InvoiceNumber(t);
    assert n[4..] == NatToDecimal(UnixSeconds(t));
    DecimalRoundTrip(UnixSeconds(t));
  }

  /**
   * Each header amount is within half a cent of the exact value and already
   * a whole number of cents.
   */
  lemma HeaderAmounts(companyId: string, customerId: string, s: real, env: Env)
    ensures var h := Header(companyId, customerId, s, env);
      && s - 0.005 <= h.subtotal <= s + 0.005
      && s / 10.0 - 0.005 <= h.tax <= s / 10.0 + 0.005
      && s * 1.1 - 0.005 <= h.total <= s * 1.1 + 0.005
      && Round2(h.subtotal) == h.subtotal && Round2(h.tax) == h.tax && Round2(h.total) == h.total
  {
    Round2Idempotent(s);
    Round2Idempotent(s * TaxRate);
    Round2Idempotent(s + s * TaxRate);
  }

  /**
   * When the subtotal is a whole number of cents, the rounded total is
   * exactly the rounded subtotal plus the rounded tax.
   */
  lemma WholeCentTotals(companyId: string, customerId: string, cents: nat, env: Env)
    ensures var h := Header(companyId, customerId, cents as real / 100.0, env);
      h.subtotal == cents as real / 100.0 && h.total == h.subtotal + h.tax
  {
    var s := cents as real / 100.0;
    Round2WholeCents(cents);
    assert (s + s * TaxRate) * 100.0 == cents as real + cents as real / 10.0;
    assert s * TaxRate * 100.0 == cents as real / 10.0;
    RoundShift(cents, cents as real / 10.0);
  }

  /**
   * With sub-cent prices the three independent roundings can disagree: a
   * subtotal of 1.0049 gives 1.00 + 0.10 but a total of 1.11.
   */
  lemma SubCentTotalsDrift(companyId: string, customerId: string, env: Env)
    ensures var h := Header(companyId, customerId, 1.0049, env);
      h.subtotal == 1.0 && h.tax == 0.1 && h.total == 1.11 && h.total != h.subtotal + h.tax
  {
    RoundNearest(100.49, 100);
    RoundNearest(10.049, 10);
    RoundNearest(110.539, 111);
  }

  /**
   * Two units at 100.00 and one at 49.99 come to 249.99, a tax of 25.00 and
   * a total of 274.99.
   */
  lemma TwoLineExample(companyId: string, customerId: string, env: Env, p1: Product, p2: Product)
    requires p1.unitPrice == 100.0 && p2.unitPrice == 49.99
    ensures var lines := [LineFor(ItemRequest(p1.id, 2), p1), LineFor(ItemRequest(p2.id, 1), p2)];
      var h := Header(companyId, customerId, LinesTotal(lines), env);
      && LinesTotal(lines) == 249.99
      && h.subtotal == 249.99 && h.tax == 25.0 && h.total == 274.99
  {
    var lines := [LineFor(ItemRequest(p1.id, 2), p1), LineFor(ItemRequest(p2.id, 1), p2)];
    assert lines[..1][..0] == [];
    assert LinesTotal(lines[..1]) == 200.0;
    assert LinesTotal(lines) == LinesTotal(lines[..1]) + 49.99;
    RoundNearest(24999.0, 24999);
    RoundNearest(2499.9, 2500);
    RoundNearest(27498.9, 27499);
  }

  /** The 404 a missing invoice gets. */
  function InvoiceNotFound(): AppError {
    ApplyOptions(Fresh(StatusNotFound, "Invoice not found"), [WithCode("INVOICE_NOT_FOUND")])
  }

  lemma InvoiceNotFoundError()
    ensures InvoiceNotFound().statusCode == 404 && InvoiceNotFound().code == "INVOICE_NOT_FOUND"
    ensures InvoiceNotFound().message == "Invoice not found"
  {
    LastCodeWins(Fresh(StatusNotFound, "Invoice not found"), [WithCode("INVOICE_NOT_FOUND")]);
    assert IsLast([WithCode("INVOICE_NOT_FOUND")], 0, CodeField);
  }

  /**
   * `GetInvoice`: the repository's invoice, a 404 when it reports no rows
   * (missing, another company's, or its customer gone), and a 500 for any
   * driver failure.
   */
  method GetInvoice(db: Database, invoiceId: string, companyId: string, headerFault: bool, itemsFault: bool)
    returns (r: Result<Invoice, AppError>)
    ensures var found := InvoiceRepo.FindInvoice(db, invoiceId, companyId);
      && (headerFault || (found.Some? && itemsFault) ==> r == Err(ErrInternalServerError))
      && (!headerFault && found.None? ==> r == Err(InvoiceNotFound()))
      && (!headerFault && !itemsFault && found.Some? ==>
            r == Ok(InvoiceRepo.ScannedHeader(found.value).(items := InvoiceRepo.ScannedItems(ItemsOf(db.items, invoiceId)))))
  {
    var invoice := InvoiceRepo.GetInvoiceByID(db, invoiceId, companyId, headerFault, itemsFault);
    if invoice.Err? {
      if invoice.error == ErrNoRows {
        var e := NewAppError(StatusNotFound, "Invoice not found", [WithCode("INVOICE_NOT_FOUND")]);
        return Err(e);
      }
      return Err(ErrInternalServerError);
    }
    return Ok(invoice.value);
  }

  /** `ListInvoices`: the repository's listing, or a 500 when the driver fails. */
  method ListInvoices(db: Database, companyId: string, fault: bool) returns (r: Result<Slice<Invoice>, AppError>)
    ensures fault ==> r == Err(ErrInternalServerError)
    ensures !fault ==> r.Ok? && var rows := InvoicesOfCompany(db.invoices, db.customers, companyId);
      && (r.value.Nil? <==> rows == [])
      && |r.value.Elems()| == |rows|
      && forall k :: 0 <= k < |rows| ==> r.value.Elems()[k] == InvoiceRepo.ListedInvoice(rows[k])
  {
    var invoices := InvoiceRepo.GetInvoicesByCompanyID(db, companyId, fault);
    if invoices.Err? {
      return Err(ErrInternalServerError);
    }
    return Ok(invoices.value);
  }
}
