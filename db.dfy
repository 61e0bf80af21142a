/**
 * The MySQL database the repositories talk to, reduced to what they use:
 * four tables held in storage order, primary keys on `id`, the statements
 * the repositories send, and a transaction that commits or rolls back.
 * Each statement may fail in the driver; that failure is a `fault`
 * parameter, since nothing in the repositories decides it.
 */
module Db {
  import opened Common
  import opened Models
  import opened Seqs
  import Text

  /** `sql.ErrNoRows`, a duplicate primary key, or any other failure the driver reports. */
  datatype DbError = ErrNoRows | DuplicateKey | DriverError

  /** An argument bound to a `?` placeholder. */
  datatype SqlValue = TextValue(s: string) | DecimalValue(r: real)

  function CustomerKey(c: Customer): string { c.id }
  function ProductKey(p: Product): string { p.id }
  function InvoiceKey(i: Invoice): string { i.id }
  function ItemKey(i: InvoiceItem): string { i.id }

  /** The columns `INSERT INTO invoices` writes: no customer name, no items. */
  function HeaderRow(inv: Invoice): Invoice {
    inv.(customerName := "", items := Nil)
  }

  /** The row `WHERE id = ? AND company_id = ?` selects. */
  predicate IsCustomerRow(c: Customer, customerId: string, companyId: string) {
    c.id == customerId && c.companyId == companyId
  }

  class Database {
    var customers: seq<Customer>
    var products: seq<Product>
    var invoices: seq<Invoice>
    var items: seq<InvoiceItem>

    /** Every table's primary key holds. */
    ghost predicate Valid()
      reads this
    {
      && UniqueBy(customers, CustomerKey)
      && UniqueBy(products, ProductKey)
      && UniqueBy(invoices, InvoiceKey)
      && UniqueBy(items, ItemKey)
    }

    constructor ()
      ensures Valid()
      ensures customers == [] && products == [] && invoices == [] && items == []
    {
      customers, products, invoices, items := [], [], [], [];
    }

    /** `INSERT INTO customers (...)`: appends the row unless the driver fails or its id is taken. */
    method InsertCustomer(row: Customer, fault: bool) returns (err: Option<DbError>)
      requires Valid()
      modifies this
      ensures Valid()
      ensures err == if fault then Some(DriverError)
                     else if HasKey(old(customers), CustomerKey, row.id) then Some(DuplicateKey)
                     else None
      ensures customers == if err.None? then old(customers) + [row] else old(customers)
      ensures products == old(products) && invoices == old(invoices) && items == old(items)
    {
      if fault {
        return Some(DriverError);
      }
      if HasKey(customers, CustomerKey, row.id) {
        return Some(DuplicateKey);
      }
      customers := customers + [row];
      return None;
    }

    /** `INSERT INTO products (...)`: appends the row unless the driver fails or its id is taken. */
    method InsertProduct(row: Product, fault: bool) returns (err: Option<DbError>)
      requires Valid()
      modifies this
      ensures Valid()
      ensures err == if fault then Some(DriverError)
                     else if HasKey(old(products), ProductKey, row.id) then Some(DuplicateKey)
                     else None
      ensures products == if err.None? then old(products) + [row] else old(products)
      ensures customers == old(customers) && invoices == old(invoices) && items == old(items)
    {
      if fault {
        return Some(DriverError);
      }
      if HasKey(products, ProductKey, row.id) {
        return Some(DuplicateKey);
      }
      products := products + [row];
      return None;
    }

    /**
     * `UPDATE customers SET ... WHERE id = ? AND company_id = ?`: the plan read
     * off the text and the arguments is applied to every matching row.
     */
    method UpdateCustomers(query: string, args: seq<SqlValue>, fault: bool) returns (err: Option<DbError>)
      requires Valid()
      modifies this
      ensures Valid()
      ensures err == if fault || CustomerUpdatePlan(query, args).None? then Some(DriverError) else None
      ensures customers == if err.None? then UpdatedCustomers(old(customers), CustomerUpdatePlan(query, args).value)
                           else old(customers)
      ensures products == old(products) && invoices == old(invoices) && items == old(items)
    {
      if fault {
        return Some(DriverError);
      }
      var plan := CustomerUpdatePlan(query, args);
      if plan.None? {
        return Some(DriverError);
      }
      customers := UpdatedCustomers(customers, plan.value);
      return None;
    }

    /** `UPDATE products SET ... WHERE id = ?`: the plan is applied to the row with that id. */
    method UpdateProducts(query: string, args: seq<SqlValue>, fault: bool) returns (err: Option<DbError>)
      requires Valid()
      modifies this
      ensures Valid()
      ensures err == if fault || ProductUpdatePlan(query, args).None? then Some(DriverError) else None
      ensures products == if err.None? then UpdatedProducts(old(products), ProductUpdatePlan(query, args).value)
                          else old(products)
      ensures customers == old(customers) && invoices == old(invoices) && items == old(items)
    {
      if fault {
        return Some(DriverError);
      }
      var plan := ProductUpdatePlan(query, args);
      if plan.None? {
        return Some(DriverError);
      }
      products := UpdatedProducts(products, plan.value);
      return None;
    }

    /** `DELETE FROM customers WHERE id = ? AND company_id = ?`. */
    method DeleteCustomers(id: string, companyId: string, fault: bool) returns (err: Option<DbError>)
      requires Valid()
      modifies this
      ensures Valid()
      ensures err == if fault then Some(DriverError) else None
      ensures customers == if fault then old(customers)
                           else Filter(old(customers), (c: Customer) => !IsCustomerRow(c, id, companyId))
      ensures products == old(products) && invoices == old(invoices) && items == old(items)
    {
      if fault {
        return Some(DriverError);
      }
      UniqueFilter(customers, CustomerKey, (c: Customer) => !IsCustomerRow(c, id, companyId));
      customers := Filter(customers, (c: Customer) => !IsCustomerRow(c, id, companyId));
      return None;
    }
  }

  /**
   * A transaction over the invoice tables (`db.Begin()`). Its inserts are
   * visible at once; `Rollback` puts both tables back as they were at
   * `Begin`, and does nothing once the transaction is done.
   */
  class Tx {
    const db: Database
    const invoicesAtBegin: seq<Invoice>
    const itemsAtBegin: seq<InvoiceItem>
    var done: bool

    ghost predicate Valid()
      reads this, db
    {
      && db.Valid()
      && UniqueBy(invoicesAtBegin, InvoiceKey)
      && UniqueBy(itemsAtBegin, ItemKey)
    }

    constructor Begin(db: Database)
      requires db.Valid()
      ensures Valid() && !done && this.db == db
      ensures invoicesAtBegin == db.invoices && itemsAtBegin == db.items
    {
      this.db := db;
      invoicesAtBegin := db.invoices;
      itemsAtBegin := db.items;
      done := false;
    }

    /** `tx.Exec("INSERT INTO invoices ...")`. */
    method InsertInvoice(row: Invoice, fault: bool) returns (err: Option<DbError>)
      requires Valid()
      modifies db
      ensures Valid()
      ensures err == if fault then Some(DriverError)
                     else if HasKey(old(db.invoices), InvoiceKey, row.id) then Some(DuplicateKey)
                     else None
      ensures db.invoices == if err.None? then old(db.invoices) + [row] else old(db.invoices)
      ensures db.items == old(db.items) && db.customers == old(db.customers) && db.products == old(db.products)
    {
      if fault {
        return Some(DriverError);
      }
      if HasKey(db.invoices, InvoiceKey, row.id) {
        return Some(DuplicateKey);
      }
      db.invoices := db.invoices + [row];
      return None;
    }

    /** `stmt.Exec(...)` of the prepared `INSERT INTO invoice_items ...`. */
    method InsertItem(row: InvoiceItem, fault: bool) returns (err: Option<DbError>)
      requires Valid()
      modifies db
      ensures Valid()
      ensures err == if fault then Some(DriverError)
                     else if HasKey(old(db.items), ItemKey, row.id) then Some(DuplicateKey)
                     else None
      ensures db.items == if err.None? then old(db.items) + [row] else old(db.items)
      ensures db.invoices == old(db.invoices) && db.customers == old(db.customers) && db.products == old(db.products)
    {
      if fault {
        return Some(DriverError);
      }
      if HasKey(db.items, ItemKey, row.id) {
        return Some(DuplicateKey);
      }
      db.items := db.items + [row];
      return None;
    }

    /** `tx.Commit()`: a failed commit leaves nothing of the transaction behind. */
    method Commit(fault: bool) returns (err: Option<DbError>)
      requires Valid() && !done
      modifies this, db
      ensures Valid() && done
      ensures err == if fault then Some(DriverError) else None
      ensures fault ==> db.invoices == invoicesAtBegin && db.items == itemsAtBegin
      ensures !fault ==> db.invoices == old(db.invoices) && db.items == old(db.items)
      ensures db.customers == old(db.customers) && db.products == old(db.products)
    {
      done := true;
      if fault {
        db.invoices, db.items := invoicesAtBegin, itemsAtBegin;
        return Some(DriverError);
      }
      return None;
    }

    /** `tx.Rollback()`, as deferred by the caller: undoes everything unless already done. */
    method Rollback()
      requires Valid()
      modifies this, db
      ensures Valid() && done
      ensures !old(done) ==> db.invoices == invoicesAtBegin && db.items == itemsAtBegin
      ensures old(done) ==> db.invoices == old(db.invoices) && db.items == old(db.items)
      ensures db.customers == old(db.customers) && db.products == old(db.products)
    {
      if !done {
        db.invoices, db.items := invoicesAtBegin, itemsAtBegin;
        done := true;
      }
    }
  }

  // ---------------------------------------------------------------------------
  // Executing the dynamic UPDATE statements.

  /** `col = ?` names the column `col`. */
  function ClauseColumn(part: string): (col: Option<string>)
    ensures col.Some? ==> part == col.value + " = ?"
  {
    if |part| >= 4 && part[|part| - 4..] == " = ?" then Some(part[..|part| - 4]) else None
  }

  /** The column when its field is supplied, nothing otherwise: one `if` of an UPDATE builder. */
  function OneIf(supplied: bool, col: string): seq<string> {
    if supplied then [col] else []
  }

  /** The SET clause for one column. */
  function Clause(col: string): string {
    col + " = ?"
  }

  function Clauses(cols: seq<string>): (parts: seq<string>)
    ensures |parts| == |cols|
    ensures forall i :: 0 <= i < |cols| ==> parts[i] == Clause(cols[i])
  {
    seq(|cols|, i requires 0 <= i < |cols| => Clause(cols[i]))
  }

  lemma ClauseReadsBack(col: string)
    ensures ClauseColumn(Clause(col)) == Some(col)
  {
    var part := Clause(col);
    assert part[|part| - 4..] == " = ?";
    assert part[..|part| - 4] == col;
  }

  /**
   * The text `prefix + clauses joined by ", " + suffix` reads back as the same
   * clauses, and holds one `?` per clause plus those of the suffix.
   */
  lemma UpdateTextReadsBack(cols: seq<string>, prefix: string, suffix: string)
    requires |cols| > 0
    requires forall i :: 0 <= i < |cols| ==> ',' !in cols[i] && '?' !in cols[i]
    requires '?' !in prefix
    ensures SetClauses(prefix + Text.Join(Clauses(cols), ", ") + suffix, prefix, suffix) == Some(Clauses(cols))
    ensures Text.Occurrences('?', prefix + Text.Join(Clauses(cols), ", ") + suffix)
            == |cols| + Text.Occurrences('?', suffix)
  {
    var parts := Clauses(cols);
    var body := Text.Join(parts, ", ");
    var query := prefix + body + suffix;
    assert query[..|prefix|] == prefix;
    assert query[|query| - |suffix|..] == suffix;
    assert query[|prefix|..|query| - |suffix|] == body;
    forall i | 0 <= i < |parts| ensures ',' !in parts[i] && Text.Occurrences('?', parts[i]) == 1 {
      Text.OccurrencesEndMark('?', cols[i] + " = ", parts[i]);
    }
    Text.SplitJoin(parts, ", ");
    Text.OccurrencesAbsent('?', ", ");
    Text.JoinOccurrences('?', parts, ", ");
    Text.OccurrencesAbsent('?', prefix);
    Text.OccurrencesConcat('?', prefix, body);
    Text.OccurrencesConcat('?', prefix + body, suffix);
  }

  /**
   * Reads the SET clauses out of `prefix + clauses + suffix`, the clauses
   * separated by ", ".
   */
  function SetClauses(query: string, prefix: string, suffix: string): Option<seq<string>> {
    if |query| >= |prefix| + |suffix| && query[..|prefix|] == prefix && query[|query| - |suffix|..] == suffix
    then Some(Text.Split(query[|prefix|..|query| - |suffix|], ", "))
    else None
  }

  const CustomerUpdatePrefix := "UPDATE customers SET "
  const CustomerUpdateSuffix := ProductUpdateSuffix + CompanyFilter
  const ProductUpdatePrefix := "UPDATE products SET "
  const ProductUpdateSuffix := " WHERE id = ?"
  const CompanyFilter := " AND company_id = ?"

  /** The placeholders of the WHERE clauses: id and company for customers, id alone for products. */
  lemma ProductSuffixPlaceholders()
    ensures Text.Occurrences('?', ProductUpdateSuffix) == 1
  {
    Text.OccurrencesEndMark('?', " WHERE id = ", ProductUpdateSuffix);
  }

  lemma CompanyFilterPlaceholders()
    ensures Text.Occurrences('?', CompanyFilter) == 1
  {
    Text.OccurrencesEndMark('?', " AND company_id = ", CompanyFilter);
  }

  lemma CustomerSuffixPlaceholders()
    ensures Text.Occurrences('?', CustomerUpdateSuffix) == 2
  {
    ProductSuffixPlaceholders();
    CompanyFilterPlaceholders();
    Text.OccurrencesConcat('?', ProductUpdateSuffix, CompanyFilter);
  }

  /** One resolved `column = value` of an UPDATE on customers. */
  datatype CustomerAssignment =
    | SetName(s: string)
    | SetTaxCode(s: string)
    | SetAddress(s: string)
    | SetEmail(s: string)
    | SetPhone(s: string)

  function ResolveCustomerColumn(col: string, v: SqlValue): Option<CustomerAssignment> {
    if !v.TextValue? then None
    else if col == "name" then Some(SetName(v.s))
    else if col == "tax_code" then Some(SetTaxCode(v.s))
    else if col == "address" then Some(SetAddress(v.s))
    else if col == "email" then Some(SetEmail(v.s))
    else if col == "phone" then Some(SetPhone(v.s))
    else None
  }

  /** Pairs each clause with its argument; fails on an unknown column or a value of the wrong kind. */
  function ResolveCustomerSets(parts: seq<string>, vals: seq<SqlValue>): Option<seq<CustomerAssignment>>
    requires |parts| == |vals|
  {
    if parts == [] then Some([])
    else
      var col := ClauseColumn(parts[0]);
      if col.None? then None
      else
        var a := ResolveCustomerColumn(col.value, vals[0]);
        var rest := ResolveCustomerSets(parts[1..], vals[1..]);
        if a.None? || rest.None? then None else Some([a.value] + rest.value)
  }

  function AssignCustomer(c: Customer, a: CustomerAssignment): Customer {
    match a
    case SetName(s) => c.(name := s)
    case SetTaxCode(s) => c.(taxCode := s)
    case SetAddress(s) => c.(address := s)
    case SetEmail(s) => c.(email := s)
    case SetPhone(s) => c.(phone := s)
  }

  /** Runs the assignments left to right; id and company never change. */
  function AssignCustomerAll(c: Customer, sets: seq<CustomerAssignment>): (r: Customer)
    ensures r.id == c.id && r.companyId == c.companyId
    decreases |sets|
  {
    if sets == [] then c else AssignCustomerAll(AssignCustomer(c, sets[0]), sets[1..])
  }

  /** What the database runs: the assignments, and the row key the WHERE clause selects. */
  datatype CustomerPlan = CustomerPlan(sets: seq<CustomerAssignment>, id: string, companyId: string)

  /**
   * Reads a customer UPDATE: the text must have the statement's shape, carry
   * as many `?` as there are arguments (the driver's check), and bind one
   * argument per SET clause followed by the id and the company id.
   */
  function CustomerUpdatePlan(query: string, args: seq<SqlValue>): Option<CustomerPlan> {
    var parts := SetClauses(query, CustomerUpdatePrefix, CustomerUpdateSuffix);
    if parts.None? || Text.Occurrences('?', query) != |args| || |args| != |parts.value| + 2 then None
    else
      var n := |parts.value|;
      var sets := ResolveCustomerSets(parts.value, args[..n]);
      if sets.None? || !args[n].TextValue? || !args[n + 1].TextValue? then None
      else Some(CustomerPlan(sets.value, args[n].s, args[n + 1].s))
  }

  /** The table after the plan: matching rows assigned, all others as they were. */
  function UpdatedCustomers(t: seq<Customer>, plan: CustomerPlan): (r: seq<Customer>)
    ensures |r| == |t|
    ensures forall k :: 0 <= k < |t| ==> r[k].id == t[k].id
  {
    seq(|t|, k requires 0 <= k < |t| =>
      if IsCustomerRow(t[k], plan.id, plan.companyId) then AssignCustomerAll(t[k], plan.sets) else t[k])
  }

  /** One resolved `column = value` of an UPDATE on products. */
  datatype ProductAssignment =
    | SetProductName(s: string)
    | SetDescription(s: string)
    | SetUnitPrice(r: real)
    | SetImageUrl(s: string)

  function ResolveProductColumn(col: string, v: SqlValue): Option<ProductAssignment> {
    if col == "unit_price" then (if v.DecimalValue? then Some(SetUnitPrice(v.r)) else None)
    else if !v.TextValue? then None
    else if col == "name" then Some(SetProductName(v.s))
    else if col == "description" then Some(SetDescription(v.s))
    else if col == "image_url" then Some(SetImageUrl(v.s))
    else None
  }

  function ResolveProductSets(parts: seq<string>, vals: seq<SqlValue>): Option<seq<ProductAssignment>>
    requires |parts| == |vals|
  {
    if parts == [] then Some([])
    else
      var col := ClauseColumn(parts[0]);
      if col.None? then None
      else
        var a := ResolveProductColumn(col.value, vals[0]);
        var rest := ResolveProductSets(parts[1..], vals[1..]);
        if a.None? || rest.None? then None else Some([a.value] + rest.value)
  }

  function AssignProduct(p: Product, a: ProductAssignment): Product {
    match a
    case SetProductName(s) => p.(name := s)
    case SetDescription(s) => p.(description := s)
    case SetUnitPrice(r) => p.(unitPrice := r)
    case SetImageUrl(s) => p.(imageUrl := s)
  }

  function AssignProductAll(p: Product, sets: seq<ProductAssignment>): (r: Product)
    ensures r.id == p.id && r.companyId == p.companyId
    decreases |sets|
  {
    if sets == [] then p else AssignProductAll(AssignProduct(p, sets[0]), sets[1..])
  }

  datatype ProductPlan = ProductPlan(sets: seq<ProductAssignment>, id: string)

  /** Reads a product UPDATE: one argument per SET clause, then the id. */
  function ProductUpdatePlan(query: string, args: seq<SqlValue>): Option<ProductPlan> {
    var parts := SetClauses(query, ProductUpdatePrefix, ProductUpdateSuffix);
    if parts.None? || Text.Occurrences('?', query) != |args| || |args| != |parts.value| + 1 then None
    else
      var n := |parts.value|;
      var sets := ResolveProductSets(parts.value, args[..n]);
      if sets.None? || !args[n].TextValue? then None
      else Some(ProductPlan(sets.value, args[n].s))
  }

  function UpdatedProducts(t: seq<Product>, plan: ProductPlan): (r: seq<Product>)
    ensures |r| == |t|
    ensures forall k :: 0 <= k < |t| ==> r[k].id == t[k].id
  {
    seq(|t|, k requires 0 <= k < |t| =>
      if t[k].id == plan.id then AssignProductAll(t[k], plan.sets) else t[k])
  }

  // ---------------------------------------------------------------------------
  // The SELECTs.

  /** `ORDER BY created_at DESC`. */
  function NewerFirst(a: Customer, b: Customer): bool { a.createdAt >= b.createdAt }

  /** `ORDER BY issue_date DESC`. */
  function IssuedLaterFirst(a: Invoice, b: Invoice): bool { a.issueDate >= b.issueDate }

  /** `ORDER BY name ASC`, comparing code points. */
  function NameFirst(a: Product, b: Product): bool { LexLe(a.name, b.name) }

  /** Lexicographic order on strings. */
  function LexLe(a: string, b: string): bool {
    if a == [] then true
    else if b == [] then false
    else if a[0] != b[0] then a[0] < b[0]
    else LexLe(a[1..], b[1..])
  }

  lemma {:induction false} LexLeTotal(a: string, b: string)
    ensures LexLe(a, b) || LexLe(b, a)
  {
    if a != [] && b != [] && a[0] == b[0] {
      LexLeTotal(a[1..], b[1..]);
    }
  }

  lemma {:induction false} LexLeTransitive(a: string, b: string, c: string)
    requires LexLe(a, b) && LexLe(b, c)
    ensures LexLe(a, c)
  {
    if a != [] && b != [] && c != [] && a[0] == b[0] && b[0] == c[0] {
      LexLeTransitive(a[1..], b[1..], c[1..]);
    }
  }

  lemma OrdersArePreorders()
    ensures TotalPreorder(NewerFirst)
    ensures TotalPreorder(IssuedLaterFirst)
    ensures TotalPreorder(NameFirst)
  {
    forall a: Product, b: Product ensures NameFirst(a, b) || NameFirst(b, a) {
      LexLeTotal(a.name, b.name);
    }
    forall a: Product, b: Product, c: Product | NameFirst(a, b) && NameFirst(b, c) ensures NameFirst(a, c) {
      LexLeTransitive(a.name, b.name, c.name);
    }
  }

  /** `SELECT ... FROM customers WHERE company_id = ? ORDER BY created_at DESC`. */
  function CustomersOfCompany(t: seq<Customer>, companyId: string): seq<Customer> {
    SortBy(Filter(t, (c: Customer) => c.companyId == companyId), NewerFirst)
  }

  /** `SELECT ... FROM products WHERE company_id = ? ORDER BY name ASC`. */
  function ProductsOfCompany(t: seq<Product>, companyId: string): seq<Product> {
    SortBy(Filter(t, (p: Product) => p.companyId == companyId), NameFirst)
  }

  /** `invoices i JOIN customers c ON i.customer_id = c.id`, for one invoice row. */
  function JoinCustomer(inv: Invoice, customers: seq<Customer>): (r: Option<Invoice>)
    ensures r.Some? <==> exists k :: 0 <= k < |customers| && customers[k].id == inv.customerId
    ensures r.Some? ==> r.value == inv.(customerName := r.value.customerName)
    ensures r.Some? ==> exists k :: 0 <= k < |customers| && customers[k].id == inv.customerId
                                    && customers[k].name == r.value.customerName
  {
    var c := FirstWhere(customers, (c: Customer) => c.id == inv.customerId);
    if c.Some? then Some(inv.(customerName := c.value.name)) else None
  }

  /** The inner join over a list of invoice rows: rows whose customer is gone drop out. */
  function JoinAll(invs: seq<Invoice>, customers: seq<Customer>): (r: seq<Invoice>)
    ensures |r| <= |invs|
  {
    if invs == [] then []
    else
      var head := JoinCustomer(invs[0], customers);
      (if head.Some? then [head.value] else []) + JoinAll(invs[1..], customers)
  }

  /** The joined rows are exactly the invoice rows that find their customer, each with its name. */
  lemma {:induction false} JoinAllMeaning(invs: seq<Invoice>, customers: seq<Customer>)
    ensures forall x :: x in JoinAll(invs, customers) <==> exists i :: i in invs && JoinCustomer(i, customers) == Some(x)
  {
    if invs != [] {
      JoinAllMeaning(invs[1..], customers);
      assert forall i :: i in invs <==> i == invs[0] || i in invs[1..];
    }
  }

  /** `SELECT ... FROM invoices i JOIN customers c ... WHERE i.company_id = ? ORDER BY i.issue_date DESC`. */
  function InvoicesOfCompany(invs: seq<Invoice>, customers: seq<Customer>, companyId: string): seq<Invoice> {
    SortBy(JoinAll(Filter(invs, (i: Invoice) => i.companyId == companyId), customers), IssuedLaterFirst)
  }

  /** `SELECT ... FROM invoice_items WHERE invoice_id = ?`, in storage order (there is no ORDER BY). */
  function ItemsOf(t: seq<InvoiceItem>, invoiceId: string): seq<InvoiceItem> {
    Filter(t, (it: InvoiceItem) => it.invoiceId == invoiceId)
  }
}
