/**
 * The customer repository: every statement it sends to the `customers`
 * table, always scoped to one company, and the dynamic UPDATE it builds
 * from the fields a client supplied.
 */
module CustomerRepo {
  import opened Common
  import opened Models
  import opened Seqs
  import opened Db
  import Text

  /** The row the database stores for an INSERT: `created_at` and `updated_at` take their default, now. */
  function StoredCustomer(c: Customer, now: Time): Customer {
    c.(createdAt := now, updatedAt := now)
  }

  /**
   * `CreateCustomer`: gives the customer a new id (even when the insert then
   * fails, the caller's struct keeps it) and inserts its columns.
   */
  method CreateCustomer(db: Database, customer: Customer, newId: string, now: Time, fault: bool)
    returns (created: Customer, err: Option<DbError>)
    requires db.Valid()
    modifies db
    ensures db.Valid()
    ensures created == customer.(id := newId)
    ensures err.None? <==> !fault && !HasKey(old(db.customers), CustomerKey, newId)
    ensures db.customers == if err.None? then old(db.customers) + [StoredCustomer(created, now)] else old(db.customers)
    ensures db.products == old(db.products) && db.invoices == old(db.invoices) && db.items == old(db.items)
  {
    created := customer.(id := newId);
    err := db.InsertCustomer(StoredCustomer(created, now), fault);
  }

  /** The columns `GetCustomerByID` and `FindCustomerByName` scan: everything but the timestamps. */
  function ScannedCustomer(row: Customer): Customer {
    row.(createdAt := ZeroTime, updatedAt := ZeroTime)
  }

  /**
   * `GetCustomerByID`: the customer with that id, but only inside the caller's
   * company; any other company's customer is `sql.ErrNoRows`.
   */
  function GetCustomerByID(db: Database, customerId: string, companyId: string, fault: bool)
    : (r: Result<Customer, DbError>)
    reads db`customers
  {
    if fault then Err(DriverError)
    else
      var row := FirstWhere(db.customers, (c: Customer) => IsCustomerRow(c, customerId, companyId));
      if row.Some? then Ok(ScannedCustomer(row.value)) else Err(ErrNoRows)
  }

  /** The lookup succeeds exactly when the company holds a customer with that id, and returns that row. */
  lemma GetCustomerByIDFinds(db: Database, customerId: string, companyId: string, fault: bool)
    ensures var r := GetCustomerByID(db, customerId, companyId, fault);
      && (r.Ok? <==> !fault && exists k :: 0 <= k < |db.customers| && IsCustomerRow(db.customers[k], customerId, companyId))
      && (r.Ok? ==> r.value.id == customerId && r.value.companyId == companyId
                    && exists k :: 0 <= k < |db.customers| && r.value == ScannedCustomer(db.customers[k]))
      && (r.Err? ==> r.error == if fault then DriverError else ErrNoRows)
  {
    var r := GetCustomerByID(db, customerId, companyId, fault);
    if r.Ok? {
      var p := (c: Customer) => IsCustomerRow(c, customerId, companyId);
      var k := FirstIndex(db.customers, p);
      assert r.value == ScannedCustomer(db.customers[k]);
    }
  }

  /** With the primary key on `id`, the row found is the only one with that id. */
  lemma GetCustomerByIDUnique(db: Database, customerId: string, companyId: string, k: int)
    requires db.Valid()
    requires 0 <= k < |db.customers| && IsCustomerRow(db.customers[k], customerId, companyId)
    ensures GetCustomerByID(db, customerId, companyId, false) == Ok(ScannedCustomer(db.customers[k]))
  {
    var p := (c: Customer) => IsCustomerRow(c, customerId, companyId);
    var i := FirstIndex(db.customers, p);
    UniqueKeyMatch(db.customers, CustomerKey, i, k);
  }

  /** `FindCustomerByName`: `WHERE name = ? AND company_id = ? LIMIT 1`, the first such row in storage order. */
  function FindCustomerByName(db: Database, name: string, companyId: string, fault: bool)
    : (r: Result<Customer, DbError>)
    reads db`customers
    ensures r.Ok? <==> !fault && exists k :: 0 <= k < |db.customers|
                                  && db.customers[k].name == name && db.customers[k].companyId == companyId
    ensures r.Ok? ==> exists k :: 0 <= k < |db.customers|
                        && db.customers[k].name == name && db.customers[k].companyId == companyId
                        && r.value == ScannedCustomer(db.customers[k])
                        && forall j :: 0 <= j < k ==> !(db.customers[j].name == name && db.customers[j].companyId == companyId)
    ensures r.Err? ==> r.error == if fault then DriverError else ErrNoRows
  {
    if fault then Err(DriverError)
    else
      var p := (c: Customer) => c.name == name && c.companyId == companyId;
      var row := FirstWhere(db.customers, p);
      if row.Some? then
        assert row.value == db.customers[FirstIndex(db.customers, p)];
        Ok(ScannedCustomer(row.value))
      else Err(ErrNoRows)
  }

  /** The columns `GetAllCustomers` scans: no company, no timestamps. */
  function ListedCustomer(row: Customer): Customer {
    EmptyCustomer.(id := row.id, name := row.name, taxCode := row.taxCode, address := row.address,
                   email := row.email, phone := row.phone)
  }

  /**
   * `GetAllCustomers`: the company's customers, newest first, each with the
   * listed columns. The list starts empty but non-nil, so an empty company
   * yields `[]`, not `null`.
   */
  method GetAllCustomers(db: Database, companyId: string, fault: bool) returns (r: Result<Slice<Customer>, DbError>)
    ensures r.Err? <==> fault
    ensures r.Err? ==> r.error == DriverError
    ensures r.Ok? ==> r.value.Made?
    ensures r.Ok? ==> var rows := CustomersOfCompany(db.customers, companyId);
      && |r.value.Elems()| == |rows|
      && forall k :: 0 <= k < |rows| ==> r.value.Elems()[k] == ListedCustomer(rows[k])
  {
    if fault {
      return Err(DriverError);
    }
    var rows := CustomersOfCompany(db.customers, companyId);
    var customers: Slice<Customer> := Made([]);
    for k := 0 to |rows|
      invariant customers.Made? && |customers.Elems()| == k
      invariant forall j :: 0 <= j < k ==> customers.Elems()[j] == ListedCustomer(rows[j])
    {
      customers := customers.Append(ListedCustomer(rows[k]));
    }
    return Ok(customers);
  }

  /**
   * What the listing's SELECT returns: the company's customers and no others,
   * each exactly as often as stored, newest first.
   */
  lemma CustomersOfCompanyMeaning(t: seq<Customer>, companyId: string)
    ensures var rows := CustomersOfCompany(t, companyId);
      && (forall k :: 0 <= k < |rows| ==> rows[k] in t && rows[k].companyId == companyId)
      && (forall k :: 0 <= k < |t| && t[k].companyId == companyId ==> t[k] in rows)
      && (forall c: Customer :: multiset(rows)[c] == if c.companyId == companyId then multiset(t)[c] else 0)
      && SortedBy(rows, NewerFirst)
  {
    var p := (c: Customer) => c.companyId == companyId;
    var kept := Filter(t, p);
    var rows := SortBy(kept, NewerFirst);
    forall c: Customer ensures multiset(rows)[c] == if c.companyId == companyId then multiset(t)[c] else 0 {
      FilterMultiset(t, p, c);
    }
    forall k | 0 <= k < |rows| ensures rows[k] in t && rows[k].companyId == companyId {
      assert rows[k] in multiset(rows);
      assert rows[k] in kept;
    }
    forall k | 0 <= k < |t| && t[k].companyId == companyId ensures t[k] in rows {
      assert t[k] in kept;
      assert t[k] in multiset(kept);
    }
    OrdersArePreorders();
    SortBySorted(kept, NewerFirst);
  }

  // ---------------------------------------------------------------------------
  // The partial UPDATE.

  /** The columns an update may set. */
  predicate IsCustomerColumn(col: string) {
    col == "name" || col == "tax_code" || col == "address" || col == "email" || col == "phone"
  }

  /** The value the request supplies for a column, if any. */
  function CustomerField(req: UpdateCustomerRequest, col: string): Option<string> {
    if col == "name" then req.name
    else if col == "tax_code" then req.taxCode
    else if col == "address" then req.address
    else if col == "email" then req.email
    else if col == "phone" then req.phone
    else None
  }

  /**
   * The columns whose fields the request supplies, in the order the
   * repository tests them: name, tax code, address, email, phone.
   */
  function SuppliedCustomerColumns(req: UpdateCustomerRequest): seq<string> {
    OneIf(req.name.Some?, "name") + OneIf(req.taxCode.Some?, "tax_code") + OneIf(req.address.Some?, "address")
    + OneIf(req.email.Some?, "email") + OneIf(req.phone.Some?, "phone")
  }

  /** The value bound to each column's `?`. */
  function CustomerArgs(req: UpdateCustomerRequest, cols: seq<string>): (args: seq<SqlValue>)
    ensures |args| == |cols|
  {
    seq(|cols|, i requires 0 <= i < |cols| => TextValue(CustomerField(req, cols[i]).GetOr("")))
  }

  /** Which request field each column reads. */
  lemma CustomerFieldOf(req: UpdateCustomerRequest)
    ensures CustomerField(req, "name") == req.name && CustomerField(req, "tax_code") == req.taxCode
    ensures CustomerField(req, "address") == req.address && CustomerField(req, "email") == req.email
    ensures CustomerField(req, "phone") == req.phone
  {
  }

  lemma SuppliedAreColumns(req: UpdateCustomerRequest)
    ensures forall col :: col in SuppliedCustomerColumns(req) ==> IsCustomerColumn(col)
  {
    var n, t, a, e, p := OneIf(req.name.Some?, "name"), OneIf(req.taxCode.Some?, "tax_code"),
                         OneIf(req.address.Some?, "address"), OneIf(req.email.Some?, "email"), OneIf(req.phone.Some?, "phone");
    assert forall col :: col in n + t + a + e + p <==> col in n || col in t || col in a || col in e || col in p;
  }

  /** The columns are named in the order the fields are checked, so none twice. */
  lemma SuppliedCustomerColumnsDistinct(req: UpdateCustomerRequest)
    ensures var cols := SuppliedCustomerColumns(req);
      forall i, j :: 0 <= i < j < |cols| ==> cols[i] != cols[j]
  {
  }

  /** A column is named at most once, and exactly when the request supplies its field. */
  lemma SuppliedCustomerColumnsMeaning(req: UpdateCustomerRequest)
    ensures var cols := SuppliedCustomerColumns(req);
      && (forall col :: col in cols <==> IsCustomerColumn(col) && CustomerField(req, col).Some?)
      && (forall i, j :: 0 <= i < j < |cols| ==> cols[i] != cols[j])
  {
    CustomerFieldOf(req);
    SuppliedAreColumns(req);
    SuppliedCustomerColumnsDistinct(req);
  }

  /**
   * The SET clauses and their arguments, built field by field exactly as the
   * repository does: each supplied field appends `col = ?` and its value.
   */
  method BuildCustomerUpdate(req: UpdateCustomerRequest) returns (setParts: seq<string>, args: seq<SqlValue>)
    ensures setParts == Clauses(SuppliedCustomerColumns(req))
    ensures args == CustomerArgs(req, SuppliedCustomerColumns(req))
  {
    CustomerFieldOf(req);
    ghost var cols: seq<string> := [];
    setParts, args := [], [];
    if req.name.Some? {
      ClausesArgsAppend(req, cols, "name");
      setParts, args, cols := setParts + [Clause("name")], args + [TextValue(req.name.value)], cols + ["name"];
    }
    assert cols == OneIf(req.name.Some?, "name");
    if req.taxCode.Some? {
      ClausesArgsAppend(req, cols, "tax_code");
      setParts, args, cols := setParts + [Clause("tax_code")], args + [TextValue(req.taxCode.value)], cols + ["tax_code"];
    }
    assert cols == OneIf(req.name.Some?, "name") + OneIf(req.taxCode.Some?, "tax_code");
    if req.address.Some? {
      ClausesArgsAppend(req, cols, "address");
      setParts, args, cols := setParts + [Clause("address")], args + [TextValue(req.address.value)], cols + ["address"];
    }
    assert cols == OneIf(req.name.Some?, "name") + OneIf(req.taxCode.Some?, "tax_code") + OneIf(req.address.Some?, "address");
    if req.email.Some? {
      ClausesArgsAppend(req, cols, "email");
      setParts, args, cols := setParts + [Clause("email")], args + [TextValue(req.email.value)], cols + ["email"];
    }
    assert cols == OneIf(req.name.Some?, "name") + OneIf(req.taxCode.Some?, "tax_code") + OneIf(req.address.Some?, "address")
                   + OneIf(req.email.Some?, "email");
    if req.phone.Some? {
      ClausesArgsAppend(req, cols, "phone");
      setParts, args, cols := setParts + [Clause("phone")], args + [TextValue(req.phone.value)], cols + ["phone"];
    }
    assert cols == SuppliedCustomerColumns(req);
  }

  /** Appending a column appends its clause and its argument. */
  lemma ClausesArgsAppend(req: UpdateCustomerRequest, cols: seq<string>, col: string)
    ensures Clauses(cols + [col]) == Clauses(cols) + [Clause(col)]
    ensures CustomerArgs(req, cols + [col]) == CustomerArgs(req, cols) + [TextValue(CustomerField(req, col).GetOr(""))]
  {
  }

  /** The full text `UpdateCustomer` sends for these clauses. */
  function CustomerUpdateQuery(setParts: seq<string>): string {
    CustomerUpdatePrefix + Text.Join(setParts, ", ") + CustomerUpdateSuffix
  }

  /** What the update does to one matching row: each supplied field replaces the stored one. */
  function ApplyCustomerUpdate(c: Customer, req: UpdateCustomerRequest): Customer {
    c.(name := req.name.GetOr(c.name), taxCode := req.taxCode.GetOr(c.taxCode), address := req.address.GetOr(c.address),
       email := req.email.GetOr(c.email), phone := req.phone.GetOr(c.phone))
  }

  /** Setting one column to the value the request supplies for it. */
  function SetCustomerField(c: Customer, req: UpdateCustomerRequest, col: string): Customer {
    var v := CustomerField(req, col).GetOr("");
    if col == "name" then c.(name := v)
    else if col == "tax_code" then c.(taxCode := v)
    else if col == "address" then c.(address := v)
    else if col == "email" then c.(email := v)
    else c.(phone := v)
  }

  function SetCustomerFields(c: Customer, req: UpdateCustomerRequest, cols: seq<string>): Customer
    decreases |cols|
  {
    if cols == [] then c else SetCustomerFields(SetCustomerField(c, req, cols[0]), req, cols[1..])
  }

  /** The database resolves a known column's clause and value into setting that field. */
  lemma ResolveOne(c: Customer, req: UpdateCustomerRequest, col: string)
    requires IsCustomerColumn(col)
    ensures var a := ResolveCustomerColumn(col, TextValue(CustomerField(req, col).GetOr("")));
      a.Some? && AssignCustomer(c, a.value) == SetCustomerField(c, req, col)
  {
  }

  /**
   * Over any list of known columns, the clauses and arguments the repository
   * builds resolve to assignments that set exactly those fields, in order.
   */
  lemma {:induction false} ResolveColumns(c: Customer, req: UpdateCustomerRequest, cols: seq<string>)
    requires forall i :: 0 <= i < |cols| ==> IsCustomerColumn(cols[i])
    ensures var sets := ResolveCustomerSets(Clauses(cols), CustomerArgs(req, cols));
      sets.Some? && AssignCustomerAll(c, sets.value) == SetCustomerFields(c, req, cols)
    decreases |cols|
  {
    if cols != [] {
      var col := cols[0];
      ResolveColumns(SetCustomerField(c, req, col), req, cols[1..]);
      assert Clauses(cols)[1..] == Clauses(cols[1..]);
      assert CustomerArgs(req, cols)[1..] == CustomerArgs(req, cols[1..]);
      ClauseReadsBack(col);
      ResolveOne(c, req, col);
    }
  }

  lemma {:induction false} SetCustomerFieldsConcat(c: Customer, req: UpdateCustomerRequest, a: seq<string>, b: seq<string>)
    ensures SetCustomerFields(c, req, a + b) == SetCustomerFields(SetCustomerFields(c, req, a), req, b)
    decreases |a|
  {
    if a == [] {
      assert a + b == b;
    } else {
      assert (a + b)[1..] == a[1..] + b;
      SetCustomerFieldsConcat(SetCustomerField(c, req, a[0]), req, a[1..], b);
    }
  }

  /** Setting the supplied columns one by one is the update of the whole record. */
  lemma SetSuppliedCustomerFields(c: Customer, req: UpdateCustomerRequest)
    ensures SetCustomerFields(c, req, SuppliedCustomerColumns(req)) == ApplyCustomerUpdate(c, req)
  {
    var n, t, a, e, p := OneIf(req.name.Some?, "name"), OneIf(req.taxCode.Some?, "tax_code"),
                         OneIf(req.address.Some?, "address"), OneIf(req.email.Some?, "email"), OneIf(req.phone.Some?, "phone");
    SetCustomerFieldsConcat(c, req, n + t + a + e, p);
    SetCustomerFieldsConcat(c, req, n + t + a, e);
    SetCustomerFieldsConcat(c, req, n + t, a);
    SetCustomerFieldsConcat(c, req, n, t);
  }

  /** No known column name holds the characters the statement text is cut at. */
  lemma CustomerColumnText(col: string)
    requires IsCustomerColumn(col)
    ensures ',' !in col && '?' !in col
  {
  }

  /** The text reads back as the clauses that built it, and holds one `?` per argument. */
  lemma CustomerUpdateReads(req: UpdateCustomerRequest)
    requires SuppliedCustomerColumns(req) != []
    ensures var cols := SuppliedCustomerColumns(req);
      && SetClauses(CustomerUpdateQuery(Clauses(cols)), CustomerUpdatePrefix, CustomerUpdateSuffix) == Some(Clauses(cols))
      && Text.Occurrences('?', CustomerUpdateQuery(Clauses(cols))) == |cols| + 2
  {
    var cols := SuppliedCustomerColumns(req);
    SuppliedAreColumns(req);
    forall i | 0 <= i < |cols| ensures ',' !in cols[i] && '?' !in cols[i] {
      assert cols[i] in cols;
      CustomerColumnText(cols[i]);
    }
    UpdateTextReadsBack(cols, CustomerUpdatePrefix, CustomerUpdateSuffix);
    CustomerSuffixPlaceholders();
  }

  /**
   * The statement the repository builds is one the database accepts, and it
   * updates the row with the given id and company by exactly the supplied fields.
   */
  lemma CustomerUpdateMeaning(req: UpdateCustomerRequest, customerId: string, companyId: string)
    requires SuppliedCustomerColumns(req) != []
    ensures var cols := SuppliedCustomerColumns(req);
      var plan := CustomerUpdatePlan(CustomerUpdateQuery(Clauses(cols)),
                                     CustomerArgs(req, cols) + [TextValue(customerId), TextValue(companyId)]);
      && plan.Some? && plan.value.id == customerId && plan.value.companyId == companyId
      && forall c: Customer :: AssignCustomerAll(c, plan.value.sets) == ApplyCustomerUpdate(c, req)
  {
    var cols := SuppliedCustomerColumns(req);
    var setArgs := CustomerArgs(req, cols);
    var args := setArgs + [TextValue(customerId), TextValue(companyId)];
    CustomerUpdateReads(req);
    SuppliedAreColumns(req);
    assert forall i :: 0 <= i < |cols| ==> cols[i] in cols;
    assert args[..|cols|] == setArgs;
    assert args[|cols|] == TextValue(customerId) && args[|cols| + 1] == TextValue(companyId);
    forall c: Customer ensures ResolveCustomerSets(Clauses(cols), setArgs).Some?
                  && AssignCustomerAll(c, ResolveCustomerSets(Clauses(cols), setArgs).value) == ApplyCustomerUpdate(c, req)
    {
      ResolveColumns(c, req, cols);
      SetSuppliedCustomerFields(c, req);
    }
    ResolveColumns(EmptyCustomer, req, cols);
    var sets := ResolveCustomerSets(Clauses(cols), setArgs);
    assert CustomerUpdatePlan(CustomerUpdateQuery(Clauses(cols)), args) == Some(CustomerPlan(sets.value, customerId, companyId));
  }

  /**
   * `UpdateCustomer`: with no supplied field, nothing is sent and nothing
   * changes; otherwise the built UPDATE runs, and it changes the supplied
   * fields of the one row with this id in this company.
   */
  method UpdateCustomer(db: Database, customerId: string, companyId: string, req: UpdateCustomerRequest, fault: bool)
    returns (err: Option<DbError>)
    requires db.Valid()
    modifies db
    ensures db.Valid()
    ensures SuppliedCustomerColumns(req) == [] ==> err.None?
    ensures SuppliedCustomerColumns(req) != [] ==> err == if fault then Some(DriverError) else None
    ensures |db.customers| == |old(db.customers)|
    ensures forall k :: 0 <= k < |db.customers| ==>
              db.customers[k] == if err.None? && IsCustomerRow(old(db.customers)[k], customerId, companyId)
                                 then ApplyCustomerUpdate(old(db.customers)[k], req)
                                 else old(db.customers)[k]
    ensures db.products == old(db.products) && db.invoices == old(db.invoices) && db.items == old(db.items)
  {
    var setParts, args := BuildCustomerUpdate(req);
    if |setParts| == 0 {
      return None;
    }
    var query := CustomerUpdateQuery(setParts);
    args := args + [TextValue(customerId), TextValue(companyId)];
    CustomerUpdateMeaning(req, customerId, companyId);
    err := db.UpdateCustomers(query, args, fault);
  }

  /** An update changes at most one row: the id is a primary key. */
  lemma UpdateTouchesOneRow(t: seq<Customer>, plan: CustomerPlan, i: int, j: int)
    requires UniqueBy(t, CustomerKey)
    requires 0 <= i < |t| && 0 <= j < |t|
    requires UpdatedCustomers(t, plan)[i] != t[i] && UpdatedCustomers(t, plan)[j] != t[j]
    ensures i == j
  {
    UniqueKeyMatch(t, CustomerKey, i, j);
  }

  /** `DeleteCustomer`: removes the customer with this id in this company, and no other row. */
  method DeleteCustomer(db: Database, customerId: string, companyId: string, fault: bool) returns (err: Option<DbError>)
    requires db.Valid()
    modifies db
    ensures db.Valid()
    ensures err == if fault then Some(DriverError) else None
    ensures db.customers == if fault then old(db.customers)
                            else Filter(old(db.customers), (c: Customer) => !IsCustomerRow(c, customerId, companyId))
    ensures db.products == old(db.products) && db.invoices == old(db.invoices) && db.items == old(db.items)
  {
    err := db.DeleteCustomers(customerId, companyId, fault);
  }

  /**
   * After a delete, the customer is gone from its company, every other
   * customer is still there, and other companies' rows are untouched.
   */
  lemma DeleteCustomerMeaning(t: seq<Customer>, customerId: string, companyId: string)
    ensures var r := Filter(t, (c: Customer) => !IsCustomerRow(c, customerId, companyId));
      && (forall k :: 0 <= k < |r| ==> !IsCustomerRow(r[k], customerId, companyId))
      && (forall k :: 0 <= k < |t| && !IsCustomerRow(t[k], customerId, companyId) ==> t[k] in r)
      && (forall c: Customer :: !IsCustomerRow(c, customerId, companyId) ==> multiset(r)[c] == multiset(t)[c])
  {
    var p := (c: Customer) => !IsCustomerRow(c, customerId, companyId);
    forall c: Customer | !IsCustomerRow(c, customerId, companyId) ensures multiset(Filter(t, p))[c] == multiset(t)[c] {
      FilterMultiset(t, p, c);
    }
  }
}
