/**
 * The product repository: inserts, the company-scoped lookups and listing,
 * and the dynamic UPDATE, which (unlike every other statement here) selects
 * its row by id alone.
 */
module ProductRepo {
  import opened Common
  import opened Models
  import opened Seqs
  import opened Db
  import Text

  /** The row the database stores for an INSERT: `created_at` and `updated_at` take their default, now. */
  function StoredProduct(p: Product, now: Time): Product {
    p.(createdAt := now, updatedAt := now)
  }

  /** `CreateProduct`: gives the product a new id, kept even when the insert fails, and inserts its columns. */
  method CreateProduct(db: Database, product: Product, newId: string, now: Time, fault: bool)
    returns (created: Product, err: Option<DbError>)
    requires db.Valid()
    modifies db
    ensures db.Valid()
    ensures created == product.(id := newId)
    ensures err.None? <==> !fault && !HasKey(old(db.products), ProductKey, newId)
    ensures db.products == if err.None? then old(db.products) + [StoredProduct(created, now)] else old(db.products)
    ensures db.customers == old(db.customers) && db.invoices == old(db.invoices) && db.items == old(db.items)
  {
    created := product.(id := newId);
    err := db.InsertProduct(StoredProduct(created, now), fault);
  }

  /** The columns both product SELECTs scan: no company, no timestamps. */
  function ScannedProduct(row: Product): Product {
    EmptyProduct.(id := row.id, name := row.name, description := row.description, unitPrice := row.unitPrice,
                  imageUrl := row.imageUrl)
  }

  /**
   * `GetProductByID`: the product with that id inside the caller's company;
   * another company's product is `sql.ErrNoRows`.
   */
  function GetProductByID(db: Database, productId: string, companyId: string, fault: bool)
    : (r: Result<Product, DbError>)
    reads db`products
  {
    if fault then Err(DriverError)
    else
      var row := FirstWhere(db.products, (p: Product) => p.id == productId && p.companyId == companyId);
      if row.Some? then Ok(ScannedProduct(row.value)) else Err(ErrNoRows)
  }

  /** The lookup succeeds exactly when the company holds a product with that id, and returns its columns. */
  lemma GetProductByIDFinds(db: Database, productId: string, companyId: string, fault: bool)
    ensures var r := GetProductByID(db, productId, companyId, fault);
      && (r.Ok? <==> !fault && exists k :: 0 <= k < |db.products|
                                 && db.products[k].id == productId && db.products[k].companyId == companyId)
      && (r.Ok? ==> r.value.id == productId && r.value.companyId == ""
                    && exists k :: 0 <= k < |db.products| && db.products[k].id == productId
                                   && db.products[k].companyId == companyId && r.value == ScannedProduct(db.products[k]))
      && (r.Err? ==> r.error == if fault then DriverError else ErrNoRows)
  {
    var r := GetProductByID(db, productId, companyId, fault);
    if r.Ok? {
      var p := (p: Product) => p.id == productId && p.companyId == companyId;
      var k := FirstIndex(db.products, p);
      assert r.value == ScannedProduct(db.products[k]);
    }
  }

  /** A product stored under another company is not found, whatever its id. */
  lemma GetProductByIDIsolated(db: Database, productId: string, companyId: string)
    requires forall k :: 0 <= k < |db.products| && db.products[k].id == productId ==> db.products[k].companyId != companyId
    ensures GetProductByID(db, productId, companyId, false) == Err(ErrNoRows)
  {
    GetProductByIDFinds(db, productId, companyId, false);
  }

  /**
   * `GetAllProducts`: the company's products by name, each with the scanned
   * columns; the list starts empty but non-nil.
   */
  method GetAllProducts(db: Database, companyId: string, fault: bool) returns (r: Result<Slice<Product>, DbError>)
    ensures r.Err? <==> fault
    ensures r.Err? ==> r.error == DriverError
    ensures r.Ok? ==> r.value.Made?
    ensures r.Ok? ==> var rows := ProductsOfCompany(db.products, companyId);
      && |r.value.Elems()| == |rows|
      && forall k :: 0 <= k < |rows| ==> r.value.Elems()[k] == ScannedProduct(rows[k])
  {
    if fault {
      return Err(DriverError);
    }
    var rows := ProductsOfCompany(db.products, companyId);
    var products: Slice<Product> := Made([]);
    for k := 0 to |rows|
      invariant products.Made? && |products.Elems()| == k
      invariant forall j :: 0 <= j < k ==> products.Elems()[j] == ScannedProduct(rows[j])
    {
      products := products.Append(ScannedProduct(rows[k]));
    }
    return Ok(products);
  }

  /**
   * What the listing's SELECT returns: the company's products and no others,
   * each exactly as often as stored, in ascending order of name.
   */
  lemma ProductsOfCompanyMeaning(t: seq<Product>, companyId: string)
    ensures var rows := ProductsOfCompany(t, companyId);
      && (forall k :: 0 <= k < |rows| ==> rows[k] in t && rows[k].companyId == companyId)
      && (forall k :: 0 <= k < |t| && t[k].companyId == companyId ==> t[k] in rows)
      && (forall p: Product :: multiset(rows)[p] == if p.companyId == companyId then multiset(t)[p] else 0)
      && SortedBy(rows, NameFirst)
  {
    var p := (p: Product) => p.companyId == companyId;
    var kept := Filter(t, p);
    var rows := SortBy(kept, NameFirst);
    forall x: Product ensures multiset(rows)[x] == if x.companyId == companyId then multiset(t)[x] else 0 {
      FilterMultiset(t, p, x);
    }
    forall k | 0 <= k < |rows| ensures rows[k] in t && rows[k].companyId == companyId {
      assert rows[k] in multiset(rows);
      assert rows[k] in kept;
    }
    forall k | 0 <= k < |t| && t[k].companyId == companyId ensures t[k] in rows {
      assert t[k] in kept;
      assert t[k] in multiset(kept);
    }
    OrdersArePreorders();
    SortBySorted(kept, NameFirst);
  }

  // ---------------------------------------------------------------------------
  // The partial UPDATE.

  /** The columns an update may set. */
  predicate IsProductColumn(col: string) {
    col == "name" || col == "description" || col == "unit_price" || col == "image_url"
  }

  /** The value the request supplies for a column, as it is bound: text, or a decimal for the price. */
  function ProductValue(req: UpdateProductRequest, col: string): Option<SqlValue> {
    if col == "name" then (if req.name.Some? then Some(TextValue(req.name.value)) else None)
    else if col == "description" then (if req.description.Some? then Some(TextValue(req.description.value)) else None)
    else if col == "unit_price" then (if req.unitPrice.Some? then Some(DecimalValue(req.unitPrice.value)) else None)
    else if col == "image_url" then (if req.imageUrl.Some? then Some(TextValue(req.imageUrl.value)) else None)
    else None
  }

  /** The columns whose fields the request supplies, in the order the repository tests them. */
  function SuppliedProductColumns(req: UpdateProductRequest): seq<string> {
    OneIf(req.name.Some?, "name") + OneIf(req.description.Some?, "description")
    + OneIf(req.unitPrice.Some?, "unit_price") + OneIf(req.imageUrl.Some?, "image_url")
  }

  /** The value bound to each column's `?`. */
  function ProductArgs(req: UpdateProductRequest, cols: seq<string>): (args: seq<SqlValue>)
    ensures |args| == |cols|
  {
    seq(|cols|, i requires 0 <= i < |cols| => ProductValue(req, cols[i]).GetOr(TextValue("")))
  }

  lemma ProductValueOf(req: UpdateProductRequest)
    ensures ProductValue(req, "name") == if req.name.Some? then Some(TextValue(req.name.value)) else None
    ensures ProductValue(req, "description") == if req.description.Some? then Some(TextValue(req.description.value)) else None
    ensures ProductValue(req, "unit_price") == if req.unitPrice.Some? then Some(DecimalValue(req.unitPrice.value)) else None
    ensures ProductValue(req, "image_url") == if req.imageUrl.Some? then Some(TextValue(req.imageUrl.value)) else None
  {
  }

  lemma SuppliedAreProductColumns(req: UpdateProductRequest)
    ensures forall col :: col in SuppliedProductColumns(req) ==> IsProductColumn(col) && ProductValue(req, col).Some?
  {
    ProductValueOf(req);
    var n, d, u, i := OneIf(req.name.Some?, "name"), OneIf(req.description.Some?, "description"),
                      OneIf(req.unitPrice.Some?, "unit_price"), OneIf(req.imageUrl.Some?, "image_url");
    assert forall col :: col in n + d + u + i <==> col in n || col in d || col in u || col in i;
  }

  /** A column is named at most once, and exactly when the request supplies its field. */
  lemma SuppliedProductColumnsMeaning(req: UpdateProductRequest)
    ensures var cols := SuppliedProductColumns(req);
      && (forall col :: col in cols <==> IsProductColumn(col) && ProductValue(req, col).Some?)
      && (forall i, j :: 0 <= i < j < |cols| ==> cols[i] != cols[j])
  {
    ProductValueOf(req);
    SuppliedAreProductColumns(req);
  }

  /** Appending a column appends its clause and its argument. */
  lemma ProductClausesArgsAppend(req: UpdateProductRequest, cols: seq<string>, col: string)
    ensures Clauses(cols + [col]) == Clauses(cols) + [Clause(col)]
    ensures ProductArgs(req, cols + [col]) == ProductArgs(req, cols) + [ProductValue(req, col).GetOr(TextValue(""))]
  {
  }

  /**
   * The SET clauses and their arguments, built field by field as the
   * repository does: each supplied field appends `col = ?` and its value.
   */
  method BuildProductUpdate(req: UpdateProductRequest) returns (setParts: seq<string>, args: seq<SqlValue>)
    ensures setParts == Clauses(SuppliedProductColumns(req))
    ensures args == ProductArgs(req, SuppliedProductColumns(req))
  {
    ProductValueOf(req);
    ghost var cols: seq<string> := [];
    setParts, args := [], [];
    if req.name.Some? {
      ProductClausesArgsAppend(req, cols, "name");
      setParts, args, cols := setParts + [Clause("name")], args + [TextValue(req.name.value)], cols + ["name"];
    }
    assert cols == OneIf(req.name.Some?, "name");
    if req.description.Some? {
      ProductClausesArgsAppend(req, cols, "description");
      setParts, args, cols := setParts + [Clause("description")], args + [TextValue(req.description.value)], cols + ["description"];
    }
    assert cols == OneIf(req.name.Some?, "name") + OneIf(req.description.Some?, "description");
    if req.unitPrice.Some? {
      ProductClausesArgsAppend(req, cols, "unit_price");
      setParts, args, cols := setParts + [Clause("unit_price")], args + [DecimalValue(req.unitPrice.value)], cols + ["unit_price"];
    }
    assert cols == OneIf(req.name.Some?, "name") + OneIf(req.description.Some?, "description")
                   + OneIf(req.unitPrice.Some?, "unit_price");
    if req.imageUrl.Some? {
      ProductClausesArgsAppend(req, cols, "image_url");
      setParts, args, cols := setParts + [Clause("image_url")], args + [TextValue(req.imageUrl.value)], cols + ["image_url"];
    }
    assert cols == SuppliedProductColumns(req);
  }

  /** The full text `UpdateProduct` sends for these clauses. */
  function ProductUpdateQuery(setParts: seq<string>): string {
    ProductUpdatePrefix + Text.Join(setParts, ", ") + ProductUpdateSuffix
  }

  /** What the update does to the matching row: each supplied field replaces the stored one. */
  function ApplyProductUpdate(p: Product, req: UpdateProductRequest): Product {
    p.(name := req.name.GetOr(p.name), description := req.description.GetOr(p.description),
       unitPrice := req.unitPrice.GetOr(p.unitPrice), imageUrl := req.imageUrl.GetOr(p.imageUrl))
  }

  /** Setting one column to the value the request supplies for it, if any. */
  function SetProductField(p: Product, req: UpdateProductRequest, col: string): Product {
    if col == "name" then p.(name := req.name.GetOr(p.name))
    else if col == "description" then p.(description := req.description.GetOr(p.description))
    else if col == "unit_price" then p.(unitPrice := req.unitPrice.GetOr(p.unitPrice))
    else if col == "image_url" then p.(imageUrl := req.imageUrl.GetOr(p.imageUrl))
    else p
  }

  function SetProductFields(p: Product, req: UpdateProductRequest, cols: seq<string>): Product
    decreases |cols|
  {
    if cols == [] then p else SetProductFields(SetProductField(p, req, cols[0]), req, cols[1..])
  }

  /** The database resolves a supplied column's clause and value into setting that field. */
  lemma ResolveProductOne(p: Product, req: UpdateProductRequest, col: string)
    requires IsProductColumn(col) && ProductValue(req, col).Some?
    ensures var a := ResolveProductColumn(col, ProductValue(req, col).value);
      a.Some? && AssignProduct(p, a.value) == SetProductField(p, req, col)
  {
  }

  /** Over supplied columns, the built clauses and arguments resolve to setting exactly those fields, in order. */
  lemma {:induction false} ResolveProductColumns(p: Product, req: UpdateProductRequest, cols: seq<string>)
    requires forall i :: 0 <= i < |cols| ==> IsProductColumn(cols[i]) && ProductValue(req, cols[i]).Some?
    ensures var sets := ResolveProductSets(Clauses(cols), ProductArgs(req, cols));
      sets.Some? && AssignProductAll(p, sets.value) == SetProductFields(p, req, cols)
    decreases |cols|
  {
    if cols != [] {
      var col := cols[0];
      ResolveProductColumns(SetProductField(p, req, col), req, cols[1..]);
      assert Clauses(cols)[1..] == Clauses(cols[1..]);
      assert ProductArgs(req, cols)[1..] == ProductArgs(req, cols[1..]);
      ClauseReadsBack(col);
      ResolveProductOne(p, req, col);
    }
  }

  lemma {:induction false} SetProductFieldsConcat(p: Product, req: UpdateProductRequest, a: seq<string>, b: seq<string>)
    ensures SetProductFields(p, req, a + b) == SetProductFields(SetProductFields(p, req, a), req, b)
    decreases |a|
  {
    if a == [] {
      assert a + b == b;
    } else {
      assert (a + b)[1..] == a[1..] + b;
      SetProductFieldsConcat(SetProductField(p, req, a[0]), req, a[1..], b);
    }
  }

  /** Setting the supplied columns one by one is the update of the whole record. */
  lemma SetSuppliedProductFields(p: Product, req: UpdateProductRequest)
    ensures SetProductFields(p, req, SuppliedProductColumns(req)) == ApplyProductUpdate(p, req)
  {
    var n, d, u, i := OneIf(req.name.Some?, "name"), OneIf(req.description.Some?, "description"),
                      OneIf(req.unitPrice.Some?, "unit_price"), OneIf(req.imageUrl.Some?, "image_url");
    SetProductFieldsConcat(p, req, n + d + u, i);
    SetProductFieldsConcat(p, req, n + d, u);
    SetProductFieldsConcat(p, req, n, d);
  }

  /** No known column name holds the characters the statement text is cut at. */
  lemma ProductColumnText(col: string)
    requires IsProductColumn(col)
    ensures ',' !in col && '?' !in col
  {
  }

  /** The text reads back as the clauses that built it, and holds one `?` per argument. */
  lemma ProductUpdateReads(req: UpdateProductRequest)
    requires SuppliedProductColumns(req) != []
    ensures var cols := SuppliedProductColumns(req);
      && SetClauses(ProductUpdateQuery(Clauses(cols)), ProductUpdatePrefix, ProductUpdateSuffix) == Some(Clauses(cols))
      && Text.Occurrences('?', ProductUpdateQuery(Clauses(cols))) == |cols| + 1
  {
    var cols := SuppliedProductColumns(req);
    SuppliedAreProductColumns(req);
    forall i | 0 <= i < |cols| ensures ',' !in cols[i] && '?' !in cols[i] {
      assert cols[i] in cols;
      ProductColumnText(cols[i]);
    }
    UpdateTextReadsBack(cols, ProductUpdatePrefix, ProductUpdateSuffix);
    ProductSuffixPlaceholders();
  }

  /**
   * The statement the repository builds is one the database accepts, and it
   * updates the row with the given id, in any company, by exactly the supplied fields.
   */
  lemma ProductUpdateMeaning(req: UpdateProductRequest, productId: string)
    requires SuppliedProductColumns(req) != []
    ensures var cols := SuppliedProductColumns(req);
      var plan := ProductUpdatePlan(ProductUpdateQuery(Clauses(cols)), ProductArgs(req, cols) + [TextValue(productId)]);
      && plan.Some? && plan.value.id == productId
      && forall p: Product :: AssignProductAll(p, plan.value.sets) == ApplyProductUpdate(p, req)
  {
    var cols := SuppliedProductColumns(req);
    var setArgs := ProductArgs(req, cols);
    var args := setArgs + [TextValue(productId)];
    ProductUpdateReads(req);
    SuppliedAreProductColumns(req);
    assert forall i :: 0 <= i < |cols| ==> cols[i] in cols;
    assert args[..|cols|] == setArgs;
    assert args[|cols|] == TextValue(productId);
    forall p: Product ensures ResolveProductSets(Clauses(cols), setArgs).Some?
                  && AssignProductAll(p, ResolveProductSets(Clauses(cols), setArgs).value) == ApplyProductUpdate(p, req)
    {
      ResolveProductColumns(p, req, cols);
      SetSuppliedProductFields(p, req);
    }
    ResolveProductColumns(EmptyProduct, req, cols);
    var sets := ResolveProductSets(Clauses(cols), setArgs);
    assert ProductUpdatePlan(ProductUpdateQuery(Clauses(cols)), args) == Some(ProductPlan(sets.value, productId));
  }

  /**
   * `UpdateProduct`: with no supplied field, nothing is sent; otherwise the
   * built UPDATE changes the supplied fields of the row with this id,
   * whichever company owns it.
   */
  method UpdateProduct(db: Database, productId: string, req: UpdateProductRequest, fault: bool)
    returns (err: Option<DbError>)
    requires db.Valid()
    modifies db
    ensures db.Valid()
    ensures SuppliedProductColumns(req) == [] ==> err.None?
    ensures SuppliedProductColumns(req) != [] ==> err == if fault then Some(DriverError) else None
    ensures |db.products| == |old(db.products)|
    ensures forall k :: 0 <= k < |db.products| ==>
              db.products[k] == if err.None? && old(db.products)[k].id == productId
                                then ApplyProductUpdate(old(db.products)[k], req)
                                else old(db.products)[k]
    ensures db.customers == old(db.customers) && db.invoices == old(db.invoices) && db.items == old(db.items)
  {
    var setParts, args := BuildProductUpdate(req);
    if |setParts| == 0 {
      return None;
    }
    var query := ProductUpdateQuery(setParts);
    args := args + [TextValue(productId)];
    ProductUpdateMeaning(req, productId);
    err := db.UpdateProducts(query, args, fault);
  }
}
