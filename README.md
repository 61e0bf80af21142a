# VAT simple backend — a Dafny model of its core

This project models the core of a small multi-tenant invoicing backend in
Dafny. A company keeps customers and products and issues point-of-sale VAT
invoices against them. The model covers these parts:

- **Repositories** (`CustomerRepo`, `ProductRepo`, `InvoiceRepo`). They work
  on a `Db.Database` object that holds the four tables (customers, products,
  invoices, invoice items) as sequences of rows in storage order.
  - The primary keys are an invariant of the database (`Database.Valid`).
  - Every driver failure is an explicit parameter.
  - The invoice insert runs in a transaction (`Db.Tx`): the header and all
    items become visible together, or nothing does.
  - Each `SELECT` is modelled with its own filter, join, column projection and
    `ORDER BY`.
  - A dynamic `UPDATE … SET` statement is built by one function and read back
    by an executor. The proofs show that the text the repository assembles
    updates exactly the supplied fields of the matching row, and nothing else.
- **Invoice service** (`InvoiceService`). It has three operations:
  - `CreateInvoice` finds or creates the company's walk-in customer
    ("Khách vãng lai"). It prices every line from the company's products
    (stopping at the first unknown product with a 400 `PRODUCT_NOT_FOUND`).
    It adds a 10% tax, rounds subtotal, tax and total to cents independently
    (`math.Round(x*100)/100`, half away from zero) and stores the invoice with
    status "paid" and number `POS-<unix seconds>`.
  - `GetInvoice` maps "no row" to 404 `INVOICE_NOT_FOUND` and any other
    failure to 500.
  - `ListInvoices` maps a failure to 500.
- **Application errors** (`AppErrors`). This is `AppError` with its functional
  options (`WithCode`, `WithDetails`, `WithCause`), its `Error()` text and the
  predefined errors.
- **Authentication middleware** (`AuthMiddleware`). It handles the
  `Authorization: Bearer <token>` header. On a request context (`Context`) it
  either aborts with the error response, or sets `userID`, `email` and
  (when present) `companyID` and passes the request on. The token parser is a
  function parameter.
- **Validator** (`Validator`). It turns the validation library's field errors
  into the fixed English messages and the lower-cased field-to-message
  details map. These go into a 400 `VALIDATION_ERROR`, which wraps the
  library's error. The validator itself is created lazily.

Support modules:

- `Common`: Option, Result, and `Slice`, which tells a Go nil slice from an
  empty one.
- `Models`: rows and requests.
- `Seqs`: filter, stable insertion sort, key uniqueness.
- `Text`: join and split, decimal rendering, ASCII lower-casing.
- `Money`: `math.Round` on exact reals.

## Model

| member | source | states |
|---|---|---|
| CustomerRepo.CreateCustomer | vat-simple-backend/internal/repository/customer_repo.go:29-34 | the caller's customer gets the new id, even when the insert fails; the row, with created/updated set to now, is appended exactly when the driver does not fail and the id is not taken; the other tables are untouched |
| CustomerRepo.GetCustomerByIDFinds | vat-simple-backend/internal/repository/customer_repo.go:36-43 | a customer is returned iff a row has that id and that company (tenant isolation); the result is that row with the scanned columns; otherwise ErrNoRows, or the driver's error |
| CustomerRepo.GetCustomerByIDUnique | vat-simple-backend/internal/repository/customer_repo.go:36-43 | with unique ids, the lookup returns exactly the stored row that matches |
| CustomerRepo.FindCustomerByName | vat-simple-backend/internal/repository/customer_repo.go:64-71 | found iff some row of the company has that name; the result is a matching row (the model takes the first in insertion order); otherwise ErrNoRows or the driver error |
| CustomerRepo.GetAllCustomers | vat-simple-backend/internal/repository/customer_repo.go:45-62 | on success a non-nil list (empty for no rows), one element per company row in `created_at DESC` order, carrying only the selected columns; a query failure is returned as such |
| CustomerRepo.CustomersOfCompanyMeaning | vat-simple-backend/internal/repository/customer_repo.go:46 | the listed rows are exactly the company's rows (as a multiset) and they are sorted newest first |
| CustomerRepo.SuppliedCustomerColumnsMeaning | vat-simple-backend/internal/repository/customer_repo.go:78-97 | a column gets a SET clause iff the request supplies its field, and no column appears twice |
| CustomerRepo.BuildCustomerUpdate | vat-simple-backend/internal/repository/customer_repo.go:75-97 | the clauses and arguments are those of the supplied columns, in the order name, tax_code, address, email, phone |
| CustomerRepo.CustomerUpdateReads | vat-simple-backend/internal/repository/customer_repo.go:103-104 | the rendered UPDATE splits back into exactly the built clauses, and its `?` count equals the clauses plus the id and company arguments |
| CustomerRepo.CustomerUpdateMeaning | vat-simple-backend/internal/repository/customer_repo.go:99-107 | the executed statement targets the given id and company and sets every supplied field and only those |
| CustomerRepo.UpdateCustomer | vat-simple-backend/internal/repository/customer_repo.go:74-108 | with nothing supplied: no statement, no error; otherwise the matching row (same id and company) gets the supplied fields and every other row stays as it was, unless the driver fails |
| CustomerRepo.UpdateTouchesOneRow | vat-simple-backend/internal/repository/customer_repo.go:103 | with unique ids an update changes at most one row |
| CustomerRepo.DeleteCustomer | vat-simple-backend/internal/repository/customer_repo.go:110-114 | removes the rows with that id and company, and no other; on failure nothing changes |
| CustomerRepo.DeleteCustomerMeaning | vat-simple-backend/internal/repository/customer_repo.go:111 | after the delete no matching row remains and every other row keeps its multiplicity |
| ProductRepo.CreateProduct | vat-simple-backend/internal/repository/product_repo.go:28-33 | the product gets the new id; its row is appended iff the driver does not fail and the id is free |
| ProductRepo.GetProductByIDFinds | vat-simple-backend/internal/repository/product_repo.go:36-41 | found iff a row has that id in that company; the result carries the scanned columns (no company id); otherwise ErrNoRows or the driver error |
| ProductRepo.GetProductByIDIsolated | vat-simple-backend/internal/repository/product_repo.go:38 | another company's product is never returned |
| ProductRepo.GetAllProducts | vat-simple-backend/internal/repository/product_repo.go:44-61 | a non-nil list of the company's products in `name ASC` order with the selected columns, or the driver error |
| ProductRepo.ProductsOfCompanyMeaning | vat-simple-backend/internal/repository/product_repo.go:45 | the listed rows are exactly the company's rows (as a multiset) and they are sorted by name |
| ProductRepo.SuppliedProductColumnsMeaning | vat-simple-backend/internal/repository/product_repo.go:69-84 | a column gets a SET clause iff the request supplies its field, with no duplicate |
| ProductRepo.BuildProductUpdate | vat-simple-backend/internal/repository/product_repo.go:65-84 | the clauses and arguments are those of the supplied columns, in the order name, description, unit_price, image_url, with the price bound as a number |
| ProductRepo.ProductUpdateReads | vat-simple-backend/internal/repository/product_repo.go:90 | the rendered UPDATE splits back into the built clauses and has one `?` per clause plus the id |
| ProductRepo.ProductUpdateMeaning | vat-simple-backend/internal/repository/product_repo.go:86-91 | the executed statement targets the given id and sets every supplied field and only those |
| ProductRepo.UpdateProduct | vat-simple-backend/internal/repository/product_repo.go:64-95 | with nothing supplied: no error and no change; otherwise every row with that id, in any company, gets the supplied fields, unless the driver fails |
| InvoiceRepo.CreateInvoice | vat-simple-backend/internal/repository/invoice_repo.go:26-76 | the header gets the new id (unless Begin fails); it succeeds iff no step fails and every new id is free; on success the header row and one row per item, each with its own id and the invoice's id, are appended; on any failure both tables are as before (rollback) |
| InvoiceRepo.CreatedRowsMeaning | vat-simple-backend/internal/repository/invoice_repo.go:61-67 | the k-th new item row has the k-th item id, the invoice id and the item's product, description, quantity, unit price and total |
| InvoiceRepo.FindInvoiceSound | vat-simple-backend/internal/repository/invoice_repo.go:81-89 | a found invoice has the requested id and company, is a stored row joined with its customer, and carries that customer's name |
| InvoiceRepo.FindInvoiceComplete | vat-simple-backend/internal/repository/invoice_repo.go:81-89 | a stored invoice of that id and company whose customer exists is found |
| InvoiceRepo.FindInvoiceMeaning | vat-simple-backend/internal/repository/invoice_repo.go:81-92 | the invoice is found iff such a joined row exists |
| InvoiceRepo.GetInvoiceByID | vat-simple-backend/internal/repository/invoice_repo.go:79-113 | ErrNoRows when no joined row matches; a header failure or an items failure is returned as such; otherwise the header with its items (the model lists them in insertion order), nil when there are none |
| InvoiceRepo.ScanItems | vat-simple-backend/internal/repository/invoice_repo.go:101-109 | the scanned items: nil for no rows, one per row otherwise, without the invoice id column |
| InvoiceRepo.ItemsOfMeaning | vat-simple-backend/internal/repository/invoice_repo.go:95-96 | the items read are exactly the rows of that invoice, as a multiset |
| InvoiceRepo.GetInvoicesByCompanyID | vat-simple-backend/internal/repository/invoice_repo.go:116-139 | a list that is nil iff the company has no joined invoice, one element per row in `issue_date DESC` order with the listed columns, or the driver error |
| InvoiceRepo.ScanListed | vat-simple-backend/internal/repository/invoice_repo.go:129-137 | one listed invoice per row, nil for none |
| InvoiceRepo.JoinedRowMeaning | vat-simple-backend/internal/repository/invoice_repo.go:117-122 | a listed row belongs to the company, comes from a stored invoice, and names an existing customer |
| InvoiceRepo.InvoicesOfCompanySound | vat-simple-backend/internal/repository/invoice_repo.go:117-122 | every listed invoice belongs to the company and carries its customer's name |
| InvoiceRepo.InvoicesOfCompanyComplete | vat-simple-backend/internal/repository/invoice_repo.go:117-122 | every company invoice with a customer is listed, and the list is sorted by issue date, latest first |
| InvoiceService.WalkInMeaning | vat-simple-backend/internal/service/invoice_service.go:37-55 | the resolved customer is the company's walk-in customer; an existing one is reused and no row is added; a lookup failure, or a failed creation after "no rows", is a 500 that adds no row |
| InvoiceService.ResolveWalkIn | vat-simple-backend/internal/service/invoice_service.go:37-55 | the result and the customer table after the call are those WalkIn and WalkInRows give for the lookup's answer; other tables are untouched |
| InvoiceService.PriceItems | vat-simple-backend/internal/service/invoice_service.go:57-74 | the items are the request lines priced in order (nil when there are none), the subtotal is the sum of the line totals, and the first failing product lookup ends the loop with its error |
| InvoiceService.PricedLines | vat-simple-backend/internal/service/invoice_service.go:60-64 | pricing succeeds iff every line's product is found in the company |
| InvoiceService.PricedItemFields | vat-simple-backend/internal/service/invoice_service.go:65-73 | each item keeps its line's product and quantity, takes the stored product's name and price, and totals quantity times price |
| InvoiceService.PricedFailure | vat-simple-backend/internal/service/invoice_service.go:61-64 | a failed pricing names the first line whose product is missing: every earlier line was found |
| InvoiceService.ProductNotFoundError | vat-simple-backend/internal/service/invoice_service.go:63 | the error is 400 `PRODUCT_NOT_FOUND` with the message naming the product |
| InvoiceService.CreateInvoice | vat-simple-backend/internal/service/invoice_service.go:36-98 | the result and the three tables after the call are exactly the expected outcome for the walk-in lookup, the tables before the call and the pricing; products are untouched |
| InvoiceService.CreateInvoiceAllOrNothing | vat-simple-backend/internal/service/invoice_service.go:91-97 | a failed creation leaves the invoice and item tables unchanged; a successful one appends one header and exactly one item row per priced line, tied to the invoice |
| InvoiceService.CreateInvoiceFailures | vat-simple-backend/internal/service/invoice_service.go:38-64 | a walk-in failure is a 500, a pricing failure is returned as it is, and a priced invoice succeeds iff the repository transaction does |
| InvoiceService.CreatedInvoiceHeader | vat-simple-backend/internal/service/invoice_service.go:75-89 | the stored header belongs to the company and its walk-in customer, has status "paid", number `POS-<seconds>`, the two dates, subtotal, tax (10%) and total each rounded to cents, and no items or customer name |
| InvoiceService.InvoiceNumberReadsBack | vat-simple-backend/internal/service/invoice_service.go:82 | the invoice number is "POS-" followed by digits that read back as the Unix seconds |
| InvoiceService.HeaderAmounts | vat-simple-backend/internal/service/invoice_service.go:75-87 | each amount is within half a cent of its exact value and is already a whole number of cents |
| InvoiceService.WholeCentTotals | vat-simple-backend/internal/service/invoice_service.go:85-87 | for a subtotal in whole cents the subtotal is kept and the total is subtotal plus tax |
| InvoiceService.SubCentTotalsDrift | vat-simple-backend/internal/service/invoice_service.go:85-87 | because the three are rounded independently, a sub-cent subtotal (1.0049) gives a total (1.11) different from subtotal plus tax (1.00 + 0.10) |
| InvoiceService.TwoLineExample | vat-simple-backend/internal/service/invoice_service.go:65-87 | 2 × 100.00 + 1 × 49.99 gives subtotal 249.99, tax 25.00, total 274.99 |
| InvoiceService.InvoiceNotFoundError | vat-simple-backend/internal/service/invoice_service.go:104 | the error is 404 `INVOICE_NOT_FOUND`, "Invoice not found" |
| InvoiceService.GetInvoice | vat-simple-backend/internal/service/invoice_service.go:100-110 | a missing invoice is a 404, any driver failure a 500, otherwise the repository's invoice |
| InvoiceService.ListInvoices | vat-simple-backend/internal/service/invoice_service.go:112-119 | a driver failure is a 500; otherwise the company's listed invoices, nil when there are none |
| Money.Round | vat-simple-backend/internal/service/invoice_service.go:85 | `math.Round` is within a half of its argument |
| Money.RoundNearest | vat-simple-backend/internal/service/invoice_service.go:85 | the nearest integer is chosen, and ties go away from zero |
| Money.RoundOdd | vat-simple-backend/internal/service/invoice_service.go:85 | rounding is symmetric about zero |
| Money.Round2 | vat-simple-backend/internal/service/invoice_service.go:85-87 | rounding to cents moves an amount by at most half a cent |
| Money.Round2WholeCents | vat-simple-backend/internal/service/invoice_service.go:85-87 | an amount in whole cents is unchanged |
| Money.Round2Idempotent | vat-simple-backend/internal/service/invoice_service.go:85-87 | rounding to cents twice is the same as once |
| AppErrors.ErrorTextParts | vat-simple-backend/pkg/errors/errors.go:18-23 | the text is the message, followed by ": " and the cause when there is one; it equals the message iff there is no cause |
| AppErrors.LastCodeWins | vat-simple-backend/pkg/errors/errors.go:31-33 | the code is the one given by the last `WithCode` option |
| AppErrors.LastDetailsWins | vat-simple-backend/pkg/errors/errors.go:31-33 | the details are those of the last `WithDetails` option |
| AppErrors.LastCauseWins | vat-simple-backend/pkg/errors/errors.go:31-33 | the cause is that of the last `WithCause` option |
| AppErrors.CodeUntouched | vat-simple-backend/pkg/errors/errors.go:41-45 | options other than `WithCode` leave the code alone |
| AppErrors.DetailsUntouched | vat-simple-backend/pkg/errors/errors.go:48-52 | options other than `WithDetails` leave the details alone |
| AppErrors.CauseUntouched | vat-simple-backend/pkg/errors/errors.go:55-59 | options other than `WithCause` leave the cause alone |
| AppErrors.NewAppError | vat-simple-backend/pkg/errors/errors.go:26-35 | status and message as given; each field set by the last option naming it, and left at its zero value when none does |
| AppErrors.PredefinedErrors | vat-simple-backend/pkg/errors/errors.go:62-69 | the six predefined errors have the statuses 404, 400, 401, 403, 500, 409 with their codes, and no details or cause |
| AuthMiddleware.BearerTokenMeaning | vat-simple-backend/internal/api/middleware/auth_middleware.go:24-32 | a token is found iff the header is "Bearer " followed by a non-empty token, and it is that token |
| AuthMiddleware.BearerRoundTrip | vat-simple-backend/internal/api/middleware/auth_middleware.go:24-32 | a non-empty token written behind "Bearer " is read back |
| AuthMiddleware.BearerRejects | vat-simple-backend/internal/api/middleware/auth_middleware.go:24-32 | the bare prefix, headers of seven characters or fewer and any other prefix yield no token |
| AuthMiddleware.InvalidAuthHeaderError | vat-simple-backend/internal/api/middleware/auth_middleware.go:28 | a malformed header is a 401 `INVALID_AUTH_HEADER` |
| AuthMiddleware.DecideMeaning | vat-simple-backend/internal/api/middleware/auth_middleware.go:15-40 | an empty header is a 401 `UNAUTHORIZED`; a non-empty header without a token is a 401 `INVALID_AUTH_HEADER`; a refused token gets the parser's error; a request is accepted iff its token parses, with the parser's claims |
| AuthMiddleware.ClaimKeysMeaning | vat-simple-backend/internal/api/middleware/auth_middleware.go:43-47 | userID and email are always set; companyID is set only for a non-empty claim, otherwise left as it was; no key is dropped |
| AuthMiddleware.Context.Set | vat-simple-backend/internal/api/middleware/auth_middleware.go:43-47 | one key is written and nothing else changes |
| AuthMiddleware.Context.AbortWith | vat-simple-backend/internal/api/middleware/auth_middleware.go:17-20 | the response carries the error's status and body and the request is aborted; the keys are untouched |
| AuthMiddleware.Context.Next | vat-simple-backend/internal/api/middleware/auth_middleware.go:49 | the request goes on to the handler |
| AuthMiddleware.Authenticate | vat-simple-backend/internal/api/middleware/auth_middleware.go:13-51 | a rejected request is answered with its error and aborted, with no key set and no handler reached; an accepted one gets the claim keys and reaches the handler |
| Validator.TemplateInMeaning | vat-simple-backend/internal/utils/validator.go:41-56 | a tag has a message template iff the table lists it |
| Validator.TemplateKnown | vat-simple-backend/internal/utils/validator.go:41-56 | the tags with a template are exactly required, email, min, max, gt, oneof and datetime |
| Validator.TemplatesListed | vat-simple-backend/internal/utils/validator.go:41-56 | each listed tag has the source's message text |
| Validator.FieldMessageNamesField | vat-simple-backend/internal/utils/validator.go:37-38 | every message opens with "Field '", the lower-cased field name and a closing quote |
| Validator.UnknownTagMessage | vat-simple-backend/internal/utils/validator.go:37-38 | an unlisted tag gives "… is invalid due to '<tag>' validation rule." |
| Validator.ParamMessages | vat-simple-backend/internal/utils/validator.go:45-55 | the min, max, gt, oneof and datetime messages end with the rule's text around its parameter |
| Validator.WriteAllKeys | vat-simple-backend/internal/utils/validator.go:59 | the details map has exactly the written keys |
| Validator.WriteAllLastWins | vat-simple-backend/internal/utils/validator.go:59 | a key written more than once keeps the last value |
| Validator.DetailsKeys | vat-simple-backend/internal/utils/validator.go:59 | the details have a key iff some failing field lower-cases to it |
| Validator.DetailsLastWins | vat-simple-backend/internal/utils/validator.go:59 | a field's entry holds the message of its last error |
| Validator.DetailsKeysLowerCase | vat-simple-backend/internal/utils/validator.go:59 | every details key is lower case |
| Validator.ValidationErrorShape | vat-simple-backend/internal/utils/validator.go:62-68 | the error is 400 `VALIDATION_ERROR` "Validation failed" with the details map and the library's error as cause |
| Validator.TranslateOne | vat-simple-backend/internal/utils/validator.go:36-57 | the message the switch builds for one field error is its specified message |
| Validator.TranslateAll | vat-simple-backend/internal/utils/validator.go:35-60 | the loop builds every field's message, in order, and the details map of their lower-cased fields |
| Validator.Validation.constructor | vat-simple-backend/internal/utils/validator.go:13 | the validator starts uncreated |
| Validator.Validation.Init | vat-simple-backend/internal/utils/validator.go:16-21 | after the call the validator exists |
| Validator.Validation.ValidateStruct | vat-simple-backend/internal/utils/validator.go:25-71 | the validator is created if it was not; there is no error iff nothing failed; otherwise the validation error for the failures |
| Db.ClauseReadsBack | vat-simple-backend/internal/repository/customer_repo.go:79 | a "col = ?" clause reads back as its column |
| Db.UpdateTextReadsBack | vat-simple-backend/internal/repository/customer_repo.go:103 | joining the clauses with ", " between a prefix and a suffix splits back into the clauses, with one `?` per clause plus those of the suffix |
| Db.OrdersArePreorders | vat-simple-backend/internal/repository/invoice_repo.go:121 | the three ORDER BY relations are total preorders, so the sorted results are ordered |
| Db.JoinAllMeaning | vat-simple-backend/internal/repository/invoice_repo.go:117-122 | the inner join keeps exactly the invoices whose customer exists, each with that customer's name |
| Seqs.SortBySorted | vat-simple-backend/internal/repository/invoice_repo.go:121 | sorting by a total preorder gives a sorted permutation |
| Seqs.UniqueFilter | vat-simple-backend/internal/repository/customer_repo.go:111 | removing rows keeps the ids unique |
| Text.SplitJoin | vat-simple-backend/internal/repository/customer_repo.go:103 | splitting the joined clauses gives them back when the separator does not occur in them |
| Text.JoinOccurrences | vat-simple-backend/internal/repository/customer_repo.go:103 | the joined clauses hold one `?` per clause |
| Text.DecimalRoundTrip | vat-simple-backend/internal/service/invoice_service.go:82 | the decimal rendering of a number reads back as that number |
| Text.ToLowerIdempotent | vat-simple-backend/internal/utils/validator.go:59 | lower-casing twice is the same as once |

## Left out

- Amounts are exact reals, not float64. The model has no binary rounding
  error in `quantity * unitPrice`, in the running sum or in `x*100`. The
  half-away-from-zero rounding of `math.Round` is modelled exactly.
- `uuid.New()`, `time.Now()` and driver failures are parameters. The repository
  and the service take them as given ids, instants and failure flags. The
  three `time.Now()` calls of `CreateInvoice` are three separate instants.
- The SQL engine is a sequence of rows per table. Collation, NULLs and type
  conversion are not modelled: names sort by code point. A failing
  `rows.Scan` or `rows.Err` in the middle of a result set is not modelled;
  a whole query either succeeds or fails.
- Foreign keys and `ON DELETE` rules of the schema are not modelled. The
  schema is not among the modelled files, so `DeleteCustomer` removes the row
  whatever invoices refer to it.
- Concurrency is left out. Requests run one at a time, so there are no
  transaction isolation levels and no concurrent walk-in creation.
- Logging (`log.Printf`) is left out, because it has no observable effect in
  the model.
- Row order where the database leaves it open is fixed in the model. A
  query without `ORDER BY` returns rows in insertion order: the `LIMIT 1` of
  `FindCustomerByName` and the items query of `GetInvoiceByID`. Rows that tie
  under `ORDER BY created_at DESC`, `name ASC` or `issue_date DESC` also keep
  their insertion order, because the sort is stable. MySQL promises neither
  order, so the model pins down one of the orders the database may return.
- CustomerRepo.GetCustomerByID, CustomerRepo.FindCustomerByName and
  ProductRepo.GetProductByID return only the error on failure. The Go code
  returns a non-nil struct together with the error, zero-valued or partly
  scanned. The model drops that struct, because no modelled caller reads it
  when the error is set.
- JSON binding and the Gin engine are left out. Request binding alone
  enforces `items` `min=1` and `quantity` `gt=0`. The service does not check
  them, so `InvoiceService.CreateInvoice` also accepts an empty line list,
  which gives a header-only invoice with zero amounts, and non-positive
  quantities. Its lemmas cover that wider domain. Only the calls the
  middleware makes (`Set`, `JSON` plus `Abort`, `Next`) are modelled, on a
  `Context` object.
- Token parsing (`utils.ParseToken`) is a function parameter of the
  middleware. The JWT code is not part of this model.
- `BearerToken` compares the first seven characters as code points. The Go
  code slices bytes, which is the same for this ASCII prefix; the token is
  taken as characters.
- The validation library's rule evaluation is not modelled.
  `ValidateStruct` takes the list of field errors it would report (field,
  tag, parameter) and the text of its `Error()`. The lazily created validator
  is a flag of a `Validation` object.
- `strings.ToLower` is modelled on ASCII letters only.
- `Validator.TranslateOne`: its `ensures` ties the message to the message
  function. The tag texts are proved by lemmas on that function
  (`TemplatesListed`, `ParamMessages`, `UnknownTagMessage`), not repeated in
  the method's contract.
- The tag-to-message switch is modelled by a lookup table of templates. It
  gives the same text for every tag, as `TemplatesListed` and
  `UnknownTagMessage` state.
- `ProductRepo.UpdateProduct` follows the code, not the intent. The code
  filters only by id (`WHERE id = ? AND company_id = ?` is not used), so the
  model updates a product of any company with that id. The product service
  passes the id through without a company check either.
- Invoice creation follows the point-of-sale variant that is present in the
  code. It always bills the walk-in customer, uses status "paid" and number
  `POS-<seconds>`, and answers an unknown product with 400
  `PRODUCT_NOT_FOUND`. The variant with an explicit customer and a "draft"
  status is not in the modelled files.
- The tax is computed from the unrounded subtotal, and the total is the
  unrounded sum, as in the code. `SubCentTotalsDrift` shows that the rounded
  total can then differ from the rounded subtotal plus the rounded tax.
