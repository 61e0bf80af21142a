/**
 * The records the backend stores and exchanges: customers, products,
 * invoices with their line items, and the request bodies the repositories
 * read. Money is an exact `real`; instants are nanoseconds since the Unix epoch.
 */
module Models {
  import opened Common

  /** An instant, in nanoseconds since 1970-01-01 UTC. */
  type Time = int

  const NanosPerSecond := 1_000_000_000

  /** Go's zero `time.Time` (0001-01-01 00:00:00 UTC), the value of a field nobody set. */
  const ZeroTime: Time := -62_135_596_800 * NanosPerSecond

  /** `t.Unix()`: whole seconds since the epoch, rounded down. */
  function UnixSeconds(t: Time): (s: int)
    ensures s * NanosPerSecond <= t < (s + 1) * NanosPerSecond
  {
    t / NanosPerSecond
  }

  datatype Customer = Customer(
    id: string,
    name: string,
    taxCode: string,
    address: string,
    email: string,
    phone: string,
    companyId: string,
    createdAt: Time,
    updatedAt: Time)

  /** A product row; `imageUrl` is the column the product repository reads and writes. */
  datatype Product = Product(
    id: string,
    name: string,
    description: string,
    unitPrice: real,
    imageUrl: string,
    companyId: string,
    createdAt: Time,
    updatedAt: Time)

  datatype InvoiceItem = InvoiceItem(
    id: string,
    invoiceId: string,
    productId: string,
    description: string,
    quantity: int,
    unitPrice: real,
    totalPrice: real)

  /** An invoice header; `customerName` and `items` are filled in only by reads, and `items` stays nil until then. */
  datatype Invoice = Invoice(
    id: string,
    companyId: string,
    customerId: string,
    customerName: string,
    invoiceNumber: string,
    issueDate: Time,
    dueDate: Time,
    subtotal: real,
    tax: real,
    total: real,
    status: string,
    items: Slice<InvoiceItem>)

  /** One line of a create-invoice request. */
  datatype ItemRequest = ItemRequest(productId: string, quantity: int)

  /** A partial customer update: `None` is a field the client did not send. */
  datatype UpdateCustomerRequest = UpdateCustomerRequest(
    name: Option<string>,
    taxCode: Option<string>,
    address: Option<string>,
    email: Option<string>,
    phone: Option<string>)

  /** A partial product update, with the fields the product repository reads. */
  datatype UpdateProductRequest = UpdateProductRequest(
    name: Option<string>,
    description: Option<string>,
    unitPrice: Option<real>,
    imageUrl: Option<string>)

  /** Zero values, as a Go struct literal leaves unset fields. */
  const EmptyCustomer := Customer("", "", "", "", "", "", "", ZeroTime, ZeroTime)
  const EmptyProduct := Product("", "", "", 0.0, "", "", ZeroTime, ZeroTime)
  const EmptyItem := InvoiceItem("", "", "", "", 0, 0.0, 0.0)
  const EmptyInvoice := Invoice("", "", "", "", "", ZeroTime, ZeroTime, 0.0, 0.0, 0.0, "", Nil)
}
