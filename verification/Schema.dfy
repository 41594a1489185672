/** The committed tables and what a caller can be told. */
module Schema {
  import opened Tally

  type OrderId = nat
  type UserId = nat
  type TransactionId = nat

  datatype Option<+T> = None | Some(value: T)

  datatype Product = Product(price: int, stock: int)
  datatype Status = Pending | Paid | Cancelled
  datatype Order = Order(user: UserId, status: Status, total: int)
  datatype Item = Item(product: ProductId, quantity: int, price: int, subtotal: int)
  datatype PaymentStatus = Awaiting | Success | Failed
  datatype Payment = Payment(amount: int, status: PaymentStatus, transaction: Option<TransactionId>)

  /** The tables. Item rows are listed per order; the unique constraint on a
      payment's order makes the order its key. A `Db` also serves as a write
      set: just the rows that a transaction has written. */
  datatype Db = Db(
    products: map<ProductId, Product>,
    orders: map<OrderId, Order>,
    items: map<OrderId, seq<Item>>,
    payments: map<OrderId, Payment>)

  const EMPTY: Db := Db(map[], map[], map[], map[])

  /** The tables as a transaction with write set `w` sees them. */
  function Merge(db: Db, w: Db): Db {
    Db(db.products + w.products, db.orders + w.orders, db.items + w.items, db.payments + w.payments)
  }

  datatype Error =
    | ProductNotFound
    | InsufficientStock
    | OrderNotFound
    | OrderNotPending
    | OrderItemsUnavailable
    | PaymentNotFound
    | OrderNotPayable
    | CheckViolation
    | DuplicateKey
    | ForeignKeyViolation
    | OutOfRange

  datatype Reply =
    | PlaceReply(id: OrderId, order: Order, items: seq<Item>, payment: Payment)
    | CancelReply(order: Order)
    | PayReply(payment: Payment, order: Order)
    | ProductReply

  /** What a call answers. */
  datatype Outcome = Ok(reply: Reply) | Err(error: Error)

  datatype Result = Done(db: Db, reply: Reply) | Fail(error: Error)

  /** Item rows, seen as (product, quantity) entries. */
  function Stored(items: seq<Item>): (es: seq<Entry>)
    ensures |es| == |items|
  {
    seq(|items|, i requires 0 <= i < |items| => Entry(items[i].product, items[i].quantity))
  }

  function ItemsOf(db: Db, o: OrderId): seq<Item> {
    if o in db.items then db.items[o] else []
  }

  /** Some item row's foreign key points at the product. */
  predicate Referenced(db: Db, p: ProductId) {
    exists o :: o in db.items && p in Products(Stored(db.items[o]))
  }
}
