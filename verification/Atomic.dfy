/** What each transaction does when it has the database to itself: one function
    per transaction, in closed form over whole orders, without the loops. */
module Atomic {
  import opened Ints
  import opened Tally
  import opened Ordering
  import opened Schema

  // ---- First error of a list of checks ----

  function FirstError(checks: seq<Option<Error>>): Option<Error> {
    if checks == [] then None
    else if checks[0].Some? then checks[0]
    else FirstError(checks[1..])
  }

  lemma {:induction false} FirstErrorIs(checks: seq<Option<Error>>, n: nat)
    requires n <= |checks|
    requires forall i :: 0 <= i < n ==> checks[i].None?
    requires n < |checks| ==> checks[n].Some?
    ensures FirstError(checks) == if n < |checks| then checks[n] else None
  {
    if n > 0 {
      assert checks[0].None?;
      assert forall i :: 0 <= i < n - 1 ==> checks[1..][i] == checks[i + 1];
      FirstErrorIs(checks[1..], n - 1);
    }
  }

  /** There is an error exactly when some check reports one, and the first such
      check is the one reported. */
  lemma {:induction false} FirstErrorMeans(checks: seq<Option<Error>>) returns (n: nat)
    ensures n <= |checks|
    ensures forall i :: 0 <= i < n ==> checks[i].None?
    ensures n < |checks| ==> checks[n].Some?
    ensures FirstError(checks) == if n < |checks| then checks[n] else None
  {
    n := 0;
    while n < |checks| && checks[n].None?
      invariant 0 <= n <= |checks|
      invariant forall i :: 0 <= i < n ==> checks[i].None?
    {
      n := n + 1;
    }
    FirstErrorIs(checks, n);
  }

  // ---- Placing an order ----

  /** A product's quantity summed over all lines in Go arithmetic. */
  function RequestedQuantity(lines: seq<Entry>, p: ProductId): int {
    Wrap64(Total(lines, p))
  }

  /** The quantities as the store passes them to the database. */
  function Narrow(lines: seq<Entry>): (es: seq<Entry>)
    ensures |es| == |lines|
  {
    seq(|lines|, i requires 0 <= i < |lines| => Entry(lines[i].product, Wrap32(lines[i].amount)))
  }

  /** What locking and checking one product reports. */
  function LockCheck(db: Db, lines: seq<Entry>, p: ProductId): Option<Error> {
    if p !in db.products then Some(ProductNotFound)
    else if db.products[p].stock < RequestedQuantity(lines, p) then Some(InsufficientStock)
    else None
  }

  function LockChecks(db: Db, lines: seq<Entry>): (cs: seq<Option<Error>>)
    ensures |cs| == |LockOrder(lines)|
  {
    var ids := LockOrder(lines);
    seq(|ids|, i requires 0 <= i < |ids| => LockCheck(db, lines, ids[i]))
  }

  function PricesOf(db: Db, lines: seq<Entry>): map<ProductId, int> {
    map p | p in Products(lines) && p in db.products :: db.products[p].price
  }

  /** The order total, one summand per distinct product. */
  function GroupedTotal(prices: map<ProductId, int>, lines: seq<Entry>, ids: seq<ProductId>): int
    requires forall i :: 0 <= i < |ids| ==> ids[i] in prices
  {
    if ids == [] then 0
    else
      var last := |ids| - 1;
      Wrap64(GroupedTotal(prices, lines, ids[..last]) + prices[ids[last]] * RequestedQuantity(lines, ids[last]))
  }

  /** The item row of one line: narrowed quantity, but a 64-bit subtotal. */
  function MakeItem(price: int, line: Entry): Item {
    Item(line.product, Wrap32(line.amount), price, Wrap64(price * line.amount))
  }

  function MakeItems(prices: map<ProductId, int>, lines: seq<Entry>): (items: seq<Item>)
    requires Products(lines) <= prices.Keys
    ensures |items| == |lines|
  {
    seq(|lines|, i requires 0 <= i < |lines| => MakeItem(prices[lines[i].product], lines[i]))
  }

  /** What inserting line `j` and decrementing its stock reports, given that the
      earlier lines went through. */
  function LineCheck(db: Db, lines: seq<Entry>, j: nat): Option<Error>
    requires j < |lines| && Products(lines) <= db.products.Keys
  {
    var p := lines[j].product;
    var item := MakeItem(db.products[p].price, lines[j]);
    if item.quantity <= 0 || item.price < 0 || item.subtotal < 0 then Some(CheckViolation)
    else if db.products[p].stock - Total(Narrow(lines)[..j], p) < item.quantity then Some(InsufficientStock)
    else None
  }

  function LineChecks(db: Db, lines: seq<Entry>): (cs: seq<Option<Error>>)
    requires Products(lines) <= db.products.Keys
    ensures |cs| == |lines|
  {
    seq(|lines|, j requires 0 <= j < |lines| => LineCheck(db, lines, j))
  }

  /** Product rows after the entries left the stock. */
  function Sold(db: Db, es: seq<Entry>): map<ProductId, Product> {
    map p | p in Products(es) && p in db.products :: db.products[p].(stock := db.products[p].stock - Total(es, p))
  }

  /** Product rows after the entries came back. */
  function Restocked(db: Db, es: seq<Entry>): map<ProductId, Product> {
    map p | p in Products(es) && p in db.products :: db.products[p].(stock := db.products[p].stock + Total(es, p))
  }

  lemma LocksPassed(db: Db, lines: seq<Entry>)
    requires FirstError(LockChecks(db, lines)).None?
    ensures Products(lines) <= db.products.Keys
    ensures forall p :: p in Products(lines) ==> RequestedQuantity(lines, p) <= db.products[p].stock
  {
    var n := FirstErrorMeans(LockChecks(db, lines));
    forall p | p in Products(lines)
      ensures p in db.products && RequestedQuantity(lines, p) <= db.products[p].stock
    {
      var ids := LockOrder(lines);
      assert p in ids;
      var i :| 0 <= i < |ids| && ids[i] == p;
      assert LockChecks(db, lines)[i] == LockCheck(db, lines, ids[i]);
    }
  }

  /** The rows a successful order writes. */
  function PlaceWrites(db: Db, o: OrderId, user: UserId, lines: seq<Entry>, total: int): Db
    requires Products(lines) <= db.products.Keys
  {
    Db(Sold(db, Narrow(lines)),
       map[o := Order(user, Pending, total)],
       map[o := MakeItems(PricesOf(db, lines), lines)],
       map[o := Payment(total, Awaiting, None)])
  }

  function PlaceReplyOf(w: Db, o: OrderId): Reply
    requires o in w.orders && o in w.items && o in w.payments
  {
    PlaceReply(o, w.orders[o], w.items[o], w.payments[o])
  }

  function OrderTotal(db: Db, lines: seq<Entry>): int
    requires Products(lines) <= db.products.Keys
  {
    GroupedTotal(PricesOf(db, lines), lines, LockOrder(lines))
  }

  /** Why an order is refused, if it is. */
  function PlaceVerdict(db: Db, o: OrderId, lines: seq<Entry>): (e: Option<Error>)
    ensures e.None? ==> Products(lines) <= db.products.Keys
  {
    match FirstError(LockChecks(db, lines))
    case Some(e) => Some(e)
    case None =>
      LocksPassed(db, lines);
      if OrderTotal(db, lines) < 0 then Some(CheckViolation)
      else if o in db.orders || o in db.items then Some(DuplicateKey)
      else if FirstError(LineChecks(db, lines)).Some? then FirstError(LineChecks(db, lines))
      else if o in db.payments then Some(DuplicateKey)
      else None
  }

  function Place(db: Db, o: OrderId, user: UserId, lines: seq<Entry>): Result {
    match PlaceVerdict(db, o, lines)
    case Some(e) => Fail(e)
    case None =>
      var w := PlaceWrites(db, o, user, lines, OrderTotal(db, lines));
      Done(Merge(db, w), PlaceReplyOf(w, o))
  }

  // ---- Cancelling an order ----

  /** What putting back one product's whole quantity reports. */
  function RestockCheck(db: Db, es: seq<Entry>, p: ProductId): Option<Error> {
    if p !in db.products then Some(ProductNotFound)
    else if db.products[p].stock + Total(es, p) > MAX_INT32 then Some(OutOfRange)
    else None
  }

  function RestockChecks(db: Db, es: seq<Entry>): (cs: seq<Option<Error>>)
    ensures |cs| == |LockOrder(es)|
  {
    var ids := LockOrder(es);
    seq(|ids|, i requires 0 <= i < |ids| => RestockCheck(db, es, ids[i]))
  }

  /** A `WHERE id = $1 AND user_id = $2` lookup finds a row. */
  predicate Owns(db: Db, user: UserId, o: OrderId) {
    o in db.orders && db.orders[o].user == user
  }

  function CancelWrites(db: Db, o: OrderId): Db
    requires o in db.orders
  {
    EMPTY.(products := Restocked(db, Stored(ItemsOf(db, o))),
           orders := map[o := db.orders[o].(status := Cancelled)])
  }

  function CancelVerdict(db: Db, user: UserId, o: OrderId): (e: Option<Error>)
    ensures e.None? ==> o in db.orders
  {
    if !Owns(db, user, o) then Some(OrderNotFound)
    else if db.orders[o].status != Pending then Some(OrderNotPending)
    else if ItemsOf(db, o) == [] then Some(OrderItemsUnavailable)
    else FirstError(RestockChecks(db, Stored(ItemsOf(db, o))))
  }

  function Cancel(db: Db, user: UserId, o: OrderId): Result {
    match CancelVerdict(db, user, o)
    case Some(e) => Fail(e)
    case None =>
      var w := CancelWrites(db, o);
      Done(Merge(db, w), CancelReply(w.orders[o]))
  }

  // ---- Paying for an order ----

  /** The rows a charge writes: the payment, and the order if it succeeded. */
  function PayWrites(db: Db, o: OrderId, charged: bool, transaction: TransactionId): Db
    requires o in db.orders && o in db.payments
  {
    EMPTY.(payments := map[o := db.payments[o].(status := if charged then Success else Failed,
                                               transaction := Some(transaction))],
           orders := if charged then map[o := db.orders[o].(status := Paid)] else map[])
  }

  /** `charged` and `transaction` are what the payment provider answers. */
  function Pay(db: Db, user: UserId, o: OrderId, charged: bool, transaction: TransactionId): Result {
    if !Owns(db, user, o) then Fail(OrderNotFound)
    else if o !in db.payments then Fail(PaymentNotFound)
    else if db.orders[o].status == Paid then Done(db, PayReply(db.payments[o], db.orders[o]))
    else if db.orders[o].status == Cancelled then Fail(OrderNotPayable)
    else if db.payments[o].status == Success then Done(db, PayReply(db.payments[o], db.orders[o]))
    else
      var db' := Merge(db, PayWrites(db, o, charged, transaction));
      Done(db', PayReply(db'.payments[o], db'.orders[o]))
  }

  // ---- The product catalogue ----

  function CreateProduct(db: Db, p: ProductId, price: int, stock: int): Result {
    if price < 0 || Wrap32(stock) < 0 then Fail(CheckViolation)
    else if p in db.products then Fail(DuplicateKey)
    else Done(db.(products := db.products[p := Product(price, Wrap32(stock))]), ProductReply)
  }

  function Patched(row: Product, price: Option<int>, stock: Option<int>): Product {
    Product(if price.Some? then price.value else row.price,
            if stock.Some? then Wrap32(stock.value) else row.stock)
  }

  function PatchProduct(db: Db, p: ProductId, price: Option<int>, stock: Option<int>): Result {
    if p !in db.products then Fail(ProductNotFound)
    else
      var row := Patched(db.products[p], price, stock);
      if row.price < 0 || row.stock < 0 then Fail(CheckViolation)
      else Done(db.(products := db.products[p := row]), ProductReply)
  }

  function DeleteProduct(db: Db, p: ProductId): Result {
    if p !in db.products then Fail(ProductNotFound)
    else if Referenced(db, p) then Fail(ForeignKeyViolation)
    else Done(db.(products := db.products - {p}), ProductReply)
  }

  // ---- Events ----

  datatype Event =
    | PlaceEvent(order: OrderId, user: UserId, lines: seq<Entry>)
    | CancelEvent(user: UserId, order: OrderId)
    | PayEvent(user: UserId, order: OrderId, charged: bool, transaction: TransactionId)
    | CreateEvent(product: ProductId, newPrice: int, newStock: int)
    | PatchEvent(product: ProductId, price: Option<int>, stock: Option<int>)
    | DeleteEvent(product: ProductId)

  function Execute(db: Db, e: Event): Result {
    match e
    case PlaceEvent(o, user, lines) => Place(db, o, user, lines)
    case CancelEvent(user, o) => Cancel(db, user, o)
    case PayEvent(user, o, charged, transaction) => Pay(db, user, o, charged, transaction)
    case CreateEvent(p, price, stock) => CreateProduct(db, p, price, stock)
    case PatchEvent(p, price, stock) => PatchProduct(db, p, price, stock)
    case DeleteEvent(p) => DeleteProduct(db, p)
  }

  /** A failed event leaves the tables as they were. */
  function After(db: Db, e: Event): Db {
    match Execute(db, e)
    case Done(db', _) => db'
    case Fail(_) => db
  }

  /** The tables after a whole history of events, in order. */
  function Run(db: Db, es: seq<Event>): Db {
    if es == [] then db else After(Run(db, es[..|es| - 1]), es[|es| - 1])
  }

  // ---- Effects, row by row ----

  lemma StockAfterSale(db: Db, es: seq<Entry>, p: ProductId)
    requires p in db.products
    ensures (db.products + Sold(db, es))[p] == db.products[p].(stock := db.products[p].stock - Total(es, p))
    ensures (db.products + Sold(db, es)).Keys == db.products.Keys
  {
    if p !in Products(es) { TotalAbsent(es, p); }
  }

  lemma StockAfterRestock(db: Db, es: seq<Entry>, p: ProductId)
    requires p in db.products
    ensures (db.products + Restocked(db, es))[p] == db.products[p].(stock := db.products[p].stock + Total(es, p))
    ensures (db.products + Restocked(db, es)).Keys == db.products.Keys
  {
    if p !in Products(es) { TotalAbsent(es, p); }
  }

  /** A successful order writes exactly its write set. */
  lemma PlaceWritten(db: Db, o: OrderId, user: UserId, lines: seq<Entry>)
    requires Place(db, o, user, lines).Done?
    ensures FirstError(LockChecks(db, lines)).None?
    ensures Products(lines) <= db.products.Keys
    ensures 0 <= OrderTotal(db, lines)
    ensures FirstError(LineChecks(db, lines)).None?
    ensures o !in db.orders && o !in db.items && o !in db.payments
    ensures var w := PlaceWrites(db, o, user, lines, OrderTotal(db, lines));
      Place(db, o, user, lines) == Done(Merge(db, w), PlaceReplyOf(w, o))
  {
    LocksPassed(db, lines);
  }

  /** A placed order adds its own rows and takes the narrowed quantities out of
      the stock; nothing else changes. */
  lemma PlaceEffect(db: Db, o: OrderId, user: UserId, lines: seq<Entry>)
    requires Place(db, o, user, lines).Done?
    ensures Products(lines) <= db.products.Keys
    ensures o !in db.orders && o !in db.items && o !in db.payments
    ensures var db' := Place(db, o, user, lines).db;
      && db'.products == db.products + Sold(db, Narrow(lines))
      && db'.products.Keys == db.products.Keys
      && db'.orders == db.orders[o := Order(user, Pending, OrderTotal(db, lines))]
      && db'.items == db.items[o := MakeItems(PricesOf(db, lines), lines)]
      && db'.payments == db.payments[o := Payment(OrderTotal(db, lines), Awaiting, None)]
  {
    PlaceWritten(db, o, user, lines);
    MergePlaceWrites(db, o, user, lines, OrderTotal(db, lines));
  }

  lemma MergePlaceWrites(db: Db, o: OrderId, user: UserId, lines: seq<Entry>, total: int)
    requires Products(lines) <= db.products.Keys
    ensures var db' := Merge(db, PlaceWrites(db, o, user, lines, total));
      && db'.products == db.products + Sold(db, Narrow(lines))
      && db'.products.Keys == db.products.Keys
      && db'.orders == db.orders[o := Order(user, Pending, total)]
      && db'.items == db.items[o := MakeItems(PricesOf(db, lines), lines)]
      && db'.payments == db.payments[o := Payment(total, Awaiting, None)]
  {
    SoldKeys(db, Narrow(lines));
    AddRow(db.orders, o, Order(user, Pending, total));
    AddRow(db.items, o, MakeItems(PricesOf(db, lines), lines));
    AddRow(db.payments, o, Payment(total, Awaiting, None));
  }

  lemma SoldKeys(db: Db, es: seq<Entry>)
    ensures (db.products + Sold(db, es)).Keys == db.products.Keys
  {
  }

  lemma UpdateRow<K, V>(m: map<K, V>, w: map<K, V>, k: K, v: V)
    ensures m + w[k := v] == (m + w)[k := v]
  {
  }

  lemma AddRow<K, V>(m: map<K, V>, k: K, v: V)
    ensures m + map[k := v] == m[k := v]
  {
  }

  /** A cancelled order changes its status and puts the stored quantities back;
      nothing else changes. */
  lemma CancelEffect(db: Db, user: UserId, o: OrderId)
    requires Cancel(db, user, o).Done?
    ensures var db' := Cancel(db, user, o).db;
      && Owns(db, user, o) && db.orders[o].status == Pending && ItemsOf(db, o) != []
      && db'.products == db.products + Restocked(db, Stored(ItemsOf(db, o)))
      && db'.products.Keys == db.products.Keys
      && db'.orders == db.orders[o := db.orders[o].(status := Cancelled)]
      && db'.items == db.items
      && db'.payments == db.payments
  {
    var db' := Cancel(db, user, o).db;
    assert db'.orders == db.orders + map[o := db.orders[o].(status := Cancelled)];
  }
}
