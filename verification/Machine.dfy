/** One transaction as a sequence of SQL statements: what each statement locks,
    reads and writes, and what is known about the transaction in between. */
module Machine {
  import opened Ints
  import opened Tally
  import opened Ordering
  import opened Schema
  import opened Atomic
  import opened Placement
  import opened Progress
  import opened Runs

  /** Lockable rows. An order's item rows go with the order. */
  datatype Row = ProductRow(product: ProductId) | OrderRow(order: OrderId) | PaymentRow(order: OrderId)

  /** The next statement, with the Go variables that are live. */
  datatype Pc =
    | LockProduct(i: nat, prices: map<ProductId, int>, total: int)
    | InsertOrder(prices: map<ProductId, int>, total: int)
    | InsertItem(j: nat, prices: map<ProductId, int>, total: int)
    | DecreaseStock(j: nat, prices: map<ProductId, int>, total: int)
    | InsertPayment(total: int)
    | LockOrderRow
    | ReadItems
    | LockItemProduct(j: nat, items: seq<Item>)
    | IncreaseStock(j: nat, items: seq<Item>)
    | MarkCancelled
    | LockOrderToPay
    | LockPayment(order: Order)
    | UpdatePayment(order: Order, payment: Payment)
    | MarkPaid
    | AtCommit

  /** A transaction's private state: its locks and its uncommitted writes. */
  datatype Local =
    | Idle
    | Active(pc: Pc, held: set<Row>, w: Db)
    | Finished(outcome: Outcome)
    | Aborted

  predicate IsTransaction(e: Event) {
    e.PlaceEvent? || e.CancelEvent? || e.PayEvent?
  }

  // ---- Sorting item rows ----

  function InsertByProduct(items: seq<Item>, x: Item): (r: seq<Item>)
    ensures |r| == |items| + 1
  {
    if items == [] || items[|items| - 1].product <= x.product then items + [x]
    else InsertByProduct(items[..|items| - 1], x) + [items[|items| - 1]]
  }

  function SortItems(items: seq<Item>): (r: seq<Item>)
    ensures |r| == |items|
  {
    if items == [] then [] else InsertByProduct(SortItems(items[..|items| - 1]), items[|items| - 1])
  }

  ghost predicate ItemsSorted(items: seq<Item>) {
    forall i, j :: 0 <= i < j < |items| ==> items[i].product <= items[j].product
  }

  lemma {:induction false} InsertByProductSorts(items: seq<Item>, x: Item)
    requires ItemsSorted(items)
    ensures multiset(InsertByProduct(items, x)) == multiset(items) + multiset{x}
    ensures ItemsSorted(InsertByProduct(items, x))
  {
    if items != [] && items[|items| - 1].product > x.product {
      var front, last := items[..|items| - 1], items[|items| - 1];
      InsertByProductSorts(front, x);
      assert items == front + [last];
      AddLargest(front, x, InsertByProduct(front, x), last);
    }
  }

  lemma AddLargest(front: seq<Item>, x: Item, r: seq<Item>, last: Item)
    requires multiset(r) == multiset(front) + multiset{x} && ItemsSorted(r)
    requires ItemsSorted(front + [last]) && x.product <= last.product
    ensures ItemsSorted(r + [last])
  {
    forall i | 0 <= i < |r| ensures r[i].product <= last.product {
      assert r[i] in multiset(r);
      if r[i] != x {
        assert r[i] in front;
        var k :| 0 <= k < |front| && front[k] == r[i];
        assert (front + [last])[k].product <= (front + [last])[|front|].product;
      }
    }
  }

  lemma {:induction false} SortItemsSorts(items: seq<Item>)
    ensures multiset(SortItems(items)) == multiset(items)
    ensures ItemsSorted(SortItems(items))
    ensures SortedByProduct(Stored(SortItems(items)))
  {
    if items != [] {
      var front, last := items[..|items| - 1], items[|items| - 1];
      SortItemsSorts(front);
      InsertByProductSorts(SortItems(front), last);
      assert items == front + [last];
    }
  }

  // ---- Locks ----

  /** The row lock the next statement takes. A statement that matches no row
      takes none; an insert owns the row it is about to create. */
  function Wants(req: Event, pc: Pc, db: Db): Option<Row>
    requires IsTransaction(req)
  {
    match req
    case PlaceEvent(o, user, lines) => (
      match pc
      case LockProduct(i, _, _) =>
        if i < |LockOrder(lines)| && LockOrder(lines)[i] in db.products
        then Some(ProductRow(LockOrder(lines)[i])) else None
      case InsertOrder(_, _) => Some(OrderRow(o))
      case InsertItem(j, _, _) => if j < |lines| then Some(ProductRow(lines[j].product)) else None
      case DecreaseStock(j, _, _) => if j < |lines| then Some(ProductRow(lines[j].product)) else None
      case InsertPayment(_) => Some(PaymentRow(o))
      case _ => None)
    case CancelEvent(user, o) => (
      match pc
      case LockOrderRow => if Owns(db, user, o) then Some(OrderRow(o)) else None
      case LockItemProduct(j, items) =>
        if j < |items| && items[j].product in db.products then Some(ProductRow(items[j].product)) else None
      case IncreaseStock(j, items) => if j < |items| then Some(ProductRow(items[j].product)) else None
      case MarkCancelled => Some(OrderRow(o))
      case _ => None)
    case PayEvent(user, o, _, _) => (
      match pc
      case LockOrderToPay => if Owns(db, user, o) then Some(OrderRow(o)) else None
      case LockPayment(_) => if o in db.payments then Some(PaymentRow(o)) else None
      case UpdatePayment(_, _) => Some(PaymentRow(o))
      case MarkPaid => Some(OrderRow(o))
      case _ => None)
  }

  function Locked(req: Event, l: Local, db: Db): set<Row>
    requires IsTransaction(req) && l.Active?
  {
    var row := Wants(req, l.pc, db);
    if row.Some? then l.held + {row.value} else l.held
  }

  // ---- Statements ----

  function AfterLocks(lines: seq<Entry>, i: nat, prices: map<ProductId, int>, total: int): Pc {
    if i < |LockOrder(lines)| then LockProduct(i, prices, total) else InsertOrder(prices, total)
  }

  function AfterLine(lines: seq<Entry>, j: nat, prices: map<ProductId, int>, total: int): Pc {
    if j < |lines| then InsertItem(j, prices, total) else InsertPayment(total)
  }

  function AfterItem(items: seq<Item>, j: nat): Pc {
    if j < |items| then LockItemProduct(j, items) else MarkCancelled
  }

  function Start(req: Event): Local
    requires IsTransaction(req)
  {
    match req
    case PlaceEvent(_, _, lines) => Active(AfterLocks(lines, 0, map[], 0), {}, EMPTY)
    case CancelEvent(_, _) => Active(LockOrderRow, {}, EMPTY)
    case PayEvent(_, _, _, _) => Active(LockOrderToPay, {}, EMPTY)
  }

  /** Executes the next statement of an order placement. The transaction sees the
      committed tables under its own writes. */
  function PlaceStep(o: OrderId, user: UserId, lines: seq<Entry>, l: Local, held: set<Row>, v: Db): Local
    requires l.Active?
  {
    var w := l.w;
    match l.pc
    case LockProduct(i, prices, total) =>
      var ids := LockOrder(lines);
      if i >= |ids| || ids[i] !in v.products then Finished(Err(ProductNotFound))
      else
        var row := v.products[ids[i]];
        if row.stock < RequestedQuantity(lines, ids[i]) then Finished(Err(InsufficientStock))
        else
          Active(AfterLocks(lines, i + 1, prices[ids[i] := row.price],
                            Wrap64(total + row.price * RequestedQuantity(lines, ids[i]))), held, w)
    case InsertOrder(prices, total) =>
      if total < 0 then Finished(Err(CheckViolation))
      else if o in v.orders || o in v.items then Finished(Err(DuplicateKey))
      else
        Active(AfterLine(lines, 0, prices, total), held,
               w.(orders := w.orders[o := Order(user, Pending, total)], items := w.items[o := []]))
    case InsertItem(j, prices, total) =>
      if j >= |lines| then l
      else
        var price := if lines[j].product in prices then prices[lines[j].product] else 0;
        if !LineWellFormed(price, lines[j]) then Finished(Err(CheckViolation))
        else
          Active(DecreaseStock(j, prices, total), held,
                 w.(items := w.items[o := ItemsOf(v, o) + [MakeItem(price, lines[j])]]))
    case DecreaseStock(j, prices, total) =>
      if j >= |lines| then l
      else
        var p, q := lines[j].product, Wrap32(lines[j].amount);
        if p !in v.products || v.products[p].stock < q then Finished(Err(InsufficientStock))
        else
          Active(AfterLine(lines, j + 1, prices, total), held,
                 w.(products := w.products[p := v.products[p].(stock := v.products[p].stock - q)]))
    case InsertPayment(total) =>
      if o in v.payments then Finished(Err(DuplicateKey))
      else Active(AtCommit, held, w.(payments := w.payments[o := Payment(total, Awaiting, None)]))
    case _ => l
  }

  function CancelStep(user: UserId, o: OrderId, l: Local, held: set<Row>, v: Db): Local
    requires l.Active?
  {
    var w := l.w;
    match l.pc
    case LockOrderRow =>
      if !Owns(v, user, o) then Finished(Err(OrderNotFound))
      else if v.orders[o].status != Pending then Finished(Err(OrderNotPending))
      else Active(ReadItems, held, w)
    case ReadItems =>
      if ItemsOf(v, o) == [] then Finished(Err(OrderItemsUnavailable))
      else Active(AfterItem(SortItems(ItemsOf(v, o)), 0), held, w)
    case LockItemProduct(j, items) =>
      if j >= |items| || items[j].product !in v.products then Finished(Err(ProductNotFound))
      else Active(IncreaseStock(j, items), held, w)
    case IncreaseStock(j, items) =>
      if j >= |items| || items[j].product !in v.products then Finished(Err(ProductNotFound))
      else
        var p := items[j].product;
        var stock := v.products[p].stock + items[j].quantity;
        if stock > MAX_INT32 then Finished(Err(OutOfRange))
        else Active(AfterItem(items, j + 1), held, w.(products := w.products[p := v.products[p].(stock := stock)]))
    case MarkCancelled =>
      if !Owns(v, user, o) then Finished(Err(OrderNotFound))
      else Active(AtCommit, held, w.(orders := w.orders[o := v.orders[o].(status := Cancelled)]))
    case _ => l
  }

  function PayStep(user: UserId, o: OrderId, charged: bool, transaction: TransactionId,
                   l: Local, held: set<Row>, v: Db): Local
    requires l.Active?
  {
    var w := l.w;
    match l.pc
    case LockOrderToPay =>
      if !Owns(v, user, o) then Finished(Err(OrderNotFound))
      else Active(LockPayment(v.orders[o]), held, w)
    case LockPayment(order) =>
      if o !in v.payments then Finished(Err(PaymentNotFound))
      else
        var payment := v.payments[o];
        if order.status == Paid then Finished(Ok(PayReply(payment, order)))
        else if order.status == Cancelled then Finished(Err(OrderNotPayable))
        else if payment.status == Success then Finished(Ok(PayReply(payment, order)))
        else Active(UpdatePayment(order, payment), held, w)
    case UpdatePayment(order, payment) =>
      if o !in v.payments then Finished(Err(PaymentNotFound))
      else
        Active(if charged then MarkPaid else AtCommit, held,
               w.(payments := w.payments[o := v.payments[o].(status := if charged then Success else Failed,
                                                            transaction := Some(transaction))]))
    case MarkPaid =>
      if o !in v.orders then Finished(Err(OrderNotFound))
      else Active(AtCommit, held, w.(orders := w.orders[o := v.orders[o].(status := Paid)]))
    case _ => l
  }

  /** Executes the next statement against the committed tables `db`. */
  function Step(req: Event, l: Local, db: Db): Local
    requires IsTransaction(req) && l.Active? && l.pc != AtCommit
  {
    var held, v := Locked(req, l, db), Merge(db, l.w);
    match req
    case PlaceEvent(o, user, lines) => PlaceStep(o, user, lines, l, held, v)
    case CancelEvent(user, o) => CancelStep(user, o, l, held, v)
    case PayEvent(user, o, charged, transaction) => PayStep(user, o, charged, transaction, l, held, v)
  }

  /** What the caller is told when the transaction commits. */
  function CommitReply(req: Event, db: Db, w: Db): Reply
    requires IsTransaction(req)
  {
    var v := Merge(db, w);
    match req
    case PlaceEvent(o, _, _) =>
      if o in v.orders && o in v.payments
      then PlaceReply(o, v.orders[o], ItemsOf(v, o), v.payments[o]) else ProductReply
    case CancelEvent(_, o) => if o in v.orders then CancelReply(v.orders[o]) else ProductReply
    case PayEvent(_, o, _, _) =>
      if o in v.orders && o in v.payments then PayReply(v.payments[o], v.orders[o]) else ProductReply
  }

  // ---- What is known between statements ----

  function ProductRows(ids: seq<ProductId>): set<Row> {
    set p | p in ids :: ProductRow(p)
  }

  function EntryRows(es: seq<Entry>): set<Row> {
    set e | e in es :: ProductRow(e.product)
  }

  ghost predicate Fresh(db: Db, o: OrderId) {
    o !in db.orders && o !in db.items && o !in db.payments
  }

  /** The summed quantities are covered and the prices and total read. */
  ghost predicate AllPriced(db: Db, lines: seq<Entry>, prices: map<ProductId, int>, total: int) {
    Priced(db, lines, LockOrder(lines), |LockOrder(lines)|, prices, total)
  }

  /** The order row is inserted, `j` items with it, and `k` decrements made. */
  ghost predicate Selling(db: Db, o: OrderId, user: UserId, lines: seq<Entry>, total: int, j: nat, k: nat, l: Local) {
    && l.Active? && k <= j <= |lines|
    && FirstError(LockChecks(db, lines)).None?
    && Products(lines) <= db.products.Keys
    && total == OrderTotal(db, lines) && 0 <= total
    && Fresh(db, o)
    && LinesPassed(db, lines, k)
    && l.w == PartialWrites(db, o, user, lines, total, j, k)
    && l.held == ProductRows(LockOrder(lines)) + {OrderRow(o)}
  }

  ghost predicate PlaceMatches(o: OrderId, user: UserId, lines: seq<Entry>, db: Db, l: Local) {
    l.Active? &&
    var ids := LockOrder(lines);
    match l.pc
    case LockProduct(i, prices, total) =>
      && i < |ids| && Priced(db, lines, ids, i, prices, total)
      && l.w == EMPTY && l.held == ProductRows(ids[..i])
    case InsertOrder(prices, total) =>
      && AllPriced(db, lines, prices, total)
      && l.w == EMPTY && l.held == ProductRows(ids)
    case InsertItem(j, prices, total) =>
      j < |lines| && prices == PricesOf(db, lines) && Selling(db, o, user, lines, total, j, j, l)
    case DecreaseStock(j, prices, total) =>
      && j < |lines| && prices == PricesOf(db, lines) && Selling(db, o, user, lines, total, j + 1, j, l)
      && LineWellFormed(db.products[lines[j].product].price, lines[j])
    case InsertPayment(total) =>
      Selling(db, o, user, lines, total, |lines|, |lines|, l)
    case AtCommit =>
      && PlaceVerdict(db, o, lines).None?
      && l.w == PlaceWrites(db, o, user, lines, OrderTotal(db, lines))
      && l.held == ProductRows(ids) + {OrderRow(o), PaymentRow(o)}
    case _ => false
  }

  /** The order is the caller's and pending, and its sorted items have their
      stock back up to `j`. */
  ghost predicate Restocking(db: Db, user: UserId, o: OrderId, items: seq<Item>, j: nat, l: Local) {
    && l.Active? && j <= |items|
    && Owns(db, user, o) && db.orders[o].status == Pending && ItemsOf(db, o) != []
    && items == SortItems(ItemsOf(db, o))
    && RestockPassed(db, Stored(items), j)
    && l.w == EMPTY.(products := Restocked(db, Stored(items)[..j]))
  }

  ghost predicate CancelMatches(user: UserId, o: OrderId, db: Db, l: Local) {
    l.Active? &&
    match l.pc
    case LockOrderRow => l.w == EMPTY && l.held == {}
    case ReadItems =>
      && Owns(db, user, o) && db.orders[o].status == Pending
      && l.w == EMPTY && l.held == {OrderRow(o)}
    case LockItemProduct(j, items) =>
      && j < |items| && Restocking(db, user, o, items, j, l)
      && l.held == {OrderRow(o)} + EntryRows(Stored(items)[..j])
    case IncreaseStock(j, items) =>
      && j < |items| && Restocking(db, user, o, items, j, l)
      && items[j].product in db.products
      && l.held == {OrderRow(o)} + EntryRows(Stored(items)[..j + 1])
    case MarkCancelled =>
      var items := SortItems(ItemsOf(db, o));
      && Restocking(db, user, o, items, |items|, l)
      && l.held == {OrderRow(o)} + EntryRows(Stored(items))
    case AtCommit =>
      && CancelVerdict(db, user, o).None?
      && l.w == CancelWrites(db, o)
      && l.held == {OrderRow(o)} + EntryRows(Stored(SortItems(ItemsOf(db, o))))
    case _ => false
  }

  /** The caller's order is pending and its payment is still to be settled. */
  ghost predicate Payable(db: Db, user: UserId, o: OrderId) {
    && Owns(db, user, o) && o in db.payments
    && db.orders[o].status == Pending && db.payments[o].status != Success
  }

  ghost predicate PayMatches(user: UserId, o: OrderId, charged: bool, transaction: TransactionId, db: Db, l: Local) {
    l.Active? &&
    match l.pc
    case LockOrderToPay => l.w == EMPTY && l.held == {}
    case LockPayment(order) =>
      && Owns(db, user, o) && order == db.orders[o]
      && l.w == EMPTY && l.held == {OrderRow(o)}
    case UpdatePayment(order, payment) =>
      && Payable(db, user, o) && order == db.orders[o] && payment == db.payments[o]
      && l.w == EMPTY && l.held == {OrderRow(o), PaymentRow(o)}
    case MarkPaid =>
      && Payable(db, user, o) && charged
      && l.w == PayWrites(db, o, charged, transaction).(orders := map[])
      && l.held == {OrderRow(o), PaymentRow(o)}
    case AtCommit =>
      && Payable(db, user, o)
      && l.w == PayWrites(db, o, charged, transaction)
      && l.held == {OrderRow(o), PaymentRow(o)}
    case _ => false
  }

  /** The transaction's private state is what running it alone on the committed
      tables would have made it. */
  ghost predicate Matches(req: Event, db: Db, l: Local)
    requires IsTransaction(req)
  {
    match req
    case PlaceEvent(o, user, lines) => PlaceMatches(o, user, lines, db, l)
    case CancelEvent(user, o) => CancelMatches(user, o, db, l)
    case PayEvent(user, o, charged, transaction) => PayMatches(user, o, charged, transaction, db, l)
  }

  /** The transaction ended without writing, and answered what the closed form
      answers. */
  ghost predicate Answers(req: Event, db: Db, outcome: Outcome) {
    match Execute(db, req)
    case Done(db', reply) => db' == db && outcome == Ok(reply)
    case Fail(e) => outcome == Err(e)
  }
}
