/** The order service and the payment repository as they run: statement by
    statement against shared tables, with a transaction around them. */
module Store {
  import opened Ints
  import opened Tally
  import opened Ordering
  import opened Schema
  import opened Atomic
  import opened Placement
  import opened Progress
  import opened Runs
  import opened Outcomes

  /** A call that started on `before`, ended on `after` and answered `r` did what
      the closed form says: all of it, or nothing. */
  ghost predicate Does(result: Result, before: Db, after: Db, r: Outcome) {
    match result
    case Done(db, reply) => after == db && r == Ok(reply)
    case Fail(e) => after == before && r == Err(e)
  }

  /** Item rows satisfy the quantity column's constraint and width. */
  ghost predicate QuantitiesFit(db: Db) {
    forall o, i :: o in db.items && 0 <= i < |db.items[o]| ==> 1 <= db.items[o][i].quantity <= MAX_INT32
  }

  lemma QuantitiesPermuted(db: Db, o: OrderId, items: seq<Item>)
    requires QuantitiesFit(db) && multiset(items) == multiset(ItemsOf(db, o))
    ensures forall i :: 0 <= i < |items| ==> 1 <= items[i].quantity <= MAX_INT32
    ensures AllPositive(Stored(items))
  {
    forall i | 0 <= i < |items| ensures 1 <= items[i].quantity <= MAX_INT32 {
      assert items[i] in multiset(items);
      assert items[i] in ItemsOf(db, o);
    }
  }

  lemma SameSize<T>(a: seq<T>, b: seq<T>)
    requires multiset(a) == multiset(b)
    ensures |a| == |b|
  {
    assert |multiset(a)| == |a| && |multiset(b)| == |b|;
  }

  method SwapBack<T>(a: array<T>, j: nat)
    requires 0 < j < a.Length
    modifies a
    ensures a[j - 1] == old(a[j]) && a[j] == old(a[j - 1])
    ensures forall i :: 0 <= i < a.Length && i != j - 1 && i != j ==> a[i] == old(a[i])
    ensures multiset(a[..]) == multiset(old(a[..]))
  {
    a[j - 1], a[j] := a[j], a[j - 1];
  }

  /** `sort.Slice` with a comparison of keys, in place: ascending afterwards, with
      the same elements; the order among equal keys is not promised. */
  method SortByKey<T(==)>(a: array<T>, key: T -> int)
    modifies a
    ensures forall i, j :: 0 <= i < j < a.Length ==> key(a[i]) <= key(a[j])
    ensures multiset(a[..]) == multiset(old(a[..]))
  {
    var i := 0;
    while i < a.Length
      invariant 0 <= i <= a.Length
      invariant forall x, y :: 0 <= x < y < i ==> key(a[x]) <= key(a[y])
      invariant multiset(a[..]) == multiset(old(a[..]))
    {
      var j := i;
      while j > 0 && key(a[j]) < key(a[j - 1])
        invariant 0 <= j <= i
        invariant forall x, y :: 0 <= x < y <= i && y != j ==> key(a[x]) <= key(a[y])
        invariant multiset(a[..]) == multiset(old(a[..]))
      {
        SwapBack(a, j);
        j := j - 1;
      }
      i := i + 1;
    }
  }

  class Tables {
    var products: map<ProductId, Product>
    var orders: map<OrderId, Order>
    var items: map<OrderId, seq<Item>>
    var payments: map<OrderId, Payment>

    constructor (db: Db)
      ensures Contents() == db
    {
      products, orders, items, payments := db.products, db.orders, db.items, db.payments;
    }

    function Contents(): Db
      reads this
    {
      Db(products, orders, items, payments)
    }

    /** Rollback. */
    method Restore(db: Db)
      modifies this
      ensures Contents() == db
    {
      products, orders, items, payments := db.products, db.orders, db.items, db.payments;
    }

    // ---- Statements on products ----

    method LockProductForUpdate(p: ProductId) returns (row: Option<Product>)
      ensures row == if p in products then Some(products[p]) else None
    {
      if p in products { row := Some(products[p]); } else { row := None; }
    }

    /** What changing the stock of a row reports: the column is 32 bits wide and
        must not become negative. */
    function StockCheck(stock: int, change: int): Option<Error> {
      if 0 < change && MAX_INT32 < stock + change then Some(OutOfRange)
      else if change < 0 && stock + change < 0 then Some(CheckViolation)
      else None
    }

    /** The guarded decrement: affects the row only if the stock covers it. */
    method DecreaseProductStock(p: ProductId, quantity: int) returns (rowsAffected: nat, err: Option<Error>)
      modifies this`products
      ensures var q, rows := Wrap32(quantity), old(products);
        && err == (if p in rows && q <= rows[p].stock then StockCheck(rows[p].stock, -q) else None)
        && rowsAffected == (if p in rows && q <= rows[p].stock && err.None? then 1 else 0)
        && products == if rowsAffected == 0 then rows else rows[p := rows[p].(stock := rows[p].stock - q)]
    {
      rowsAffected, err := 0, None;
      if p in products && Wrap32(quantity) <= products[p].stock {
        err := StockCheck(products[p].stock, -Wrap32(quantity));
        if err.None? {
          products := products[p := products[p].(stock := products[p].stock - Wrap32(quantity))];
          rowsAffected := 1;
        }
      }
    }

    /** The increment. */
    method IncreaseProductStock(p: ProductId, quantity: int) returns (rowsAffected: nat, err: Option<Error>)
      modifies this`products
      ensures var q, rows := Wrap32(quantity), old(products);
        && err == (if p in rows then StockCheck(rows[p].stock, q) else None)
        && rowsAffected == (if p in rows && err.None? then 1 else 0)
        && products == if rowsAffected == 0 then rows else rows[p := rows[p].(stock := rows[p].stock + q)]
    {
      rowsAffected, err := 0, None;
      if p in products {
        err := StockCheck(products[p].stock, Wrap32(quantity));
        if err.None? {
          products := products[p := products[p].(stock := products[p].stock + Wrap32(quantity))];
          rowsAffected := 1;
        }
      }
    }

    // ---- Statements on orders, items and payments ----

    method InsertOrder(o: OrderId, user: UserId, total: int) returns (err: Option<Error>)
      modifies this`orders, this`items
      ensures err == if total < 0 then Some(CheckViolation)
                     else if o in old(orders) || o in old(items) then Some(DuplicateKey) else None
      ensures orders == if err.None? then old(orders)[o := Order(user, Pending, total)] else old(orders)
      ensures items == if err.None? then old(items)[o := []] else old(items)
    {
      if total < 0 { return Some(CheckViolation); }
      if o in orders || o in items { return Some(DuplicateKey); }
      orders, items := orders[o := Order(user, Pending, total)], items[o := []];
      return None;
    }

    method CreateOrderItem(o: OrderId, line: Entry, price: int) returns (err: Option<Error>)
      requires o in items
      modifies this`items
      ensures err == if LineWellFormed(price, line) then None else Some(CheckViolation)
      ensures items == if err.None? then old(items)[o := old(items)[o] + [MakeItem(price, line)]] else old(items)
    {
      var item := Item(line.product, Wrap32(line.amount), price, Wrap64(price * line.amount));
      if item.quantity <= 0 || item.price < 0 || item.subtotal < 0 { return Some(CheckViolation); }
      items := items[o := items[o] + [item]];
      return None;
    }

    method CreatePayment(o: OrderId, amount: int) returns (err: Option<Error>)
      modifies this`payments
      ensures err == if amount < 0 then Some(CheckViolation)
                     else if o in old(payments) then Some(DuplicateKey) else None
      ensures payments == if err.None? then old(payments)[o := Payment(amount, Awaiting, None)] else old(payments)
    {
      if amount < 0 { return Some(CheckViolation); }
      if o in payments { return Some(DuplicateKey); }
      payments := payments[o := Payment(amount, Awaiting, None)];
      return None;
    }

    method LockOrderForUpdate(user: UserId, o: OrderId) returns (row: Option<Order>)
      ensures row == if o in orders && orders[o].user == user then Some(orders[o]) else None
    {
      if o in orders && orders[o].user == user { row := Some(orders[o]); } else { row := None; }
    }

    /** The item rows of an order, in no particular order. */
    method GetOrderItemsByOrderID(o: OrderId) returns (rows: seq<Item>)
      ensures multiset(rows) == multiset(ItemsOf(Contents(), o))
    {
      if o in items { rows := items[o]; } else { rows := []; }
    }

    method UpdateOrderStatus(user: UserId, o: OrderId, status: Status) returns (row: Option<Order>)
      modifies this`orders
      ensures row == if o in old(orders) && old(orders)[o].user == user
                     then Some(old(orders)[o].(status := status)) else None
      ensures orders == if row.Some? then old(orders)[o := row.value] else old(orders)
    {
      row := None;
      if o in orders && orders[o].user == user {
        orders := orders[o := orders[o].(status := status)];
        row := Some(orders[o]);
      }
    }

    method MarkOrderAsPaid(o: OrderId) returns (row: Option<Order>)
      modifies this`orders
      ensures row == if o in old(orders) then Some(old(orders)[o].(status := Paid)) else None
      ensures orders == if row.Some? then old(orders)[o := row.value] else old(orders)
    {
      row := None;
      if o in orders {
        orders := orders[o := orders[o].(status := Paid)];
        row := Some(orders[o]);
      }
    }

    method LockPaymentForUpdate(o: OrderId) returns (row: Option<Payment>)
      ensures row == if o in payments then Some(payments[o]) else None
    {
      if o in payments { row := Some(payments[o]); } else { row := None; }
    }

    method UpdatePaymentStatus(o: OrderId, status: PaymentStatus, transaction: TransactionId)
      returns (row: Option<Payment>)
      modifies this`payments
      ensures row == if o in old(payments)
                     then Some(old(payments)[o].(status := status, transaction := Some(transaction))) else None
      ensures payments == if row.Some? then old(payments)[o := row.value] else old(payments)
    {
      row := None;
      if o in payments {
        payments := payments[o := payments[o].(status := status, transaction := Some(transaction))];
        row := Some(payments[o]);
      }
    }
  }

  class OrderService {
    const t: Tables

    constructor (t: Tables)
      ensures this.t == t
    {
      this.t := t;
    }

    /** Sums the lines per product in a map, in Go arithmetic. */
    method QuantityByProduct(lines: seq<Entry>) returns (quantities: map<ProductId, int>)
      ensures quantities.Keys == Products(lines)
      ensures forall p :: p in quantities ==> quantities[p] == RequestedQuantity(lines, p)
    {
      hide Products;
      hide Wrap64;
      quantities := map[];
      var i := 0;
      NoQuantities(lines);
      while i < |lines|
        invariant 0 <= i <= |lines|
        invariant quantities.Keys == Products(lines[..i])
        invariant forall p :: p in quantities ==> quantities[p] == RequestedQuantity(lines[..i], p)
      {
        var line := lines[i];
        var before := if line.product in quantities then quantities[line.product] else 0;
        ghost var prefix := lines[..i];
        if line.product !in quantities { TotalAbsent(prefix, line.product); }
        assert before == RequestedQuantity(prefix, line.product);
        forall p ensures RequestedQuantity(lines[..i + 1], p)
                      == if p == line.product then Wrap64(before + line.amount) else RequestedQuantity(prefix, p)
                 ensures Products(lines[..i + 1]) == Products(prefix) + {line.product}
        {
          NextQuantity(lines, i, p);
        }
        quantities := quantities[line.product := Wrap64(before + line.amount)];
        i := i + 1;
      }
      assert lines[..|lines|] == lines;
    }

    lemma NoQuantities(lines: seq<Entry>)
      ensures Products(lines[..0]) == {} && lines[..|lines|] == lines
    {
    }

    lemma NextQuantity(lines: seq<Entry>, i: nat, p: ProductId)
      requires i < |lines|
      ensures RequestedQuantity(lines[..i + 1], p)
           == if p == lines[i].product then Wrap64(RequestedQuantity(lines[..i], p) + lines[i].amount)
              else RequestedQuantity(lines[..i], p)
      ensures Products(lines[..i + 1]) == Products(lines[..i]) + {lines[i].product}
    {
      TotalPrefix(lines, i, p);
      WrapAdd(Total(lines[..i], p), lines[i].amount);
    }

    /** The map's keys, walked in whatever order, sorted in place. */
    method SortedProductIDs(quantities: map<ProductId, int>) returns (ids: seq<ProductId>)
      ensures Ascending(ids) && Enumerates(ids, quantities.Keys)
    {
      var unsorted: seq<ProductId> := [];
      var keys := quantities.Keys;
      while keys != {}
        invariant keys <= quantities.Keys
        invariant forall p :: p in quantities.Keys <==> p in keys || p in unsorted
        invariant forall p :: p in unsorted ==> p !in keys
        invariant forall i, j :: 0 <= i < j < |unsorted| ==> unsorted[i] != unsorted[j]
        decreases keys
      {
        var id :| id in keys;
        unsorted := unsorted + [id];
        keys := keys - {id};
      }
      var a := new ProductId[|unsorted|](i requires 0 <= i < |unsorted| => unsorted[i]);
      assert a[..] == unsorted;
      SortByKey(a, (p: ProductId) => p);
      ids := a[..];
      SortedDistinct(unsorted, ids, quantities.Keys);
    }

    /** Sorting distinct ids makes them strictly ascending. */
    lemma SortedDistinct(unsorted: seq<ProductId>, ids: seq<ProductId>, s: set<ProductId>)
      requires forall i, j :: 0 <= i < j < |unsorted| ==> unsorted[i] != unsorted[j]
      requires forall p :: p in s <==> p in unsorted
      requires multiset(ids) == multiset(unsorted)
      requires forall i, j :: 0 <= i < j < |ids| ==> ids[i] <= ids[j]
      ensures Ascending(ids) && Enumerates(ids, s)
    {
      forall p ensures p in ids <==> p in s
        ensures multiset(ids)[p] <= 1
      {
        assert p in ids <==> p in multiset(ids);
        assert p in unsorted <==> p in multiset(unsorted);
        OccursOnce(unsorted, p);
      }
      forall i, j | 0 <= i < j < |ids| ensures ids[i] < ids[j] {
        OnceMeansDistinct(ids, i, j);
      }
    }

    lemma OnceMeansDistinct(ids: seq<ProductId>, i: nat, j: nat)
      requires i < j < |ids| && multiset(ids)[ids[j]] <= 1
      ensures ids[i] != ids[j]
    {
      assert ids == ids[..j] + [ids[j]] + ids[j + 1..];
      assert ids[i] in ids[..j];
      assert ids[i] in multiset(ids[..j]);
    }

    lemma {:induction false} OccursOnce(s: seq<ProductId>, p: ProductId)
      requires forall i, j :: 0 <= i < j < |s| ==> s[i] != s[j]
      ensures multiset(s)[p] <= 1
    {
      if s != [] {
        var front, last := s[..|s| - 1], s[|s| - 1];
        OccursOnce(front, p);
        assert s == front + [last];
        assert last !in front;
        assert last !in multiset(front);
      }
    }

    lemma SortedIsLockOrder(ids: seq<ProductId>, lines: seq<Entry>)
      requires Ascending(ids) && Enumerates(ids, Products(lines))
      ensures ids == LockOrder(lines)
      ensures forall i :: 0 <= i < |ids| ==> ids[i] in Products(lines)
    {
      OneEnumeration(ids, LockOrder(lines), Products(lines));
    }

    lemma FirstUncoveredDecides(db: Db, lines: seq<Entry>)
      ensures forall p :: FirstUncovered(db, lines, p) ==>
        FirstError(LockChecks(db, lines)) == Some(if p in db.products then InsufficientStock else ProductNotFound)
    {
      hide FirstUncovered;
      hide LockChecks;
      hide FirstError;
      forall p | FirstUncovered(db, lines, p)
        ensures FirstError(LockChecks(db, lines))
             == Some(if p in db.products then InsufficientStock else ProductNotFound)
      {
        PlaceRefusedForProduct(db, 0, 0, lines, p);
      }
    }

    /** Locks every product in ascending order, refusing the first that is missing
        or short, and reads the price snapshot and the total. */
    method LockAndPrice(quantities: map<ProductId, int>, ghost lines: seq<Entry>)
      returns (prices: map<ProductId, int>, totalPrice: int, err: Option<Error>)
      requires quantities.Keys == Products(lines)
      requires forall p :: p in quantities ==> quantities[p] == RequestedQuantity(lines, p)
      ensures err == FirstError(LockChecks(t.Contents(), lines))
      ensures forall p :: FirstUncovered(t.Contents(), lines, p) ==>
        err == Some(if p in t.products then InsufficientStock else ProductNotFound)
      ensures err.None? ==> Products(lines) <= t.products.Keys
                            && prices == PricesOf(t.Contents(), lines)
                            && totalPrice == OrderTotal(t.Contents(), lines)
    {
      hide Enumerates;
      hide Ascending;
      hide LockOrder;
      hide Priced;
      hide Products;
      hide GroupedTotal;
      hide PricesOf;
      hide RequestedQuantity;
      hide Wrap64;
      hide LockChecks;
      hide FirstError;
      hide FirstUncovered;
      ghost var db := t.Contents();
      FirstUncoveredDecides(db, lines);
      prices, totalPrice := map[], 0;
      var ids := SortedProductIDs(quantities);
      SortedIsLockOrder(ids, lines);
      PricedNone(db, lines, ids);
      var i := 0;
      while i < |ids|
        invariant 0 <= i <= |ids|
        invariant Priced(db, lines, ids, i, prices, totalPrice)
      {
        var row := t.LockProductForUpdate(ids[i]);
        if row.None? {
          LockFails(db, lines, i, prices, totalPrice);
          return prices, totalPrice, Some(ProductNotFound);
        }
        if row.value.stock < quantities[ids[i]] {
          LockFails(db, lines, i, prices, totalPrice);
          return prices, totalPrice, Some(InsufficientStock);
        }
        PricedNext(db, lines, ids, i, prices, totalPrice);
        prices := prices[ids[i] := row.value.price];
        totalPrice := Wrap64(totalPrice + row.value.price * quantities[ids[i]]);
        i := i + 1;
      }
      PricedAll(db, lines, prices, totalPrice);
      err := None;
    }

    /** Inserts the items and takes their stock, line by line. */
    method InsertLines(o: OrderId, lines: seq<Entry>, prices: map<ProductId, int>,
                       ghost db: Db)
      returns (err: Option<Error>)
      requires Products(lines) <= db.products.Keys && prices == PricesOf(db, lines)
      requires t.products == SoldRows(db, lines, 0)
      requires t.items == db.items[o := SomeItems(db, lines, 0)]
      modifies t`items, t`products
      ensures err == FirstError(LineChecks(db, lines))
      ensures err.None? ==> t.products == SoldRows(db, lines, |lines|)
                            && t.items == db.items[o := SomeItems(db, lines, |lines|)]
    {
      hide SoldRows;
      hide SomeItems;
      hide PricesOf;
      hide LineCheck;
      hide LineChecks;
      hide FirstError;
      hide LineWellFormed;
      hide MakeItem;
      var j := 0;
      while j < |lines|
        invariant 0 <= j <= |lines|
        invariant LinesPassed(db, lines, j)
        invariant t.products == SoldRows(db, lines, j)
        invariant o in t.items && t.items == db.items[o := SomeItems(db, lines, j)]
      {
        var line := lines[j];
        ProductAt(lines, j);
        LineReports(db, lines, j);
        NextItem(db, lines, j);
        NextDecrement(db, lines, j);
        err := t.CreateOrderItem(o, line, prices[line.product]);
        if err.Some? {
          LineFails(db, lines, j);
          return;
        }
        WellFormedQuantity(prices[line.product], line);
        var rowsAffected;
        rowsAffected, err := t.DecreaseProductStock(line.product, line.amount);
        if err.Some? {
          assert false;
          return;
        }
        if rowsAffected == 0 {
          LineFails(db, lines, j);
          return Some(InsufficientStock);
        }
        j := j + 1;
      }
      LinesAll(db, lines);
      err := None;
    }

    /** The transaction's body: on an error it may leave rows behind. */
    method CreateOrderBody(user: UserId, lines: seq<Entry>, o: OrderId) returns (err: Option<Error>)
      modifies t
      ensures err == PlaceVerdict(old(t.Contents()), o, lines)
      ensures err.None? ==> t.Contents() == Place(old(t.Contents()), o, user, lines).db
    {
      hide PricesOf;
      hide LockChecks;
      hide LineChecks;
      hide FirstError;
      hide OrderTotal;
      hide Sold;
      hide MakeItems;
      hide Narrow;
      ghost var db := t.Contents();
      var quantities := QuantityByProduct(lines);
      var prices, total;
      prices, total, err := LockAndPrice(quantities, lines);
      if err.Some? { return; }
      err := t.InsertOrder(o, user, total);
      if err.Some? { return; }
      NoLinesYet(db, lines);
      err := InsertLines(o, lines, prices, db);
      if err.Some? { return; }
      err := t.CreatePayment(o, total);
      if err.None? {
        AllLinesDone(db, lines);
        PlaceEffect(db, o, user, lines);
      }
    }

    /** Places an order: everything the closed form says, or nothing. */
    method CreateOrder(user: UserId, lines: seq<Entry>, o: OrderId) returns (r: Outcome)
      modifies t
      ensures Does(Place(old(t.Contents()), o, user, lines), old(t.Contents()), t.Contents(), r)
      ensures r.Ok? ==>
        && o in t.orders && o in t.items && o in t.payments
        && r.reply == PlaceReply(o, t.orders[o], t.items[o], t.payments[o])
        && t.orders[o].user == user && t.orders[o].status == Pending
        && t.payments[o] == Payment(t.orders[o].total, Awaiting, None)
      ensures forall p :: FirstUncovered(old(t.Contents()), lines, p) ==>
        r == Err(if p in old(t.products) then InsufficientStock else ProductNotFound)
    {
      hide FirstUncovered;
      hide LockChecks;
      hide FirstError;
      var snapshot := t.Contents();
      FirstUncoveredDecides(snapshot, lines);
      var err := CreateOrderBody(user, lines, o);
      if err.Some? {
        t.Restore(snapshot);
        return Err(err.value);
      }
      PlaceAnswer(snapshot, o, user, lines);
      r := Ok(PlaceReply(o, t.orders[o], t.items[o], t.payments[o]));
    }

    /** The item rows, sorted in place by product id. */
    method SortItems(rows: seq<Item>) returns (sorted: seq<Item>)
      ensures multiset(sorted) == multiset(rows)
      ensures SortedByProduct(Stored(sorted))
    {
      var a := new Item[|rows|](i requires 0 <= i < |rows| => rows[i]);
      assert a[..] == rows;
      SortByKey(a, (item: Item) => item.product);
      sorted := a[..];
    }

    /** Puts the stock of every item back, row by row. */
    method RestockItems(items: seq<Item>, ghost db: Db) returns (err: Option<Error>)
      requires t.products == db.products
      requires SortedByProduct(Stored(items)) && AllPositive(Stored(items))
      requires forall i :: 0 <= i < |items| ==> items[i].quantity <= MAX_INT32
      modifies t`products
      ensures err == FirstError(RestockChecks(db, Stored(items)))
      ensures err.None? ==> t.products == db.products + Restocked(db, Stored(items))
    {
      hide RestockLine;
      hide RestockedRows;
      hide RestockChecks;
      hide FirstError;
      ghost var es := Stored(items);
      var j := 0;
      NothingBackYet(db, es);
      while j < |items|
        invariant 0 <= j <= |items|
        invariant RestockPassed(db, es, j)
        invariant t.products == RestockedRows(db, es, j)
      {
        var item := items[j];
        assert es[j] == Entry(item.product, item.quantity);
        NextIncrement(db, es, j);
        var row := t.LockProductForUpdate(item.product);
        if row.None? {
          RestockFails(db, es, j);
          return Some(ProductNotFound);
        }
        var rowsAffected;
        rowsAffected, err := t.IncreaseProductStock(item.product, item.quantity);
        if err.Some? {
          RestockFails(db, es, j);
          return;
        }
        if rowsAffected == 0 {
          assert false;
          return Some(ProductNotFound);
        }
        j := j + 1;
      }
      RestockAll(db, es);
      AllBack(db, es);
      err := None;
    }

    method CancelOrderBody(user: UserId, o: OrderId) returns (err: Option<Error>)
      requires QuantitiesFit(t.Contents())
      modifies t
      ensures err == CancelVerdict(old(t.Contents()), user, o)
      ensures err.None? ==> t.Contents() == Cancel(old(t.Contents()), user, o).db
    {
      hide RestockChecks;
      hide FirstError;
      hide Restocked;
      ghost var db := t.Contents();
      var order := t.LockOrderForUpdate(user, o);
      if order.None? { return Some(OrderNotFound); }
      if order.value.status != Pending { return Some(OrderNotPending); }
      var rows := t.GetOrderItemsByOrderID(o);
      SameSize(rows, ItemsOf(db, o));
      if |rows| == 0 { return Some(OrderItemsUnavailable); }
      var items := SortItems(rows);
      QuantitiesPermuted(db, o, items);
      err := RestockItems(items, db);
      StoredPermuted(items, ItemsOf(db, o));
      RestockPermuted(db, Stored(items), Stored(ItemsOf(db, o)));
      if err.Some? { return; }
      var cancelled := t.UpdateOrderStatus(user, o, Cancelled);
      if cancelled.None? {
        assert false;
        return Some(OrderNotFound);
      }
      CancelEffect(db, user, o);
    }

    /** Cancels an order: everything the closed form says, or nothing, in whatever
        order the database returned the item rows. */
    method CancelOrder(user: UserId, o: OrderId) returns (r: Outcome)
      requires QuantitiesFit(t.Contents())
      modifies t
      ensures Does(Cancel(old(t.Contents()), user, o), old(t.Contents()), t.Contents(), r)
      ensures !(o in old(t.orders) && old(t.orders)[o].user == user) ==> r == Err(OrderNotFound)
      ensures r.Ok? ==>
        && o in old(t.orders) && o in t.orders
        && t.orders[o] == Order(user, Cancelled, old(t.orders)[o].total) && r.reply == CancelReply(t.orders[o])
    {
      var snapshot := t.Contents();
      CancelTable(snapshot, user, o);
      var err := CancelOrderBody(user, o);
      if err.Some? {
        t.Restore(snapshot);
        return Err(err.value);
      }
      CancelAnswer(snapshot, user, o);
      r := Ok(CancelReply(t.orders[o]));
    }
  }

  /** What the payment provider answers to a charge. */
  datatype Answer = Answer(success: bool, transaction: TransactionId)

  /** The payment provider: what it answers may depend on all charges so far. */
  class Provider {
    const answers: seq<int> -> Answer
    var charges: seq<int>

    constructor (answers: seq<int> -> Answer)
      ensures this.answers == answers && charges == []
    {
      this.answers, charges := answers, [];
    }

    method Charge(amount: int) returns (answer: Answer)
      modifies this`charges
      ensures charges == old(charges) + [amount] && answer == answers(charges)
    {
      charges := charges + [amount];
      answer := answers(charges);
    }
  }

  class PaymentRepository {
    const t: Tables
    const provider: Provider

    constructor (t: Tables, provider: Provider)
      ensures this.t == t && this.provider == provider
    {
      this.t, this.provider := t, provider;
    }

    /** Pays for an order: locks it and its payment, charges a pending one once, and
        writes the answer to the payment and, on success, to the order. */
    method Pay(user: UserId, o: OrderId) returns (r: Outcome)
      modifies t, provider`charges
      ensures var answer := provider.answers(provider.charges);
        Does(Atomic.Pay(old(t.Contents()), user, o, answer.success, answer.transaction),
             old(t.Contents()), t.Contents(), r)
      ensures var mine := o in old(t.orders) && old(t.orders)[o].user == user;
        if !mine then r == Err(OrderNotFound)
        else if o !in old(t.payments) then r == Err(PaymentNotFound)
        else if old(t.orders)[o].status == Cancelled then r == Err(OrderNotPayable)
        else r.Ok? && o in t.orders && o in t.payments && r.reply == PayReply(t.payments[o], t.orders[o])
      ensures provider.charges ==
        if r.Ok? && old(t.orders)[o].status == Pending && old(t.payments)[o].status != Success
        then old(provider.charges) + [old(t.payments)[o].amount] else old(provider.charges)
    {
      ghost var db := t.Contents();
      var order := t.LockOrderForUpdate(user, o);
      if order.None? { return Err(OrderNotFound); }
      var payment := t.LockPaymentForUpdate(o);
      if payment.None? { return Err(PaymentNotFound); }
      if order.value.status == Paid { return Ok(PayReply(payment.value, order.value)); }
      if order.value.status == Cancelled { return Err(OrderNotPayable); }
      if payment.value.status == Success { return Ok(PayReply(payment.value, order.value)); }
      var answer := provider.Charge(payment.value.amount);
      payment := t.UpdatePaymentStatus(o, if answer.success then Success else Failed, answer.transaction);
      if payment.None? {
        assert false;
        return Err(PaymentNotFound);
      }
      if payment.value.status == Success {
        order := t.MarkOrderAsPaid(o);
        if order.None? {
          assert false;
          return Err(OrderNotFound);
        }
      }
      PayEffect(db, user, o, answer.success, answer.transaction);
      r := Ok(PayReply(payment.value, order.value));
    }
  }
}
