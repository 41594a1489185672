/** What every call is answered, and what it leaves behind, stated on the tables'
    own fields: which refusal is given when, what a success shows, which rows
    change. */
module Outcomes {
  import opened Ints
  import opened Tally
  import opened Ordering
  import opened Schema
  import opened Atomic
  import opened Placement
  import opened Runs

  // ---- Narrowing and wrapping ----

  /** `int32(x)` lies in the 32-bit range and differs from `x` by a multiple of 2^32. */
  lemma Wrap32Is(x: int)
    ensures -0x8000_0000 <= Wrap32(x) <= 0x7FFF_FFFF && (x - Wrap32(x)) % 0x1_0000_0000 == 0
  {
    var k := (x + 0x8000_0000) / 0x1_0000_0000;
    assert x - Wrap32(x) == k * 0x1_0000_0000;
  }

  /** A Go `int` result lies in the 64-bit range and differs from the true value by
      a multiple of 2^64. */
  lemma Wrap64Is(x: int)
    ensures -0x8000_0000_0000_0000 <= Wrap64(x) <= 0x7FFF_FFFF_FFFF_FFFF
    ensures (x - Wrap64(x)) % 0x1_0000_0000_0000_0000 == 0
  {
    var k := WrapIsShift(x);
    assert x - Wrap64(x) == -k * 0x1_0000_0000_0000_0000;
  }

  // ---- The first product in lock order ----

  /** The place of a product in the lock order: the smaller ones come before it. */
  lemma PlaceInOrder(es: seq<Entry>, p: ProductId) returns (n: nat)
    requires p in Products(es)
    ensures n < |LockOrder(es)| && LockOrder(es)[n] == p
    ensures forall i :: 0 <= i < n ==> LockOrder(es)[i] < p && LockOrder(es)[i] in Products(es)
  {
    assert p in LockOrder(es);
    n :| 0 <= n < |LockOrder(es)| && LockOrder(es)[n] == p;
  }

  // ---- Placing ----

  /** The product is in the catalogue and covers the 64-bit sum of its lines. */
  ghost predicate Covered(db: Db, lines: seq<Entry>, p: ProductId) {
    p in db.products && Wrap64(Total(lines, p)) <= db.products[p].stock
  }

  /** The smallest requested product that is not covered. */
  ghost predicate FirstUncovered(db: Db, lines: seq<Entry>, p: ProductId) {
    && p in Products(lines) && !Covered(db, lines, p)
    && forall q :: q in Products(lines) && q < p ==> Covered(db, lines, q)
  }

  /** An order that asks for a product that is missing or short is refused for the
      smallest such product: as missing, or as short. */
  lemma PlaceRefusedForProduct(db: Db, o: OrderId, user: UserId, lines: seq<Entry>, p: ProductId)
    requires FirstUncovered(db, lines, p)
    ensures FirstError(LockChecks(db, lines)) == Some(if p in db.products then InsufficientStock else ProductNotFound)
    ensures Place(db, o, user, lines) == Fail(if p in db.products then InsufficientStock else ProductNotFound)
  {
    hide LineChecks;
    hide OrderTotal;
    hide Total;
    hide Products;
    var n := PlaceInOrder(lines, p);
    hide LockOrder;
    forall i | 0 <= i < n ensures LockChecks(db, lines)[i].None? {
      assert LockChecks(db, lines)[i] == LockCheck(db, lines, LockOrder(lines)[i]);
    }
    FirstErrorIs(LockChecks(db, lines), n);
  }

  ghost predicate AllCovered(db: Db, lines: seq<Entry>) {
    forall p :: p in Products(lines) ==> Covered(db, lines, p)
  }

  lemma CoveredLocks(db: Db, lines: seq<Entry>)
    requires AllCovered(db, lines)
    ensures Products(lines) <= db.products.Keys
    ensures FirstError(LockChecks(db, lines)).None?
  {
    assert forall p :: p in Products(lines) ==> Covered(db, lines, p);
    LocksCover(db, lines);
  }

  /** The item row that line `j` asks for satisfies the row's constraints. */
  ghost predicate RowAllowed(db: Db, line: Entry)
    requires line.product in db.products
  {
    var price := db.products[line.product].price;
    0 < Wrap32(line.amount) && 0 <= price && 0 <= Wrap64(price * line.amount)
  }

  lemma LineProduct(lines: seq<Entry>, j: nat)
    requires j < |lines|
    ensures lines[j].product in Products(lines)
  {
    assert lines[j] in lines;
  }

  /** The stock covers what lines 0 to `j` take of line `j`'s product. */
  ghost predicate Lasts(db: Db, lines: seq<Entry>, j: nat)
    requires j < |lines| && lines[j].product in db.products
  {
    Total(Narrow(lines)[..j + 1], lines[j].product) <= db.products[lines[j].product].stock
  }

  lemma LineCheckIs(db: Db, lines: seq<Entry>, j: nat)
    requires Products(lines) <= db.products.Keys && j < |lines|
    ensures lines[j].product in db.products
    ensures LineCheck(db, lines, j)
         == if !RowAllowed(db, lines[j]) then Some(CheckViolation)
            else if !Lasts(db, lines, j) then Some(InsufficientStock) else None
  {
    LineProduct(lines, j);
    LineVerdict(db, lines, j);
  }

  /** Lines before `j` are fine, and line `j`, if there is one, is not. */
  ghost predicate FirstBadLine(db: Db, lines: seq<Entry>, j: nat)
    requires j <= |lines| && forall k :: 0 <= k < |lines| ==> lines[k].product in db.products
  {
    && (forall k :: 0 <= k < j ==> RowAllowed(db, lines[k]) && Lasts(db, lines, k))
    && (j < |lines| ==> !RowAllowed(db, lines[j]) || !Lasts(db, lines, j))
  }

  lemma LinesRefused(db: Db, lines: seq<Entry>, j: nat)
    requires Products(lines) <= db.products.Keys && j <= |lines|
    requires forall k :: 0 <= k < |lines| ==> lines[k].product in db.products
    requires FirstBadLine(db, lines, j)
    ensures FirstError(LineChecks(db, lines))
         == if j == |lines| then None
            else Some(if RowAllowed(db, lines[j]) then InsufficientStock else CheckViolation)
  {
    hide LineCheck;
    hide RowAllowed;
    hide Lasts;
    hide Products;
    forall k | 0 <= k < |lines| && k <= j ensures LineChecks(db, lines)[k].None? <==> k < j {
      LineCheckIs(db, lines, k);
    }
    FirstErrorIs(LineChecks(db, lines), j);
    if j < |lines| { LineCheckIs(db, lines, j); }
  }

  /** Once all products are covered: what the order row, then the first bad line,
      then the payment row decide. */
  lemma PlaceRefusedLater(db: Db, o: OrderId, user: UserId, lines: seq<Entry>, j: nat)
    requires AllCovered(db, lines) && Products(lines) <= db.products.Keys && j <= |lines|
    requires forall k :: 0 <= k < |lines| ==> lines[k].product in db.products
    requires FirstBadLine(db, lines, j)
    ensures var r := Place(db, o, user, lines);
      if Wrap64(Cost(PricesOf(db, lines), lines)) < 0 then r == Fail(CheckViolation)
      else if o in db.orders || o in db.items then r == Fail(DuplicateKey)
      else if j < |lines| then r == Fail(if RowAllowed(db, lines[j]) then InsufficientStock else CheckViolation)
      else if o in db.payments then r == Fail(DuplicateKey)
      else r.Done?
  {
    hide LockChecks;
    hide LineChecks;
    hide OrderTotal;
    hide RowAllowed;
    hide FirstBadLine;
    hide AllCovered;
    hide Products;
    hide Cost;
    hide PricesOf;
    hide PlaceWrites;
    hide PlaceReplyOf;
    hide FirstError;
    hide Wrap64;
    CoveredLocks(db, lines);
    TotalIsItemised(db, lines);
    LinesRefused(db, lines, j);
  }

  /** A placed order is pending, its payment awaits, its items carry the locked
      prices; every product gives up what the narrowed lines take; and the caller
      is shown exactly the rows that are now in the tables. */
  lemma PlaceAnswer(db: Db, o: OrderId, user: UserId, lines: seq<Entry>)
    requires Place(db, o, user, lines).Done?
    ensures var r := Place(db, o, user, lines);
      && o in r.db.orders && o in r.db.items && o in r.db.payments
      && r.reply == PlaceReply(o, r.db.orders[o], r.db.items[o], r.db.payments[o])
      && r.db.orders[o].user == user && r.db.orders[o].status == Pending
      && r.db.payments[o] == Payment(r.db.orders[o].total, Awaiting, None)
      && |r.db.items[o]| == |lines|
    ensures Products(lines) <= db.products.Keys
    ensures Place(db, o, user, lines).db.orders[o].total == Wrap64(Cost(PricesOf(db, lines), lines))
    ensures forall k :: 0 <= k < |lines| ==> ItemShows(db, lines[k], Place(db, o, user, lines).db.items[o][k])
    ensures forall p :: p in db.products ==>
      p in Place(db, o, user, lines).db.products
      && Place(db, o, user, lines).db.products[p]
         == Product(db.products[p].price, db.products[p].stock - Total(Narrow(lines), p))
  {
    hide OrderTotal;
    hide Sold;
    hide Total;
    hide LockChecks;
    hide LineChecks;
    hide Cost;
    PlaceWritten(db, o, user, lines);
    PlaceEffect(db, o, user, lines);
    TotalIsItemised(db, lines);
    forall k | 0 <= k < |lines| ensures ItemShows(db, lines[k], Place(db, o, user, lines).db.items[o][k]) {
      LineProduct(lines, k);
    }
    forall p | p in db.products
      ensures p in Place(db, o, user, lines).db.products
      ensures Place(db, o, user, lines).db.products[p]
           == Product(db.products[p].price, db.products[p].stock - Total(Narrow(lines), p))
    {
      StockAfterSale(db, Narrow(lines), p);
    }
  }

  /** The item row of a line: narrowed quantity, the product's price, and the
      64-bit product of price and requested quantity. */
  ghost predicate ItemShows(db: Db, line: Entry, item: Item) {
    && line.product in db.products
    && item == Item(line.product, Wrap32(line.amount), db.products[line.product].price,
                    Wrap64(db.products[line.product].price * line.amount))
  }

  // ---- Cancelling ----

  /** Which refusal a cancellation gets, in the order in which they are decided. */
  lemma CancelTable(db: Db, user: UserId, o: OrderId)
    ensures var mine := o in db.orders && db.orders[o].user == user;
      var r := Cancel(db, user, o);
      && (r == Fail(OrderNotFound) <==> !mine)
      && (r == Fail(OrderNotPending) <==> mine && db.orders[o].status != Pending)
      && (r == Fail(OrderItemsUnavailable) <==>
            mine && db.orders[o].status == Pending && (o !in db.items || db.items[o] == []))
  {
    var es := Stored(ItemsOf(db, o));
    var n := FirstErrorMeans(RestockChecks(db, es));
    assert n < |LockOrder(es)| ==> RestockChecks(db, es)[n] == RestockCheck(db, es, LockOrder(es)[n]);
  }

  /** The product is in the catalogue and has room for what comes back. */
  ghost predicate HasRoom(db: Db, es: seq<Entry>, p: ProductId) {
    p in db.products && db.products[p].stock + Total(es, p) <= 0x7FFF_FFFF
  }

  /** An own pending order with items is cancelled exactly when every product has
      room; otherwise the smallest product without it decides the refusal. */
  lemma CancelDecided(db: Db, user: UserId, o: OrderId)
    requires o in db.orders && db.orders[o].user == user && db.orders[o].status == Pending
    requires o in db.items && db.items[o] != []
    ensures Cancel(db, user, o).Done?
       <==> forall p :: p in Products(Stored(db.items[o])) ==> HasRoom(db, Stored(db.items[o]), p)
  {
    hide Total;
    hide Products;
    hide Stored;
    var es := Stored(db.items[o]);
    if p :| p in Products(es) && !HasRoom(db, es, p) {
      SomeRefused(db, es, p);
    } else {
      AllRoom(db, es);
    }
  }

  lemma SomeRefused(db: Db, es: seq<Entry>, p: ProductId)
    requires p in Products(es) && !HasRoom(db, es, p)
    ensures FirstError(RestockChecks(db, es)).Some?
  {
    hide Total;
    hide Products;
    var m := FirstErrorMeans(RestockChecks(db, es));
    var n := PlaceInOrder(es, p);
    assert RestockChecks(db, es)[n] == RestockCheck(db, es, p);
  }

  lemma AllRoom(db: Db, es: seq<Entry>)
    requires forall p :: p in Products(es) ==> HasRoom(db, es, p)
    ensures FirstError(RestockChecks(db, es)).None?
  {
    hide Total;
    hide Products;
    var ids := LockOrder(es);
    forall i | 0 <= i < |ids| ensures RestockChecks(db, es)[i].None? {
      assert ids[i] in Products(es);
      assert RestockChecks(db, es)[i] == RestockCheck(db, es, ids[i]);
    }
    FirstErrorIs(RestockChecks(db, es), |ids|);
  }

  lemma CancelRefusedForProduct(db: Db, user: UserId, o: OrderId, p: ProductId)
    requires o in db.orders && db.orders[o].user == user && db.orders[o].status == Pending
    requires o in db.items && p in Products(Stored(db.items[o])) && !HasRoom(db, Stored(db.items[o]), p)
    requires forall q :: q in Products(Stored(db.items[o])) && q < p ==> HasRoom(db, Stored(db.items[o]), q)
    ensures Cancel(db, user, o) == Fail(if p in db.products then OutOfRange else ProductNotFound)
  {
    hide Total;
    var es := Stored(db.items[o]);
    var n := PlaceInOrder(es, p);
    assert es != [] by { var e :| e in es && e.product == p; }
    hide Products;
    hide LockOrder;
    forall i | 0 <= i < n ensures RestockChecks(db, es)[i].None? {
      assert RestockChecks(db, es)[i] == RestockCheck(db, es, LockOrder(es)[i]);
    }
    FirstErrorIs(RestockChecks(db, es), n);
  }

  /** A cancelled order keeps everything but its status; its stored quantities are
      back in stock; and the caller is shown the row as it is now. */
  lemma CancelAnswer(db: Db, user: UserId, o: OrderId)
    requires Cancel(db, user, o).Done?
    ensures var r := Cancel(db, user, o);
      && o in db.orders && db.orders[o].user == user && db.orders[o].status == Pending
      && o in r.db.orders && r.reply == CancelReply(r.db.orders[o])
      && r.db.orders == db.orders[o := Order(user, Cancelled, db.orders[o].total)]
      && r.db.items == db.items && r.db.payments == db.payments
      && o in db.items
    ensures forall p :: p in db.products ==>
      p in Cancel(db, user, o).db.products
      && Cancel(db, user, o).db.products[p]
         == Product(db.products[p].price, db.products[p].stock + Total(Stored(db.items[o]), p))
  {
    hide Restocked;
    hide Total;
    hide RestockChecks;
    hide FirstError;
    CancelEffect(db, user, o);
    forall p | p in db.products
      ensures p in Cancel(db, user, o).db.products
      ensures Cancel(db, user, o).db.products[p]
           == Product(db.products[p].price, db.products[p].stock + Total(Stored(db.items[o]), p))
    {
      StockAfterRestock(db, Stored(db.items[o]), p);
    }
  }

  // ---- Paying ----

  /** Which refusal a payment gets; whatever is not refused is done. */
  lemma PayTable(db: Db, user: UserId, o: OrderId, charged: bool, transaction: TransactionId)
    ensures var mine := o in db.orders && db.orders[o].user == user;
      var r := Pay(db, user, o, charged, transaction);
      if !mine then r == Fail(OrderNotFound)
      else if o !in db.payments then r == Fail(PaymentNotFound)
      else if db.orders[o].status == Cancelled then r == Fail(OrderNotPayable)
      else r.Done?
  {
  }

  /** A payment that is not refused charges exactly a pending order whose payment has
      not succeeded, writes the provider's answer, and marks the order paid exactly
      when the charge went through; the caller is shown the rows as they are now. */
  lemma PayAnswer(db: Db, user: UserId, o: OrderId, charged: bool, transaction: TransactionId)
    requires Pay(db, user, o, charged, transaction).Done?
    ensures var r := Pay(db, user, o, charged, transaction);
      && o in db.orders && db.orders[o].user == user && o in db.payments && db.orders[o].status != Cancelled
      && o in r.db.orders && o in r.db.payments
      && r.reply == PayReply(r.db.payments[o], r.db.orders[o])
      && r.db.products == db.products && r.db.items == db.items
      && (if db.orders[o].status == Pending && db.payments[o].status != Success then
            && r.db.payments == db.payments[o := Payment(db.payments[o].amount, if charged then Success else Failed,
                                                        Some(transaction))]
            && r.db.orders == db.orders[o := Order(user, if charged then Paid else Pending, db.orders[o].total)]
          else r.db == db)
  {
    PayEffect(db, user, o, charged, transaction);
  }

  /** Nobody can pay for, or cancel, somebody else's order. */
  lemma StrangersAreRefused(db: Db, user: UserId, o: OrderId, charged: bool, transaction: TransactionId)
    requires o in db.orders ==> db.orders[o].user != user
    ensures Cancel(db, user, o) == Fail(OrderNotFound)
    ensures Pay(db, user, o, charged, transaction) == Fail(OrderNotFound)
  {
  }

  // ---- The catalogue ----

  /** Only the product's own row changes. */
  ghost predicate OnlyProduct(db: Db, db': Db, p: ProductId) {
    && db'.products - {p} == db.products - {p}
    && db'.orders == db.orders && db'.items == db.items && db'.payments == db.payments
  }

  lemma CreateTable(db: Db, p: ProductId, price: int, stock: int)
    ensures var r := CreateProduct(db, p, price, stock);
      && (r.Done? <==> 0 <= price && 0 <= Wrap32(stock) && p !in db.products)
      && (r == Fail(CheckViolation) <==> price < 0 || Wrap32(stock) < 0)
      && (r == Fail(DuplicateKey) <==> 0 <= price && 0 <= Wrap32(stock) && p in db.products)
      && (r.Done? ==> OnlyProduct(db, r.db, p) && p in r.db.products
                      && r.db.products[p].price == price && r.db.products[p].stock == Wrap32(stock))
  {
  }

  /** A patch sets what it names and keeps the rest; a negative value is refused. */
  lemma PatchTable(db: Db, p: ProductId, price: Option<int>, stock: Option<int>)
    requires p in db.products ==> ProductOk(db.products[p])
    ensures var r := PatchProduct(db, p, price, stock);
      && (r == Fail(ProductNotFound) <==> p !in db.products)
      && (r.Done? <==> p in db.products && (price.Some? ==> 0 <= price.value)
                       && (stock.Some? ==> 0 <= Wrap32(stock.value)))
      && (p in db.products ==> r.Done? || r == Fail(CheckViolation))
      && (r.Done? ==> OnlyProduct(db, r.db, p) && p in r.db.products
                      && (price.Some? ==> r.db.products[p].price == price.value)
                      && (price.None? ==> r.db.products[p].price == db.products[p].price)
                      && (stock.Some? ==> r.db.products[p].stock == Wrap32(stock.value))
                      && (stock.None? ==> r.db.products[p].stock == db.products[p].stock))
  {
  }

  /** A product that some item row names cannot be deleted. */
  lemma DeleteTable(db: Db, p: ProductId)
    ensures var named := exists o, i :: o in db.items && 0 <= i < |db.items[o]| && db.items[o][i].product == p;
      var r := DeleteProduct(db, p);
      && (r == Fail(ProductNotFound) <==> p !in db.products)
      && (r == Fail(ForeignKeyViolation) <==> p in db.products && named)
      && (r.Done? <==> p in db.products && !named)
      && (r.Done? ==> OnlyProduct(db, r.db, p) && p !in r.db.products)
  {
    forall o | o in db.items
      ensures p in Products(Stored(db.items[o])) <==> exists i :: 0 <= i < |db.items[o]| && db.items[o][i].product == p
    {
      NamedIn(db.items[o], p);
    }
    assert Referenced(db, p) <==> exists o :: o in db.items && p in Products(Stored(db.items[o]));
  }

  lemma NamedIn(items: seq<Item>, p: ProductId)
    ensures p in Products(Stored(items)) <==> exists i :: 0 <= i < |items| && items[i].product == p
  {
    if p in Products(Stored(items)) {
      var e :| e in Stored(items) && e.product == p;
      var i :| 0 <= i < |items| && Stored(items)[i] == e;
    }
    if i :| 0 <= i < |items| && items[i].product == p {
      assert Stored(items)[i] in Stored(items);
    }
  }
}
