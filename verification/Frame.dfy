/** What a transaction knows rests only on the rows it holds: it survives any
    change that other transactions make to other rows. */
module Frame {
  import opened Ints
  import opened Tally
  import opened Ordering
  import opened Schema
  import opened Atomic
  import opened Placement
  import opened Progress
  import opened Runs
  import opened Machine

  ghost predicate SameProduct(db: Db, db': Db, p: ProductId) {
    && (p in db.products <==> p in db'.products)
    && (p in db.products ==> db'.products[p] == db.products[p])
  }

  ghost predicate SameOrderRow(db: Db, db': Db, o: OrderId) {
    && (o in db.orders <==> o in db'.orders)
    && (o in db.orders ==> db'.orders[o] == db.orders[o])
    && (o in db.items <==> o in db'.items)
    && (o in db.items ==> db'.items[o] == db.items[o])
  }

  ghost predicate SamePayment(db: Db, db': Db, o: OrderId) {
    && (o in db.payments <==> o in db'.payments)
    && (o in db.payments ==> db'.payments[o] == db.payments[o])
  }

  ghost predicate SameRow(db: Db, db': Db, r: Row) {
    match r
    case ProductRow(p) => SameProduct(db, db', p)
    case OrderRow(o) => SameOrderRow(db, db', o)
    case PaymentRow(o) => SamePayment(db, db', o)
  }

  /** The two databases agree on a set of rows. */
  ghost predicate Agree(db: Db, db': Db, rows: set<Row>) {
    forall r :: r in rows ==> SameRow(db, db', r)
  }

  ghost predicate AgreeOnProducts(db: Db, db': Db, s: set<ProductId>) {
    forall p :: p in s ==> SameProduct(db, db', p)
  }

  lemma ProductsAgree(db: Db, db': Db, rows: set<Row>, ids: seq<ProductId>)
    requires Agree(db, db', rows) && ProductRows(ids) <= rows
    ensures forall p :: p in ids ==> SameProduct(db, db', p)
  {
    forall p | p in ids ensures SameProduct(db, db', p) {
      assert ProductRow(p) in ProductRows(ids);
      assert SameRow(db, db', ProductRow(p));
    }
  }

  // ---- Placing ----

  lemma PricedAgrees(db: Db, db': Db, lines: seq<Entry>, ids: seq<ProductId>, i: nat,
                     prices: map<ProductId, int>, total: int)
    requires Priced(db, lines, ids, i, prices, total)
    requires forall p :: p in ids[..i] ==> SameProduct(db, db', p)
    ensures Priced(db', lines, ids, i, prices, total)
  {
    hide RequestedQuantity;
    hide GroupedTotal;
    forall k | 0 <= k < i
      ensures LockCheck(db', lines, ids[k]).None? && prices[ids[k]] == db'.products[ids[k]].price
    {
      assert ids[..i][k] == ids[k];
    }
  }

  lemma PricesAgree(db: Db, db': Db, lines: seq<Entry>)
    requires AgreeOnProducts(db, db', Products(lines))
    ensures PricesOf(db, lines) == PricesOf(db', lines)
  {
  }

  lemma SoldAgrees(db: Db, db': Db, es: seq<Entry>)
    requires AgreeOnProducts(db, db', Products(es))
    ensures Sold(db, es) == Sold(db', es)
  {
  }

  lemma RestockedAgrees(db: Db, db': Db, es: seq<Entry>)
    requires AgreeOnProducts(db, db', Products(es))
    ensures Restocked(db, es) == Restocked(db', es)
  {
  }

  lemma LockChecksAgree(db: Db, db': Db, lines: seq<Entry>)
    requires AgreeOnProducts(db, db', Products(lines))
    ensures LockChecks(db, lines) == LockChecks(db', lines)
  {
    forall i | 0 <= i < |LockOrder(lines)| ensures LockChecks(db, lines)[i] == LockChecks(db', lines)[i] {
      assert SameProduct(db, db', LockOrder(lines)[i]);
    }
  }

  lemma LineCheckAgrees(db: Db, db': Db, lines: seq<Entry>, j: nat)
    requires j < |lines| && Products(lines) <= db.products.Keys && Products(lines) <= db'.products.Keys
    requires AgreeOnProducts(db, db', Products(lines))
    ensures LineCheck(db, lines, j) == LineCheck(db', lines, j)
  {
    ProductAt(lines, j);
    assert SameProduct(db, db', lines[j].product);
  }

  lemma PrefixProducts(es: seq<Entry>, k: nat)
    requires k <= |es|
    ensures Products(es[..k]) <= Products(es)
  {
    forall p | p in Products(es[..k]) ensures p in Products(es) {
      var e :| e in es[..k] && e.product == p;
      assert e in es;
    }
  }

  lemma HeldProducts(db: Db, db': Db, lines: seq<Entry>, rows: set<Row>)
    requires Agree(db, db', rows) && ProductRows(LockOrder(lines)) <= rows
    ensures AgreeOnProducts(db, db', Products(lines))
  {
    ProductsAgree(db, db', rows, LockOrder(lines));
    assert forall p :: p in Products(lines) ==> p in LockOrder(lines);
  }

  lemma SellingAgrees(db: Db, db': Db, o: OrderId, user: UserId, lines: seq<Entry>, total: int,
                      j: nat, k: nat, l: Local)
    requires Selling(db, o, user, lines, total, j, k, l)
    requires Agree(db, db', l.held) && Fresh(db', o)
    ensures Selling(db', o, user, lines, total, j, k, l)
    ensures AgreeOnProducts(db, db', Products(lines))
    ensures PricesOf(db, lines) == PricesOf(db', lines)
    ensures Products(lines) <= db.products.Keys && Products(lines) <= db'.products.Keys
  {
    hide LockOrder;
    hide ProductRows;
    hide FirstError;
    hide LockChecks;
    hide Sold;
    hide PricesOf;
    hide Narrow;
    hide LineCheck;
    HeldProducts(db, db', lines, l.held);
    assert Products(lines) <= db'.products.Keys by {
      forall p | p in Products(lines) ensures p in db'.products { assert SameProduct(db, db', p); }
    }
    LockChecksAgree(db, db', lines);
    PricesAgree(db, db', lines);
    forall i | 0 <= i < k ensures LineCheck(db', lines, i).None? { LineCheckAgrees(db, db', lines, i); }
    NarrowProducts(lines);
    PrefixProducts(Narrow(lines), k);
    SoldAgrees(db, db', Narrow(lines)[..k]);
  }

  lemma VerdictAgrees(db: Db, db': Db, o: OrderId, lines: seq<Entry>)
    requires PlaceVerdict(db, o, lines).None?
    requires AgreeOnProducts(db, db', Products(lines)) && Fresh(db', o)
    ensures PlaceVerdict(db', o, lines).None?
    ensures OrderTotal(db, lines) == OrderTotal(db', lines)
    ensures forall user :: PlaceWrites(db, o, user, lines, OrderTotal(db, lines))
                        == PlaceWrites(db', o, user, lines, OrderTotal(db', lines))
  {
    hide LockOrder;
    hide FirstError;
    hide LockChecks;
    hide Sold;
    hide PricesOf;
    hide Narrow;
    hide LineCheck;
    assert Products(lines) <= db'.products.Keys by {
      forall p | p in Products(lines) ensures p in db'.products { assert SameProduct(db, db', p); }
    }
    LockChecksAgree(db, db', lines);
    PricesAgree(db, db', lines);
    forall i | 0 <= i < |lines| ensures LineChecks(db, lines)[i] == LineChecks(db', lines)[i] {
      LineCheckAgrees(db, db', lines, i);
    }
    assert LineChecks(db, lines) == LineChecks(db', lines);
    NarrowProducts(lines);
    SoldAgrees(db, db', Narrow(lines));
  }

  lemma PlaceFrame(o: OrderId, user: UserId, lines: seq<Entry>, db: Db, db': Db, l: Local)
    requires PlaceMatches(o, user, lines, db, l)
    requires Agree(db, db', l.held) && Fresh(db', o)
    ensures PlaceMatches(o, user, lines, db', l)
  {
    hide LockOrder;
    hide Priced;
    hide Selling;
    hide PlaceVerdict;
    hide ProductRows;
    hide PlaceWrites;
    hide LineWellFormed;
    hide PricesOf;
    var ids := LockOrder(lines);
    match l.pc
    case LockProduct(i, prices, total) =>
      ProductsAgree(db, db', l.held, ids[..i]);
      PricedAgrees(db, db', lines, ids, i, prices, total);
    case InsertOrder(prices, total) =>
      ProductsAgree(db, db', l.held, ids);
      assert ids[..|ids|] == ids;
      PricedAgrees(db, db', lines, ids, |ids|, prices, total);
    case InsertItem(j, prices, total) => SellingAgrees(db, db', o, user, lines, total, j, j, l);
    case DecreaseStock(j, prices, total) =>
      SellingAgrees(db, db', o, user, lines, total, j + 1, j, l);
      ProductAt(lines, j);
      assert SameProduct(db, db', lines[j].product);
    case InsertPayment(total) => SellingAgrees(db, db', o, user, lines, total, |lines|, |lines|, l);
    case AtCommit =>
      HeldProducts(db, db', lines, l.held);
      VerdictAgrees(db, db', o, lines);
  }

  // ---- Cancelling ----

  lemma EntriesAgree(db: Db, db': Db, rows: set<Row>, es: seq<Entry>)
    requires Agree(db, db', rows) && EntryRows(es) <= rows
    ensures AgreeOnProducts(db, db', Products(es))
  {
    forall p | p in Products(es) ensures SameProduct(db, db', p) {
      var e :| e in es && e.product == p;
      assert ProductRow(p) in EntryRows(es);
      assert SameRow(db, db', ProductRow(p));
    }
  }

  lemma RestockLineAgrees(db: Db, db': Db, es: seq<Entry>, j: nat)
    requires j < |es| && SameProduct(db, db', es[j].product)
    ensures RestockLine(db, es, j) == RestockLine(db', es, j)
  {
  }

  lemma RestockingAgrees(db: Db, db': Db, user: UserId, o: OrderId, items: seq<Item>, j: nat, l: Local)
    requires Restocking(db, user, o, items, j, l)
    requires Agree(db, db', l.held)
    requires OrderRow(o) in l.held && EntryRows(Stored(items)[..j]) <= l.held
    ensures Restocking(db', user, o, items, j, l)
  {
    hide SortItems;
    hide Restocked;
    hide EntryRows;
    hide RestockLine;
    var es := Stored(items);
    assert SameRow(db, db', OrderRow(o));
    EntriesAgree(db, db', l.held, es[..j]);
    RestockedAgrees(db, db', es[..j]);
    forall k | 0 <= k < j ensures RestockLine(db', es, k).None? {
      ProductAt(es[..j], k);
      assert es[..j][k] == es[k];
      RestockLineAgrees(db, db', es, k);
    }
  }

  lemma CancelVerdictAgrees(db: Db, db': Db, user: UserId, o: OrderId)
    requires SameOrderRow(db, db', o)
    requires AgreeOnProducts(db, db', Products(Stored(ItemsOf(db, o))))
    ensures CancelVerdict(db, user, o) == CancelVerdict(db', user, o)
    ensures o in db.orders ==> CancelWrites(db, o) == CancelWrites(db', o)
  {
    hide Restocked;
    hide FirstError;
    var es := Stored(ItemsOf(db, o));
    RestockedAgrees(db, db', es);
    forall i | 0 <= i < |LockOrder(es)| ensures RestockChecks(db, es)[i] == RestockChecks(db', es)[i] {
      assert SameProduct(db, db', LockOrder(es)[i]);
    }
    assert RestockChecks(db, es) == RestockChecks(db', es);
  }

  lemma CancelFrame(user: UserId, o: OrderId, db: Db, db': Db, l: Local)
    requires CancelMatches(user, o, db, l)
    requires Agree(db, db', l.held)
    ensures CancelMatches(user, o, db', l)
  {
    hide SortItems;
    hide Restocking;
    hide EntryRows;
    hide CancelVerdict;
    hide CancelWrites;
    if l.pc != LockOrderRow {
      assert SameRow(db, db', OrderRow(o));
    }
    match l.pc
    case LockOrderRow =>
    case ReadItems =>
    case LockItemProduct(j, items) => RestockingAgrees(db, db', user, o, items, j, l);
    case IncreaseStock(j, items) =>
      MoreHeld(items, j);
      assert SameRow(db, db', ProductRow(items[j].product));
      RestockingAgrees(db, db', user, o, items, j, l);
    case MarkCancelled =>
      var items := SortItems(ItemsOf(db, o));
      assert Stored(items)[..|items|] == Stored(items);
      RestockingAgrees(db, db', user, o, items, |items|, l);
    case AtCommit =>
      var items := SortItems(ItemsOf(db, o));
      EntriesAgree(db, db', l.held, Stored(items));
      SortItemsSorts(ItemsOf(db, o));
      StoredPermuted(items, ItemsOf(db, o));
      ProductsPermuted(Stored(items), Stored(ItemsOf(db, o)));
      CancelVerdictAgrees(db, db', user, o);
  }

  lemma MoreHeld(items: seq<Item>, j: nat)
    requires j < |items|
    ensures EntryRows(Stored(items)[..j]) <= EntryRows(Stored(items)[..j + 1])
    ensures ProductRow(items[j].product) in EntryRows(Stored(items)[..j + 1])
  {
    var es := Stored(items);
    assert es[..j + 1] == es[..j] + [es[j]];
    assert es[j] in es[..j + 1];
  }

  // ---- Any transaction ----

  lemma PayFrame(user: UserId, o: OrderId, charged: bool, transaction: TransactionId, db: Db, db': Db, l: Local)
    requires PayMatches(user, o, charged, transaction, db, l)
    requires Agree(db, db', l.held)
    ensures PayMatches(user, o, charged, transaction, db', l)
  {
    if l.pc != LockOrderToPay {
      assert SameRow(db, db', OrderRow(o));
    }
    if PaymentRow(o) in l.held {
      assert SameRow(db, db', PaymentRow(o));
    }
  }

  /** A transaction's knowledge survives any change outside the rows it holds,
      as long as nobody creates the order whose id it is about to use. */
  lemma MatchesFrame(req: Event, db: Db, db': Db, l: Local)
    requires IsTransaction(req) && Matches(req, db, l) && l.Active?
    requires Agree(db, db', l.held)
    requires req.PlaceEvent? ==> Fresh(db', req.order)
    ensures Matches(req, db', l)
  {
    hide PlaceMatches;
    hide CancelMatches;
    hide PayMatches;
    match req
    case PlaceEvent(o, user, lines) => PlaceFrame(o, user, lines, db, db', l);
    case CancelEvent(user, o) => CancelFrame(user, o, db, db', l);
    case PayEvent(user, o, charged, transaction) => PayFrame(user, o, charged, transaction, db, db', l);
  }
}
