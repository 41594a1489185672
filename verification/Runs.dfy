/** What every history of committed events keeps. */
module Runs {
  import opened Ints
  import opened Tally
  import opened Ordering
  import opened Schema
  import opened Atomic
  import opened Placement
  import opened Sums

  // ---- The invariant ----

  ghost predicate ProductOk(row: Product) {
    0 <= row.price && 0 <= row.stock <= MAX_INT32
  }

  ghost predicate ItemOk(db: Db, item: Item) {
    && item.product in db.products
    && 1 <= item.quantity <= MAX_INT32
    && 0 <= item.price && 0 <= item.subtotal
  }

  /** All lines of one product carry one price. */
  ghost predicate OnePrice(items: seq<Item>) {
    forall i, j :: 0 <= i < |items| && 0 <= j < |items| && items[i].product == items[j].product
      ==> items[i].price == items[j].price
  }

  ghost predicate ItemsOk(db: Db, items: seq<Item>) {
    items != [] && OnePrice(items) && forall i :: 0 <= i < |items| ==> ItemOk(db, items[i])
  }

  /** The order's total, its items and its payment agree, and it is paid exactly
      when its payment succeeded. */
  ghost predicate Agrees(order: Order, items: seq<Item>, payment: Payment) {
    && 0 <= order.total == Wrap64(SumSubtotals(items)) == payment.amount
    && (order.status == Paid <==> payment.status == Success)
    && (payment.status == Awaiting <==> payment.transaction.None?)
  }

  ghost predicate OrderOk(db: Db, o: OrderId) {
    && o in db.orders && o in db.items && o in db.payments
    && ItemsOk(db, db.items[o])
    && Agrees(db.orders[o], db.items[o], db.payments[o])
  }

  ghost predicate Inv(db: Db) {
    && (forall p :: p in db.products ==> ProductOk(db.products[p]))
    && db.orders.Keys == db.items.Keys == db.payments.Keys
    && (forall o :: o in db.orders ==> OrderOk(db, o))
  }

  /** The handler turns away orders without lines before they reach the service. */
  predicate Admissible(e: Event) {
    e.PlaceEvent? ==> e.lines != []
  }

  ghost predicate AllAdmissible(es: seq<Event>) {
    forall i :: 0 <= i < |es| ==> Admissible(es[i])
  }

  lemma MadeItemOk(db: Db, lines: seq<Entry>, j: nat)
    requires Products(lines) <= db.products.Keys && j < |lines|
    requires LinesWellFormed(db, lines)
    ensures var items, line := MakeItems(PricesOf(db, lines), lines), lines[j];
      && line.product in db.products
      && items[j].product == line.product && items[j].price == db.products[line.product].price
      && ItemOk(db, items[j]) && 0 < Narrow(lines)[j].amount
  {
    assert lines[j] in lines;
    assert LineWellFormed(db.products[lines[j].product].price, lines[j]);
  }

  lemma PlacedItemsOk(db: Db, o: OrderId, lines: seq<Entry>)
    requires PlaceVerdict(db, o, lines).None? && lines != []
    ensures ItemsOk(db, MakeItems(PricesOf(db, lines), lines))
    ensures AllPositive(Narrow(lines))
  {
    hide MakeItems;
    hide PricesOf;
    hide Narrow;
    hide ItemOk;
    hide LockChecks;
    hide LineChecks;
    hide LinesWellFormed;
    hide OrderTotal;
    hide Total;
    hide Products;
    LinesAcceptedIff(db, lines);
    PricesOfAll(db, lines);
    forall j | 0 <= j < |lines|
      ensures lines[j].product in db.products && 0 < Narrow(lines)[j].amount
      ensures var item := MakeItems(PricesOf(db, lines), lines)[j];
        item.product == lines[j].product && item.price == db.products[lines[j].product].price && ItemOk(db, item)
    {
      MadeItemOk(db, lines, j);
    }
  }

  lemma StockStaysOk(db: Db, o: OrderId, lines: seq<Entry>)
    requires Inv(db) && PlaceVerdict(db, o, lines).None? && lines != []
    ensures forall p :: p in db.products ==> ProductOk((db.products + Sold(db, Narrow(lines)))[p])
  {
    hide Products;
    hide Total;
    hide Sold;
    hide LinesWellFormed;
    hide OrderOk;
    hide ItemsOk;
    hide LockChecks;
    hide LineChecks;
    hide OrderTotal;
    PlacedItemsOk(db, o, lines);
    LinesAcceptedIff(db, lines);
    NarrowProducts(lines);
    forall p | p in db.products ensures ProductOk((db.products + Sold(db, Narrow(lines)))[p]) {
      StockAfterSale(db, Narrow(lines), p);
      TotalNonNegative(Narrow(lines), p);
      if p !in Products(lines) { TotalAbsent(Narrow(lines), p); }
    }
  }

  lemma AddOrderKeepsInv(db: Db, db': Db, o: OrderId, es: seq<Entry>, order: Order, items: seq<Item>, payment: Payment)
    requires Inv(db)
    requires db'.products == db.products + Sold(db, es)
    requires forall p :: p in db.products ==> ProductOk((db.products + Sold(db, es))[p])
    requires db'.products.Keys == db.products.Keys
    requires db'.orders == db.orders[o := order]
    requires db'.items == db.items[o := items]
    requires db'.payments == db.payments[o := payment]
    requires ItemsOk(db, items) && Agrees(order, items, payment)
    ensures Inv(db')
  {
    forall x | x in db'.orders ensures OrderOk(db', x) {
      if x != o { assert OrderOk(db, x); }
    }
  }

  lemma PlaceKeepsInv(db: Db, o: OrderId, user: UserId, lines: seq<Entry>)
    requires Inv(db) && lines != []
    ensures Inv(After(db, PlaceEvent(o, user, lines)))
  {
    if PlaceVerdict(db, o, lines).None? {
      PlaceEffect(db, o, user, lines);
      PlacedItemsOk(db, o, lines);
      StockStaysOk(db, o, lines);
      TotalIsItemised(db, lines);
      var total := OrderTotal(db, lines);
      AddOrderKeepsInv(db, Place(db, o, user, lines).db, o, Narrow(lines),
                       Order(user, Pending, total), MakeItems(PricesOf(db, lines), lines),
                       Payment(total, Awaiting, None));
    }
  }

  lemma StoredPositive(db: Db, o: OrderId)
    requires Inv(db) && o in db.orders
    ensures AllPositive(Stored(db.items[o]))
    ensures Products(Stored(db.items[o])) <= db.products.Keys
  {
    assert OrderOk(db, o);
    var items := db.items[o];
    assert forall i :: 0 <= i < |items| ==> ItemOk(db, items[i]);
    forall p | p in Products(Stored(items)) ensures p in db.products {
      var e :| e in Stored(items) && e.product == p;
      var i :| 0 <= i < |items| && Stored(items)[i] == e;
      assert ItemOk(db, items[i]);
    }
  }

  /** In a consistent database a cancellation of one's own pending order is
      refused only if some product's stock would leave 32 bits. */
  lemma CancelOutcome(db: Db, user: UserId, o: OrderId)
    requires Inv(db) && Owns(db, user, o) && db.orders[o].status == Pending
    ensures CancelVerdict(db, user, o) in {None, Some(OutOfRange)}
    ensures CancelVerdict(db, user, o).None? <==>
      forall p :: p in Products(Stored(db.items[o]))
        ==> db.products[p].stock + Total(Stored(db.items[o]), p) <= MAX_INT32
  {
    StoredPositive(db, o);
    assert OrderOk(db, o);
    var es := Stored(db.items[o]);
    var ids := LockOrder(es);
    var n := FirstErrorMeans(RestockChecks(db, es));
    forall i | 0 <= i < |ids|
      ensures ids[i] in Products(es) && RestockChecks(db, es)[i] in {None, Some(OutOfRange)}
    {
    }
    if n == |ids| {
      forall p | p in Products(es) ensures db.products[p].stock + Total(es, p) <= MAX_INT32 {
        assert p in ids;
        var i :| 0 <= i < |ids| && ids[i] == p;
        assert RestockChecks(db, es)[i].None?;
      }
    } else {
      assert ids[n] in Products(es);
      assert RestockChecks(db, es)[n] == RestockCheck(db, es, ids[n]);
    }
  }

  lemma CancelKeepsInv(db: Db, user: UserId, o: OrderId)
    requires Inv(db)
    ensures Inv(After(db, CancelEvent(user, o)))
  {
    hide Restocked;
    hide RestockChecks;
    hide ItemsOk;
    hide ProductOk;
    hide SumSubtotals;
    if Cancel(db, user, o).Done? {
      var db' := Cancel(db, user, o).db;
      CancelEffect(db, user, o);
      RestockedOk(db, user, o);
      forall x | x in db'.orders ensures OrderOk(db', x) {
        assert OrderOk(db, x);
        ItemsFrame(db, db', db.items[x]);
      }
    }
  }

  lemma ItemsFrame(db: Db, db': Db, items: seq<Item>)
    requires ItemsOk(db, items) && db'.products.Keys == db.products.Keys
    ensures ItemsOk(db', items)
  {
    forall i | 0 <= i < |items| ensures ItemOk(db', items[i]) { assert ItemOk(db, items[i]); }
  }

  lemma RestockedOk(db: Db, user: UserId, o: OrderId)
    requires Inv(db) && Cancel(db, user, o).Done?
    ensures forall p :: p in Cancel(db, user, o).db.products ==> ProductOk(Cancel(db, user, o).db.products[p])
  {
    hide Total;
    hide Products;
    hide Restocked;
    hide FirstError;
    hide RestockChecks;
    hide ItemsOk;
    hide Agrees;
    var db', es := Cancel(db, user, o).db, Stored(ItemsOf(db, o));
    CancelEffect(db, user, o);
    CancelOutcome(db, user, o);
    assert OrderOk(db, o);
    StoredPositive(db, o);
    forall p | p in db'.products ensures ProductOk(db'.products[p]) {
      StockAfterRestock(db, es, p);
      TotalNonNegative(es, p);
      if p !in Products(es) { TotalAbsent(es, p); }
    }
  }

  /** A charge rewrites the payment row and, if it succeeded, the order's status. */
  lemma PayEffect(db: Db, user: UserId, o: OrderId, charged: bool, transaction: TransactionId)
    requires Pay(db, user, o, charged, transaction).Done?
    ensures o in db.orders && o in db.payments
    ensures var db' := Pay(db, user, o, charged, transaction).db;
      && db'.products == db.products && db'.items == db.items
      && (if db.orders[o].status == Pending && db.payments[o].status != Success
          then db'.payments == db.payments[o := db.payments[o].(status := if charged then Success else Failed,
                                                               transaction := Some(transaction))]
            && db'.orders == if charged then db.orders[o := db.orders[o].(status := Paid)] else db.orders
          else db' == db)
  {
    if db.orders[o].status == Pending && db.payments[o].status != Success {
      var w := PayWrites(db, o, charged, transaction);
      AddRow(db.payments, o, w.payments[o]);
      if charged { AddRow(db.orders, o, w.orders[o]); }
    }
  }

  lemma PayKeepsInv(db: Db, user: UserId, o: OrderId, charged: bool, transaction: TransactionId)
    requires Inv(db)
    ensures Inv(After(db, PayEvent(user, o, charged, transaction)))
  {
    if Pay(db, user, o, charged, transaction).Done? {
      var db' := Pay(db, user, o, charged, transaction).db;
      PayEffect(db, user, o, charged, transaction);
      forall x | x in db'.orders ensures OrderOk(db', x) {
        assert OrderOk(db, x);
      }
    }
  }

  lemma CatalogueKeepsInv(db: Db, e: Event)
    requires Inv(db) && (e.CreateEvent? || e.PatchEvent? || e.DeleteEvent?)
    ensures Inv(After(db, e))
  {
    var db' := After(db, e);
    forall x | x in db'.orders ensures OrderOk(db', x) {
      assert OrderOk(db, x);
      var items := db.items[x];
      forall i | 0 <= i < |items| ensures ItemOk(db', items[i]) {
        assert ItemOk(db, items[i]);
        if e.DeleteEvent? && Execute(db, e).Done? {
          assert Stored(items)[i] in Stored(items);
          assert items[i].product in Products(Stored(items));
        }
      }
    }
  }

  lemma EventKeepsInv(db: Db, e: Event)
    requires Inv(db) && Admissible(e)
    ensures Inv(After(db, e))
  {
    match e
    case PlaceEvent(o, user, lines) => PlaceKeepsInv(db, o, user, lines);
    case CancelEvent(user, o) => CancelKeepsInv(db, user, o);
    case PayEvent(user, o, charged, transaction) => PayKeepsInv(db, user, o, charged, transaction);
    case _ => CatalogueKeepsInv(db, e);
  }

  /** In every database that any history of events reaches, every order has its
      items and exactly one payment, which agree; it is paid exactly when its
      payment succeeded; and no stock is negative. */
  lemma {:induction false} RunKeepsInv(db: Db, es: seq<Event>)
    requires Inv(db) && AllAdmissible(es)
    ensures Inv(Run(db, es))
  {
    if es != [] {
      RunKeepsInv(db, es[..|es| - 1]);
      EventKeepsInv(Run(db, es[..|es| - 1]), es[|es| - 1]);
    }
  }

  // ---- Conservation of stock ----

  function Stock(db: Db, p: ProductId): int {
    if p in db.products then db.products[p].stock else 0
  }

  /** Units of a product that an order holds. */
  function Owed(db: Db, o: OrderId, p: ProductId): int {
    if o in db.orders && db.orders[o].status != Cancelled then Total(Stored(ItemsOf(db, o)), p) else 0
  }

  function OwedMap(db: Db, p: ProductId): map<OrderId, int> {
    map o | o in db.orders :: Owed(db, o, p)
  }

  /** Units of a product held by all orders that are not cancelled. */
  ghost function Outstanding(db: Db, p: ProductId): int {
    MapSum(OwedMap(db, p))
  }

  /** Units that a catalogue event puts on the shelf (or, negative, takes off). */
  function Supply(db: Db, e: Event, p: ProductId): int {
    match e
    case CreateEvent(q, _, stock) => if q == p && Execute(db, e).Done? then Wrap32(stock) else 0
    case PatchEvent(q, _, stock) =>
      if q == p && Execute(db, e).Done? && stock.Some? then Wrap32(stock.value) - db.products[p].stock else 0
    case DeleteEvent(q) => if q == p && Execute(db, e).Done? then -db.products[p].stock else 0
    case _ => 0
  }

  function Supplied(db: Db, es: seq<Event>, p: ProductId): int {
    if es == [] then 0
    else
      var front := es[..|es| - 1];
      Supplied(db, front, p) + Supply(Run(db, front), es[|es| - 1], p)
  }

  lemma AddOrderConserves(db: Db, db': Db, o: OrderId, es: seq<Entry>, p: ProductId)
    requires o !in db.orders && Products(es) <= db.products.Keys
    requires db'.products == db.products + Sold(db, es)
    requires o in db'.orders && db'.orders == db.orders[o := db'.orders[o]]
    requires o in db'.items && db'.items == db.items[o := db'.items[o]]
    requires db'.orders[o].status == Pending && Stored(db'.items[o]) == es
    ensures Stock(db', p) + Outstanding(db', p) == Stock(db, p) + Outstanding(db, p)
  {
    if p in db.products { StockAfterSale(db, es, p); } else { TotalAbsent(es, p); }
    assert OwedMap(db', p) == OwedMap(db, p)[o := Total(es, p)];
    SumAdd(OwedMap(db, p), o, Total(es, p));
  }

  lemma PlaceConserves(db: Db, o: OrderId, user: UserId, lines: seq<Entry>, p: ProductId)
    requires Place(db, o, user, lines).Done?
    ensures var db' := Place(db, o, user, lines).db;
      Stock(db', p) + Outstanding(db', p) == Stock(db, p) + Outstanding(db, p)
  {
    PlaceEffect(db, o, user, lines);
    StoredItems(PricesOf(db, lines), lines);
    NarrowProducts(lines);
    AddOrderConserves(db, Place(db, o, user, lines).db, o, Narrow(lines), p);
  }

  lemma DropOrderConserves(db: Db, db': Db, o: OrderId, es: seq<Entry>, p: ProductId)
    requires o in db.orders && db.orders[o].status != Cancelled
    requires es == Stored(ItemsOf(db, o)) && Products(es) <= db.products.Keys
    requires db'.products == db.products + Restocked(db, es)
    requires db'.orders == db.orders[o := db.orders[o].(status := Cancelled)]
    requires db'.items == db.items
    ensures Stock(db', p) + Outstanding(db', p) == Stock(db, p) + Outstanding(db, p)
  {
    if p in db.products { StockAfterRestock(db, es, p); } else { TotalAbsent(es, p); }
    assert OwedMap(db', p) == OwedMap(db, p)[o := 0];
    SumUpdate(OwedMap(db, p), o, 0);
  }

  lemma CancelConserves(db: Db, user: UserId, o: OrderId, p: ProductId)
    requires Cancel(db, user, o).Done?
    ensures var db' := Cancel(db, user, o).db;
      Stock(db', p) + Outstanding(db', p) == Stock(db, p) + Outstanding(db, p)
  {
    CancelEffect(db, user, o);
    RestockedProductsExist(db, Stored(ItemsOf(db, o)));
    DropOrderConserves(db, Cancel(db, user, o).db, o, Stored(ItemsOf(db, o)), p);
  }

  lemma RestockedProductsExist(db: Db, es: seq<Entry>)
    requires FirstError(RestockChecks(db, es)).None?
    ensures Products(es) <= db.products.Keys
  {
    var n := FirstErrorMeans(RestockChecks(db, es));
    forall p | p in Products(es) ensures p in db.products {
      var ids := LockOrder(es);
      assert p in ids;
      var i :| 0 <= i < |ids| && ids[i] == p;
      assert RestockChecks(db, es)[i] == RestockCheck(db, es, ids[i]);
    }
  }

  lemma PayConserves(db: Db, user: UserId, o: OrderId, charged: bool, transaction: TransactionId, p: ProductId)
    requires Pay(db, user, o, charged, transaction).Done?
    ensures var db' := Pay(db, user, o, charged, transaction).db;
      Stock(db', p) + Outstanding(db', p) == Stock(db, p) + Outstanding(db, p)
  {
    var db' := Pay(db, user, o, charged, transaction).db;
    PayEffect(db, user, o, charged, transaction);
    assert OwedMap(db', p) == OwedMap(db, p);
  }

  /** One event changes stock plus outstanding quantity by what it supplies. */
  lemma EventConserves(db: Db, e: Event, p: ProductId)
    ensures var db' := After(db, e);
      Stock(db', p) + Outstanding(db', p) == Stock(db, p) + Outstanding(db, p) + Supply(db, e, p)
  {
    if Execute(db, e).Done? {
      match e
      case PlaceEvent(o, user, lines) => PlaceConserves(db, o, user, lines, p);
      case CancelEvent(user, o) => CancelConserves(db, user, o, p);
      case PayEvent(user, o, charged, transaction) => PayConserves(db, user, o, charged, transaction, p);
      case _ => assert OwedMap(After(db, e), p) == OwedMap(db, p);
    }
  }

  /** Over every history: a product's stock plus the stored quantities of its
      items in orders that are not cancelled is what the catalogue supplied. */
  lemma {:induction false} StockConserved(db: Db, es: seq<Event>, p: ProductId)
    ensures var db' := Run(db, es);
      Stock(db', p) + Outstanding(db', p) == Stock(db, p) + Outstanding(db, p) + Supplied(db, es, p)
  {
    if es != [] {
      var front := es[..|es| - 1];
      StockConserved(db, front, p);
      EventConserves(Run(db, front), es[|es| - 1], p);
    }
  }

  /** Starting from empty tables, with no stock below zero. */
  lemma NothingLostNothingOversold(es: seq<Event>, p: ProductId)
    requires AllAdmissible(es)
    ensures var db := Run(EMPTY, es);
      && Stock(db, p) + Outstanding(db, p) == Supplied(EMPTY, es, p)
      && 0 <= Stock(db, p) && 0 <= Outstanding(db, p)
  {
    StockConserved(EMPTY, es, p);
    assert OwedMap(EMPTY, p) == map[];
    RunKeepsInv(EMPTY, es);
    var db := Run(EMPTY, es);
    forall o | o in db.orders ensures 0 <= Owed(db, o, p) {
      StoredPositive(db, o);
      TotalNonNegative(Stored(db.items[o]), p);
    }
    SumNonNegative(OwedMap(db, p));
  }

  // ---- The life of one order ----

  predicate HasStatus(db: Db, o: OrderId, s: Status) {
    o in db.orders && db.orders[o].status == s
  }

  /** What an order keeps forever: its owner, its total, its item rows with the
      prices read when it was placed, and the amount due. */
  predicate SameOrder(db: Db, db': Db, o: OrderId) {
    && o in db.orders && o in db'.orders
    && db'.orders[o].user == db.orders[o].user
    && db'.orders[o].total == db.orders[o].total
    && ItemsOf(db', o) == ItemsOf(db, o)
    && (o in db.payments ==> o in db'.payments && db'.payments[o].amount == db.payments[o].amount)
  }

  /** A paid or cancelled order keeps its status and its whole payment row. */
  predicate Settled(db: Db, db': Db, o: OrderId)
    requires o in db.orders && o in db'.orders
  {
    db.orders[o].status != Pending ==>
      && db'.orders[o].status == db.orders[o].status
      && (o in db.payments ==> o in db'.payments && db'.payments[o] == db.payments[o])
  }

  lemma EventKeepsOrder(db: Db, e: Event, o: OrderId)
    requires o in db.orders
    ensures SameOrder(db, After(db, e), o) && Settled(db, After(db, e), o)
  {
    if Execute(db, e).Done? {
      match e
      case PlaceEvent(x, user, lines) => PlaceEffect(db, x, user, lines);
      case CancelEvent(user, x) => CancelEffect(db, user, x);
      case PayEvent(user, x, charged, transaction) => PayEffect(db, user, x, charged, transaction);
      case _ =>
    }
  }

  /** However the catalogue and other orders change afterwards, an order's total,
      items, prices and amount stay as placed, and once it is paid or cancelled
      it stays so, with the same payment. */
  lemma {:induction false} RunKeepsOrder(db: Db, es: seq<Event>, o: OrderId)
    requires o in db.orders
    ensures SameOrder(db, Run(db, es), o) && Settled(db, Run(db, es), o)
  {
    if es != [] {
      RunKeepsOrder(db, es[..|es| - 1], o);
      EventKeepsOrder(Run(db, es[..|es| - 1]), es[|es| - 1], o);
    }
  }

  /** The event puts the order's stock back on the shelf. */
  predicate Credits(db: Db, e: Event, o: OrderId) {
    e.CancelEvent? && e.order == o && Execute(db, e).Done?
  }

  /** The event commits a successful charge for the order. */
  predicate Charges(db: Db, e: Event, o: OrderId) {
    && e.PayEvent? && e.order == o && e.charged && Execute(db, e).Done?
    && db.orders[o].status == Pending && db.payments[o].status != Success
  }

  function CountCredits(db: Db, es: seq<Event>, o: OrderId): nat {
    if es == [] then 0
    else
      var front := es[..|es| - 1];
      CountCredits(db, front, o) + (if Credits(Run(db, front), es[|es| - 1], o) then 1 else 0)
  }

  function CountCharges(db: Db, es: seq<Event>, o: OrderId): nat {
    if es == [] then 0
    else
      var front := es[..|es| - 1];
      CountCharges(db, front, o) + (if Charges(Run(db, front), es[|es| - 1], o) then 1 else 0)
  }

  /** A placed order is pending; the others keep their status. */
  lemma PlaceStatus(db: Db, x: OrderId, user: UserId, lines: seq<Entry>, o: OrderId, s: Status)
    requires Place(db, x, user, lines).Done? && s != Pending
    ensures HasStatus(Place(db, x, user, lines).db, o, s) <==> HasStatus(db, o, s)
  {
    PlaceEffect(db, x, user, lines);
  }

  /** An order becomes cancelled or paid exactly by the events counted. */
  ghost predicate Counted(db: Db, db': Db, e: Event, o: OrderId) {
    && (HasStatus(db', o, Cancelled) <==> HasStatus(db, o, Cancelled) || Credits(db, e, o))
    && (HasStatus(db', o, Paid) <==> HasStatus(db, o, Paid) || Charges(db, e, o))
    && (Credits(db, e, o) ==> !HasStatus(db, o, Cancelled))
    && (Charges(db, e, o) ==> !HasStatus(db, o, Paid))
  }

  lemma CancelCounts(db: Db, user: UserId, x: OrderId, o: OrderId)
    requires Inv(db) && Cancel(db, user, x).Done?
    ensures Counted(db, Cancel(db, user, x).db, CancelEvent(user, x), o)
  {
    hide Cancel;
    hide Restocked;
    hide OrderOk;
    CancelEffect(db, user, x);
  }

  lemma PayCounts(db: Db, user: UserId, x: OrderId, charged: bool, transaction: TransactionId, o: OrderId)
    requires Inv(db) && Pay(db, user, x, charged, transaction).Done?
    ensures Counted(db, Pay(db, user, x, charged, transaction).db, PayEvent(user, x, charged, transaction), o)
  {
    hide Pay;
    hide ItemsOk;
    if o in db.orders { assert OrderOk(db, o); }
    PayEffect(db, user, x, charged, transaction);
  }

  lemma EventCounts(db: Db, e: Event, o: OrderId)
    requires Inv(db)
    ensures Counted(db, After(db, e), e, o)
  {
    if Execute(db, e).Done? {
      match e
      case PlaceEvent(x, user, lines) =>
        PlaceStatus(db, x, user, lines, o, Cancelled);
        PlaceStatus(db, x, user, lines, o, Paid);
      case CancelEvent(user, x) => CancelCounts(db, user, x, o);
      case PayEvent(user, x, charged, transaction) => PayCounts(db, user, x, charged, transaction, o);
      case _ =>
    }
  }

  /** Over every history, whatever races of paying and cancelling it records: an
      order's stock is credited back once if it ends cancelled and never
      otherwise, and it is charged successfully once if it ends paid and never
      otherwise. */
  lemma {:induction false} SettledOnce(db: Db, es: seq<Event>, o: OrderId)
    requires Inv(db) && AllAdmissible(es)
    requires !HasStatus(db, o, Cancelled) && !HasStatus(db, o, Paid)
    ensures CountCredits(db, es, o) == if HasStatus(Run(db, es), o, Cancelled) then 1 else 0
    ensures CountCharges(db, es, o) == if HasStatus(Run(db, es), o, Paid) then 1 else 0
  {
    if es != [] {
      var front := es[..|es| - 1];
      SettledOnce(db, front, o);
      RunKeepsInv(db, front);
      EventCounts(Run(db, front), es[|es| - 1], o);
    }
  }

  /** Paying again, at any later time and whatever the provider would answer,
      returns the same payment and changes nothing. */
  lemma PayAgain(db: Db, user: UserId, o: OrderId, transaction: TransactionId, es: seq<Event>,
                 charged': bool, transaction': TransactionId)
    requires Inv(db) && AllAdmissible(es)
    requires Pay(db, user, o, true, transaction).Done?
    ensures var paid := Pay(db, user, o, true, transaction);
      var later := Run(paid.db, es);
      && HasStatus(paid.db, o, Paid)
      && Pay(later, user, o, charged', transaction') == Done(later, paid.reply)
  {
    assert OrderOk(db, o);
    PayEffect(db, user, o, true, transaction);
    var paid := Pay(db, user, o, true, transaction);
    RunKeepsOrder(paid.db, es, o);
  }

  /** Cancelling after any history puts back, product by product, exactly what
      placing the order took. */
  lemma CancelUndoesPlace(db: Db, o: OrderId, user: UserId, lines: seq<Entry>, es: seq<Event>, p: ProductId)
    requires Place(db, o, user, lines).Done?
    requires var later := Run(Place(db, o, user, lines).db, es);
      Cancel(later, user, o).Done? && p in later.products
    requires p in db.products
    ensures var placed := Place(db, o, user, lines).db;
      var later := Run(placed, es);
      var cancelled := Cancel(later, user, o).db;
      && p in placed.products && p in cancelled.products
      && cancelled.products[p].stock - later.products[p].stock
         == db.products[p].stock - placed.products[p].stock
  {
    var placed := Place(db, o, user, lines);
    PlaceEffect(db, o, user, lines);
    RunKeepsOrder(placed.db, es, o);
    CancelEffect(Run(placed.db, es), user, o);
    CancelRestoresExactly(db, o, user, lines, Run(placed.db, es), p);
  }

  lemma RunSnoc(db: Db, es: seq<Event>, e: Event)
    ensures Run(db, es + [e]) == After(Run(db, es), e)
  {
    assert (es + [e])[..|es|] == es;
  }

  /** The one refusal that `CancelOutcome` leaves open does occur, for every
      pending order: raise the stock of one of its products to the largest 32-bit
      number and the order can no longer be cancelled. */
  lemma FullShelfBlocksCancel(db: Db, user: UserId, o: OrderId, p: ProductId)
    requires Inv(db) && Owns(db, user, o) && db.orders[o].status == Pending
    requires p in Products(Stored(ItemsOf(db, o)))
    ensures var full := Run(db, [PatchEvent(p, None, Some(MAX_INT32))]);
      HasStatus(full, o, Pending) && Cancel(full, user, o) == Fail(OutOfRange)
  {
    hide Total;
    hide Products;
    hide RestockChecks;
    hide FirstError;
    hide ItemsOk;
    hide Agrees;
    var patch := PatchEvent(p, None, Some(MAX_INT32));
    RunSnoc(db, [], patch);
    assert [] + [patch] == [patch];
    EventKeepsInv(db, patch);
    assert OrderOk(db, o);
    StoredPositive(db, o);
    TotalNonNegative(Stored(db.items[o]), p);
    CancelOutcome(After(db, patch), user, o);
  }
}
