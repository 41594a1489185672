/** Each statement keeps a transaction's private state equal to what running it
    alone would have made it, and ends it only with the answer of the closed form. */
module Steps {
  import opened Ints
  import opened Tally
  import opened Ordering
  import opened Schema
  import opened Atomic
  import opened Placement
  import opened Progress
  import opened Runs
  import opened Machine

  lemma MergeEmpty(db: Db)
    ensures Merge(db, EMPTY) == db
  {
  }

  lemma MoreRows(ids: seq<ProductId>, i: nat)
    requires i < |ids|
    ensures ProductRows(ids[..i + 1]) == ProductRows(ids[..i]) + {ProductRow(ids[i])}
    ensures ids[..|ids|] == ids
  {
    assert ids[..i + 1] == ids[..i] + [ids[i]];
  }

  /** The next state is known too, or the transaction has its answer. */
  ghost predicate Good(req: Event, db: Db, l: Local)
    requires IsTransaction(req)
  {
    match l
    case Idle => false
    case Aborted => false
    case Active(_, _, _) => Matches(req, db, l)
    case Finished(outcome) => Answers(req, db, outcome)
  }

  // ---- Placing ----

  lemma VerdictAnswers(db: Db, o: OrderId, user: UserId, lines: seq<Entry>, e: Error)
    requires PlaceVerdict(db, o, lines) == Some(e)
    ensures Answers(PlaceEvent(o, user, lines), db, Err(e))
  {
  }

  lemma LockVerdict(db: Db, o: OrderId, lines: seq<Entry>)
    requires FirstError(LockChecks(db, lines)).Some?
    ensures PlaceVerdict(db, o, lines) == FirstError(LockChecks(db, lines))
  {
  }

  lemma LockProductStep(db: Db, o: OrderId, user: UserId, lines: seq<Entry>, l: Local)
    requires PlaceMatches(o, user, lines, db, l) && l.pc.LockProduct?
    ensures var req := PlaceEvent(o, user, lines); Good(req, db, Step(req, l, db))
  {
    hide LockOrder;
    hide Priced;
    hide PlaceVerdict;
    hide RequestedQuantity;
    hide Wrap64;
    hide ProductRows;
    hide Answers;
    var req, ids, i := PlaceEvent(o, user, lines), LockOrder(lines), l.pc.i;
    MergeEmpty(db);
    MoreRows(ids, i);
    if LockCheck(db, lines, ids[i]).Some? {
      LockFails(db, lines, i, l.pc.prices, l.pc.total);
      LockVerdict(db, o, lines);
      VerdictAnswers(db, o, user, lines, LockCheck(db, lines, ids[i]).value);
    } else {
      PricedNext(db, lines, ids, i, l.pc.prices, l.pc.total);
    }
  }

  lemma InsertOrderStep(db: Db, o: OrderId, user: UserId, lines: seq<Entry>, l: Local)
    requires Inv(db)
    requires PlaceMatches(o, user, lines, db, l) && l.pc.InsertOrder?
    ensures var req := PlaceEvent(o, user, lines); Good(req, db, Step(req, l, db))
  {
    hide LockOrder;
    hide Priced;
    hide ProductRows;
    hide Answers;
    hide OrderTotal;
    hide LockChecks;
    hide LineChecks;
    hide FirstError;
    hide Products;
    hide Sold;
    hide PricesOf;
    hide OrderOk;
    MergeEmpty(db);
    PricedAll(db, lines, l.pc.prices, l.pc.total);
    if l.pc.total < 0 {
      VerdictAnswers(db, o, user, lines, CheckViolation);
    } else if o in db.orders {
      VerdictAnswers(db, o, user, lines, DuplicateKey);
    } else {
      NothingSold(db, o, user, lines, l.pc.total);
    }
  }

  lemma NothingSold(db: Db, o: OrderId, user: UserId, lines: seq<Entry>, total: int)
    requires Products(lines) <= db.products.Keys
    ensures EMPTY.(orders := map[o := Order(user, Pending, total)], items := map[o := []])
         == PartialWrites(db, o, user, lines, total, 0, 0)
  {
    assert Narrow(lines)[..0] == [];
  }

  lemma LineRowHeld(lines: seq<Entry>, j: nat)
    requires j < |lines|
    ensures ProductRow(lines[j].product) in ProductRows(LockOrder(lines))
  {
    assert lines[j] in lines;
    assert lines[j].product in LockOrder(lines);
  }

  /** A transaction's view of the rows it has written so far. */
  lemma SellingView(db: Db, o: OrderId, user: UserId, lines: seq<Entry>, total: int, j: nat, k: nat)
    requires Products(lines) <= db.products.Keys && j <= |lines| && k <= |lines|
    ensures var v := Merge(db, PartialWrites(db, o, user, lines, total, j, k));
      && v.products == SoldRows(db, lines, k)
      && ItemsOf(v, o) == SomeItems(db, lines, j)
      && (o in v.payments <==> o in db.payments)
  {
  }

  lemma InsertItemStep(db: Db, o: OrderId, user: UserId, lines: seq<Entry>, l: Local)
    requires PlaceMatches(o, user, lines, db, l) && l.pc.InsertItem?
    ensures var req := PlaceEvent(o, user, lines); Good(req, db, Step(req, l, db))
  {
    hide LockOrder;
    hide ProductRows;
    hide Answers;
    hide LockChecks;
    hide LineCheck;
    hide LineWellFormed;
    hide FirstError;
    hide Sold;
    hide PricesOf;
    hide OrderTotal;
    hide MakeItem;
    hide MakeItems;
    hide PlaceVerdict;
    var j, total := l.pc.j, l.pc.total;
    LineRowHeld(lines, j);
    ProductAt(lines, j);
    SellingView(db, o, user, lines, total, j, j);
    LineReports(db, lines, j);
    NextItem(db, lines, j);
    PriceAt(db, lines, lines[j].product);
    if !LineWellFormed(PricesOf(db, lines)[lines[j].product], lines[j]) {
      LinesFail(db, o, lines, j);
      VerdictAnswers(db, o, user, lines, CheckViolation);
    }
  }

  lemma PriceAt(db: Db, lines: seq<Entry>, p: ProductId)
    requires p in Products(lines) && p in db.products
    ensures p in PricesOf(db, lines) && PricesOf(db, lines)[p] == db.products[p].price
  {
  }

  lemma DecreaseStockStep(db: Db, o: OrderId, user: UserId, lines: seq<Entry>, l: Local)
    requires PlaceMatches(o, user, lines, db, l) && l.pc.DecreaseStock?
    ensures var req := PlaceEvent(o, user, lines); Good(req, db, Step(req, l, db))
  {
    hide LockOrder;
    hide ProductRows;
    hide Answers;
    hide LockChecks;
    hide LineCheck;
    hide LineWellFormed;
    hide FirstError;
    hide Sold;
    hide Narrow;
    hide Total;
    hide PricesOf;
    hide OrderTotal;
    hide MakeItems;
    hide PlaceVerdict;
    var j, total := l.pc.j, l.pc.total;
    LineRowHeld(lines, j);
    ProductAt(lines, j);
    SellingView(db, o, user, lines, total, j + 1, j);
    LineReports(db, lines, j);
    PriceAt(db, lines, lines[j].product);
    NarrowAt(lines, j);
    SoldNext(db, Narrow(lines), j);
    if SoldRows(db, lines, j)[lines[j].product].stock < Wrap32(lines[j].amount) {
      LinesFail(db, o, lines, j);
      VerdictAnswers(db, o, user, lines, InsufficientStock);
    }
  }

  lemma InsertPaymentStep(db: Db, o: OrderId, user: UserId, lines: seq<Entry>, l: Local)
    requires PlaceMatches(o, user, lines, db, l) && l.pc.InsertPayment?
    ensures var req := PlaceEvent(o, user, lines); Good(req, db, Step(req, l, db))
  {
    hide LockOrder;
    hide ProductRows;
    hide LockChecks;
    hide LineChecks;
    hide LineCheck;
    hide FirstError;
    hide Sold;
    hide Narrow;
    hide PricesOf;
    hide OrderTotal;
    hide MakeItems;
    hide Products;
    var total := l.pc.total;
    SellingView(db, o, user, lines, total, |lines|, |lines|);
    LinesAll(db, lines);
    PartialIsWhole(db, o, user, lines, total);
  }

  /** At its commit a placement has written what the closed form writes. */
  lemma PlaceCommit(db: Db, o: OrderId, user: UserId, lines: seq<Entry>, l: Local)
    requires PlaceMatches(o, user, lines, db, l) && l.pc == AtCommit
    ensures Place(db, o, user, lines) == Done(Merge(db, l.w), CommitReply(PlaceEvent(o, user, lines), db, l.w))
  {
    hide LockOrder;
    hide LockChecks;
    hide LineChecks;
    hide FirstError;
    hide Sold;
    hide Narrow;
    hide PricesOf;
    hide OrderTotal;
    hide MakeItems;
    hide Products;
  }

  lemma PlaceStepGood(db: Db, o: OrderId, user: UserId, lines: seq<Entry>, l: Local)
    requires Inv(db)
    requires PlaceMatches(o, user, lines, db, l) && l.pc != AtCommit
    ensures var req := PlaceEvent(o, user, lines); Good(req, db, Step(req, l, db))
  {
    hide Step;
    hide Good;
    match l.pc
    case LockProduct(_, _, _) => LockProductStep(db, o, user, lines, l);
    case InsertOrder(_, _) => InsertOrderStep(db, o, user, lines, l);
    case InsertItem(_, _, _) => InsertItemStep(db, o, user, lines, l);
    case DecreaseStock(_, _, _) => DecreaseStockStep(db, o, user, lines, l);
    case InsertPayment(_) => InsertPaymentStep(db, o, user, lines, l);
  }

  // ---- Cancelling ----

  lemma RefusalAnswers(db: Db, user: UserId, o: OrderId, e: Error)
    requires CancelVerdict(db, user, o) == Some(e)
    ensures Answers(CancelEvent(user, o), db, Err(e))
  {
  }

  lemma MoreEntries(es: seq<Entry>, j: nat)
    requires j < |es|
    ensures EntryRows(es[..j + 1]) == EntryRows(es[..j]) + {ProductRow(es[j].product)}
    ensures es[..|es|] == es && EntryRows(es[..0]) == {}
  {
    assert es[..j + 1] == es[..j] + [es[j]];
  }

  /** The sorted item rows of a committed order, as entries. */
  lemma SortedEntries(db: Db, o: OrderId)
    requires Inv(db) && o in db.orders
    ensures var es := Stored(SortItems(ItemsOf(db, o)));
      && SortedByProduct(es) && AllPositive(es)
      && multiset(es) == multiset(Stored(ItemsOf(db, o)))
  {
    SortItemsSorts(ItemsOf(db, o));
    StoredPermuted(SortItems(ItemsOf(db, o)), ItemsOf(db, o));
    StoredPositive(db, o);
    var es := Stored(SortItems(ItemsOf(db, o)));
    forall i | 0 <= i < |es| ensures 0 < es[i].amount {
      assert es[i] in multiset(es);
      assert es[i] in Stored(ItemsOf(db, o));
    }
  }

  /** A refusal met while restocking is the closed form's refusal. */
  lemma RestockRefusal(db: Db, user: UserId, o: OrderId, items: seq<Item>, j: nat, l: Local)
    requires Inv(db) && Restocking(db, user, o, items, j, l) && j < |items|
    requires RestockLine(db, Stored(items), j).Some?
    ensures CancelVerdict(db, user, o) == RestockLine(db, Stored(items), j)
  {
    hide RestockLine;
    hide RestockChecks;
    hide FirstError;
    SortedEntries(db, o);
    RestockFails(db, Stored(items), j);
    RestockChecksPermuted(db, Stored(items), Stored(ItemsOf(db, o)));
  }

  lemma LockOrderStep(db: Db, user: UserId, o: OrderId, l: Local)
    requires CancelMatches(user, o, db, l) && l.pc.LockOrderRow?
    ensures var req := CancelEvent(user, o); Good(req, db, Step(req, l, db))
  {
    hide Answers;
    hide RestockChecks;
    hide FirstError;
    MergeEmpty(db);
    if !Owns(db, user, o) {
      RefusalAnswers(db, user, o, OrderNotFound);
    } else if db.orders[o].status != Pending {
      RefusalAnswers(db, user, o, OrderNotPending);
    }
  }

  lemma ReadItemsStep(db: Db, user: UserId, o: OrderId, l: Local)
    requires CancelMatches(user, o, db, l) && l.pc.ReadItems?
    ensures var req := CancelEvent(user, o); Good(req, db, Step(req, l, db))
  {
    hide Answers;
    hide RestockChecks;
    hide FirstError;
    hide SortItems;
    MergeEmpty(db);
    var es := Stored(SortItems(ItemsOf(db, o)));
    assert Restocked(db, es[..0]) == map[];
    assert EntryRows(es[..0]) == {};
    if ItemsOf(db, o) == [] {
      RefusalAnswers(db, user, o, OrderItemsUnavailable);
    }
  }

  lemma RestockingView(db: Db, es: seq<Entry>, j: nat)
    requires j <= |es|
    ensures Merge(db, EMPTY.(products := Restocked(db, es[..j]))) == db.(products := RestockedRows(db, es, j))
  {
  }

  lemma LockItemProductStep(db: Db, user: UserId, o: OrderId, l: Local)
    requires Inv(db)
    requires CancelMatches(user, o, db, l) && l.pc.LockItemProduct?
    ensures var req := CancelEvent(user, o); Good(req, db, Step(req, l, db))
  {
    hide Answers;
    hide SortItems;
    hide Restocked;
    hide EntryRows;
    hide RestockedRows;
    hide CancelVerdict;
    hide Inv;
    var j, items := l.pc.j, l.pc.items;
    var es := Stored(items);
    RestockingView(db, es, j);
    NextIncrement(db, es, j);
    MoreEntries(es, j);
    if items[j].product !in db.products {
      RestockRefusal(db, user, o, items, j, l);
      RefusalAnswers(db, user, o, ProductNotFound);
    }
  }

  lemma IncreaseStockStep(db: Db, user: UserId, o: OrderId, l: Local)
    requires Inv(db)
    requires CancelMatches(user, o, db, l) && l.pc.IncreaseStock?
    ensures var req := CancelEvent(user, o); Good(req, db, Step(req, l, db))
  {
    hide Answers;
    hide SortItems;
    hide Restocked;
    hide EntryRows;
    hide RestockLine;
    hide CancelVerdict;
    hide Inv;
    hide Total;
    var j, items := l.pc.j, l.pc.items;
    var es := Stored(items);
    RestockingView(db, es, j);
    NextIncrement(db, es, j);
    MoreEntries(es, j);
    RestockedNext(db, es, j);
    if RestockLine(db, es, j).Some? {
      RestockRefusal(db, user, o, items, j, l);
      RefusalAnswers(db, user, o, OutOfRange);
    }
  }

  lemma AllRestocked(db: Db, user: UserId, o: OrderId, items: seq<Item>, l: Local)
    requires Inv(db) && Restocking(db, user, o, items, |items|, l)
    ensures CancelVerdict(db, user, o).None?
    ensures l.w == EMPTY.(products := Restocked(db, Stored(ItemsOf(db, o))))
  {
    hide RestockLine;
    hide RestockChecks;
    hide FirstError;
    hide Restocked;
    hide SortItems;
    var es := Stored(items);
    assert es[..|es|] == es;
    SortedEntries(db, o);
    RestockAll(db, es);
    RestockPermuted(db, es, Stored(ItemsOf(db, o)));
  }

  lemma MarkCancelledStep(db: Db, user: UserId, o: OrderId, l: Local)
    requires Inv(db)
    requires CancelMatches(user, o, db, l) && l.pc.MarkCancelled?
    ensures var req := CancelEvent(user, o); Good(req, db, Step(req, l, db))
  {
    hide Restocked;
    hide SortItems;
    hide CancelVerdict;
    hide EntryRows;
    hide RestockPassed;
    hide Inv;
    AllRestocked(db, user, o, SortItems(ItemsOf(db, o)), l);
  }

  /** At its commit a cancellation has written what the closed form writes. */
  lemma CancelCommit(db: Db, user: UserId, o: OrderId, l: Local)
    requires CancelMatches(user, o, db, l) && l.pc == AtCommit
    ensures Cancel(db, user, o) == Done(Merge(db, l.w), CommitReply(CancelEvent(user, o), db, l.w))
  {
    hide Restocked;
    hide SortItems;
    hide RestockChecks;
    hide FirstError;
  }

  lemma CancelStepGood(db: Db, user: UserId, o: OrderId, l: Local)
    requires Inv(db)
    requires CancelMatches(user, o, db, l) && l.pc != AtCommit
    ensures var req := CancelEvent(user, o); Good(req, db, Step(req, l, db))
  {
    hide Step;
    hide Good;
    match l.pc
    case LockOrderRow => LockOrderStep(db, user, o, l);
    case ReadItems => ReadItemsStep(db, user, o, l);
    case LockItemProduct(_, _) => LockItemProductStep(db, user, o, l);
    case IncreaseStock(_, _) => IncreaseStockStep(db, user, o, l);
    case MarkCancelled => MarkCancelledStep(db, user, o, l);
  }

  // ---- Paying ----

  lemma PayStepGood(db: Db, user: UserId, o: OrderId, charged: bool, transaction: TransactionId, l: Local)
    requires PayMatches(user, o, charged, transaction, db, l) && l.pc != AtCommit
    ensures var req := PayEvent(user, o, charged, transaction); Good(req, db, Step(req, l, db))
  {
    MergeEmpty(db);
  }

  /** At its commit a payment has written what the closed form writes. */
  lemma PayCommit(db: Db, user: UserId, o: OrderId, charged: bool, transaction: TransactionId, l: Local)
    requires PayMatches(user, o, charged, transaction, db, l) && l.pc == AtCommit
    ensures Pay(db, user, o, charged, transaction)
         == Done(Merge(db, l.w), CommitReply(PayEvent(user, o, charged, transaction), db, l.w))
  {
  }

  // ---- Any transaction ----

  lemma StartMatches(req: Event, db: Db)
    requires IsTransaction(req)
    ensures Matches(req, db, Start(req)) && Start(req).held == {}
  {
    if req.PlaceEvent? {
      PricedNone(db, req.lines, LockOrder(req.lines));
    }
  }

  /** One statement: the private state stays known, or the transaction ends with
      the closed form's answer. */
  lemma StepGood(req: Event, db: Db, l: Local)
    requires Inv(db) && IsTransaction(req)
    requires Matches(req, db, l) && l.Active? && l.pc != AtCommit
    ensures Good(req, db, Step(req, l, db))
  {
    hide Step;
    hide Good;
    hide PlaceMatches;
    hide CancelMatches;
    hide PayMatches;
    match req
    case PlaceEvent(o, user, lines) => PlaceStepGood(db, o, user, lines, l);
    case CancelEvent(user, o) => CancelStepGood(db, user, o, l);
    case PayEvent(user, o, charged, transaction) => PayStepGood(db, user, o, charged, transaction, l);
  }

  /** Committing: the closed form's tables and reply. */
  lemma CommitGood(req: Event, db: Db, l: Local)
    requires IsTransaction(req)
    requires Matches(req, db, l) && l.Active? && l.pc == AtCommit
    ensures Execute(db, req) == Done(Merge(db, l.w), CommitReply(req, db, l.w))
  {
    hide CommitReply;
    hide Place;
    hide Cancel;
    hide Pay;
    hide PlaceMatches;
    hide CancelMatches;
    hide PayMatches;
    match req
    case PlaceEvent(o, user, lines) => PlaceCommit(db, o, user, lines, l);
    case CancelEvent(user, o) => CancelCommit(db, user, o, l);
    case PayEvent(user, o, charged, transaction) => PayCommit(db, user, o, charged, transaction, l);
  }
}
