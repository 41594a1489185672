/** What concurrent runs guarantee about stock: nothing is lost or oversold, no
    locked order is refused half-way, and racing buyers share out the shelf. */
module Buyers {
  import opened Ints
  import opened Tally
  import opened Ordering
  import opened Schema
  import opened Atomic
  import opened Placement
  import opened Progress
  import opened Runs
  import opened Machine
  import opened Steps
  import opened System
  import opened Serializability

  // ---- Guarantees of every run ----

  /** Conservation in every concurrent run, at every moment: stock plus what the
      orders hold is what there was plus what the catalogue supplied. */
  lemma StockConservedConcurrently(trace: seq<Sys>, acts: seq<Action>, pool: nat, p: ProductId)
    requires IsRun(trace, acts, pool)
    ensures var db0, s := trace[0].db, trace[|acts|];
      && Stock(s.db, p) + Outstanding(s.db, p)
         == Stock(db0, p) + Outstanding(db0, p) + Supplied(db0, Events(s.log), p)
      && 0 <= Stock(s.db, p)
  {
    hide Outstanding;
    hide Supplied;
    Serializable(trace, acts, pool);
    StockConserved(trace[0].db, Events(trace[|acts|].log), p);
  }

  /** However payments and cancellations of one order race: it is credited back
      once if it ends cancelled, charged once if it ends paid, never both. */
  lemma SettledOnceConcurrently(trace: seq<Sys>, acts: seq<Action>, pool: nat, o: OrderId)
    requires IsRun(trace, acts, pool)
    requires !HasStatus(trace[0].db, o, Cancelled) && !HasStatus(trace[0].db, o, Paid)
    ensures var db0, s := trace[0].db, trace[|acts|];
      && CountCredits(db0, Events(s.log), o) == (if HasStatus(s.db, o, Cancelled) then 1 else 0)
      && CountCharges(db0, Events(s.log), o) == (if HasStatus(s.db, o, Paid) then 1 else 0)
      && CountCredits(db0, Events(s.log), o) + CountCharges(db0, Events(s.log), o) <= 1
  {
    hide CountCredits;
    hide CountCharges;
    Serializable(trace, acts, pool);
    HistoryAdmissible(trace[0].db, trace[|acts|]);
    SettledOnce(trace[0].db, Events(trace[|acts|].log), o);
  }

  /** For any quantities, in every concurrent run: a decrement affects zero rows
      exactly when its line runs out, and then the order is refused for stock. */
  lemma DecrementRefusedExactly(db0: Db, s: Sys, t: Tid)
    requires SysInv(db0, s) && IsActive(s, t) && s.txs[t].req.PlaceEvent?
    requires s.txs[t].local.pc.DecreaseStock?
    ensures var req, l := s.txs[t].req, s.txs[t].local;
      && Products(req.lines) <= s.db.products.Keys && l.pc.j < |req.lines|
      && (if RunsOutAt(s.db, req.lines, l.pc.j) then Step(req, l, s.db) == Finished(Err(InsufficientStock))
          else Step(req, l, s.db).Active?)
  {
    hide Inv;
    hide Serial;
    hide Recorded;
    hide FreshIds;
    hide RunsOutAt;
    hide Step;
    assert Known(s, t);
    var req, l := s.txs[t].req, s.txs[t].local;
    StepRunsOut(req.order, req.user, req.lines, s.db, l);
  }

  lemma PassedWellFormed(db: Db, lines: seq<Entry>, j: nat)
    requires Products(lines) <= db.products.Keys && j <= |lines| && LinesPassed(db, lines, j)
    ensures forall k :: 0 <= k < j ==> LineWellFormed(db.products[lines[k].product].price, lines[k])
  {
    forall k | 0 <= k < j ensures LineWellFormed(db.products[lines[k].product].price, lines[k]) {
      assert LineCheck(db, lines, k).None?;
    }
  }

  lemma StepRunsOut(o: OrderId, user: UserId, lines: seq<Entry>, db: Db, l: Local)
    requires PlaceMatches(o, user, lines, db, l) && l.pc.DecreaseStock?
    ensures Products(lines) <= db.products.Keys && l.pc.j < |lines|
    ensures var next := Step(PlaceEvent(o, user, lines), l, db);
      if RunsOutAt(db, lines, l.pc.j) then next == Finished(Err(InsufficientStock)) else next.Active?
  {
    hide LockOrder;
    hide ProductRows;
    hide LockChecks;
    hide LineChecks;
    hide LineCheck;
    hide LineWellFormed;
    hide FirstError;
    hide Sold;
    hide Narrow;
    hide PricesOf;
    hide OrderTotal;
    hide MakeItems;
    var j := l.pc.j;
    PassedWellFormed(db, lines, j);
    LineVerdict(db, lines, j);
    ProductAt(lines, j);
    SellingView(db, o, user, lines, l.pc.total, j + 1, j);
    LineReports(db, lines, j);
    PriceAt(db, lines, lines[j].product);
  }

  /** In range, once the summed quantities are covered, no decrement affects zero
      rows, whatever other transactions do between the check and the decrement. */
  lemma DecrementNeverRefused(db0: Db, s: Sys, t: Tid)
    requires SysInv(db0, s) && IsActive(s, t) && s.txs[t].req.PlaceEvent?
    requires InRange(s.txs[t].req.lines) && s.txs[t].local.pc.DecreaseStock?
    ensures Step(s.txs[t].req, s.txs[t].local, s.db).Active?
  {
    hide Inv;
    hide Serial;
    hide Recorded;
    hide FreshIds;
    hide Step;
    hide RunsOutAt;
    hide InRange;
    assert Known(s, t);
    var req, l := s.txs[t].req, s.txs[t].local;
    DecrementRefusedExactly(db0, s, t);
    NeverRunsOut(req.order, req.user, req.lines, s.db, l);
  }

  lemma NeverRunsOut(o: OrderId, user: UserId, lines: seq<Entry>, db: Db, l: Local)
    requires PlaceMatches(o, user, lines, db, l) && l.pc.DecreaseStock? && InRange(lines)
    ensures Products(lines) <= db.products.Keys && l.pc.j < |lines| && !RunsOutAt(db, lines, l.pc.j)
  {
    hide LockOrder;
    hide LockChecks;
    hide LineChecks;
    hide LineCheck;
    hide LineWellFormed;
    hide FirstError;
    hide PartialWrites;
    AggregatedCheckSuffices(db, lines);
    LineVerdict(db, lines, l.pc.j);
  }

  // ---- One buyer ----

  /** A request for some units of one product. */
  ghost predicate Buys(lines: seq<Entry>, p: ProductId, q: int) {
    |lines| == 1 && lines[0] == Entry(p, q)
  }

  lemma OneLine(lines: seq<Entry>, p: ProductId, q: int)
    requires Buys(lines, p, q)
    ensures Products(lines) == {p} && Total(lines, p) == q
    ensures |Narrow(lines)| == 1 && Buys(Narrow(lines), p, Wrap32(q))
  {
    assert lines == lines[..0] + [lines[0]];
    TotalSnoc(lines[..0], lines[0], p);
  }

  lemma OneLineCost(prices: map<ProductId, int>, lines: seq<Entry>, p: ProductId, q: int)
    requires Buys(lines, p, q) && p in prices && Products(lines) <= prices.Keys
    ensures Cost(prices, lines) == prices[p] * q
  {
    var front := lines[..0];
    assert Cost(prices, front) == 0;
  }

  lemma OneLineTotal(db: Db, lines: seq<Entry>, p: ProductId, q: int)
    requires Buys(lines, p, q) && p in db.products
    ensures Products(lines) <= db.products.Keys
    ensures OrderTotal(db, lines) == Wrap64(db.products[p].price * q)
  {
    hide OrderTotal;
    OneLine(lines, p, q);
    OneLineCost(PricesOf(db, lines), lines, p, q);
    TotalIsItemised(db, lines);
  }

  /** The price and quantity multiply to a total that the database accepts. */
  predicate Sellable(price: int, q: int) {
    0 <= Wrap64(price * q)
  }

  lemma OneLineWellFormed(db: Db, lines: seq<Entry>, p: ProductId, q: int)
    requires Buys(lines, p, q) && p in db.products && Products(lines) == {p}
    requires 1 <= q <= MAX_INT32 && 0 <= db.products[p].price
    ensures LinesWellFormed(db, lines) <==> Sellable(db.products[p].price, q)
  {
    assert LineWellFormed(db.products[p].price, lines[0]) <==> Sellable(db.products[p].price, q);
    hide LineWellFormed;
    hide Sellable;
    if LineWellFormed(db.products[p].price, lines[0]) {
      forall j | 0 <= j < |lines| ensures LineWellFormed(db.products[lines[j].product].price, lines[j]) {
        assert j == 0;
      }
    }
  }

  /** Which purchases the shelf allows. */
  predicate Affords(row: Product, q: int) {
    q <= row.stock && Sellable(row.price, q)
  }

  lemma BuyRefusedShort(db: Db, o: OrderId, user: UserId, lines: seq<Entry>, p: ProductId, q: int)
    requires Buys(lines, p, q) && 1 <= q <= MAX_INT64
    requires p in db.products && db.products[p].stock < q
    ensures Place(db, o, user, lines) == Fail(InsufficientStock)
  {
    OneLine(lines, p, q);
    hide Total;
    hide Products;
    OneProduct(LockOrder(lines), p, Products(lines));
    var checks := LockChecks(db, lines);
    assert checks[0] == LockCheck(db, lines, p);
    hide LockChecks;
    FirstErrorIs(checks, 0);
  }

  lemma OneProduct(ids: seq<ProductId>, p: ProductId, s: set<ProductId>)
    requires Ascending(ids) && Enumerates(ids, s) && s == {p}
    ensures ids == [p]
  {
    OneEnumeration(ids, [p], s);
  }

  lemma BuyInStock(db: Db, lines: seq<Entry>, p: ProductId, q: int)
    requires Buys(lines, p, q) && 1 <= q <= MAX_INT32
    requires p in db.products && q <= db.products[p].stock
    ensures Products(lines) == {p} && InStock(db, lines)
    ensures forall x :: x in Products(lines) ==> RequestedQuantity(lines, x) <= db.products[x].stock
  {
    OneLine(lines, p, q);
    OneLine(Narrow(lines), p, q);
  }

  /** Exactly when one buyer gets the units: when the shelf has them and the total
      is representable. */
  lemma BuyVerdict(db: Db, o: OrderId, user: UserId, lines: seq<Entry>, p: ProductId, q: int)
    requires Buys(lines, p, q) && 1 <= q <= MAX_INT64
    requires p in db.products && ProductOk(db.products[p]) && Fresh(db, o)
    ensures Place(db, o, user, lines).Done? <==> Affords(db.products[p], q)
    ensures db.products[p].stock < q ==> Place(db, o, user, lines) == Fail(InsufficientStock)
  {
    if db.products[p].stock < q {
      BuyRefusedShort(db, o, user, lines, p, q);
    } else {
      BuyInStock(db, lines, p, q);
      hide InStock;
      hide RequestedQuantity;
      hide LinesWellFormed;
      hide Place;
      hide OrderTotal;
      OneLineTotal(db, lines, p, q);
      OneLineWellFormed(db, lines, p, q);
      PlaceAcceptedIff(db, o, user, lines);
    }
  }

  lemma BuyEffect(db: Db, o: OrderId, user: UserId, lines: seq<Entry>, p: ProductId, q: int)
    requires Buys(lines, p, q) && 1 <= q <= MAX_INT32
    requires p in db.products && Place(db, o, user, lines).Done?
    ensures var db' := Place(db, o, user, lines).db;
      && p in db'.products && db'.products[p] == db.products[p].(stock := db.products[p].stock - q)
      && (forall x :: x != o && Fresh(db, x) ==> Fresh(db', x))
  {
    OneLine(lines, p, q);
    OneLine(Narrow(lines), p, q);
    PlaceEffect(db, o, user, lines);
    StockAfterSale(db, Narrow(lines), p);
  }
}
