/** What placing an order promises: exact acceptance condition, totals,
    independence of line order, and being undone by cancelling. */
module Placement {
  import opened Ints
  import opened Tally
  import opened Ordering
  import opened Schema
  import opened Atomic

  // ---- Acceptance ----

  /** Every row constraint on the line's item holds. */
  predicate LineWellFormed(price: int, line: Entry) {
    var item := MakeItem(price, line);
    0 < item.quantity && 0 <= item.price && 0 <= item.subtotal
  }

  ghost predicate LinesWellFormed(db: Db, lines: seq<Entry>)
    requires Products(lines) <= db.products.Keys
  {
    forall j :: 0 <= j < |lines| ==> LineWellFormed(db.products[lines[j].product].price, lines[j])
  }

  /** The narrowed quantities of every product are in stock. */
  ghost predicate InStock(db: Db, lines: seq<Entry>)
    requires Products(lines) <= db.products.Keys
  {
    forall p :: p in Products(lines) ==> Total(Narrow(lines), p) <= db.products[p].stock
  }

  lemma NarrowProducts(lines: seq<Entry>)
    ensures Products(Narrow(lines)) == Products(lines)
  {
    forall p ensures p in Products(Narrow(lines)) <==> p in Products(lines) {
      if p in Products(lines) {
        var e :| e in lines && e.product == p;
        var i :| 0 <= i < |lines| && lines[i] == e;
        assert Narrow(lines)[i] in Narrow(lines);
      }
    }
  }

  /** One line's decrement is refused exactly when the prefix including it asks
      for more than there was. */
  lemma LineRefused(db: Db, lines: seq<Entry>, j: nat)
    requires j < |lines| && Products(lines) <= db.products.Keys
    requires LineWellFormed(db.products[lines[j].product].price, lines[j])
    ensures LineCheck(db, lines, j)
         == if Total(Narrow(lines)[..j + 1], lines[j].product) <= db.products[lines[j].product].stock
            then None else Some(InsufficientStock)
  {
    TotalPrefix(Narrow(lines), j, lines[j].product);
  }

  /** With well-formed lines, all decrements go through if and only if the
      narrowed totals are in stock. */
  lemma LinesAcceptedIff(db: Db, lines: seq<Entry>)
    requires Products(lines) <= db.products.Keys
    ensures FirstError(LineChecks(db, lines)).None? <==> LinesWellFormed(db, lines) && InStock(db, lines)
    ensures LinesWellFormed(db, lines) && !InStock(db, lines)
        ==> FirstError(LineChecks(db, lines)) == Some(InsufficientStock)
  {
    var n := FirstErrorMeans(LineChecks(db, lines));
    var narrowed := Narrow(lines);
    NarrowProducts(lines);
    forall j | 0 <= j < n
      ensures LineWellFormed(db.products[lines[j].product].price, lines[j])
    {
      assert LineChecks(db, lines)[j] == LineCheck(db, lines, j);
    }
    if n == |lines| {
      assert AllPositive(narrowed);
      forall p | p in Products(lines) ensures Total(narrowed, p) <= db.products[p].stock {
        var j := LastLine(lines, p);
        assert LineChecks(db, lines)[j] == LineCheck(db, lines, j);
        LineRefused(db, lines, j);
        LastLineTotal(narrowed, j, p);
      }
    } else {
      assert LineChecks(db, lines)[n] == LineCheck(db, lines, n);
      var p := lines[n].product;
      assert p in Products(lines);
      if LinesWellFormed(db, lines) {
        LineRefused(db, lines, n);
        assert AllPositive(narrowed);
        TotalMonotone(narrowed, n + 1, |narrowed|, p);
        assert narrowed[..|narrowed|] == narrowed;
      }
    }
  }

  /** The last line that names a product. */
  lemma {:induction false} LastLine(lines: seq<Entry>, p: ProductId) returns (j: nat)
    requires p in Products(lines)
    ensures j < |lines| && lines[j].product == p
    ensures forall k :: j < k < |lines| ==> lines[k].product != p
  {
    j := |lines| - 1;
    var e :| e in lines && e.product == p;
    var i :| 0 <= i < |lines| && lines[i] == e;
    while lines[j].product != p
      invariant i <= j < |lines|
      invariant forall k :: j < k < |lines| ==> lines[k].product != p
      decreases j
    {
      j := j - 1;
    }
  }

  lemma {:induction false} LastLineTotal(es: seq<Entry>, j: nat, p: ProductId)
    requires j < |es|
    requires forall k :: j < k < |es| ==> es[k].product != p
    ensures Total(es[..j + 1], p) == Total(es, p)
    decreases |es| - j
  {
    if j + 1 == |es| {
      assert es[..j + 1] == es;
    } else {
      TotalPrefix(es, j + 1, p);
      LastLineTotal(es, j + 1, p);
    }
  }

  /** The lines up to and including `j` satisfy the row constraints, but together
      ask for more of line `j`'s product than there is. */
  ghost predicate RunsOutAt(db: Db, lines: seq<Entry>, j: nat)
    requires Products(lines) <= db.products.Keys && j < |lines|
  {
    && (forall k :: 0 <= k <= j ==> LineWellFormed(db.products[lines[k].product].price, lines[k]))
    && db.products[lines[j].product].stock < Total(Narrow(lines)[..j + 1], lines[j].product)
  }

  /** Exactly when the first line refused is refused for stock. */
  lemma LinesRunOutIff(db: Db, lines: seq<Entry>)
    requires Products(lines) <= db.products.Keys
    ensures FirstError(LineChecks(db, lines)) == Some(InsufficientStock)
       <==> exists j :: 0 <= j < |lines| && RunsOutAt(db, lines, j)
  {
    hide LineWellFormed;
    var n := FirstErrorMeans(LineChecks(db, lines));
    forall k | 0 <= k < |lines|
      ensures LineChecks(db, lines)[k] == LineCheck(db, lines, k)
      ensures LineCheck(db, lines, k)
           == if !LineWellFormed(db.products[lines[k].product].price, lines[k]) then Some(CheckViolation)
              else if Total(Narrow(lines)[..k + 1], lines[k].product) <= db.products[lines[k].product].stock then None
              else Some(InsufficientStock)
    {
      LineVerdict(db, lines, k);
    }
    if FirstError(LineChecks(db, lines)) == Some(InsufficientStock) {
      assert RunsOutAt(db, lines, n);
    }
  }

  /** Exactly when a decrement affects zero rows, for any quantities at all: once
      the locked products cover the summed quantities and the id is new, the
      total must pass the order row's constraint and some line must run out. */
  lemma DecrementRefusedIff(db: Db, o: OrderId, lines: seq<Entry>)
    requires FirstError(LockChecks(db, lines)).None?
    requires o !in db.orders && o !in db.items
    ensures Products(lines) <= db.products.Keys
    ensures PlaceVerdict(db, o, lines) == Some(InsufficientStock)
       <==> 0 <= OrderTotal(db, lines) && exists j :: 0 <= j < |lines| && RunsOutAt(db, lines, j)
  {
    LocksPassed(db, lines);
    hide OrderTotal;
    hide LineChecks;
    hide RunsOutAt;
    LinesRunOutIff(db, lines);
  }

  lemma LineVerdict(db: Db, lines: seq<Entry>, k: nat)
    requires k < |lines| && Products(lines) <= db.products.Keys
    ensures LineCheck(db, lines, k)
         == if !LineWellFormed(db.products[lines[k].product].price, lines[k]) then Some(CheckViolation)
            else if Total(Narrow(lines)[..k + 1], lines[k].product) <= db.products[lines[k].product].stock then None
            else Some(InsufficientStock)
  {
    if LineWellFormed(db.products[lines[k].product].price, lines[k]) {
      LineRefused(db, lines, k);
    }
  }

  /** Every product exists and covers its summed quantity, the total and every
      line satisfy the row constraints, the narrowed quantities are in stock, and
      the order's id is new. */
  ghost predicate Acceptable(db: Db, o: OrderId, lines: seq<Entry>) {
    && Products(lines) <= db.products.Keys
    && (forall p :: p in Products(lines) ==> RequestedQuantity(lines, p) <= db.products[p].stock)
    && 0 <= OrderTotal(db, lines)
    && LinesWellFormed(db, lines)
    && InStock(db, lines)
    && o !in db.orders && o !in db.items && o !in db.payments
  }

  /** An order is placed if and only if it is acceptable. */
  lemma PlaceAcceptedIff(db: Db, o: OrderId, user: UserId, lines: seq<Entry>)
    ensures Place(db, o, user, lines).Done? <==> Acceptable(db, o, lines)
  {
    var n := FirstErrorMeans(LockChecks(db, lines));
    var ids := LockOrder(lines);
    if n == |ids| {
      LocksPassed(db, lines);
      LinesAcceptedIff(db, lines);
    } else {
      assert LockChecks(db, lines)[n] == LockCheck(db, lines, ids[n]);
      assert ids[n] in Products(lines);
    }
  }

  // ---- The aggregated check and the lines ----

  /** Quantities that a 32-bit column can hold, in a list short enough for their
      sum not to leave 64 bits. */
  ghost predicate InRange(lines: seq<Entry>) {
    && |lines| <= 0x1_0000_0000
    && forall i :: 0 <= i < |lines| ==> 1 <= lines[i].amount <= MAX_INT32
  }

  lemma {:induction false} TotalBounded(lines: seq<Entry>, p: ProductId)
    requires forall i :: 0 <= i < |lines| ==> 1 <= lines[i].amount <= MAX_INT32
    ensures 0 <= Total(lines, p) <= |lines| * MAX_INT32
  {
    if lines != [] {
      var c := lines[..|lines| - 1];
      assert forall i :: 0 <= i < |c| ==> c[i] == lines[i];
      TotalBounded(c, p);
    }
  }

  lemma NarrowInRange(lines: seq<Entry>)
    requires InRange(lines)
    ensures Narrow(lines) == lines
    ensures forall p :: RequestedQuantity(lines, p) == Total(lines, p)
  {
    assert forall i :: 0 <= i < |lines| ==> Narrow(lines)[i] == lines[i];
    forall p ensures RequestedQuantity(lines, p) == Total(lines, p) {
      TotalBounded(lines, p);
    }
  }

  /** Once the locked products cover the summed quantities, no line's decrement
      affects zero rows: the only refusal left is a row constraint. */
  lemma AggregatedCheckSuffices(db: Db, lines: seq<Entry>)
    requires InRange(lines)
    requires FirstError(LockChecks(db, lines)).None?
    ensures Products(lines) <= db.products.Keys
    ensures FirstError(LineChecks(db, lines)) in {None, Some(CheckViolation)}
    ensures forall j :: 0 <= j < |lines| ==> LineCheck(db, lines, j) != Some(InsufficientStock)
  {
    LocksPassed(db, lines);
    NarrowInRange(lines);
    forall j | 0 <= j < |lines| ensures LineCheck(db, lines, j) != Some(InsufficientStock) {
      var p := lines[j].product;
      assert p in Products(lines);
      TotalPrefix(lines, j, p);
      TotalMonotone(lines, j + 1, |lines|, p);
      assert lines[..|lines|] == lines;
    }
    var n := FirstErrorMeans(LineChecks(db, lines));
    if n < |lines| {
      assert LineChecks(db, lines)[n] == LineCheck(db, lines, n);
    }
  }

  /** Two lines of one product, of which the first asks for more than there is,
      but both together do not. */
  ghost predicate SecondLineHides(row: Product, a: int, b: int) {
    && 1 <= a <= MAX_INT32 && row.stock < a && a + b <= row.stock
    && -MAX_INT64 <= a + b
    && 0 <= row.price && 0 <= row.price * a <= MAX_INT64 && 0 <= row.price * (a + b) <= MAX_INT64
  }

  /** Outside that range the decrement's own guard decides: the summed check and
      the total are passed, and the first line's decrement affects no row. */
  lemma TwoLinesRunOut(db: Db, o: OrderId, user: UserId, p: ProductId, a: int, b: int)
    requires p in db.products && SecondLineHides(db.products[p], a, b)
    requires o !in db.orders && o !in db.items
    ensures var lines := [Entry(p, a), Entry(p, b)];
      && FirstError(LockChecks(db, lines)).None?
      && Products(lines) <= db.products.Keys && 0 <= OrderTotal(db, lines) && RunsOutAt(db, lines, 0)
      && Place(db, o, user, lines) == Fail(InsufficientStock)
  {
    var x, y, row := Entry(p, a), Entry(p, b), db.products[p];
    var lines := [x, y];
    TwoLines(x, y);
    FirstLineRunsOut(db, x, y);
    hide RunsOutAt;
    hide LockOrder;
    assert FirstError(LockChecks(db, lines)).None? by { LocksCover(db, lines); }
    hide LockChecks;
    assert 0 <= OrderTotal(db, lines) by {
      hide OrderTotal;
      TotalIsItemised(db, lines);
      TwoLinesCost(PricesOf(db, lines), x, y);
      assert row.price * (a + b) == row.price * a + row.price * b;
    }
    DecrementRefusedIff(db, o, lines);
  }

  lemma FirstLineRunsOut(db: Db, x: Entry, y: Entry)
    requires x.product in db.products && Products([x, y]) <= db.products.Keys
    requires SecondLineHides(db.products[x.product], x.amount, y.amount)
    ensures RunsOutAt(db, [x, y], 0)
  {
    var es := Narrow([x, y]);
    assert LineWellFormed(db.products[x.product].price, x);
    hide LineWellFormed;
    FirstTotal(es, x);
  }

  lemma FirstTotal(es: seq<Entry>, x: Entry)
    requires es != [] && es[0] == x
    ensures Total(es[..1], x.product) == x.amount
  {
    TotalPrefix(es, 0, x.product);
    assert es[..0] == [];
  }

  /** Three units of a product priced 1 are on the shelf; a request has a line for
      5 and a line for -5 of them. */
  lemma AggregatedCheckNeedsRange(o: OrderId, user: UserId)
    ensures var db, lines := EMPTY.(products := map[7 := Product(1, 3)]), [Entry(7, 5), Entry(7, -5)];
      && FirstError(LockChecks(db, lines)).None?
      && Products(lines) <= db.products.Keys && 0 <= OrderTotal(db, lines) && RunsOutAt(db, lines, 0)
      && Place(db, o, user, lines) == Fail(InsufficientStock)
  {
    TwoLinesRunOut(EMPTY.(products := map[7 := Product(1, 3)]), o, user, 7, 5, -5);
  }

  lemma TwoLines(a: Entry, b: Entry)
    requires a.product == b.product
    ensures Products([a, b]) == {a.product}
    ensures Total([a, b], a.product) == a.amount + b.amount
  {
    assert [a, b] == [] + [a] + [b];
    TotalSnoc([], a, a.product);
    TotalSnoc([] + [a], b, a.product);
  }

  lemma TwoLinesCost(prices: map<ProductId, int>, a: Entry, b: Entry)
    requires a.product == b.product && a.product in prices && Products([a, b]) <= prices.Keys
    ensures Cost(prices, [a, b]) == prices[a.product] * a.amount + prices[a.product] * b.amount
  {
    assert [a, b][..1] == [a] && [a][..0] == [];
    assert Cost(prices, [a]) == Cost(prices, []) + prices[a.product] * a.amount;
  }

  /** Stock that covers every summed quantity passes the locking loop. */
  lemma LocksCover(db: Db, lines: seq<Entry>)
    requires Products(lines) <= db.products.Keys
    requires forall p :: p in Products(lines) ==> RequestedQuantity(lines, p) <= db.products[p].stock
    ensures FirstError(LockChecks(db, lines)).None?
  {
    var ids := LockOrder(lines);
    forall i | 0 <= i < |ids| ensures LockChecks(db, lines)[i].None? {
      assert ids[i] in Products(lines);
      assert LockChecks(db, lines)[i] == LockCheck(db, lines, ids[i]);
    }
    FirstErrorIs(LockChecks(db, lines), |ids|);
  }

  // ---- Totals ----

  function SumSubtotals(items: seq<Item>): int {
    if items == [] then 0 else SumSubtotals(items[..|items| - 1]) + items[|items| - 1].subtotal
  }

  /** The true cost of the lines, in unbounded arithmetic. */
  function Cost(prices: map<ProductId, int>, lines: seq<Entry>): int
    requires Products(lines) <= prices.Keys
  {
    if lines == [] then 0
    else
      ProductsSnoc(lines);
      var last := lines[|lines| - 1];
      Cost(prices, lines[..|lines| - 1]) + prices[last.product] * last.amount
  }

  /** The cost, one summand per product. */
  function GroupedCost(prices: map<ProductId, int>, lines: seq<Entry>, ids: seq<ProductId>): int
    requires forall i :: 0 <= i < |ids| ==> ids[i] in prices
  {
    if ids == [] then 0
    else
      var last := |ids| - 1;
      GroupedCost(prices, lines, ids[..last]) + prices[ids[last]] * Total(lines, ids[last])
  }

  lemma {:induction false} GroupedTotalWraps(prices: map<ProductId, int>, lines: seq<Entry>, ids: seq<ProductId>)
    requires forall i :: 0 <= i < |ids| ==> ids[i] in prices
    ensures GroupedTotal(prices, lines, ids) == Wrap64(GroupedCost(prices, lines, ids))
  {
    if ids != [] {
      var front, p := ids[..|ids| - 1], ids[|ids| - 1];
      GroupedTotalWraps(prices, lines, front);
      var cost, q := GroupedCost(prices, lines, front), Total(lines, p);
      WrapMul(prices[p], q);
      WrapAdd(cost, prices[p] * Wrap64(q));
      WrapAdd(cost, prices[p] * q);
    }
  }

  lemma {:induction false} GroupedCostSnoc(prices: map<ProductId, int>, lines: seq<Entry>, e: Entry,
                                           ids: seq<ProductId>)
    requires Ascending(ids)
    requires forall i :: 0 <= i < |ids| ==> ids[i] in prices
    ensures GroupedCost(prices, lines + [e], ids)
         == GroupedCost(prices, lines, ids) + if e.product in ids then prices[e.product] * e.amount else 0
  {
    hide Total;
    if ids != [] {
      var front, p := ids[..|ids| - 1], ids[|ids| - 1];
      GroupedCostSnoc(prices, lines, e, front);
      TotalSnoc(lines, e, p);
      assert ids == front + [p];
      Distribute(prices[p], Total(lines, p), Share(e, p));
      assert e.product == p ==> e.product !in front;
    }
  }

  lemma Distribute(x: int, a: int, b: int)
    ensures x * (a + b) == x * a + x * b
  {
  }

  /** Summing by product and summing by line cost the same. */
  lemma {:induction false} GroupedCostIsCost(prices: map<ProductId, int>, lines: seq<Entry>, ids: seq<ProductId>)
    requires Ascending(ids) && Products(lines) <= prices.Keys
    requires forall i :: 0 <= i < |ids| ==> ids[i] in prices
    requires forall p :: p in Products(lines) ==> p in ids
    ensures GroupedCost(prices, lines, ids) == Cost(prices, lines)
  {
    if lines == [] {
      NoLinesCostNothing(prices, ids);
    } else {
      var front, e := lines[..|lines| - 1], lines[|lines| - 1];
      ProductsSnoc(lines);
      assert lines == front + [e];
      GroupedCostIsCost(prices, front, ids);
      GroupedCostSnoc(prices, front, e, ids);
    }
  }

  lemma {:induction false} NoLinesCostNothing(prices: map<ProductId, int>, ids: seq<ProductId>)
    requires forall i :: 0 <= i < |ids| ==> ids[i] in prices
    ensures GroupedCost(prices, [], ids) == 0
  {
    if ids != [] {
      NoLinesCostNothing(prices, ids[..|ids| - 1]);
    }
  }

  lemma {:induction false} SubtotalsWrap(prices: map<ProductId, int>, lines: seq<Entry>)
    requires Products(lines) <= prices.Keys
    ensures Wrap64(SumSubtotals(MakeItems(prices, lines))) == Wrap64(Cost(prices, lines))
  {
    if lines != [] {
      var front, e := lines[..|lines| - 1], lines[|lines| - 1];
      ProductsSnoc(lines);
      SubtotalsWrap(prices, front);
      var items := MakeItems(prices, lines);
      assert items[..|items| - 1] == MakeItems(prices, front);
      var sum, cost, sub := SumSubtotals(MakeItems(prices, front)), Cost(prices, front), prices[e.product] * e.amount;
      WrapAdd(sum, sub);
      WrapAdd(sum, Wrap64(sub));
      WrapAdd(cost, sub);
    }
  }

  /** For every request, in range or not: the order total, computed per product,
      equals the wrapped sum of the item subtotals, computed per line. When
      nothing overflows it is the true cost. */
  lemma TotalIsItemised(db: Db, lines: seq<Entry>)
    requires Products(lines) <= db.products.Keys
    ensures var prices := PricesOf(db, lines);
      && OrderTotal(db, lines) == Wrap64(SumSubtotals(MakeItems(prices, lines)))
      && OrderTotal(db, lines) == Wrap64(Cost(prices, lines))
      && (Is64(Cost(prices, lines)) ==> OrderTotal(db, lines) == Cost(prices, lines))
  {
    var prices := PricesOf(db, lines);
    GroupedTotalWraps(prices, lines, LockOrder(lines));
    GroupedCostIsCost(prices, lines, LockOrder(lines));
    SubtotalsWrap(prices, lines);
  }

  /** A stored row whose subtotal is its price times its quantity. */
  predicate RowExact(item: Item) {
    item.subtotal == item.price * item.quantity
  }

  ghost predicate RowsExact(items: seq<Item>) {
    forall i :: 0 <= i < |items| ==> RowExact(items[i])
  }

  /** The product fits 64 bits, and what narrowing drops from the quantity costs a
      multiple of 2^64. */
  predicate NarrowsExactly(price: int, line: Entry) {
    var quantity := Wrap32(line.amount);
    Is64(price * quantity) && (price * (line.amount - quantity)) % 0x1_0000_0000_0000_0000 == 0
  }

  ghost predicate AllNarrowExactly(prices: map<ProductId, int>, lines: seq<Entry>)
    requires Products(lines) <= prices.Keys
  {
    forall i :: 0 <= i < |lines| ==> NarrowsExactly(prices[lines[i].product], lines[i])
  }

  lemma RowExactIff(price: int, line: Entry)
    ensures RowExact(MakeItem(price, line)) <==> NarrowsExactly(price, line)
  {
    var quantity := Wrap32(line.amount);
    var kept, dropped := price * quantity, price * (line.amount - quantity);
    assert price * line.amount == kept + dropped;
    SameWrapIff(kept, dropped);
  }

  /** The true cost of the quantities as they are stored. */
  function StoredCost(items: seq<Item>): int {
    if items == [] then 0
    else StoredCost(items[..|items| - 1]) + items[|items| - 1].price * items[|items| - 1].quantity
  }

  lemma {:induction false} ExactSum(items: seq<Item>)
    requires RowsExact(items)
    ensures SumSubtotals(items) == StoredCost(items)
  {
    if items != [] { ExactSum(items[..|items| - 1]); }
  }

  /** On the stored rows, for every request: each subtotal is price times quantity
      and the order total is their sum, both without wrapping, if and only if
      nothing that narrowing drops is charged and the stored cost fits 64 bits. */
  lemma TotalIsStoredIff(db: Db, lines: seq<Entry>)
    requires Products(lines) <= db.products.Keys
    ensures var prices := PricesOf(db, lines);
      var items := MakeItems(prices, lines);
      (RowsExact(items) && OrderTotal(db, lines) == SumSubtotals(items))
      <==> (AllNarrowExactly(prices, lines) && Is64(StoredCost(items)))
  {
    hide NarrowsExactly;
    hide RowExact;
    hide OrderTotal;
    hide PricesOf;
    var prices := PricesOf(db, lines);
    assert Products(lines) <= prices.Keys by { PricesOfAll(db, lines); }
    var items := MakeItems(prices, lines);
    TotalIsItemised(db, lines);
    forall i | 0 <= i < |lines|
      ensures RowExact(items[i]) <==> NarrowsExactly(prices[lines[i].product], lines[i])
    {
      RowExactIff(prices[lines[i].product], lines[i]);
    }
    if RowsExact(items) { ExactSum(items); }
  }

  lemma PricesOfAll(db: Db, lines: seq<Entry>)
    requires Products(lines) <= db.products.Keys
    ensures PricesOf(db, lines).Keys == Products(lines)
  {
  }

  /** In range, with prices the database accepts, all of that holds if and only if
      the true cost of the request fits 64 bits. */
  lemma TotalIsExactIff(db: Db, lines: seq<Entry>)
    requires Products(lines) <= db.products.Keys && InRange(lines)
    requires forall p :: p in db.products ==> 0 <= db.products[p].price
    ensures var prices := PricesOf(db, lines);
      var items := MakeItems(prices, lines);
      RowsExact(items) && OrderTotal(db, lines) == SumSubtotals(items) <==> Is64(Cost(prices, lines))
  {
    var prices := PricesOf(db, lines);
    PricesOfAll(db, lines);
    assert forall p :: p in prices ==> 0 <= prices[p];
    hide OrderTotal;
    hide PricesOf;
    hide AllNarrowExactly;
    StoredCostIsCost(prices, lines);
    if Is64(Cost(prices, lines)) { CostCoversLines(prices, lines); }
    TotalIsStoredIff(db, lines);
  }

  lemma {:induction false} StoredCostIsCost(prices: map<ProductId, int>, lines: seq<Entry>)
    requires Products(lines) <= prices.Keys
    requires forall i :: 0 <= i < |lines| ==> 1 <= lines[i].amount <= MAX_INT32
    ensures StoredCost(MakeItems(prices, lines)) == Cost(prices, lines)
  {
    if lines != [] {
      var front := lines[..|lines| - 1];
      ProductsSnoc(lines);
      StoredCostIsCost(prices, front);
      var items := MakeItems(prices, lines);
      assert items[..|items| - 1] == MakeItems(prices, front);
    }
  }

  lemma {:induction false} CostCoversLines(prices: map<ProductId, int>, lines: seq<Entry>)
    requires Products(lines) <= prices.Keys
    requires forall p :: p in prices ==> 0 <= prices[p]
    requires forall i :: 0 <= i < |lines| ==> 1 <= lines[i].amount <= MAX_INT32
    ensures 0 <= Cost(prices, lines)
    ensures Is64(Cost(prices, lines)) ==> AllNarrowExactly(prices, lines)
  {
    if lines != [] {
      var front, e := lines[..|lines| - 1], lines[|lines| - 1];
      ProductsSnoc(lines);
      CostCoversLines(prices, front);
      InRangeLine(prices[e.product], e);
      hide NarrowsExactly;
      forall i | 0 <= i < |lines| && Is64(Cost(prices, lines))
        ensures NarrowsExactly(prices[lines[i].product], lines[i])
      {
        if i < |front| { assert lines[i] == front[i]; }
      }
    }
  }

  lemma InRangeLine(price: int, line: Entry)
    requires 0 <= price && 1 <= line.amount <= MAX_INT32
    ensures 0 <= price * line.amount
    ensures Is64(price * line.amount) ==> NarrowsExactly(price, line)
  {
    assert price * (line.amount - Wrap32(line.amount)) == 0;
  }

  /** The same line, `n` times. */
  function Copies(n: nat, e: Entry): (es: seq<Entry>)
    ensures |es| == n && forall i :: 0 <= i < n ==> es[i] == e
  {
    seq(n, i => e)
  }

  lemma CopiesFront(n: nat, e: Entry)
    requires n > 0
    ensures Copies(n, e)[..n - 1] == Copies(n - 1, e)
    ensures Copies(n, e) == Copies(n - 1, e) + [e]
  {
  }

  lemma {:induction false} CopiesTotal(n: nat, e: Entry)
    ensures Total(Copies(n, e), e.product) == n * e.amount
    ensures Products(Copies(n, e)) == if n == 0 then {} else {e.product}
  {
    if n > 0 {
      CopiesFront(n, e);
      CopiesTotal(n - 1, e);
      TotalSnoc(Copies(n - 1, e), e, e.product);
      assert (n - 1) * e.amount + e.amount == n * e.amount;
    }
  }

  lemma {:induction false} CopiesCost(prices: map<ProductId, int>, n: nat, e: Entry)
    requires e.product in prices && Products(Copies(n, e)) <= prices.Keys
    ensures Cost(prices, Copies(n, e)) == n * (prices[e.product] * e.amount)
    ensures SumSubtotals(MakeItems(prices, Copies(n, e))) == n * MakeItem(prices[e.product], e).subtotal
  {
    if n > 0 {
      var price := prices[e.product];
      CopiesFront(n, e);
      CopiesTotal(n, e);
      CopiesTotal(n - 1, e);
      CopiesCost(prices, n - 1, e);
      var items := MakeItems(prices, Copies(n, e));
      assert items[..|items| - 1] == MakeItems(prices, Copies(n - 1, e));
      OneMore(n, price * e.amount);
      OneMore(n, MakeItem(price, e).subtotal);
    }
  }

  lemma OneMore(n: int, x: int)
    ensures (n - 1) * x + x == n * x
  {
  }

  /** Any number of lines that narrow to one unit each are accepted together when
      what Go makes of their sum and their total is. */
  lemma CopiesPlaced(db: Db, o: OrderId, user: UserId, n: nat, e: Entry)
    requires n > 0 && e.product in db.products && o !in db.orders && o !in db.items && o !in db.payments
    requires var row := db.products[e.product];
      && row.price == 1 && Wrap32(e.amount) == 1 && 0 <= Wrap64(e.amount)
      && Wrap64(n * e.amount) == n <= row.stock
    ensures Place(db, o, user, Copies(n, e)).Done?
    ensures Products(Copies(n, e)) <= db.products.Keys && OrderTotal(db, Copies(n, e)) == n
  {
    var lines := Copies(n, e);
    hide OrderTotal;
    CopiesTotal(n, e);
    CopiesCost(PricesOf(db, lines), n, e);
    TotalIsItemised(db, lines);
    hide PricesOf;
    hide Cost;
    CopiesInStock(db, n, e);
    CopiesWellFormed(db, n, e);
    hide InStock;
    hide LinesWellFormed;
    hide Copies;
    hide Place;
    PlaceAcceptedIff(db, o, user, lines);
  }

  lemma CopiesInStock(db: Db, n: nat, e: Entry)
    requires n > 0 && e.product in db.products && Wrap32(e.amount) == 1 && n <= db.products[e.product].stock
    ensures Products(Copies(n, e)) <= db.products.Keys && InStock(db, Copies(n, e))
  {
    var narrowed := Entry(e.product, 1);
    CopiesTotal(n, e);
    CopiesTotal(n, narrowed);
    assert Narrow(Copies(n, e)) == Copies(n, narrowed);
  }

  lemma CopiesWellFormed(db: Db, n: nat, e: Entry)
    requires n > 0 && e.product in db.products && Products(Copies(n, e)) <= db.products.Keys
    requires db.products[e.product].price == 1 && Wrap32(e.amount) == 1 && 0 <= Wrap64(e.amount)
    ensures LinesWellFormed(db, Copies(n, e))
  {
    hide LineWellFormed;
    hide Products;
    hide Wrap32;
    hide Wrap64;
    UnitLine(e);
  }

  lemma UnitLine(line: Entry)
    requires Wrap32(line.amount) == 1 && 0 <= Wrap64(line.amount)
    ensures LineWellFormed(1, line)
  {
    assert 1 * line.amount == line.amount;
  }

  /** Out of range the conditions do fail, on an order that is accepted: four lines
      of 2^62 + 1 units at price 1, from a stock of 4, are placed for a total of 4
      with four rows of one unit and a subtotal of 2^62 + 1 each. */
  lemma TotalLeavesRows(o: OrderId, user: UserId)
    ensures var db, lines := EMPTY.(products := map[7 := Product(1, 4)]), Copies(4, Entry(7, 0x4000_0000_0000_0001));
      && Place(db, o, user, lines).Done?
      && var reply := Place(db, o, user, lines).reply;
         && reply.order.total == 4
         && (forall i :: 0 <= i < 4 ==> reply.items[i] == Item(7, 1, 1, 0x4000_0000_0000_0001))
         && !RowExact(reply.items[0]) && SumSubtotals(reply.items) == 0x1_0000_0000_0000_0004
  {
    hide OrderTotal;
    hide Place;
    hide Cost;
    hide SumSubtotals;
    hide Products;
    var db, e := EMPTY.(products := map[7 := Product(1, 4)]), Entry(7, 0x4000_0000_0000_0001);
    var lines := Copies(4, e);
    CopiesTotal(4, e);
    CopiesPlaced(db, o, user, 4, e);
    CopiesCost(PricesOf(db, lines), 4, e);
    PlaceWritten(db, o, user, lines);
  }

  // ---- Independence of line order ----

  lemma {:induction false} GroupedTotalPermuted(prices: map<ProductId, int>, a: seq<Entry>, b: seq<Entry>,
                                                ids: seq<ProductId>)
    requires multiset(a) == multiset(b)
    requires forall i :: 0 <= i < |ids| ==> ids[i] in prices
    ensures GroupedTotal(prices, a, ids) == GroupedTotal(prices, b, ids)
  {
    if ids != [] {
      GroupedTotalPermuted(prices, a, b, ids[..|ids| - 1]);
      TotalPermuted(a, b, ids[|ids| - 1]);
    }
  }

  lemma LockChecksPermuted(db: Db, a: seq<Entry>, b: seq<Entry>)
    requires multiset(a) == multiset(b)
    ensures LockChecks(db, a) == LockChecks(db, b)
  {
    LockOrderPermuted(a, b);
    forall i | 0 <= i < |LockOrder(a)| ensures LockChecks(db, a)[i] == LockChecks(db, b)[i] {
      TotalPermuted(a, b, LockOrder(a)[i]);
    }
  }

  /** In range, an acceptable list has well-formed lines; otherwise the refusal
      is a constraint violation, whichever line is tried first. */
  lemma InRangeLineVerdict(db: Db, lines: seq<Entry>)
    requires InRange(lines)
    requires FirstError(LockChecks(db, lines)).None?
    ensures Products(lines) <= db.products.Keys
    ensures FirstError(LineChecks(db, lines))
         == if LinesWellFormed(db, lines) then None else Some(CheckViolation)
  {
    AggregatedCheckSuffices(db, lines);
    LinesAcceptedIff(db, lines);
  }

  lemma WellFormedPermuted(db: Db, a: seq<Entry>, b: seq<Entry>)
    requires multiset(a) == multiset(b)
    requires Products(a) <= db.products.Keys && Products(b) <= db.products.Keys
    requires LinesWellFormed(db, a)
    ensures LinesWellFormed(db, b)
  {
    forall j | 0 <= j < |b| ensures LineWellFormed(db.products[b[j].product].price, b[j]) {
      assert b[j] in multiset(a);
      var i :| 0 <= i < |a| && a[i] == b[j];
    }
  }

  lemma InRangePermuted(a: seq<Entry>, b: seq<Entry>)
    requires multiset(a) == multiset(b) && InRange(a)
    ensures InRange(b)
  {
    assert |multiset(a)| == |a| && |multiset(b)| == |b|;
    forall j | 0 <= j < |b| ensures 1 <= b[j].amount <= MAX_INT32 {
      assert b[j] in multiset(a);
      var i :| 0 <= i < |a| && a[i] == b[j];
    }
  }

  /** In range, permuting the lines permutes neither the per-product facts nor
      the line verdict. */
  lemma LinesPermuted(db: Db, a: seq<Entry>, b: seq<Entry>)
    requires multiset(a) == multiset(b) && InRange(a)
    requires FirstError(LockChecks(db, a)).None?
    ensures Products(a) == Products(b) <= db.products.Keys
    ensures OrderTotal(db, a) == OrderTotal(db, b)
    ensures FirstError(LineChecks(db, a)) == FirstError(LineChecks(db, b))
  {
    LockOrderPermuted(a, b);
    LockChecksPermuted(db, a, b);
    LocksPassed(db, a);
    ProductsPermuted(a, b);
    assert PricesOf(db, a) == PricesOf(db, b);
    GroupedTotalPermuted(PricesOf(db, a), a, b, LockOrder(a));
    LineVerdictPermuted(db, a, b);
  }

  lemma LineVerdictPermuted(db: Db, a: seq<Entry>, b: seq<Entry>)
    requires multiset(a) == multiset(b) && InRange(a)
    requires FirstError(LockChecks(db, a)).None?
    requires Products(a) <= db.products.Keys && Products(b) <= db.products.Keys
    ensures FirstError(LineChecks(db, a)) == FirstError(LineChecks(db, b))
  {
    LockChecksPermuted(db, a, b);
    InRangePermuted(a, b);
    InRangeLineVerdict(db, a);
    InRangeLineVerdict(db, b);
    if LinesWellFormed(db, a) { WellFormedPermuted(db, a, b); }
    if LinesWellFormed(db, b) { WellFormedPermuted(db, b, a); }
  }

  lemma SoldPermuted(db: Db, a: seq<Entry>, b: seq<Entry>)
    requires multiset(a) == multiset(b) && InRange(a)
    ensures Sold(db, Narrow(a)) == Sold(db, Narrow(b))
  {
    InRangePermuted(a, b);
    NarrowInRange(a);
    NarrowInRange(b);
    ProductsPermuted(a, b);
    forall p ensures Total(a, p) == Total(b, p) { TotalPermuted(a, b, p); }
  }

  lemma VerdictPermuted(db: Db, o: OrderId, a: seq<Entry>, b: seq<Entry>)
    requires multiset(a) == multiset(b) && InRange(a)
    ensures PlaceVerdict(db, o, a) == PlaceVerdict(db, o, b)
    ensures PlaceVerdict(db, o, a).None? ==> FirstError(LockChecks(db, a)).None?
  {
    LockChecksPermuted(db, a, b);
    if FirstError(LockChecks(db, a)).None? {
      LinesPermuted(db, a, b);
    }
  }

  /** Two requests with the same lines in any order lock the same rows in the
      same sequence and get the same verdict, total, payment and stock. */
  lemma PlacePermuted(db: Db, o: OrderId, user: UserId, a: seq<Entry>, b: seq<Entry>)
    requires multiset(a) == multiset(b) && InRange(a)
    ensures LockOrder(a) == LockOrder(b)
    ensures var ra, rb := Place(db, o, user, a), Place(db, o, user, b);
      && (ra.Fail? ==> ra == rb)
      && (ra.Done? ==> rb.Done? && ra.db.products == rb.db.products
                       && ra.db.orders == rb.db.orders && ra.db.payments == rb.db.payments)
  {
    LockOrderPermuted(a, b);
    VerdictPermuted(db, o, a, b);
    if PlaceVerdict(db, o, a).None? {
      LinesPermuted(db, a, b);
      SoldPermuted(db, a, b);
      PlaceEffect(db, o, user, a);
      PlaceEffect(db, o, user, b);
    }
  }

  // ---- Placing, then cancelling ----

  lemma StoredItems(prices: map<ProductId, int>, lines: seq<Entry>)
    requires Products(lines) <= prices.Keys
    ensures Stored(MakeItems(prices, lines)) == Narrow(lines)
  {
    assert forall i :: 0 <= i < |lines| ==> Stored(MakeItems(prices, lines))[i] == Narrow(lines)[i];
  }

  /** What cancelling adds to a product is what placing took from it, whatever
      happened in between to other orders or to the product's row. */
  lemma CancelRestoresExactly(db: Db, o: OrderId, user: UserId, lines: seq<Entry>, later: Db, p: ProductId)
    requires Place(db, o, user, lines).Done?
    requires o in later.items && later.items[o] == Place(db, o, user, lines).reply.items
    requires Cancel(later, user, o).Done?
    requires p in db.products && p in later.products
    ensures var placed, cancelled := Place(db, o, user, lines).db, Cancel(later, user, o).db;
      && p in placed.products && p in cancelled.products
      && cancelled.products[p].stock - later.products[p].stock
         == db.products[p].stock - placed.products[p].stock
  {
    PlaceEffect(db, o, user, lines);
    CancelEffect(later, user, o);
    StoredItems(PricesOf(db, lines), lines);
    StockAfterSale(db, Narrow(lines), p);
    StockAfterRestock(later, Narrow(lines), p);
  }

  /** Cancelling right after placing succeeds and leaves every product row as it
      was before the order. */
  lemma PlaceThenCancel(db: Db, o: OrderId, user: UserId, lines: seq<Entry>)
    requires lines != []
    requires Place(db, o, user, lines).Done?
    requires forall p :: p in db.products ==> db.products[p].stock <= MAX_INT32
    ensures var placed := Place(db, o, user, lines).db;
      Cancel(placed, user, o).Done? && Cancel(placed, user, o).db.products == db.products
  {
    var placed := Place(db, o, user, lines).db;
    PlaceEffect(db, o, user, lines);
    StoredItems(PricesOf(db, lines), lines);
    NarrowProducts(lines);
    var es := Narrow(lines);
    assert ItemsOf(placed, o) == MakeItems(PricesOf(db, lines), lines);
    forall p | p in db.products
      ensures placed.products[p].stock == db.products[p].stock - Total(es, p)
    {
      StockAfterSale(db, es, p);
    }
    NothingOverflows(db, placed, es);
    CancelEffect(placed, user, o);
    SoldThenRestocked(db, es);
  }

  lemma SoldThenRestocked(db: Db, es: seq<Entry>)
    ensures var sold := db.products + Sold(db, es);
      sold + Restocked(db.(products := sold), es) == db.products
  {
  }

  lemma NothingOverflows(db: Db, placed: Db, es: seq<Entry>)
    requires Products(es) <= db.products.Keys == placed.products.Keys
    requires forall p :: p in db.products ==> placed.products[p].stock == db.products[p].stock - Total(es, p)
    requires forall p :: p in db.products ==> db.products[p].stock <= MAX_INT32
    ensures FirstError(RestockChecks(placed, es)).None?
  {
    forall i | 0 <= i < |LockOrder(es)| ensures RestockChecks(placed, es)[i].None? {
      assert LockOrder(es)[i] in Products(es);
    }
    FirstErrorIs(RestockChecks(placed, es), |LockOrder(es)|);
  }
}
