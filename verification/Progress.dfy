/** How a transaction's statements, one line at a time, build up what the closed
    forms in `Atomic` describe at once. */
module Progress {
  import opened Ints
  import opened Tally
  import opened Ordering
  import opened Schema
  import opened Atomic
  import opened Placement

  // ---- Locking and pricing ----

  /** The first `i` products to lock exist and cover their summed quantities;
      the prices read so far are theirs, and so is the total. */
  ghost predicate Priced(db: Db, lines: seq<Entry>, ids: seq<ProductId>, i: nat,
                         prices: map<ProductId, int>, total: int)
  {
    && i <= |ids|
    && (forall k :: 0 <= k < i ==>
        && LockCheck(db, lines, ids[k]).None?
        && ids[k] in prices && prices[ids[k]] == db.products[ids[k]].price)
    && (forall p :: p in prices ==> p in ids[..i])
    && total == GroupedTotal(prices, lines, ids[..i])
  }

  lemma PricedNone(db: Db, lines: seq<Entry>, ids: seq<ProductId>)
    ensures Priced(db, lines, ids, 0, map[], 0)
  {
  }

  lemma {:induction false} GroupedTotalAgrees(a: map<ProductId, int>, b: map<ProductId, int>, lines: seq<Entry>,
                                              ids: seq<ProductId>)
    requires forall i :: 0 <= i < |ids| ==> ids[i] in a && ids[i] in b && a[ids[i]] == b[ids[i]]
    ensures GroupedTotal(a, lines, ids) == GroupedTotal(b, lines, ids)
  {
    if ids != [] {
      GroupedTotalAgrees(a, b, lines, ids[..|ids| - 1]);
    }
  }

  /** One more summand of the total. */
  lemma TotalNext(prices: map<ProductId, int>, lines: seq<Entry>, ids: seq<ProductId>, i: nat, price: int)
    requires Ascending(ids) && i < |ids|
    requires forall k :: 0 <= k < i ==> ids[k] in prices
    ensures var prices' := prices[ids[i] := price];
      GroupedTotal(prices', lines, ids[..i + 1])
      == Wrap64(GroupedTotal(prices, lines, ids[..i]) + price * RequestedQuantity(lines, ids[i]))
  {
    var prices' := prices[ids[i] := price];
    assert ids[..i + 1][..i] == ids[..i];
    assert forall k :: 0 <= k < i ==> ids[k] < ids[i];
    GroupedTotalAgrees(prices', prices, lines, ids[..i]);
  }

  /** Locking one more product. */
  lemma PricedNext(db: Db, lines: seq<Entry>, ids: seq<ProductId>, i: nat, prices: map<ProductId, int>, total: int)
    requires Ascending(ids) && i < |ids|
    requires Priced(db, lines, ids, i, prices, total)
    requires LockCheck(db, lines, ids[i]).None?
    ensures var row := db.products[ids[i]];
      Priced(db, lines, ids, i + 1, prices[ids[i] := row.price],
             Wrap64(total + row.price * RequestedQuantity(lines, ids[i])))
  {
    hide GroupedTotal;
    TotalNext(prices, lines, ids, i, db.products[ids[i]].price);
    assert ids[..i + 1] == ids[..i] + [ids[i]];
    assert forall k :: 0 <= k < i ==> ids[k] < ids[i];
  }

  lemma PricesRead(db: Db, lines: seq<Entry>, ids: seq<ProductId>, prices: map<ProductId, int>)
    requires Enumerates(ids, Products(lines))
    requires forall k :: 0 <= k < |ids| ==>
      ids[k] in db.products && ids[k] in prices && prices[ids[k]] == db.products[ids[k]].price
    requires forall p :: p in prices ==> p in ids
    ensures prices == PricesOf(db, lines)
  {
    forall p ensures p in prices <==> p in PricesOf(db, lines)
             ensures p in prices ==> prices[p] == PricesOf(db, lines)[p]
    {
      if p in ids {
        var k :| 0 <= k < |ids| && ids[k] == p;
        assert ids[k] in Products(lines);
      }
    }
  }

  lemma PricedAll(db: Db, lines: seq<Entry>, prices: map<ProductId, int>, total: int)
    requires Priced(db, lines, LockOrder(lines), |LockOrder(lines)|, prices, total)
    ensures FirstError(LockChecks(db, lines)).None?
    ensures Products(lines) <= db.products.Keys
    ensures prices == PricesOf(db, lines)
    ensures total == OrderTotal(db, lines)
  {
    hide GroupedTotal;
    hide PricesOf;
    var ids := LockOrder(lines);
    assert ids[..|ids|] == ids;
    FirstErrorIs(LockChecks(db, lines), |ids|);
    LocksPassed(db, lines);
    PricesRead(db, lines, ids, prices);
  }

  /** The first product that fails its check is the one reported. */
  lemma LockFails(db: Db, lines: seq<Entry>, i: nat, prices: map<ProductId, int>, total: int)
    requires i < |LockOrder(lines)|
    requires Priced(db, lines, LockOrder(lines), i, prices, total)
    requires LockCheck(db, lines, LockOrder(lines)[i]).Some?
    ensures FirstError(LockChecks(db, lines)) == LockCheck(db, lines, LockOrder(lines)[i])
  {
    FirstErrorIs(LockChecks(db, lines), i);
  }

  // ---- Selling line by line ----

  /** The rows written after inserting `j` items and making `k` decrements. */
  function PartialWrites(db: Db, o: OrderId, user: UserId, lines: seq<Entry>, total: int, j: nat, k: nat): Db
    requires Products(lines) <= db.products.Keys
    requires j <= |lines| && k <= |lines|
  {
    Db(Sold(db, Narrow(lines)[..k]),
       map[o := Order(user, Pending, total)],
       map[o := MakeItems(PricesOf(db, lines), lines)[..j]],
       map[])
  }

  /** One more decrement. */
  lemma SoldNext(db: Db, es: seq<Entry>, k: nat)
    requires k < |es| && es[k].product in db.products
    ensures var p := es[k].product;
      var row := db.products[p].(stock := db.products[p].stock - Total(es[..k], p));
      && (db.products + Sold(db, es[..k]))[p] == row
      && Sold(db, es[..k + 1]) == Sold(db, es[..k])[p := row.(stock := row.stock - es[k].amount)]
  {
    hide Total;
    hide Products;
    StockAfterSale(db, es[..k], es[k].product);
    forall q ensures Total(es[..k + 1], q) == Total(es[..k], q) + Share(es[k], q)
             ensures Products(es[..k + 1]) == Products(es[..k]) + {es[k].product}
    {
      TotalPrefix(es, k, q);
    }
  }

  /** The lines before `j` went through. */
  ghost predicate LinesPassed(db: Db, lines: seq<Entry>, j: nat)
    requires Products(lines) <= db.products.Keys && j <= |lines|
  {
    forall k :: 0 <= k < j ==> LineCheck(db, lines, k).None?
  }

  /** The product rows once the first `k` decrements are made. */
  function SoldRows(db: Db, lines: seq<Entry>, k: nat): map<ProductId, Product>
    requires k <= |lines|
  {
    db.products + Sold(db, Narrow(lines)[..k])
  }

  /** The items of the order once the first `j` are inserted. */
  function SomeItems(db: Db, lines: seq<Entry>, j: nat): seq<Item>
    requires Products(lines) <= db.products.Keys && j <= |lines|
  {
    MakeItems(PricesOf(db, lines), lines)[..j]
  }

  lemma NoLinesYet(db: Db, lines: seq<Entry>)
    requires Products(lines) <= db.products.Keys
    ensures SoldRows(db, lines, 0) == db.products && SomeItems(db, lines, 0) == []
  {
    assert Narrow(lines)[..0] == [];
  }

  lemma AllLinesDone(db: Db, lines: seq<Entry>)
    requires Products(lines) <= db.products.Keys
    ensures SoldRows(db, lines, |lines|) == db.products + Sold(db, Narrow(lines))
    ensures SomeItems(db, lines, |lines|) == MakeItems(PricesOf(db, lines), lines)
  {
    assert Narrow(lines)[..|lines|] == Narrow(lines);
  }

  /** Line `j`'s item row. */
  lemma NextItem(db: Db, lines: seq<Entry>, j: nat)
    requires Products(lines) <= db.products.Keys && j < |lines|
    ensures lines[j].product in PricesOf(db, lines)
    ensures SomeItems(db, lines, j + 1)
         == SomeItems(db, lines, j) + [MakeItem(PricesOf(db, lines)[lines[j].product], lines[j])]
  {
    assert lines[j] in lines;
    var all := MakeItems(PricesOf(db, lines), lines);
    assert all[..j + 1] == all[..j] + [all[j]];
  }

  lemma NarrowAt(lines: seq<Entry>, j: nat)
    requires j < |lines|
    ensures Narrow(lines)[j] == Entry(lines[j].product, Wrap32(lines[j].amount))
  {
  }

  lemma ProductAt(lines: seq<Entry>, j: nat)
    requires j < |lines|
    ensures lines[j].product in Products(lines)
  {
    assert lines[j] in lines;
  }

  /** Line `j`'s decrement. */
  lemma NextDecrement(db: Db, lines: seq<Entry>, j: nat)
    requires Products(lines) <= db.products.Keys && j < |lines|
    ensures var p := lines[j].product;
      && p in db.products && p in SoldRows(db, lines, j)
      && var row := SoldRows(db, lines, j)[p];
      && row.stock == db.products[p].stock - Total(Narrow(lines)[..j], p)
      && SoldRows(db, lines, j + 1)
         == SoldRows(db, lines, j)[p := row.(stock := row.stock - Wrap32(lines[j].amount))]
  {
    hide Sold;
    hide Narrow;
    hide Products;
    hide Total;
    var es, p := Narrow(lines), lines[j].product;
    assert es[j] == Entry(p, Wrap32(lines[j].amount)) by { NarrowAt(lines, j); }
    assert p in db.products by { ProductAt(lines, j); }
    SoldNext(db, es, j);
    var row := (db.products + Sold(db, es[..j]))[p];
    UpdateRow(db.products, Sold(db, es[..j]), p, row.(stock := row.stock - es[j].amount));
  }

  lemma WellFormedQuantity(price: int, line: Entry)
    requires LineWellFormed(price, line)
    ensures 0 < Wrap32(line.amount)
  {
  }

  /** What line `j`'s two statements report: the item's constraints decide first,
      then the stock that the earlier lines left over. */
  lemma LineReports(db: Db, lines: seq<Entry>, j: nat)
    requires Products(lines) <= db.products.Keys && j < |lines|
    ensures var p := lines[j].product;
      && p in PricesOf(db, lines) && p in SoldRows(db, lines, j)
      && LineCheck(db, lines, j)
         == (if !LineWellFormed(PricesOf(db, lines)[p], lines[j]) then Some(CheckViolation)
             else if SoldRows(db, lines, j)[p].stock < Wrap32(lines[j].amount) then Some(InsufficientStock)
             else None)
  {
    assert lines[j] in lines;
    NextDecrement(db, lines, j);
  }

  /** The first line that fails is the one reported. */
  lemma LineFails(db: Db, lines: seq<Entry>, j: nat)
    requires Products(lines) <= db.products.Keys && j < |lines|
    requires LinesPassed(db, lines, j) && LineCheck(db, lines, j).Some?
    ensures FirstError(LineChecks(db, lines)) == LineCheck(db, lines, j)
  {
    FirstErrorIs(LineChecks(db, lines), j);
  }

  lemma LinesFail(db: Db, o: OrderId, lines: seq<Entry>, j: nat)
    requires FirstError(LockChecks(db, lines)).None?
    requires Products(lines) <= db.products.Keys && j < |lines|
    requires 0 <= OrderTotal(db, lines) && o !in db.orders && o !in db.items
    requires LinesPassed(db, lines, j) && LineCheck(db, lines, j).Some?
    ensures PlaceVerdict(db, o, lines) == LineCheck(db, lines, j)
  {
    LineFails(db, lines, j);
  }

  lemma LinesAll(db: Db, lines: seq<Entry>)
    requires Products(lines) <= db.products.Keys
    requires LinesPassed(db, lines, |lines|)
    ensures FirstError(LineChecks(db, lines)).None?
  {
    FirstErrorIs(LineChecks(db, lines), |lines|);
  }

  /** All the lines and the payment make up the whole write set. */
  lemma PartialIsWhole(db: Db, o: OrderId, user: UserId, lines: seq<Entry>, total: int)
    requires Products(lines) <= db.products.Keys
    ensures PartialWrites(db, o, user, lines, total, |lines|, |lines|)
            .(payments := map[o := Payment(total, Awaiting, None)])
         == PlaceWrites(db, o, user, lines, total)
  {
    assert Narrow(lines)[..|lines|] == Narrow(lines);
    var items := MakeItems(PricesOf(db, lines), lines);
    assert items[..|lines|] == items;
  }

  // ---- Putting stock back line by line ----

  ghost predicate SortedByProduct(es: seq<Entry>) {
    forall i, j :: 0 <= i < j < |es| ==> es[i].product <= es[j].product
  }

  lemma RestockedNext(db: Db, es: seq<Entry>, k: nat)
    requires k < |es| && es[k].product in db.products
    ensures var p := es[k].product;
      var row := db.products[p].(stock := db.products[p].stock + Total(es[..k], p));
      && (db.products + Restocked(db, es[..k]))[p] == row
      && Restocked(db, es[..k + 1]) == Restocked(db, es[..k])[p := row.(stock := row.stock + es[k].amount)]
  {
    hide Total;
    hide Products;
    StockAfterRestock(db, es[..k], es[k].product);
    forall q ensures Total(es[..k + 1], q) == Total(es[..k], q) + Share(es[k], q)
             ensures Products(es[..k + 1]) == Products(es[..k]) + {es[k].product}
    {
      TotalPrefix(es, k, q);
    }
  }

  /** What putting back entry `j`, after the earlier ones, reports. */
  function RestockLine(db: Db, es: seq<Entry>, j: nat): Option<Error>
    requires j < |es|
  {
    var p := es[j].product;
    if p !in db.products then Some(ProductNotFound)
    else if db.products[p].stock + Total(es[..j], p) + es[j].amount > MAX_INT32 then Some(OutOfRange)
    else None
  }

  ghost predicate RestockPassed(db: Db, es: seq<Entry>, j: nat)
    requires j <= |es|
  {
    forall k :: 0 <= k < j ==> RestockLine(db, es, k).None?
  }

  /** A product whose last entry is among the first `j` passes its check. */
  lemma RestockProductPassed(db: Db, es: seq<Entry>, j: nat, p: ProductId)
    requires j <= |es| && RestockPassed(db, es, j)
    requires p in Products(es) && forall k :: j <= k < |es| ==> es[k].product != p
    ensures RestockCheck(db, es, p).None?
  {
    var m := LastLine(es, p);
    assert m < j;
    LastLineTotal(es, m, p);
    TotalPrefix(es, m, p);
    assert RestockLine(db, es, m).None?;
  }

  /** Entry `j`'s failure is its product's failure. */
  lemma RestockLineIsProduct(db: Db, es: seq<Entry>, j: nat)
    requires j < |es| && AllPositive(es) && RestockLine(db, es, j).Some?
    ensures RestockCheck(db, es, es[j].product) == RestockLine(db, es, j)
  {
    TotalPrefix(es, j, es[j].product);
    TotalMonotone(es, j + 1, |es|, es[j].product);
    assert es[..|es|] == es;
  }

  /** Going through sorted entries one by one, the first one that cannot be put
      back reports what the check per distinct product reports. */
  lemma RestockFails(db: Db, es: seq<Entry>, j: nat)
    requires j < |es| && SortedByProduct(es) && AllPositive(es)
    requires RestockPassed(db, es, j) && RestockLine(db, es, j).Some?
    ensures FirstError(RestockChecks(db, es)) == RestockLine(db, es, j)
  {
    hide RestockLine;
    hide RestockCheck;
    hide AllPositive;
    var ids, p := LockOrder(es), es[j].product;
    assert es[j] in es;
    assert p in ids;
    var n :| 0 <= n < |ids| && ids[n] == p;
    forall i | 0 <= i < n ensures RestockChecks(db, es)[i].None? {
      assert ids[i] in Products(es);
      RestockProductPassed(db, es, j, ids[i]);
    }
    RestockLineIsProduct(db, es, j);
    FirstErrorIs(RestockChecks(db, es), n);
  }

  lemma RestockAll(db: Db, es: seq<Entry>)
    requires RestockPassed(db, es, |es|)
    ensures FirstError(RestockChecks(db, es)).None?
  {
    var ids := LockOrder(es);
    forall i | 0 <= i < |ids| ensures RestockChecks(db, es)[i].None? {
      assert ids[i] in Products(es);
      RestockProductPassed(db, es, |es|, ids[i]);
    }
    FirstErrorIs(RestockChecks(db, es), |ids|);
  }

  /** The verdict and the restocked rows do not depend on the order in which the
      database returned the item rows. */
  lemma RestockPermuted(db: Db, a: seq<Entry>, b: seq<Entry>)
    requires multiset(a) == multiset(b)
    ensures RestockChecks(db, a) == RestockChecks(db, b)
    ensures Restocked(db, a) == Restocked(db, b)
  {
    hide RestockChecks;
    hide Restocked;
    hide Products;
    hide Total;
    RestockChecksPermuted(db, a, b);
    ProductsPermuted(a, b);
    forall p ensures Total(a, p) == Total(b, p) { TotalPermuted(a, b, p); }
    SameTotalsRestock(db, a, b);
  }

  lemma SameTotalsRestock(db: Db, a: seq<Entry>, b: seq<Entry>)
    requires Products(a) == Products(b) && forall p :: Total(a, p) == Total(b, p)
    ensures Restocked(db, a) == Restocked(db, b)
  {
    hide Products;
    hide Total;
  }

  lemma RestockChecksPermuted(db: Db, a: seq<Entry>, b: seq<Entry>)
    requires multiset(a) == multiset(b)
    ensures RestockChecks(db, a) == RestockChecks(db, b)
  {
    LockOrderPermuted(a, b);
    forall i | 0 <= i < |LockOrder(a)| ensures RestockChecks(db, a)[i] == RestockChecks(db, b)[i] {
      TotalPermuted(a, b, LockOrder(a)[i]);
    }
  }

  lemma StoredWithout(items: seq<Item>, i: nat)
    requires i < |items|
    ensures multiset(Stored(items))
         == multiset(Stored(items[..i] + items[i + 1..])) + multiset{Entry(items[i].product, items[i].quantity)}
  {
    var front, back, e := items[..i], items[i + 1..], Entry(items[i].product, items[i].quantity);
    assert Stored(front + back) == Stored(front) + Stored(back);
    assert Stored(items) == Stored(front) + [e] + Stored(back);
  }

  lemma Without<T>(s: seq<T>, i: nat)
    requires i < |s|
    ensures multiset(s) == multiset(s[..i] + s[i + 1..]) + multiset{s[i]}
  {
    assert s == s[..i] + [s[i]] + s[i + 1..];
  }

  /** Taking one equal element out of each leaves equal multisets. */
  lemma BothWithout<T>(a: seq<T>, b: seq<T>, i: nat)
    requires a != [] && i < |b| && b[i] == a[0] && multiset(a) == multiset(b)
    ensures multiset(a[1..]) == multiset(b[..i] + b[i + 1..])
  {
    Without(b, i);
    assert a == [a[0]] + a[1..];
    assert multiset(a[1..]) == multiset(a) - multiset{a[0]};
    assert multiset(b[..i] + b[i + 1..]) == multiset(b) - multiset{a[0]};
  }

  lemma {:induction false} StoredPermuted(a: seq<Item>, b: seq<Item>)
    requires multiset(a) == multiset(b)
    ensures multiset(Stored(a)) == multiset(Stored(b))
    decreases |a|
  {
    hide Stored;
    if a == [] {
      assert |multiset(b)| == |b|;
      assert b == [];
    } else {
      assert a[0] in multiset(b);
      var i :| 0 <= i < |b| && b[i] == a[0];
      BothWithout(a, b, i);
      StoredPermuted(a[1..], b[..i] + b[i + 1..]);
      assert a[..0] + a[1..] == a[1..];
      StoredWithout(a, 0);
      StoredWithout(b, i);
    }
  }

  /** The product rows once the first `k` entries are back. */
  function RestockedRows(db: Db, es: seq<Entry>, k: nat): map<ProductId, Product>
    requires k <= |es|
  {
    db.products + Restocked(db, es[..k])
  }

  /** What putting back entry `j` finds and leaves. */
  lemma NextIncrement(db: Db, es: seq<Entry>, j: nat)
    requires j < |es|
    ensures var p := es[j].product;
      && (p in RestockedRows(db, es, j) <==> p in db.products)
      && RestockLine(db, es, j)
         == (if p !in RestockedRows(db, es, j) then Some(ProductNotFound)
             else if RestockedRows(db, es, j)[p].stock + es[j].amount > MAX_INT32 then Some(OutOfRange)
             else None)
      && (p in db.products ==>
            var row := RestockedRows(db, es, j)[p];
            RestockedRows(db, es, j + 1) == RestockedRows(db, es, j)[p := row.(stock := row.stock + es[j].amount)])
  {
    hide Restocked;
    hide Total;
    var p := es[j].product;
    RestockedKeys(db, es[..j]);
    if p in db.products {
      RestockedNext(db, es, j);
      var row := (db.products + Restocked(db, es[..j]))[p];
      UpdateRow(db.products, Restocked(db, es[..j]), p, row.(stock := row.stock + es[j].amount));
    }
  }

  lemma RestockedKeys(db: Db, es: seq<Entry>)
    ensures (db.products + Restocked(db, es)).Keys == db.products.Keys
  {
  }

  lemma NothingBackYet(db: Db, es: seq<Entry>)
    ensures RestockedRows(db, es, 0) == db.products
  {
  }

  lemma AllBack(db: Db, es: seq<Entry>)
    ensures RestockedRows(db, es, |es|) == db.products + Restocked(db, es)
  {
    assert es[..|es|] == es;
  }
}
