/** Transactions never wait for each other in a circle, and every run of finitely
    many of them ends. */
module Liveness {
  import opened Ints
  import opened Tally
  import opened Ordering
  import opened Schema
  import opened Atomic
  import opened Placement
  import opened Progress
  import opened Runs
  import opened Sums
  import opened Machine
  import opened Steps
  import opened System
  import opened Serializability

  // ---- The lock order ----

  /** Order rows come before product rows by id, which come before payment rows. */
  predicate Below(a: Row, b: Row) {
    match (a, b)
    case (OrderRow(_), ProductRow(_)) => true
    case (OrderRow(_), PaymentRow(_)) => true
    case (ProductRow(_), PaymentRow(_)) => true
    case (ProductRow(p), ProductRow(q)) => p < q
    case _ => false
  }

  lemma LockProductBelow(o: OrderId, user: UserId, lines: seq<Entry>, db: Db, l: Local, h: Row)
    requires PlaceMatches(o, user, lines, db, l) && l.pc.LockProduct? && h in l.held
    ensures l.pc.i < |LockOrder(lines)| && Below(h, ProductRow(LockOrder(lines)[l.pc.i]))
  {
    hide Priced;
    var ids, i := LockOrder(lines), l.pc.i;
    var p :| p in ids[..i] && h == ProductRow(p);
    var k :| 0 <= k < i && ids[k] == p;
    assert Ascending(ids);
  }

  lemma LockItemBelow(user: UserId, o: OrderId, db: Db, l: Local, h: Row)
    requires CancelMatches(user, o, db, l) && l.pc.LockItemProduct? && h in l.held
    requires l.pc.j < |l.pc.items| && ProductRow(l.pc.items[l.pc.j].product) !in l.held
    ensures Below(h, ProductRow(l.pc.items[l.pc.j].product))
  {
    hide RestockPassed;
    hide Restocked;
    hide SortItems;
    hide EntryRows;
    SortItemsSorts(ItemsOf(db, o));
    if h != OrderRow(o) { EarlierRowBelow(l.pc.items, l.pc.j, h); }
  }

  lemma EarlierRowBelow(items: seq<Item>, j: nat, h: Row)
    requires j < |items| && ItemsSorted(items)
    requires h in EntryRows(Stored(items)[..j])
    requires ProductRow(items[j].product) !in EntryRows(Stored(items)[..j])
    ensures Below(h, ProductRow(items[j].product))
  {
    var e :| e in Stored(items)[..j] && h == ProductRow(e.product);
    var k :| 0 <= k < j && Stored(items)[k] == e;
    assert items[k].product <= items[j].product;
  }

  /** A row that must still be waited for comes after every row already held.
      Inserted rows are exempt: nobody else can hold them. */
  lemma HeldBelowWanted(req: Event, db: Db, l: Local, h: Row)
    requires IsTransaction(req) && Matches(req, db, l) && l.Active?
    requires !l.pc.InsertOrder? && !l.pc.InsertPayment?
    requires Wants(req, l.pc, db).Some? && Wants(req, l.pc, db).value !in l.held
    requires h in l.held
    ensures Below(h, Wants(req, l.pc, db).value)
  {
    match req
    case PlaceEvent(o, user, lines) =>
      LineRowsHeld(o, user, lines, db, l);
      LockProductBelow(o, user, lines, db, l, h);
    case CancelEvent(user, o) =>
      IncreaseHeld(user, o, db, l);
      LockItemBelow(user, o, db, l, h);
    case PayEvent(_, _, _, _) =>
  }

  /** The product rows that the lines touch are held since the locking loop. */
  lemma LineRowsHeld(o: OrderId, user: UserId, lines: seq<Entry>, db: Db, l: Local)
    requires PlaceMatches(o, user, lines, db, l)
    ensures l.pc.InsertItem? || l.pc.DecreaseStock? ==>
      l.pc.j < |lines| && ProductRow(lines[l.pc.j].product) in l.held
    ensures l.pc == AtCommit || l.pc.InsertItem? || l.pc.DecreaseStock? || l.pc.LockProduct?
      || l.pc.InsertOrder? || l.pc.InsertPayment?
  {
    hide Priced;
    hide PlaceVerdict;
    hide PlaceWrites;
    hide LockOrder;
    hide ProductRows;
    if l.pc.InsertItem? || l.pc.DecreaseStock? {
      LineRowHeld(lines, l.pc.j);
    }
  }

  lemma IncreaseHeld(user: UserId, o: OrderId, db: Db, l: Local)
    requires CancelMatches(user, o, db, l)
    ensures l.pc.IncreaseStock? ==> l.pc.j < |l.pc.items| && ProductRow(l.pc.items[l.pc.j].product) in l.held
  {
    hide RestockPassed;
    hide Restocked;
    hide SortItems;
    if l.pc.IncreaseStock? {
      var es := Stored(l.pc.items);
      assert es[..l.pc.j + 1][l.pc.j] == es[l.pc.j];
      assert es[l.pc.j] in es[..l.pc.j + 1];
    }
  }

  /** Rows of an order that is not committed are held only by its creator. */
  lemma FreshRowsOwned(req: Event, db: Db, l: Local, o: OrderId)
    requires IsTransaction(req) && Matches(req, db, l) && l.Active?
    requires OrderRow(o) in l.held || PaymentRow(o) in l.held
    ensures o in db.orders || (req.PlaceEvent? && req.order == o)
  {
    hide Priced;
    hide PlaceVerdict;
    hide PlaceWrites;
    hide LockOrder;
    hide RestockPassed;
    hide Restocked;
    hide SortItems;
    hide RestockChecks;
    hide FirstError;
  }

  /** Inserting an order or its payment never waits. */
  lemma InsertsDoNotWait(db0: Db, s: Sys, t: Tid)
    requires SysInv(db0, s) && IsActive(s, t)
    requires s.txs[t].local.pc.InsertOrder? || s.txs[t].local.pc.InsertPayment?
    ensures !Blocked(s, t)
  {
    hide Matches;
    hide Inv;
    hide Serial;
    hide Recorded;
    var req, pc := s.txs[t].req, s.txs[t].local.pc;
    if req.PlaceEvent? {
      var o := req.order;
      assert Placing(s, t, o);
      forall u | u != t && IsActive(s, u) ensures !Holds(s, u, OrderRow(o)) && !Holds(s, u, PaymentRow(o)) {
        assert Known(s, u);
        assert s.txs[u].req.PlaceEvent? ==> Placing(s, u, s.txs[u].req.order);
        if Holds(s, u, OrderRow(o)) || Holds(s, u, PaymentRow(o)) {
          FreshRowsOwned(s.txs[u].req, s.db, s.txs[u].local, o);
        }
      }
    }
  }

  /** A blocked transaction waits for a row above all the rows it holds. */
  lemma BlockedInOrder(db0: Db, s: Sys, t: Tid)
    requires SysInv(db0, s) && IsActive(s, t) && Blocked(s, t)
    ensures forall h :: h in s.txs[t].local.held ==>
      Below(h, Wants(s.txs[t].req, s.txs[t].local.pc, s.db).value)
  {
    hide Matches;
    hide Inv;
    hide Serial;
    hide Recorded;
    hide Wants;
    hide Below;
    var req, l := s.txs[t].req, s.txs[t].local;
    var r := Wants(req, l.pc, s.db).value;
    var u :| u != t && Holds(s, u, r);
    assert !Holds(s, t, r);
    if l.pc.InsertOrder? || l.pc.InsertPayment? {
      InsertsDoNotWait(db0, s, t);
    }
    assert Known(s, t);
    forall h | h in l.held ensures Below(h, r) {
      HeldBelowWanted(req, s.db, l, h);
    }
  }

  // ---- No deadlock ----

  ghost predicate WaitsAbove(s: Sys, t: Tid, r: Row)
    requires WellTyped(s)
  {
    IsActive(s, t) && var w := Wants(s.txs[t].req, s.txs[t].local.pc, s.db); w.Some? && Below(r, w.value)
  }

  /** The transactions that want a row above `r`. */
  ghost function Above(s: Sys, r: Row): set<Tid>
    requires WellTyped(s)
  {
    set t | t in s.txs && WaitsAbove(s, t, r)
  }

  /** Following a blocked transaction to the holder of the row it wants, and so
      on, always climbs the lock order, so it arrives at one that can go on. */
  lemma {:induction false} SomeoneGoesOn(db0: Db, s: Sys, t: Tid) returns (u: Tid)
    requires SysInv(db0, s) && IsActive(s, t)
    ensures IsActive(s, u) && !Blocked(s, u)
    decreases if Wants(s.txs[t].req, s.txs[t].local.pc, s.db).Some?
              then |Above(s, Wants(s.txs[t].req, s.txs[t].local.pc, s.db).value)| else 0,
              if Blocked(s, t) then 1 else 0
  {
    hide Matches;
    hide Inv;
    hide Serial;
    hide Recorded;
    hide Wants;
    hide Known;
    if !Blocked(s, t) {
      return t;
    }
    var r := Wants(s.txs[t].req, s.txs[t].local.pc, s.db).value;
    var v :| v != t && Holds(s, v, r);
    if !Blocked(s, v) {
      return v;
    }
    BlockedInOrder(db0, s, v);
    var q := Wants(s.txs[v].req, s.txs[v].local.pc, s.db).value;
    assert v in Above(s, r) && v !in Above(s, q);
    assert Above(s, q) < Above(s, r);
    Smaller(Above(s, q), Above(s, r));
    u := SomeoneGoesOn(db0, s, v);
  }

  lemma Smaller<T>(a: set<T>, b: set<T>)
    requires a < b
    ensures |a| < |b|
  {
    assert b == a + (b - a);
  }

  predicate Ended(l: Local) {
    l.Finished? || l.Aborted?
  }

  /** The action makes a transaction progress without giving it up. */
  predicate Progresses(a: Action) {
    a.Connect? || a.Statement? || a.Commit?
  }

  /** Deadlock freedom, for any pool with at least one connection: as long as some
      transaction has not ended, some transaction can go on. */
  lemma NoDeadlock(db0: Db, s: Sys, pool: nat)
    requires SysInv(db0, s) && pool >= 1
    requires exists t :: t in s.txs && !Ended(s.txs[t].local)
    ensures exists a :: Progresses(a) && Enabled(s, a, pool)
  {
    hide Matches;
    hide Inv;
    hide Serial;
    hide Recorded;
    hide Known;
    hide Blocked;
    var t :| t in s.txs && !Ended(s.txs[t].local);
    if x :| IsActive(s, x) {
      var u := SomeoneGoesOn(db0, s, x);
      var a := if s.txs[u].local.pc == AtCommit then Commit(u) else Statement(u);
      assert Progresses(a) && Enabled(s, a, pool);
    } else {
      assert forall x :: x in s.txs ==> !IsActive(s, x);
      assert Actives(s) == {};
      assert Progresses(Connect(t)) && Enabled(s, Connect(t), pool);
    }
  }

  // ---- Termination ----

  /** No order has, or is about to get, more than `b` items. */
  ghost predicate ItemsBounded(s: Sys, b: nat) {
    && (forall o :: o in s.db.items ==> |s.db.items[o]| <= b)
    && (forall t :: t in s.txs && s.txs[t].req.PlaceEvent? ==> |s.txs[t].req.lines| <= b)
  }

  /** How many statements a transaction has left at most. */
  function Remaining(req: Event, l: Local, b: nat): int
    requires IsTransaction(req)
  {
    match l
    case Finished(_) => 0
    case Aborted => 0
    case Idle => (
      match req
      case PlaceEvent(_, _, lines) => 4 + 2 * |lines| + |LockOrder(lines)|
      case CancelEvent(_, _) => 5 + 2 * b
      case PayEvent(_, _, _, _) => 6)
    case Active(pc, _, _) => (
      var n, m := if req.PlaceEvent? then |LockOrder(req.lines)| else 0, if req.PlaceEvent? then |req.lines| else 0;
      match pc
      case LockProduct(i, _, _) => 3 + 2 * m + n - i
      case InsertOrder(_, _) => 3 + 2 * m
      case InsertItem(j, _, _) => 2 + 2 * (m - j)
      case DecreaseStock(j, _, _) => 1 + 2 * (m - j)
      case InsertPayment(_) => 2
      case LockOrderRow => 4 + 2 * b
      case ReadItems => 3 + 2 * b
      case LockItemProduct(j, items) => 2 + 2 * (|items| - j)
      case IncreaseStock(j, items) => 1 + 2 * (|items| - j)
      case MarkCancelled => 2
      case LockOrderToPay => 5
      case LockPayment(_) => 4
      case UpdatePayment(_, _) => 3
      case MarkPaid => 2
      case AtCommit => 1)
  }

  lemma PlaceRunsOut(o: OrderId, user: UserId, lines: seq<Entry>, db: Db, l: Local, b: nat)
    requires PlaceMatches(o, user, lines, db, l)
    ensures var req := PlaceEvent(o, user, lines);
      && 1 <= Remaining(req, l, b)
      && (l.pc != AtCommit ==> Remaining(req, Step(req, l, db), b) < Remaining(req, l, b))
  {
    hide Priced;
    hide PlaceVerdict;
    hide PlaceWrites;
    hide LockOrder;
    hide LockChecks;
    hide FirstError;
    hide RequestedQuantity;
    hide ProductRows;
    hide LinesPassed;
    hide MakeItem;
    hide LineWellFormed;
    hide PartialWrites;
    hide OrderTotal;
    hide PricesOf;
    hide Fresh;
    hide Wrap64;
    hide Locked;
  }

  lemma CancelRunsOut(user: UserId, o: OrderId, db: Db, l: Local, b: nat)
    requires CancelMatches(user, o, db, l) && |ItemsOf(db, o)| <= b
    ensures var req := CancelEvent(user, o);
      && 1 <= Remaining(req, l, b)
      && (l.pc != AtCommit ==> Remaining(req, Step(req, l, db), b) < Remaining(req, l, b))
  {
    hide CancelVerdict;
    hide CancelWrites;
    hide RestockPassed;
    hide Restocked;
    hide EntryRows;
    hide SortItems;
    hide Locked;
    if l.pc.ReadItems? { MergeEmpty(db); }
  }

  lemma PayRunsOut(user: UserId, o: OrderId, charged: bool, transaction: TransactionId, db: Db, l: Local, b: nat)
    requires PayMatches(user, o, charged, transaction, db, l)
    ensures var req := PayEvent(user, o, charged, transaction);
      && 1 <= Remaining(req, l, b)
      && (l.pc != AtCommit ==> Remaining(req, Step(req, l, db), b) < Remaining(req, l, b))
  {
    hide Locked;
  }

  lemma RemainingNonNegative(req: Event, db: Db, l: Local, b: nat)
    requires IsTransaction(req) && Matches(req, db, l) && l.Active?
    ensures 0 <= Remaining(req, l, b)
  {
    hide Priced;
    hide PlaceVerdict;
    hide PlaceWrites;
    hide LockOrder;
    hide LockChecks;
    hide FirstError;
    hide ProductRows;
    hide LinesPassed;
    hide PartialWrites;
    hide RestockPassed;
    hide SortItems;
  }

  /** Every statement leaves fewer to go. */
  lemma StatementsRunOut(req: Event, db: Db, l: Local, b: nat)
    requires IsTransaction(req) && Matches(req, db, l) && l.Active?
    requires forall o :: o in db.items ==> |db.items[o]| <= b
    ensures 1 <= Remaining(req, l, b)
    ensures l.pc != AtCommit ==> Remaining(req, Step(req, l, db), b) < Remaining(req, l, b)
  {
    hide PlaceMatches;
    hide CancelMatches;
    hide PayMatches;
    hide Step;
    hide Remaining;
    match req
    case PlaceEvent(o, user, lines) => PlaceRunsOut(o, user, lines, db, l, b);
    case CancelEvent(user, o) => CancelRunsOut(user, o, db, l, b);
    case PayEvent(user, o, charged, transaction) => PayRunsOut(user, o, charged, transaction, db, l, b);
  }

  function RemainingMap(s: Sys, b: nat): map<Tid, int>
    requires forall t :: t in s.txs ==> IsTransaction(s.txs[t].req)
  {
    map t | t in s.txs :: Remaining(s.txs[t].req, s.txs[t].local, b)
  }

  /** Statements left in the whole system at most. */
  ghost function Work(s: Sys, b: nat): int
    requires WellTyped(s)
  {
    MapSum(RemainingMap(s, b))
  }

  lemma WorkChanges(s: Sys, t: Tid, l: Local, s': Sys, b: nat)
    requires WellTyped(s) && t in s.txs && s'.txs == SetLocal(s, t, l)
    ensures WellTyped(s')
    ensures Work(s', b) == Work(s, b) - Remaining(s.txs[t].req, s.txs[t].local, b) + Remaining(s.txs[t].req, l, b)
  {
    hide Remaining;
    var r := Remaining(s.txs[t].req, l, b);
    assert RemainingMap(s', b) == RemainingMap(s, b)[t := r];
    SumUpdate(RemainingMap(s, b), t, r);
  }

  lemma CommitBounded(req: Event, db: Db, l: Local, b: nat)
    requires IsTransaction(req) && Matches(req, db, l) && l.Active? && l.pc == AtCommit
    requires forall o :: o in db.items ==> |db.items[o]| <= b
    requires req.PlaceEvent? ==> |req.lines| <= b
    ensures var db' := Merge(db, l.w); forall o :: o in db'.items ==> |db'.items[o]| <= b
  {
    hide PlaceVerdict;
    hide CancelVerdict;
    hide LockOrder;
    hide ProductRows;
  }

  /** The action used up work, or was the catalogue's, and added no more items
      than the bound allows. */
  ghost predicate Worked(s: Sys, a: Action, s': Sys, b: nat)
    requires WellTyped(s)
  {
    && WellTyped(s') && ItemsBounded(s', b)
    && (if a.Catalogue? then Work(s', b) == Work(s, b) else Work(s', b) < Work(s, b))
  }

  /** A transaction that has less left, while the tables stay as they are. */
  lemma LessLeft(s: Sys, a: Action, t: Tid, l: Local, s': Sys, b: nat)
    requires WellTyped(s) && ItemsBounded(s, b) && !a.Catalogue?
    requires t in s.txs && s'.txs == SetLocal(s, t, l) && s'.db == s.db
    requires Remaining(s.txs[t].req, l, b) < Remaining(s.txs[t].req, s.txs[t].local, b)
    ensures Worked(s, a, s', b)
  {
    hide Remaining;
    WorkChanges(s, t, l, s', b);
    hide Work;
  }

  lemma ConnectWorks(s: Sys, t: Tid, pool: nat, b: nat)
    requires WellTyped(s) && Enabled(s, Connect(t), pool) && ItemsBounded(s, b)
    ensures Worked(s, Connect(t), Next(s, Connect(t), pool), b)
  {
    LessLeft(s, Connect(t), t, Start(s.txs[t].req), Next(s, Connect(t), pool), b);
  }

  lemma StatementWorks(s: Sys, t: Tid, pool: nat, b: nat)
    requires WellTyped(s) && Enabled(s, Statement(t), pool) && ItemsBounded(s, b) && Known(s, t)
    ensures Worked(s, Statement(t), Next(s, Statement(t), pool), b)
  {
    hide Matches;
    hide Step;
    hide Blocked;
    hide Remaining;
    var req, l := s.txs[t].req, s.txs[t].local;
    StatementsRunOut(req, s.db, l, b);
    LessLeft(s, Statement(t), t, Step(req, l, s.db), Next(s, Statement(t), pool), b);
  }

  lemma CommitWorks(s: Sys, t: Tid, pool: nat, b: nat)
    requires WellTyped(s) && Enabled(s, Commit(t), pool) && ItemsBounded(s, b) && Known(s, t)
    ensures Worked(s, Commit(t), Next(s, Commit(t), pool), b)
  {
    hide Matches;
    hide CommitReply;
    var s' := Next(s, Commit(t), pool);
    StatementsRunOut(s.txs[t].req, s.db, s.txs[t].local, b);
    CommitBounded(s.txs[t].req, s.db, s.txs[t].local, b);
    WorkChanges(s, t, s'.txs[t].local, s', b);
    hide Work;
  }

  lemma AbortWorks(s: Sys, t: Tid, pool: nat, b: nat)
    requires WellTyped(s) && Enabled(s, Abort(t), pool) && ItemsBounded(s, b) && Known(s, t)
    ensures Worked(s, Abort(t), Next(s, Abort(t), pool), b)
  {
    hide Matches;
    if s.txs[t].local.Active? { StatementsRunOut(s.txs[t].req, s.db, s.txs[t].local, b); }
    LessLeft(s, Abort(t), t, Aborted, Next(s, Abort(t), pool), b);
  }

  lemma CatalogueWorks(s: Sys, e: Event, pool: nat, b: nat)
    requires WellTyped(s) && Enabled(s, Catalogue(e), pool) && ItemsBounded(s, b)
    ensures Worked(s, Catalogue(e), Next(s, Catalogue(e), pool), b)
  {
    hide Execute;
    hide Remaining;
    var s' := Next(s, Catalogue(e), pool);
    CatalogueAgrees(s, e, s');
    assert RemainingMap(s', b) == RemainingMap(s, b);
  }

  /** Every action of a transaction uses up work, and none adds items beyond the
      bound; catalogue changes leave the work as it is. */
  lemma ActionWorks(db0: Db, s: Sys, a: Action, pool: nat, b: nat)
    requires SysInv(db0, s) && Enabled(s, a, pool) && ItemsBounded(s, b)
    ensures Worked(s, a, Next(s, a, pool), b)
  {
    hide Inv;
    hide Serial;
    hide Recorded;
    hide Exclusive;
    hide FreshIds;
    hide Next;
    hide Blocked;
    hide Worked;
    hide ItemsBounded;
    hide Known;
    match a
    case Connect(t) => ConnectWorks(s, t, pool, b);
    case Statement(t) => StatementWorks(s, t, pool, b);
    case Commit(t) => CommitWorks(s, t, pool, b);
    case Abort(t) => AbortWorks(s, t, pool, b);
    case Catalogue(e) => CatalogueWorks(s, e, pool, b);
  }

  function CountWork(acts: seq<Action>): nat {
    if acts == [] then 0
    else CountWork(acts[..|acts| - 1]) + (if acts[|acts| - 1].Catalogue? then 0 else 1)
  }

  /** For a system whose orders have and will have at most `b` items. */
  lemma {:induction false} WorkRunsOut(trace: seq<Sys>, acts: seq<Action>, pool: nat, b: nat)
    requires IsRun(trace, acts, pool) && ItemsBounded(trace[0], b)
    ensures WellTyped(trace[0]) && WellTyped(trace[|acts|]) && ItemsBounded(trace[|acts|], b)
    ensures CountWork(acts) + Work(trace[|acts|], b) <= Work(trace[0], b)
    ensures 0 <= Work(trace[|acts|], b)
    decreases |acts|
  {
    hide Follows;
    Serializable(trace, acts, pool);
    WorkNonNegative(trace[0].db, trace[|acts|], b);
    if acts != [] {
      RunFront(trace, acts, pool);
      WorkRunsOut(trace[..|acts|], acts[..|acts| - 1], pool, b);
      Serializable(trace[..|acts|], acts[..|acts| - 1], pool);
      FollowsWorks(trace[0].db, trace[|acts| - 1], acts[|acts| - 1], trace[|acts|], pool, b);
    }
  }

  lemma FollowsWorks(db0: Db, s: Sys, a: Action, s': Sys, pool: nat, b: nat)
    requires SysInv(db0, s) && Follows(s, a, s', pool) && ItemsBounded(s, b)
    ensures WellTyped(s') && ItemsBounded(s', b)
    ensures if a.Catalogue? then Work(s', b) == Work(s, b) else Work(s', b) < Work(s, b)
  {
    ActionWorks(db0, s, a, pool, b);
  }

  lemma WorkNonNegative(db0: Db, s: Sys, b: nat)
    requires SysInv(db0, s)
    ensures 0 <= Work(s, b)
  {
    hide Matches;
    hide Inv;
    hide Serial;
    hide Recorded;
    forall t | t in s.txs ensures 0 <= Remaining(s.txs[t].req, s.txs[t].local, b) {
      assert Known(s, t);
      if s.txs[t].local.Active? {
        RemainingNonNegative(s.txs[t].req, s.db, s.txs[t].local, b);
      }
    }
    SumNonNegative(RemainingMap(s, b));
  }

  function ItemCounts(s: Sys): map<OrderId, int> {
    map o | o in s.db.items :: |s.db.items[o]|
  }

  function LineCounts(s: Sys): map<Tid, int> {
    map t | t in s.txs && s.txs[t].req.PlaceEvent? :: |s.txs[t].req.lines|
  }

  /** A number of items that no order of the system exceeds. */
  ghost function MostItems(s: Sys): nat {
    SumNonNegative(ItemCounts(s));
    SumNonNegative(LineCounts(s));
    MapSum(ItemCounts(s)) + MapSum(LineCounts(s))
  }

  lemma MostItemsBounds(s: Sys)
    ensures ItemsBounded(s, MostItems(s))
  {
    SumNonNegative(ItemCounts(s));
    SumNonNegative(LineCounts(s));
    assert forall o :: o in s.db.items ==> ItemCounts(s)[o] == |s.db.items[o]|;
    assert forall t :: t in s.txs && s.txs[t].req.PlaceEvent? ==> LineCounts(s)[t] == |s.txs[t].req.lines|;
  }

  /** Termination. In every run, however long and however scheduled, the
      transactions take no more actions than the work there was at the start; so
      by `NoDeadlock` every run that goes on as long as it can ends with all of
      them committed, refused or aborted. */
  lemma RunsEnd(trace: seq<Sys>, acts: seq<Action>, pool: nat)
    requires IsRun(trace, acts, pool)
    ensures WellTyped(trace[0]) && CountWork(acts) <= Work(trace[0], MostItems(trace[0]))
  {
    MostItemsBounds(trace[0]);
    WorkRunsOut(trace, acts, pool, MostItems(trace[0]));
  }

  /** A run that cannot go on has ended every transaction. */
  lemma StuckMeansEnded(trace: seq<Sys>, acts: seq<Action>, pool: nat)
    requires IsRun(trace, acts, pool) && pool >= 1
    requires WellTyped(trace[|acts|])
    requires forall a :: Progresses(a) ==> !Enabled(trace[|acts|], a, pool)
    ensures forall t :: t in trace[|acts|].txs ==> Ended(trace[|acts|].txs[t].local)
  {
    hide Enabled;
    var s := trace[|acts|];
    Serializable(trace, acts, pool);
    if t :| t in s.txs && !Ended(s.txs[t].local) {
      NoDeadlock(trace[0].db, s, pool);
    }
  }
}
