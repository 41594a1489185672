/** Every interleaving has the effect, and gives the answers, of running the
    transactions one after another in the order in which they ended. */
module Serializability {
  import opened Tally
  import opened Ordering
  import opened Schema
  import opened Atomic
  import opened Placement
  import opened Progress
  import opened Runs
  import opened Machine
  import opened Steps
  import opened Frame
  import opened System

  // ---- What one action of one transaction changes ----

  /** Only transaction `t` moves, to local state `l`, and only the tables' rows
      that it alone held may change with it. */
  ghost predicate Moves(s: Sys, t: Tid, l: Local, s': Sys) {
    && t in s.txs
    && !s.txs[t].local.Finished?
    && s'.txs == SetLocal(s, t, l)
    && s'.log == AddToLog(s, t, l)
    && (l.Active? ==> forall u, r :: r in l.held && u != t ==> !Holds(s, u, r))
    && (forall u :: u != t && IsActive(s, u) ==> Agree(s.db, s'.db, s.txs[u].local.held))
  }

  lemma MovesExclusive(s: Sys, t: Tid, l: Local, s': Sys)
    requires Exclusive(s) && Moves(s, t, l, s')
    ensures Exclusive(s')
  {
    hide Agree;
    forall x, y, r | Holds(s', x, r) && Holds(s', y, r) ensures x == y {
      if x != t { assert Holds(s, x, r); }
      if y != t { assert Holds(s, y, r); }
    }
  }

  lemma MovesRecorded(s: Sys, t: Tid, l: Local, s': Sys)
    requires Recorded(s) && Moves(s, t, l, s')
    requires IsTransaction(s.txs[t].req)
    ensures Recorded(s')
  {
    hide Agree;
    hide Holds;
    if l.Finished? {
      assert s'.log[|s.log|].tid == Some(t);
      forall i | 0 <= i < |s.log| ensures s.log[i].tid != Some(t) && s'.log[i] == s.log[i] {
      }
    }
    forall u | u in s'.txs && s'.txs[u].local.Finished?
      ensures exists i :: 0 <= i < |s'.log| && s'.log[i].tid == Some(u)
    {
      if u != t {
        var i :| 0 <= i < |s.log| && s.log[i].tid == Some(u);
        assert s'.log[i].tid == Some(u);
      }
    }
  }

  /** The order ids still to be used stay unused. */
  ghost predicate StillFresh(s: Sys, t: Tid, l: Local, s': Sys) {
    forall u, o :: Placing(s, u, o) && !Succeeded(s.txs[u].local) && (u != t || !Succeeded(l)) ==> Fresh(s'.db, o)
  }

  lemma MovesFresh(s: Sys, t: Tid, l: Local, s': Sys)
    requires FreshIds(s) && Moves(s, t, l, s') && StillFresh(s, t, l, s')
    ensures FreshIds(s')
  {
    hide Agree;
    hide Holds;
    hide Fresh;
    forall u, o ensures Placing(s', u, o) <==> Placing(s, u, o) {
    }
  }

  lemma MovesKnown(s: Sys, t: Tid, l: Local, s': Sys)
    requires WellTyped(s) && Moves(s, t, l, s') && StillFresh(s, t, l, s')
    requires forall u :: u in s.txs ==> Known(s, u)
    requires l.Active? ==> Matches(s.txs[t].req, s'.db, l)
    ensures WellTyped(s') && forall u :: u in s'.txs ==> Known(s', u)
  {
    hide Matches;
    hide Agree;
    hide Fresh;
    forall u | u in s'.txs ensures Known(s', u) {
      if u != t && IsActive(s, u) {
        assert Known(s, u);
        if s.txs[u].req.PlaceEvent? {
          assert Placing(s, u, s.txs[u].req.order);
        }
        MatchesFrame(s.txs[u].req, s.db, s'.db, s.txs[u].local);
      }
    }
  }

  /** The tables change as the closed form says, when the transaction ends. */
  ghost predicate EndsWell(s: Sys, t: Tid, l: Local, s': Sys)
    requires t in s.txs
  {
    if l.Finished? then
      l.outcome == OutcomeOf(Execute(s.db, s.txs[t].req)) && s'.db == After(s.db, s.txs[t].req)
    else s'.db == s.db
  }

  /** A move that ends well keeps the invariant. */
  lemma MoveKeepsInv(db0: Db, s: Sys, t: Tid, l: Local, s': Sys)
    requires SysInv(db0, s) && Moves(s, t, l, s') && StillFresh(s, t, l, s')
    requires l.Active? ==> Matches(s.txs[t].req, s'.db, l)
    requires EndsWell(s, t, l, s')
    ensures SysInv(db0, s')
  {
    hide Matches;
    hide Agree;
    hide Fresh;
    hide Holds;
    hide Exclusive;
    hide Recorded;
    hide FreshIds;
    hide StillFresh;
    hide Inv;
    hide Known;
    hide Execute;
    hide After;
    hide Serial;
    MovesExclusive(s, t, l, s');
    MovesRecorded(s, t, l, s');
    MovesFresh(s, t, l, s');
    MovesKnown(s, t, l, s');
    var req := s.txs[t].req;
    if l.Finished? {
      SerialSnoc(db0, s.log, LogEntry(Some(t), req, l.outcome));
      EventKeepsInv(s.db, req);
    }
  }

  // ---- Statements ----

  /** A statement leaves the transaction with no more than the locks it asked for. */
  lemma StepHolds(req: Event, db: Db, l: Local)
    requires IsTransaction(req) && l.Active? && l.pc != AtCommit
    ensures var l' := Step(req, l, db);
      && l' != Idle && l' != Aborted
      && (l'.Active? ==> l.held <= l'.held <= Locked(req, l, db))
  {
    hide RequestedQuantity;
    hide LockOrder;
    hide SortItems;
    hide MakeItem;
    hide LineWellFormed;
  }

  lemma SameDbAgrees(s: Sys, s': Sys)
    requires s'.db == s.db
    ensures forall u :: IsActive(s, u) ==> Agree(s.db, s'.db, s.txs[u].local.held)
  {
  }

  lemma StatementMoves(db0: Db, s: Sys, t: Tid, pool: nat)
    requires SysInv(db0, s) && Enabled(s, Statement(t), pool)
    ensures SysInv(db0, Next(s, Statement(t), pool))
  {
    var req, l0 := s.txs[t].req, s.txs[t].local;
    var l, s' := Step(req, l0, s.db), Next(s, Statement(t), pool);
    assert Known(s, t);
    StepGood(req, s.db, l0);
    StepHolds(req, s.db, l0);
    SameDbAgrees(s, s');
    StatementLocks(s, t, l);
    hide Step;
    hide Matches;
    hide Agree;
    hide Fresh;
    hide Known;
    hide Inv;
    hide Serial;
    hide Recorded;
    hide Exclusive;
    hide Execute;
    if l.Finished? { EndsUnchanged(req, s.db, l.outcome); }
    MoveKeepsInv(db0, s, t, l, s');
  }

  /** The rows a statement acquires are held by nobody else. */
  lemma StatementLocks(s: Sys, t: Tid, l: Local)
    requires WellTyped(s) && Exclusive(s) && IsActive(s, t) && !Blocked(s, t)
    requires l.Active? ==> l.held <= Locked(s.txs[t].req, s.txs[t].local, s.db)
    ensures l.Active? ==> forall u, r :: r in l.held && u != t ==> !Holds(s, u, r)
  {
    hide Wants;
    if l.Active? {
      forall u, r | r in l.held && u != t ensures !Holds(s, u, r) {
        if r in s.txs[t].local.held { assert Holds(s, t, r); }
      }
    }
  }

  lemma EndsUnchanged(req: Event, db: Db, outcome: Outcome)
    requires Answers(req, db, outcome)
    ensures outcome == OutcomeOf(Execute(db, req)) && After(db, req) == db
  {
    hide Execute;
  }

  // ---- Commit ----

  lemma MergedElsewhere(db: Db, w: Db, r: Row)
    requires match r
      case ProductRow(p) => p !in w.products
      case OrderRow(o) => o !in w.orders && o !in w.items
      case PaymentRow(o) => o !in w.payments
    ensures SameRow(db, Merge(db, w), r)
  {
  }

  lemma LineProductsHeld(lines: seq<Entry>)
    ensures forall p :: p in Products(lines) ==> ProductRow(p) in ProductRows(LockOrder(lines))
  {
    forall p | p in Products(lines) ensures ProductRow(p) in ProductRows(LockOrder(lines)) {
      assert p in LockOrder(lines);
    }
  }

  lemma ItemProductsHeld(items: seq<Item>)
    ensures forall p :: p in Products(Stored(items)) ==> ProductRow(p) in EntryRows(Stored(SortItems(items)))
  {
    SortItemsSorts(items);
    StoredPermuted(SortItems(items), items);
    ProductsPermuted(Stored(SortItems(items)), Stored(items));
    forall p | p in Products(Stored(items)) ensures ProductRow(p) in EntryRows(Stored(SortItems(items))) {
      var e :| e in Stored(SortItems(items)) && e.product == p;
    }
  }

  lemma PlaceWritesHeld(db: Db, o: OrderId, user: UserId, lines: seq<Entry>, l: Local, r: Row)
    requires PlaceMatches(o, user, lines, db, l) && l.pc == AtCommit && r !in l.held
    ensures SameRow(db, Merge(db, l.w), r)
  {
    hide SameRow;
    NarrowProducts(lines);
    LineProductsHeld(lines);
    MergedElsewhere(db, l.w, r);
  }

  lemma CancelWritesHeld(db: Db, user: UserId, o: OrderId, l: Local, r: Row)
    requires CancelMatches(user, o, db, l) && l.pc == AtCommit && r !in l.held
    ensures SameRow(db, Merge(db, l.w), r)
  {
    hide SameRow;
    ItemProductsHeld(ItemsOf(db, o));
    MergedElsewhere(db, l.w, r);
  }

  /** A commit changes only rows that the transaction holds. */
  lemma WritesHeld(req: Event, db: Db, l: Local, r: Row)
    requires IsTransaction(req) && Matches(req, db, l) && l.Active? && l.pc == AtCommit && r !in l.held
    ensures SameRow(db, Merge(db, l.w), r)
  {
    match req
    case PlaceEvent(o, user, lines) => PlaceWritesHeld(db, o, user, lines, l, r);
    case CancelEvent(user, o) => CancelWritesHeld(db, user, o, l, r);
    case PayEvent(_, _, _, _) => MergedElsewhere(db, l.w, r);
  }

  lemma CommitAgrees(s: Sys, t: Tid, s': Sys)
    requires WellTyped(s) && Exclusive(s) && IsActive(s, t) && Known(s, t) && s.txs[t].local.pc == AtCommit
    requires s'.db == Merge(s.db, s.txs[t].local.w)
    ensures forall u :: u != t && IsActive(s, u) ==> Agree(s.db, s'.db, s.txs[u].local.held)
  {
    hide Matches;
    hide SameRow;
    forall u | u != t && IsActive(s, u) ensures Agree(s.db, s'.db, s.txs[u].local.held) {
      forall r | r in s.txs[u].local.held ensures SameRow(s.db, s'.db, r) {
        assert Holds(s, u, r);
        assert !Holds(s, t, r);
        WritesHeld(s.txs[t].req, s.db, s.txs[t].local, r);
      }
    }
  }

  /** Only a placement creates an order id: its own. */
  lemma CommitFresh(s: Sys, t: Tid, l: Local, s': Sys)
    requires WellTyped(s) && Inv(s.db) && FreshIds(s)
    requires IsActive(s, t) && Known(s, t) && s.txs[t].local.pc == AtCommit
    requires Succeeded(l) && s'.db == Merge(s.db, s.txs[t].local.w)
    ensures StillFresh(s, t, l, s')
  {
    var req, w := s.txs[t].req, s.txs[t].local.w;
    forall u, o | Placing(s, u, o) && !Succeeded(s.txs[u].local) && u != t ensures Fresh(s'.db, o) {
      assert Fresh(s.db, o);
      if req.PlaceEvent? { assert Placing(s, t, req.order); }
      NewIds(req, s.db, s.txs[t].local, o);
    }
  }

  lemma NewIds(req: Event, db: Db, l: Local, o: OrderId)
    requires IsTransaction(req) && Matches(req, db, l) && l.Active? && l.pc == AtCommit
    requires Fresh(db, o) && (req.PlaceEvent? ==> o != req.order)
    ensures Fresh(Merge(db, l.w), o)
  {
    hide PlaceVerdict;
    hide CancelVerdict;
    hide ProductRows;
    hide LockOrder;
    if req.CancelEvent? { assert req.order in db.orders by { CancelCommit(db, req.user, req.order, l); } }
  }

  lemma CommitKnown(db0: Db, s: Sys, t: Tid)
    requires SysInv(db0, s) && IsActive(s, t)
    ensures Known(s, t) && Matches(s.txs[t].req, s.db, s.txs[t].local)
  {
    assert Known(s, t);
    hide Matches;
  }

  lemma CommitMoves(db0: Db, s: Sys, t: Tid, pool: nat)
    requires SysInv(db0, s) && Enabled(s, Commit(t), pool)
    ensures SysInv(db0, Next(s, Commit(t), pool))
  {
    var req, l0, s' := s.txs[t].req, s.txs[t].local, Next(s, Commit(t), pool);
    var l := s'.txs[t].local;
    hide Matches;
    hide Agree;
    hide Fresh;
    hide Inv;
    hide Serial;
    hide Recorded;
    hide Exclusive;
    hide Execute;
    hide CommitReply;
    hide Merge;
    hide StillFresh;
    hide FreshIds;
    CommitKnown(db0, s, t);
    hide Known;
    CommitAgrees(s, t, s');
    CommitFresh(s, t, l, s');
    CommitGood(req, s.db, l0);
    MoveKeepsInv(db0, s, t, l, s');
  }

  // ---- Connections and aborts ----

  lemma ConnectMoves(db0: Db, s: Sys, t: Tid, pool: nat)
    requires SysInv(db0, s) && Enabled(s, Connect(t), pool)
    ensures SysInv(db0, Next(s, Connect(t), pool))
  {
    var s' := Next(s, Connect(t), pool);
    StartMatches(s.txs[t].req, s.db);
    SameDbAgrees(s, s');
    hide Matches;
    hide Start;
    hide Agree;
    hide Fresh;
    hide Known;
    hide Inv;
    hide Serial;
    hide Recorded;
    hide Exclusive;
    MoveKeepsInv(db0, s, t, Start(s.txs[t].req), s');
  }

  lemma AbortMoves(db0: Db, s: Sys, t: Tid, pool: nat)
    requires SysInv(db0, s) && Enabled(s, Abort(t), pool)
    ensures SysInv(db0, Next(s, Abort(t), pool))
  {
    var s' := Next(s, Abort(t), pool);
    SameDbAgrees(s, s');
    hide Matches;
    hide Agree;
    hide Fresh;
    hide Known;
    hide Inv;
    hide Serial;
    hide Recorded;
    hide Exclusive;
    MoveKeepsInv(db0, s, t, Aborted, s');
  }

  // ---- The catalogue ----

  lemma CatalogueAgrees(s: Sys, e: Event, s': Sys)
    requires !IsTransaction(e) && s'.db == After(s.db, e)
    requires forall t :: !Holds(s, t, ProductRow(e.product))
    ensures forall u :: IsActive(s, u) ==> Agree(s.db, s'.db, s.txs[u].local.held)
    ensures s'.db.orders == s.db.orders && s'.db.items == s.db.items && s'.db.payments == s.db.payments
  {
    forall u | IsActive(s, u) ensures Agree(s.db, s'.db, s.txs[u].local.held) {
      forall r | r in s.txs[u].local.held ensures SameRow(s.db, s'.db, r) {
        assert Holds(s, u, r);
      }
    }
  }

  lemma CatalogueKnown(s: Sys, e: Event, s': Sys)
    requires WellTyped(s) && FreshIds(s) && forall u :: u in s.txs ==> Known(s, u)
    requires s'.txs == s.txs
    requires s'.db.orders == s.db.orders && s'.db.items == s.db.items && s'.db.payments == s.db.payments
    requires forall u :: IsActive(s, u) ==> Agree(s.db, s'.db, s.txs[u].local.held)
    ensures forall u :: u in s'.txs ==> Known(s', u)
    ensures FreshIds(s')
  {
    hide Matches;
    hide Agree;
    forall u, o ensures Placing(s', u, o) <==> Placing(s, u, o) {
    }
    forall u | u in s'.txs ensures Known(s', u) {
      assert Known(s, u);
      if IsActive(s, u) {
        if s.txs[u].req.PlaceEvent? {
          assert Placing(s, u, s.txs[u].req.order);
        }
        MatchesFrame(s.txs[u].req, s.db, s'.db, s.txs[u].local);
      }
    }
  }

  lemma CatalogueMoves(db0: Db, s: Sys, e: Event, pool: nat)
    requires SysInv(db0, s) && Enabled(s, Catalogue(e), pool)
    ensures SysInv(db0, Next(s, Catalogue(e), pool))
  {
    var s' := Next(s, Catalogue(e), pool);
    CatalogueAgrees(s, e, s');
    CatalogueKnown(s, e, s');
    EventKeepsInv(s.db, e);
    SerialSnoc(db0, s.log, LogEntry(None, e, OutcomeOf(Execute(s.db, e))));
    CatalogueRecorded(s, s', LogEntry(None, e, OutcomeOf(Execute(s.db, e))));
    hide Matches;
    hide Agree;
    hide Fresh;
    hide Known;
    hide Inv;
    hide Serial;
    hide Recorded;
    hide Execute;
    assert Exclusive(s') by {
      forall x, y, r | Holds(s', x, r) && Holds(s', y, r) ensures x == y {
        assert Holds(s, x, r) && Holds(s, y, r);
      }
    }
  }

  lemma CatalogueRecorded(s: Sys, s': Sys, entry: LogEntry)
    requires Recorded(s) && s'.txs == s.txs && s'.log == s.log + [entry]
    requires entry.tid == None && !IsTransaction(entry.event)
    ensures Recorded(s')
  {
    forall u | u in s'.txs && s'.txs[u].local.Finished?
      ensures exists i :: 0 <= i < |s'.log| && s'.log[i].tid == Some(u)
    {
      var i :| 0 <= i < |s.log| && s.log[i].tid == Some(u);
      assert s'.log[i].tid == Some(u);
    }
  }

  // ---- Runs ----

  lemma NextKeepsInv(db0: Db, s: Sys, a: Action, pool: nat)
    requires SysInv(db0, s) && Enabled(s, a, pool)
    ensures SysInv(db0, Next(s, a, pool))
  {
    match a
    case Connect(t) => ConnectMoves(db0, s, t, pool);
    case Statement(t) => StatementMoves(db0, s, t, pool);
    case Commit(t) => CommitMoves(db0, s, t, pool);
    case Abort(t) => AbortMoves(db0, s, t, pool);
    case Catalogue(e) => CatalogueMoves(db0, s, e, pool);
  }

  /** `trace` is the run of the actions `acts`: each action is enabled where it
      is taken, and leads to the next state. */
  ghost predicate IsRun(trace: seq<Sys>, acts: seq<Action>, pool: nat) {
    && |trace| == |acts| + 1
    && Initial(trace[0])
    && forall i :: 0 <= i < |acts| ==> Follows(trace[i], acts[i], trace[i + 1], pool)
  }

  ghost predicate Follows(s: Sys, a: Action, s': Sys, pool: nat) {
    WellTyped(s) && Enabled(s, a, pool) && s' == Next(s, a, pool)
  }

  lemma RunFront(trace: seq<Sys>, acts: seq<Action>, pool: nat)
    requires IsRun(trace, acts, pool) && acts != []
    ensures IsRun(trace[..|acts|], acts[..|acts| - 1], pool)
    ensures Follows(trace[|acts| - 1], acts[|acts| - 1], trace[|acts|], pool)
  {
    hide Follows;
    forall i | 0 <= i < |acts| - 1
      ensures Follows(trace[..|acts|][i], acts[..|acts| - 1][i], trace[..|acts|][i + 1], pool)
    {
      assert Follows(trace[i], acts[i], trace[i + 1], pool);
    }
  }

  /** Serializability. In every run of any number of transactions, for any pool
      size, at every moment: the committed tables are those of a serial history of
      the transactions ended so far (and catalogue changes), in which each is
      answered exactly as it was in the run; aborted ones have no effect. */
  lemma {:induction false} Serializable(trace: seq<Sys>, acts: seq<Action>, pool: nat)
    requires IsRun(trace, acts, pool)
    ensures SysInv(trace[0].db, trace[|acts|])
    ensures var s := trace[|acts|];
      && s.db == Run(trace[0].db, Events(s.log))
      && Serial(trace[0].db, s.log)
      && Recorded(s)
    decreases |acts|
  {
    if acts == [] {
      InitialInv(trace[0]);
    } else {
      RunFront(trace, acts, pool);
      Serializable(trace[..|acts|], acts[..|acts| - 1], pool);
      NextKeepsInv(trace[0].db, trace[|acts| - 1], acts[|acts| - 1], pool);
    }
  }

  // ---- What follows for concurrent runs ----

  /** The history of a run is admissible. */
  lemma HistoryAdmissible(db0: Db, s: Sys)
    requires SysInv(db0, s)
    ensures AllAdmissible(Events(s.log))
  {
    hide Inv;
    hide Serial;
    hide Known;
    forall i | 0 <= i < |s.log| ensures Admissible(Events(s.log)[i]) {
      if s.log[i].tid.Some? {
        assert Admissible(s.txs[s.log[i].tid.value].req);
      }
    }
  }

  /** An order is in the committed tables exactly when the transaction placing it
      was answered with success. */
  lemma PlacedIffAnswered(db0: Db, s: Sys, t: Tid)
    requires SysInv(db0, s) && t in s.txs && s.txs[t].req.PlaceEvent?
    ensures s.txs[t].req.order in s.db.orders <==> Succeeded(s.txs[t].local)
  {
    hide Inv;
    hide Execute;
    var o := s.txs[t].req.order;
    assert Placing(s, t, o);
    if Succeeded(s.txs[t].local) {
      var i :| 0 <= i < |s.log| && s.log[i].tid == Some(t);
      var es := Events(s.log);
      assert es[i] == s.txs[t].req;
      PlacedStays(db0, es, i);
    }
  }

  lemma PlacedStays(db0: Db, es: seq<Event>, i: nat)
    requires i < |es| && es[i].PlaceEvent? && Execute(Run(db0, es[..i]), es[i]).Done?
    ensures es[i].order in Run(db0, es).orders
  {
    hide Place;
    var e, mid := es[i], Run(db0, es[..i]);
    assert es[..i + 1] == es[..i] + [e];
    RunSnoc(db0, es[..i], e);
    PlaceEffect(mid, e.order, e.user, e.lines);
    RunConcat(db0, es[..i + 1], es[i + 1..]);
    assert es[..i + 1] + es[i + 1..] == es;
    RunKeepsOrder(Run(db0, es[..i + 1]), es[i + 1..], e.order);
  }

  lemma {:induction false} RunConcat(db: Db, a: seq<Event>, b: seq<Event>)
    ensures Run(db, a + b) == Run(Run(db, a), b)
  {
    hide After;
    if b == [] {
      assert a + b == a;
    } else {
      var c := b[..|b| - 1];
      RunConcat(db, a, c);
      assert (a + b)[..|a + b| - 1] == a + c;
    }
  }
}
