/** Any number of buyers racing for one product. */
module Race {
  import opened Ints
  import opened Tally
  import opened Schema
  import opened Atomic
  import opened Placement
  import opened Runs
  import opened Machine
  import opened System
  import opened Serializability
  import opened Steps
  import opened Liveness
  import opened Buyers

  // ---- Serial races ----

  /** How many of `n` buyers of `q` units a shelf with `stock` units serves. */
  function Served(n: nat, stock: nat, price: int, q: int): nat
    requires 1 <= q
  {
    if !Sellable(price, q) then 0 else if n <= stock / q then n else stock / q
  }

  /** `c` shares of `q` leave room for one more exactly below the quotient. */
  lemma RoomForOneMore(q: int, c: int, stock: int)
    requires 1 <= q && 0 <= c <= stock / q
    ensures q * c <= stock
    ensures q <= stock - q * c <==> c < stock / q
  {
    var d := stock / q;
    assert stock == q * d + stock % q;
    Distribute(q, c, d - c);
    if c < d { Distribute(q, 1, d - c - 1); }
  }

  lemma OneMoreServed(n: nat, stock: nat, price: int, q: int)
    requires 1 <= q
    ensures var left := stock - q * Served(n, stock, price, q);
      && 0 <= left
      && Served(n + 1, stock, price, q)
         == Served(n, stock, price, q) + (if q <= left && Sellable(price, q) then 1 else 0)
  {
    hide Sellable;
    RoomForOneMore(q, Served(n, stock, price, q), stock);
  }

  /** Events that are purchases of `q` units of `p`, with distinct new order ids. */
  ghost predicate AllBuy(db: Db, es: seq<Event>, p: ProductId, q: int) {
    && (forall i :: 0 <= i < |es| ==> es[i].PlaceEvent? && Buys(es[i].lines, p, q) && Fresh(db, es[i].order))
    && (forall i, j :: 0 <= i < j < |es| ==> es[i].order != es[j].order)
  }

  function CountDone(db: Db, es: seq<Event>): nat {
    if es == [] then 0
    else
      var front := es[..|es| - 1];
      CountDone(db, front) + (if Execute(Run(db, front), es[|es| - 1]).Done? then 1 else 0)
  }

  /** After any prefix of the race: who was served, what is left, and which ids
      are still new. */
  lemma {:induction false} SerialRace(db: Db, es: seq<Event>, n: nat, p: ProductId, q: int)
    requires n <= |es| && AllBuy(db, es, p, q) && 1 <= q <= MAX_INT64
    requires p in db.products && ProductOk(db.products[p])
    ensures var db', row := Run(db, es[..n]), db.products[p];
      && p in db'.products
      && CountDone(db, es[..n]) == Served(n, row.stock, row.price, q)
      && db'.products[p] == row.(stock := row.stock - q * Served(n, row.stock, row.price, q))
      && ProductOk(db'.products[p])
      && forall i :: n <= i < |es| ==> Fresh(db', es[i].order)
  {
    hide Execute;
    hide Sellable;
    var row := db.products[p];
    if n > 0 {
      var m := n - 1;
      SerialRace(db, es, m, p, q);
      assert es[..n][..m] == es[..m];
      var mid := Run(db, es[..m]);
      OneMoreServed(m, row.stock, row.price, q);
      OneBuyer(mid, es[m], p, q);
      forall i | n <= i < |es| ensures Fresh(Run(db, es[..n]), es[i].order) {
        assert Fresh(mid, es[i].order);
      }
      ServedMore(q, Served(m, row.stock, row.price, q));
    }
  }

  lemma ServedMore(q: int, c: int)
    ensures q * (c + 1) == q * c + q
  {
  }

  lemma OneBuyer(db: Db, e: Event, p: ProductId, q: int)
    requires e.PlaceEvent? && Buys(e.lines, p, q) && Fresh(db, e.order) && 1 <= q <= MAX_INT64
    requires p in db.products && ProductOk(db.products[p])
    ensures Execute(db, e).Done? <==> Affords(db.products[p], q)
    ensures p in After(db, e).products
    ensures After(db, e).products[p]
         == if Affords(db.products[p], q) then db.products[p].(stock := db.products[p].stock - q) else db.products[p]
    ensures forall x :: x != e.order && Fresh(db, x) ==> Fresh(After(db, e), x)
    ensures db.products[p].stock < q ==> Execute(db, e) == Fail(InsufficientStock)
  {
    hide Place;
    BuyVerdict(db, e.order, e.user, e.lines, p, q);
    if Affords(db.products[p], q) {
      BuyEffect(db, e.order, e.user, e.lines, p, q);
    }
  }

  // ---- Concurrent races ----

  /** Nobody gives up and the catalogue stands still. */
  predicate Undisturbed(acts: seq<Action>) {
    forall i :: 0 <= i < |acts| ==> Progresses(acts[i])
  }

  /** Every log entry belongs to a transaction, and no transaction aborted. */
  ghost predicate AllAnswered(s: Sys) {
    && (forall i :: 0 <= i < |s.log| ==> s.log[i].tid.Some?)
    && (forall t :: t in s.txs ==> !s.txs[t].local.Aborted?)
  }

  lemma {:induction false} UndisturbedRun(trace: seq<Sys>, acts: seq<Action>, pool: nat)
    requires IsRun(trace, acts, pool) && Undisturbed(acts)
    ensures AllAnswered(trace[|acts|])
    ensures trace[|acts|].txs.Keys == trace[0].txs.Keys
    ensures forall t :: t in trace[0].txs ==> trace[|acts|].txs[t].req == trace[0].txs[t].req
    decreases |acts|
  {
    hide Follows;
    if acts != [] {
      RunFront(trace, acts, pool);
      var n := |acts| - 1;
      UndisturbedRun(trace[..|acts|], acts[..n], pool);
      UndisturbedAction(trace[n], acts[n], trace[|acts|], pool);
    }
  }

  lemma UndisturbedAction(s: Sys, a: Action, s': Sys, pool: nat)
    requires Follows(s, a, s', pool) && Progresses(a) && AllAnswered(s)
    ensures AllAnswered(s')
    ensures s'.txs.Keys == s.txs.Keys && forall t :: t in s.txs ==> s'.txs[t].req == s.txs[t].req
  {
    hide Step;
    hide Blocked;
    hide CommitReply;
    if a.Statement? {
      StepHolds(s.txs[a.t].req, s.db, s.txs[a.t].local);
    }
  }

  /** The transactions whose order was placed. */
  ghost function Winners(s: Sys): set<Tid> {
    set t | t in s.txs && s.txs[t].local.Finished? && s.txs[t].local.outcome.Ok?
  }

  ghost function Tids(log: seq<LogEntry>, okOnly: bool): set<Tid> {
    set i | 0 <= i < |log| && log[i].tid.Some? && (okOnly ==> log[i].outcome.Ok?) :: log[i].tid.value
  }

  function CountOk(log: seq<LogEntry>): nat {
    if log == [] then 0
    else CountOk(log[..|log| - 1]) + (if log[|log| - 1].outcome.Ok? then 1 else 0)
  }

  /** Distinct entries have distinct transactions, so counting either is the same. */
  lemma {:induction false} CountTids(log: seq<LogEntry>)
    requires forall i :: 0 <= i < |log| ==> log[i].tid.Some?
    requires forall i, j :: 0 <= i < j < |log| ==> log[i].tid != log[j].tid
    ensures |Tids(log, false)| == |log|
    ensures |Tids(log, true)| == CountOk(log)
  {
    if log != [] {
      var front, last := log[..|log| - 1], log[|log| - 1];
      CountTids(front);
      TidsSnoc(front, last, false);
      TidsSnoc(front, last, true);
      assert log == front + [last];
    }
  }

  lemma TidsSnoc(front: seq<LogEntry>, last: LogEntry, okOnly: bool)
    requires last.tid.Some?
    requires forall i :: 0 <= i < |front| ==> front[i].tid != last.tid
    ensures Tids(front + [last], okOnly)
         == Tids(front, okOnly) + (if okOnly ==> last.outcome.Ok? then {last.tid.value} else {})
    ensures last.tid.value !in Tids(front, okOnly)
  {
    var log := front + [last];
    assert log[|front|] == last;
    forall t ensures t in Tids(log, okOnly)
                <==> t in Tids(front, okOnly) + (if okOnly ==> last.outcome.Ok? then {last.tid.value} else {})
    {
      if t in Tids(front, okOnly) {
        var i :| 0 <= i < |front| && front[i].tid == Some(t) && (okOnly ==> front[i].outcome.Ok?);
        assert log[i] == front[i];
      }
    }
  }

  /** When all have ended, the log lists every transaction and every winner. */
  lemma LogIsComplete(s: Sys)
    requires Recorded(s) && AllAnswered(s)
    requires forall t :: t in s.txs ==> Ended(s.txs[t].local)
    ensures Tids(s.log, false) == s.txs.Keys && Tids(s.log, true) == Winners(s)
  {
    forall t | t in s.txs ensures t in Tids(s.log, false) && (t in Winners(s) <==> t in Tids(s.log, true)) {
      var i :| 0 <= i < |s.log| && s.log[i].tid == Some(t);
    }
  }

  lemma {:induction false} CountOkIsDone(db0: Db, log: seq<LogEntry>)
    requires Serial(db0, log)
    ensures CountOk(log) == CountDone(db0, Events(log))
  {
    hide Execute;
    if log != [] {
      var n := |log| - 1;
      var es, front := Events(log), log[..n];
      assert Events(front) == es[..n];
      assert Serial(db0, front) by {
        forall i | 0 <= i < |front|
          ensures front[i].outcome == OutcomeOf(Execute(Run(db0, Events(front)[..i]), front[i].event))
        {
          assert Events(front)[..i] == es[..i];
        }
      }
      CountOkIsDone(db0, front);
    }
  }

  /** Everyone wants `q` units of `p`. */
  ghost predicate AllWant(s: Sys, p: ProductId, q: int) {
    forall t :: t in s.txs ==> s.txs[t].req.PlaceEvent? && Buys(s.txs[t].req.lines, p, q)
  }

  lemma HistoryBuys(s0: Sys, s: Sys, p: ProductId, q: int)
    requires Initial(s0) && AllWant(s0, p, q)
    requires Recorded(s) && AllAnswered(s)
    requires s.txs.Keys == s0.txs.Keys && forall t :: t in s0.txs ==> s.txs[t].req == s0.txs[t].req
    ensures AllBuy(s0.db, Events(s.log), p, q)
  {
    hide Inv;
    hide Fresh;
    hide Buys;
    var es := Events(s.log);
    forall i | 0 <= i < |es|
      ensures es[i].PlaceEvent? && Buys(es[i].lines, p, q) && Placing(s0, s.log[i].tid.value, es[i].order)
      ensures Fresh(s0.db, es[i].order)
    {
      assert s.log[i].tid.Some?;
    }
    forall i, j | 0 <= i < j < |es| ensures es[i].order != es[j].order {
      assert Placing(s0, s.log[i].tid.value, es[i].order);
      assert Placing(s0, s.log[j].tid.value, es[j].order);
      assert s.log[i].tid != s.log[j].tid;
    }
  }

  /** The N-buyers theorem. N buyers of `q` units each race for one product, under
      any interleaving and any pool size, with nobody giving up and no catalogue
      change. When all have ended, exactly min(N, stock div q) orders were placed
      and the shelf holds the rest. (If price times quantity wraps to a negative
      total, the database accepts no order at all.) */
  lemma BuyersShareTheShelf(trace: seq<Sys>, acts: seq<Action>, pool: nat, p: ProductId, q: int)
    requires IsRun(trace, acts, pool) && Undisturbed(acts)
    requires AllWant(trace[0], p, q) && 1 <= q <= MAX_INT64
    requires p in trace[0].db.products
    requires forall t :: t in trace[|acts|].txs ==> Ended(trace[|acts|].txs[t].local)
    ensures var row, s := trace[0].db.products[p], trace[|acts|];
      && 0 <= row.stock
      && |Winners(s)| == Served(|trace[0].txs|, row.stock, row.price, q)
      && p in s.db.products
      && s.db.products[p] == row.(stock := row.stock - q * |Winners(s)|)
  {
    hide Inv;
    hide SysInv;
    hide Follows;
    hide Serial;
    hide Recorded;
    hide Sellable;
    hide AllAnswered;
    hide AllBuy;
    var s0, s := trace[0], trace[|acts|];
    var es := Events(s.log);
    Serializable(trace, acts, pool);
    UndisturbedRun(trace, acts, pool);
    assert ProductOk(s0.db.products[p]) by { InvProduct(s0.db, p); }
    HistoryBuys(s0, s, p, q);
    SerialRace(s0.db, es, |es|, p, q);
    assert es[..|es|] == es;
    LogIsComplete(s);
    AllDistinct(s);
    CountTids(s.log);
    CountOkIsDone(s0.db, s.log);
    assert |s0.txs| == |s0.txs.Keys| == |s.log|;
  }

  lemma InvProduct(db: Db, p: ProductId)
    requires Inv(db) && p in db.products
    ensures ProductOk(db.products[p])
  {
  }

  lemma AllDistinct(s: Sys)
    requires Recorded(s) && AllAnswered(s)
    ensures forall i :: 0 <= i < |s.log| ==> s.log[i].tid.Some?
    ensures forall i, j :: 0 <= i < j < |s.log| ==> s.log[i].tid != s.log[j].tid
  {
  }

  /** Everybody else was refused, and for lack of stock. */
  lemma LosersRefused(trace: seq<Sys>, acts: seq<Action>, pool: nat, p: ProductId, q: int, t: Tid)
    requires IsRun(trace, acts, pool) && Undisturbed(acts)
    requires AllWant(trace[0], p, q) && 1 <= q <= MAX_INT64
    requires p in trace[0].db.products && Sellable(trace[0].db.products[p].price, q)
    requires t in trace[|acts|].txs && Ended(trace[|acts|].txs[t].local) && t !in Winners(trace[|acts|])
    ensures trace[|acts|].txs[t].local == Finished(Err(InsufficientStock))
  {
    hide Inv;
    hide SysInv;
    hide Follows;
    hide Sellable;
    hide Execute;
    hide AllBuy;
    var s0, s := trace[0], trace[|acts|];
    var es := Events(s.log);
    Serializable(trace, acts, pool);
    UndisturbedRun(trace, acts, pool);
    assert ProductOk(s0.db.products[p]) by { InvProduct(s0.db, p); }
    HistoryBuys(s0, s, p, q);
    assert s.txs[t].local.Finished?;
    var i :| 0 <= i < |s.log| && s.log[i].tid == Some(t);
    assert s.log[i].outcome == OutcomeOf(Execute(Run(s0.db, es[..i]), es[i]));
    SerialRace(s0.db, es, i, p, q);
    BuyAt(s0.db, es, i, p, q);
    OneBuyer(Run(s0.db, es[..i]), es[i], p, q);
  }

  lemma BuyAt(db: Db, es: seq<Event>, i: nat, p: ProductId, q: int)
    requires AllBuy(db, es, p, q) && i < |es|
    ensures es[i].PlaceEvent? && Buys(es[i].lines, p, q)
  {
  }
}
