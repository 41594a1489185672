/** What concurrent runs guarantee about an order from the moment it is placed,
    between any two moments of any interleaving. */
module Lifetimes {
  import opened Tally
  import opened Schema
  import opened Atomic
  import opened Runs
  import opened Outcomes
  import opened Machine
  import opened System
  import opened Serializability

  /** Every moment of a run is the end of a run. */
  lemma AtMoment(trace: seq<Sys>, acts: seq<Action>, pool: nat, n: nat)
    requires IsRun(trace, acts, pool) && n <= |acts|
    ensures SysInv(trace[0].db, trace[n])
  {
    hide Follows;
    hide SysInv;
    assert IsRun(trace[..n + 1], acts[..n], pool) by {
      forall i | 0 <= i < n ensures Follows(trace[..n + 1][i], acts[..n][i], trace[..n + 1][i + 1], pool) {
        assert Follows(trace[i], acts[i], trace[i + 1], pool);
      }
    }
    Serializable(trace[..n + 1], acts[..n], pool);
  }

  lemma ActionAddsToLog(s: Sys, a: Action, s': Sys, pool: nat)
    requires Follows(s, a, s', pool)
    ensures s.log <= s'.log
  {
    hide Step;
    hide Execute;
    hide Blocked;
  }

  lemma {:induction false} LogGrows(trace: seq<Sys>, acts: seq<Action>, pool: nat, m: nat, n: nat)
    requires IsRun(trace, acts, pool) && m <= n <= |acts|
    ensures trace[m].log <= trace[n].log
    decreases n - m
  {
    hide Follows;
    if m < n {
      LogGrows(trace, acts, pool, m, n - 1);
      ActionAddsToLog(trace[n - 1], acts[n - 1], trace[n], pool);
    }
  }

  /** A history continues from where its prefix ended. */
  lemma RunContinues(db0: Db, es: seq<Event>, k: nat, n: nat)
    requires k <= n <= |es|
    ensures Run(db0, es[..n]) == Run(Run(db0, es[..k]), es[k..n])
  {
    assert es[..k] + es[k..n] == es[..n];
    RunConcat(db0, es[..k], es[k..n]);
  }

  /** The tables of a later moment come out of those of an earlier one by a serial
      history. */
  lemma LaterTables(trace: seq<Sys>, acts: seq<Action>, pool: nat, m: nat, n: nat) returns (es: seq<Event>)
    requires IsRun(trace, acts, pool) && m <= n <= |acts|
    ensures trace[n].db == Run(trace[m].db, es)
  {
    AtMoment(trace, acts, pool, m);
    AtMoment(trace, acts, pool, n);
    LogGrows(trace, acts, pool, m, n);
    hide IsRun;
    hide Inv;
    hide Serial;
    hide Recorded;
    hide Run;
    var all, k := Events(trace[n].log), |trace[m].log|;
    assert all[..k] == Events(trace[m].log) && all[..|all|] == all;
    es := all[k..];
    RunContinues(trace[0].db, all, k, |all|);
  }

  /** Between any two moments of any interleaving, an order keeps its owner, total,
      item rows and amount, whatever is patched, and once it is paid or cancelled
      its status and its payment row. */
  lemma OrderKept(trace: seq<Sys>, acts: seq<Action>, pool: nat, m: nat, n: nat, o: OrderId)
    requires IsRun(trace, acts, pool) && m <= n <= |acts|
    requires o in trace[m].db.orders
    ensures SameOrder(trace[m].db, trace[n].db, o) && Settled(trace[m].db, trace[n].db, o)
  {
    var es := LaterTables(trace, acts, pool, m, n);
    RunKeepsOrder(trace[m].db, es, o);
  }

  /** The shortcut for a pending order whose payment already succeeded is never
      taken: a payment that locked a pending order goes on to the charge. */
  lemma NoPendingSuccess(trace: seq<Sys>, acts: seq<Action>, pool: nat, n: nat, t: Tid)
    requires IsRun(trace, acts, pool) && n <= |acts|
    requires IsActive(trace[n], t) && trace[n].txs[t].req.PayEvent?
    requires var pc := trace[n].txs[t].local.pc; pc.LockPayment? && pc.order.status == Pending
    ensures IsTransaction(trace[n].txs[t].req)
    ensures var l := Step(trace[n].txs[t].req, trace[n].txs[t].local, trace[n].db);
      l.Active? && l.pc.UpdatePayment?
  {
    AtMoment(trace, acts, pool, n);
    hide IsRun;
    hide Serial;
    hide Recorded;
    hide Exclusive;
    hide FreshIds;
    hide Inv;
    hide Matches;
    hide Step;
    assert Known(trace[n], t);
    PendingIsCharged(trace[n].txs[t].req, trace[n].db, trace[n].txs[t].local);
  }

  lemma PendingIsCharged(req: Event, db: Db, l: Local)
    requires Inv(db) && req.PayEvent? && Matches(req, db, l)
    requires l.Active? && l.pc.LockPayment? && l.pc.order.status == Pending
    ensures Step(req, l, db).Active? && Step(req, l, db).pc.UpdatePayment?
  {
    assert OrderOk(db, req.order);
  }

  // ---- The moment at which a transaction ends ----

  lemma ActionKeeps(s: Sys, a: Action, s': Sys, pool: nat, t: Tid)
    requires Follows(s, a, s', pool) && t in s'.txs
    ensures t in s.txs && s'.txs[t].req == s.txs[t].req
    ensures s.txs[t].local.Finished? ==> s'.txs[t] == s.txs[t]
    ensures s'.txs[t].local.Finished? && !s.txs[t].local.Finished? ==>
      s'.log == s.log + [LogEntry(Some(t), s'.txs[t].req, s'.txs[t].local.outcome)]
  {
    hide Step;
    hide Execute;
    hide Blocked;
    hide CommitReply;
  }

  /** The action that ends a transaction answers, and changes the tables, as the
      closed form does on the tables of that very moment. */
  lemma EndingAction(db0: Db, s: Sys, a: Action, s': Sys, pool: nat, t: Tid)
    requires SysInv(db0, s) && SysInv(db0, s') && Follows(s, a, s', pool)
    requires t in s'.txs && s'.txs[t].local.Finished?
    requires t in s.txs && !s.txs[t].local.Finished?
    ensures s'.txs[t].req == s.txs[t].req
    ensures s'.txs[t].local.outcome == OutcomeOf(Execute(s.db, s.txs[t].req))
    ensures s'.db == After(s.db, s.txs[t].req)
  {
    hide Follows;
    hide Execute;
    hide After;
    hide Inv;
    hide Recorded;
    hide Known;
    hide Exclusive;
    hide FreshIds;
    ActionKeeps(s, a, s', pool, t);
    var n, entry := |s.log|, s'.log[|s.log|];
    assert Events(s'.log)[..n] == Events(s.log);
    assert Events(s'.log) == Events(s.log) + [entry.event];
    RunSnoc(db0, Events(s.log), entry.event);
  }

  /** Every finished transaction ended at some moment `k`, between its first
      statement and its answer: on the tables of that moment it did, alone, what
      the closed form says. */
  lemma {:induction false} EndedAt(trace: seq<Sys>, acts: seq<Action>, pool: nat, n: nat, t: Tid) returns (k: nat)
    requires IsRun(trace, acts, pool) && n <= |acts|
    requires t in trace[n].txs && trace[n].txs[t].local.Finished?
    ensures k < n && Inv(trace[k].db)
    ensures t in trace[k].txs && trace[k].txs[t].req == trace[n].txs[t].req && !trace[k].txs[t].local.Finished?
    ensures t in trace[k + 1].txs && trace[k + 1].txs[t] == trace[n].txs[t]
    ensures trace[n].txs[t].local.outcome == OutcomeOf(Execute(trace[k].db, trace[n].txs[t].req))
    ensures trace[k + 1].db == After(trace[k].db, trace[n].txs[t].req)
  {
    hide Follows;
    hide Execute;
    hide After;
    hide SysInv;
    hide FreshIds;
    if n == 0 {
      assert false;
    } else {
      ActionKeeps(trace[n - 1], acts[n - 1], trace[n], pool, t);
      if trace[n - 1].txs[t].local.Finished? {
        k := EndedAt(trace, acts, pool, n - 1, t);
      } else {
        k := n - 1;
        AtMoment(trace, acts, pool, k);
        AtMoment(trace, acts, pool, n);
        EndingAction(trace[0].db, trace[k], acts[k], trace[n], pool, t);
        InvAt(trace[0].db, trace[k]);
      }
    }
  }

  lemma InvAt(db0: Db, s: Sys)
    requires SysInv(db0, s)
    ensures Inv(s.db)
  {
  }

  // ---- Answers ----

  /** The transaction ended at moment `k` and has its answer since. */
  ghost predicate Ends(trace: seq<Sys>, k: nat, n: nat, t: Tid) {
    && k < n < |trace|
    && t in trace[k].txs && !trace[k].txs[t].local.Finished?
    && t in trace[k + 1].txs && t in trace[n].txs
    && trace[k + 1].txs[t] == trace[n].txs[t] && trace[n].txs[t].local.Finished?
  }

  /** In every interleaving: a placement that is answered with success shows the
      rows that its own end put into the tables, pending and unpaid, and the order
      stays the caller's with that total and those items. */
  lemma PlacementAnswered(trace: seq<Sys>, acts: seq<Action>, pool: nat, n: nat, t: Tid) returns (k: nat)
    requires IsRun(trace, acts, pool) && n <= |acts|
    requires t in trace[n].txs && trace[n].txs[t].req.PlaceEvent?
    requires trace[n].txs[t].local.Finished? && trace[n].txs[t].local.outcome.Ok?
    ensures Ends(trace, k, n, t)
    ensures var o, db, later := trace[n].txs[t].req.order, trace[k + 1].db, trace[n].db;
      && o !in trace[k].db.orders && o in db.orders && o in db.items && o in db.payments
      && trace[n].txs[t].local.outcome.reply == PlaceReply(o, db.orders[o], db.items[o], db.payments[o])
      && db.orders[o].user == trace[n].txs[t].req.user && db.orders[o].status == Pending
      && db.payments[o] == Payment(db.orders[o].total, Awaiting, None)
      && o in later.orders && o in later.items && later.items[o] == db.items[o]
      && later.orders[o].user == db.orders[o].user && later.orders[o].total == db.orders[o].total
  {
    hide Follows;
    hide Place;
    k := EndedAt(trace, acts, pool, n, t);
    var req := trace[n].txs[t].req;
    hide Inv;
    PlaceAnswer(trace[k].db, req.order, req.user, req.lines);
    PlaceEffect(trace[k].db, req.order, req.user, req.lines);
    OrderKept(trace, acts, pool, k + 1, n, req.order);
    ItemsKept(trace, acts, pool, n, req.order);
  }

  lemma ItemsKept(trace: seq<Sys>, acts: seq<Action>, pool: nat, n: nat, o: OrderId)
    requires IsRun(trace, acts, pool) && n <= |acts| && o in trace[n].db.orders
    ensures o in trace[n].db.items
  {
    AtMoment(trace, acts, pool, n);
    InvAt(trace[0].db, trace[n]);
  }

  /** In every interleaving, what a cancellation is answered: the row it left, which
      is the caller's, cancelled, and stays so; or the refusal that the tables of
      its end decide, of which there are three. */
  lemma CancellationAnswered(trace: seq<Sys>, acts: seq<Action>, pool: nat, n: nat, t: Tid) returns (k: nat)
    requires IsRun(trace, acts, pool) && n <= |acts|
    requires t in trace[n].txs && trace[n].txs[t].req.CancelEvent? && trace[n].txs[t].local.Finished?
    ensures Ends(trace, k, n, t)
    ensures var o, user := trace[n].txs[t].req.order, trace[n].txs[t].req.user;
      var db, after, later := trace[k].db, trace[k + 1].db, trace[n].db;
      var mine := o in db.orders && db.orders[o].user == user;
      match trace[n].txs[t].local.outcome
      case Ok(reply) =>
        && mine && db.orders[o].status == Pending
        && o in after.orders && after.orders[o] == Order(user, Cancelled, db.orders[o].total)
        && reply == CancelReply(after.orders[o])
        && o in later.orders && later.orders[o] == after.orders[o]
      case Err(e) =>
        && after == db
        && if !mine then e == OrderNotFound
           else if db.orders[o].status != Pending then e == OrderNotPending
           else e == OutOfRange
  {
    hide Follows;
    hide Cancel;
    k := EndedAt(trace, acts, pool, n, t);
    var req, db := trace[n].txs[t].req, trace[k].db;
    CancelTable(db, req.user, req.order);
    CancelOnlyOverflows(db, req.user, req.order);
    hide Inv;
    if trace[n].txs[t].local.outcome.Ok? {
      CancelAnswer(db, req.user, req.order);
      OrderKept(trace, acts, pool, k + 1, n, req.order);
    }
  }

  lemma CancelOnlyOverflows(db: Db, user: UserId, o: OrderId)
    requires Inv(db)
    ensures o in db.orders && db.orders[o].user == user && db.orders[o].status == Pending ==>
      Cancel(db, user, o).Done? || Cancel(db, user, o) == Fail(OutOfRange)
  {
    if o in db.orders && db.orders[o].user == user && db.orders[o].status == Pending {
      CancelOutcome(db, user, o);
    }
  }

  /** In every interleaving, what a payment is answered: refused exactly if the order
      is not the caller's or is cancelled; otherwise the rows it left, which are the
      caller's. */
  lemma PaymentAnswered(trace: seq<Sys>, acts: seq<Action>, pool: nat, n: nat, t: Tid) returns (k: nat)
    requires IsRun(trace, acts, pool) && n <= |acts|
    requires t in trace[n].txs && trace[n].txs[t].req.PayEvent? && trace[n].txs[t].local.Finished?
    ensures Ends(trace, k, n, t)
    ensures var o, user, outcome := trace[n].txs[t].req.order, trace[n].txs[t].req.user, trace[n].txs[t].local.outcome;
      var db, after, later := trace[k].db, trace[k + 1].db, trace[n].db;
      if !(o in db.orders && db.orders[o].user == user) then outcome == Err(OrderNotFound) && after == db
      else if db.orders[o].status == Cancelled then outcome == Err(OrderNotPayable) && after == db
      else
        && o in after.orders && o in after.payments
        && outcome == Ok(PayReply(after.payments[o], after.orders[o]))
        && o in later.orders && later.orders[o].user == user
  {
    hide Follows;
    hide Pay;
    k := EndedAt(trace, acts, pool, n, t);
    var req, db := trace[n].txs[t].req, trace[k].db;
    PayTable(db, req.user, req.order, req.charged, req.transaction);
    if req.order in db.orders { assert OrderOk(db, req.order); }
    hide Inv;
    hide OrderOk;
    if trace[n].txs[t].local.outcome.Ok? {
      PayAnswer(db, req.user, req.order, req.charged, req.transaction);
      OrderKept(trace, acts, pool, k + 1, n, req.order);
    }
  }

  /** The database on which the log's entry `i` was answered, and its answer. */
  lemma AnsweredAt(trace: seq<Sys>, acts: seq<Action>, pool: nat, n: nat, t: Tid) returns (i: nat, db: Db)
    requires IsRun(trace, acts, pool) && n <= |acts|
    requires t in trace[n].txs && trace[n].txs[t].local.Finished?
    ensures i < |trace[n].log| && trace[n].log[i].tid == Some(t)
    ensures db == Run(trace[0].db, Events(trace[n].log)[..i]) && Inv(db)
    ensures trace[n].log[i].event == trace[n].txs[t].req
    ensures trace[n].txs[t].local.outcome == OutcomeOf(Execute(db, trace[n].txs[t].req))
  {
    hide Execute;
    AtMoment(trace, acts, pool, n);
    HistoryAdmissible(trace[0].db, trace[n]);
    hide Known;
    hide Exclusive;
    hide FreshIds;
    var s := trace[n];
    i :| 0 <= i < |s.log| && s.log[i].tid == Some(t);
    db := Run(trace[0].db, Events(s.log)[..i]);
    RunKeepsInv(trace[0].db, Events(s.log)[..i]);
  }

  /** In every interleaving, a cancellation that is refused is told that there is no
      such order of the caller's, that it is not pending, or that a stock would
      leave 32 bits: never that items or products are missing. */
  lemma CancelAnswered(trace: seq<Sys>, acts: seq<Action>, pool: nat, n: nat, t: Tid)
    requires IsRun(trace, acts, pool) && n <= |acts|
    requires t in trace[n].txs && trace[n].txs[t].req.CancelEvent?
    requires trace[n].txs[t].local.Finished? && trace[n].txs[t].local.outcome.Err?
    ensures trace[n].txs[t].local.outcome.error in {OrderNotFound, OrderNotPending, OutOfRange}
  {
    var i, db := AnsweredAt(trace, acts, pool, n, t);
    var req := trace[n].txs[t].req;
    hide IsRun;
    hide RestockChecks;
    hide FirstError;
    if Owns(db, req.user, req.order) && db.orders[req.order].status == Pending {
      CancelOutcome(db, req.user, req.order);
    }
  }

  /** What a payment answers is what it leaves in the tables. */
  lemma PayLeaves(db: Db, user: UserId, o: OrderId, charged: bool, transaction: TransactionId)
    requires Pay(db, user, o, charged, transaction).Done?
    ensures var db' := Pay(db, user, o, charged, transaction).db;
      && Owns(db', user, o) && o in db'.payments
      && Pay(db, user, o, charged, transaction).reply == PayReply(db'.payments[o], db'.orders[o])
  {
    PayEffect(db, user, o, charged, transaction);
  }

  lemma PaidRepeats(db: Db, e: Event, es: seq<Event>, e': Event)
    requires e.PayEvent? && e'.PayEvent? && e'.user == e.user && e'.order == e.order
    requires Execute(db, e).Done? && Execute(db, e).reply.order.status == Paid
    ensures OutcomeOf(Execute(Run(After(db, e), es), e')) == OutcomeOf(Execute(db, e))
    ensures After(Run(After(db, e), es), e') == Run(After(db, e), es)
  {
    PayLeaves(db, e.user, e.order, e.charged, e.transaction);
    RunKeepsOrder(After(db, e), es, e.order);
  }

  /** Once a payment was answered with a paid order, every payment of that order by
      the same user that is answered later, however it overlapped, gets the same
      answer. */
  lemma PaidAnswersAgain(trace: seq<Sys>, acts: seq<Action>, pool: nat, m: nat, n: nat, t: Tid, u: Tid)
    requires IsRun(trace, acts, pool) && m <= n <= |acts|
    requires t in trace[m].txs && trace[m].txs[t].req.PayEvent? && trace[m].txs[t].local.Finished?
    requires var outcome := trace[m].txs[t].local.outcome;
      outcome.Ok? && outcome.reply.PayReply? && outcome.reply.order.status == Paid
    requires u in trace[m].txs && !trace[m].txs[u].local.Finished?
    requires u in trace[n].txs && trace[n].txs[u].local.Finished?
    requires var e, e' := trace[m].txs[t].req, trace[n].txs[u].req;
      e'.PayEvent? && e'.user == e.user && e'.order == e.order
    ensures trace[n].txs[u].local.outcome == trace[m].txs[t].local.outcome
  {
    hide Follows;
    hide System.Initial;
    hide Execute;
    hide Run;
    hide Inv;
    var i, before := AnsweredAt(trace, acts, pool, m, t);
    var j, later := AnsweredAt(trace, acts, pool, n, u);
    LogGrows(trace, acts, pool, m, n);
    NotYetLogged(trace, acts, pool, m, u);
    var es := Events(trace[n].log);
    assert Events(trace[m].log)[..i] == es[..i];
    assert es[i] == trace[m].txs[t].req && es[j] == trace[n].txs[u].req;
    LoggedPaidRepeats(trace[0].db, es, i, j);
  }

  lemma LoggedPaidRepeats(db0: Db, es: seq<Event>, i: nat, j: nat)
    requires i < j < |es| && es[i].PayEvent? && es[j].PayEvent?
    requires es[j].user == es[i].user && es[j].order == es[i].order
    requires var result := Execute(Run(db0, es[..i]), es[i]);
      result.Done? && result.reply.PayReply? && result.reply.order.status == Paid
    ensures OutcomeOf(Execute(Run(db0, es[..j]), es[j])) == OutcomeOf(Execute(Run(db0, es[..i]), es[i]))
  {
    assert es[..i + 1] == es[..i] + [es[i]];
    RunSnoc(db0, es[..i], es[i]);
    RunContinues(db0, es, i + 1, j);
    PaidRepeats(Run(db0, es[..i]), es[i], es[i + 1..j], es[j]);
  }

  lemma NotYetLogged(trace: seq<Sys>, acts: seq<Action>, pool: nat, n: nat, u: Tid)
    requires IsRun(trace, acts, pool) && n <= |acts|
    requires u in trace[n].txs && !trace[n].txs[u].local.Finished?
    ensures forall k :: 0 <= k < |trace[n].log| ==> trace[n].log[k].tid != Some(u)
  {
    AtMoment(trace, acts, pool, n);
  }

  /** A transaction can be cut off at any moment before its end: the tables and the
      answers of others stay, and the rows it held are free. */
  lemma AbortLeavesNothing(s: Sys, t: Tid, pool: nat)
    requires WellTyped(s) && Exclusive(s) && t in s.txs
    requires s.txs[t].local.Idle? || s.txs[t].local.Active?
    ensures Enabled(s, Abort(t), pool)
    ensures var s' := Next(s, Abort(t), pool);
      && s'.db == s.db && s'.log == s.log
      && (forall u :: u in s.txs && u != t ==> u in s'.txs && s'.txs[u] == s.txs[u])
      && (forall u, r :: Holds(s, t, r) ==> !Holds(s', u, r))
  {
    var s' := Next(s, Abort(t), pool);
    forall u, r | Holds(s, t, r) ensures !Holds(s', u, r) {
      if u != t { assert !Holds(s, u, r); }
    }
  }

  // ---- The pool ----

  lemma ActionTakesOne(s: Sys, a: Action, s': Sys, pool: nat)
    requires Follows(s, a, s', pool) && |Actives(s)| <= pool
    ensures |Actives(s')| <= pool
  {
    hide Step;
    hide Execute;
    hide Blocked;
    hide CommitReply;
    if a.Connect? {
      assert Actives(s') == Actives(s) + {a.t};
    } else {
      assert Actives(s') <= Actives(s);
      assert Actives(s) == Actives(s') + (Actives(s) - Actives(s'));
    }
  }

  /** No more transactions run at a time than there are connections. */
  lemma {:induction false} PoolRespected(trace: seq<Sys>, acts: seq<Action>, pool: nat, n: nat)
    requires IsRun(trace, acts, pool) && n <= |acts|
    ensures |Actives(trace[n])| <= pool
  {
    hide Follows;
    hide FreshIds;
    hide Inv;
    if n == 0 {
      assert Actives(trace[0]) == {};
    } else {
      PoolRespected(trace, acts, pool, n - 1);
      ActionTakesOne(trace[n - 1], acts[n - 1], trace[n], pool);
    }
  }
}
