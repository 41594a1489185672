/** Any number of transactions on one database, their statements interleaved
    arbitrarily under row locks and a bounded connection pool. */
module System {
  import opened Tally
  import opened Schema
  import opened Atomic
  import opened Placement
  import opened Progress
  import opened Runs
  import opened Machine
  import opened Steps
  import opened Frame

  type Tid = nat

  datatype Tx = Tx(req: Event, local: Local)

  /** One line of history: who (if not the catalogue) did what, and was told what. */
  datatype LogEntry = LogEntry(tid: Option<Tid>, event: Event, outcome: Outcome)

  datatype Sys = Sys(db: Db, txs: map<Tid, Tx>, log: seq<LogEntry>)

  datatype Action =
    | Connect(t: Tid)
    | Statement(t: Tid)
    | Commit(t: Tid)
    | Abort(t: Tid)
    | Catalogue(e: Event)

  // ---- Locks and connections ----

  predicate IsActive(s: Sys, t: Tid) {
    t in s.txs && s.txs[t].local.Active?
  }

  function Actives(s: Sys): set<Tid> {
    set t | t in s.txs && s.txs[t].local.Active?
  }

  predicate Holds(s: Sys, t: Tid, r: Row) {
    IsActive(s, t) && r in s.txs[t].local.held
  }

  ghost predicate HeldByOther(s: Sys, t: Tid, r: Row) {
    exists u :: u != t && Holds(s, u, r)
  }

  /** The transaction's next statement waits for another transaction's lock. */
  ghost predicate Blocked(s: Sys, t: Tid)
    requires IsActive(s, t) && IsTransaction(s.txs[t].req)
  {
    var r := Wants(s.txs[t].req, s.txs[t].local.pc, s.db);
    r.Some? && HeldByOther(s, t, r.value)
  }

  // ---- Actions ----

  ghost predicate WellTyped(s: Sys) {
    forall t :: t in s.txs ==> IsTransaction(s.txs[t].req)
  }

  ghost predicate Enabled(s: Sys, a: Action, pool: nat)
    requires WellTyped(s)
  {
    match a
    case Connect(t) => t in s.txs && s.txs[t].local == Idle && |Actives(s)| < pool
    case Statement(t) => IsActive(s, t) && s.txs[t].local.pc != AtCommit && !Blocked(s, t)
    case Commit(t) => IsActive(s, t) && s.txs[t].local.pc == AtCommit
    case Abort(t) => t in s.txs && (s.txs[t].local == Idle || s.txs[t].local.Active?)
    case Catalogue(e) => !IsTransaction(e) && forall t :: !Holds(s, t, ProductRow(e.product))
  }

  function SetLocal(s: Sys, t: Tid, l: Local): map<Tid, Tx>
    requires t in s.txs
  {
    s.txs[t := s.txs[t].(local := l)]
  }

  function AddToLog(s: Sys, t: Tid, l: Local): seq<LogEntry>
    requires t in s.txs
  {
    if l.Finished? then s.log + [LogEntry(Some(t), s.txs[t].req, l.outcome)] else s.log
  }

  function OutcomeOf(r: Result): Outcome {
    match r
    case Done(_, reply) => Ok(reply)
    case Fail(e) => Err(e)
  }

  ghost function Next(s: Sys, a: Action, pool: nat): Sys
    requires WellTyped(s) && Enabled(s, a, pool)
  {
    match a
    case Connect(t) => s.(txs := SetLocal(s, t, Start(s.txs[t].req)))
    case Statement(t) =>
      var l := Step(s.txs[t].req, s.txs[t].local, s.db);
      s.(txs := SetLocal(s, t, l), log := AddToLog(s, t, l))
    case Commit(t) =>
      var w := s.txs[t].local.w;
      var l := Finished(Ok(CommitReply(s.txs[t].req, s.db, w)));
      Sys(Merge(s.db, w), SetLocal(s, t, l), AddToLog(s, t, l))
    case Abort(t) => s.(txs := SetLocal(s, t, Aborted))
    case Catalogue(e) =>
      s.(db := After(s.db, e), log := s.log + [LogEntry(None, e, OutcomeOf(Execute(s.db, e)))])
  }

  lemma NextWellTyped(s: Sys, a: Action, pool: nat)
    requires WellTyped(s) && Enabled(s, a, pool)
    ensures WellTyped(Next(s, a, pool))
  {
  }

  // ---- Serial histories ----

  function Events(log: seq<LogEntry>): (es: seq<Event>)
    ensures |es| == |log|
  {
    seq(|log|, i requires 0 <= i < |log| => log[i].event)
  }

  /** Executing the log's events one after another, each alone, gives every caller
      the answer recorded for it. */
  ghost predicate Serial(db0: Db, log: seq<LogEntry>) {
    forall i :: 0 <= i < |log| ==>
      log[i].outcome == OutcomeOf(Execute(Run(db0, Events(log)[..i]), log[i].event))
  }

  lemma SerialSnoc(db0: Db, log: seq<LogEntry>, entry: LogEntry)
    requires Serial(db0, log)
    requires entry.outcome == OutcomeOf(Execute(Run(db0, Events(log)), entry.event))
    ensures Serial(db0, log + [entry])
    ensures Run(db0, Events(log + [entry])) == After(Run(db0, Events(log)), entry.event)
  {
    hide Execute;
    var es := Events(log);
    assert Events(log + [entry]) == es + [entry.event];
    RunSnoc(db0, es, entry.event);
    forall i | 0 <= i < |log + [entry]|
      ensures (log + [entry])[i].outcome
           == OutcomeOf(Execute(Run(db0, Events(log + [entry])[..i]), (log + [entry])[i].event))
    {
      if i < |log| {
        assert Events(log + [entry])[..i] == es[..i];
      } else {
        assert Events(log + [entry])[..i] == es;
      }
    }
  }

  // ---- The invariant ----

  /** No two transactions hold one row. */
  ghost predicate Exclusive(s: Sys) {
    forall t, u, r :: Holds(s, t, r) && Holds(s, u, r) ==> t == u
  }

  ghost predicate Placing(s: Sys, t: Tid, o: OrderId) {
    t in s.txs && s.txs[t].req.PlaceEvent? && s.txs[t].req.order == o
  }

  predicate Succeeded(l: Local) {
    l.Finished? && l.outcome.Ok?
  }

  /** New orders get ids that nobody else has or will get. */
  ghost predicate FreshIds(s: Sys) {
    && (forall t, u, o :: Placing(s, t, o) && Placing(s, u, o) ==> t == u)
    && (forall t, o :: Placing(s, t, o) && !Succeeded(s.txs[t].local) ==> Fresh(s.db, o))
  }

  ghost predicate Known(s: Sys, t: Tid)
    requires t in s.txs && IsTransaction(s.txs[t].req)
  {
    s.txs[t].local.Active? ==> Matches(s.txs[t].req, s.db, s.txs[t].local)
  }

  /** The log records exactly the transactions that ended, once each, with the
      answers they got. */
  ghost predicate Recorded(s: Sys) {
    && (forall i :: 0 <= i < |s.log| && s.log[i].tid.Some? ==>
          s.log[i].tid.value in s.txs
          && s.txs[s.log[i].tid.value] == Tx(s.log[i].event, Finished(s.log[i].outcome)))
    && (forall i :: 0 <= i < |s.log| && s.log[i].tid.None? ==> !IsTransaction(s.log[i].event))
    && (forall i, j :: 0 <= i < j < |s.log| && s.log[i].tid.Some? ==> s.log[i].tid != s.log[j].tid)
    && (forall t :: t in s.txs && s.txs[t].local.Finished? ==>
          exists i :: 0 <= i < |s.log| && s.log[i].tid == Some(t))
  }

  ghost predicate SysInv(db0: Db, s: Sys) {
    && WellTyped(s)
    && (forall t :: t in s.txs ==> Admissible(s.txs[t].req) && Known(s, t))
    && Inv(s.db)
    && Exclusive(s)
    && FreshIds(s)
    && Recorded(s)
    && Serial(db0, s.log)
    && s.db == Run(db0, Events(s.log))
  }

  /** Transactions not begun, on a consistent database, with new order ids. */
  ghost predicate Initial(s: Sys) {
    && Inv(s.db)
    && (forall t :: t in s.txs ==>
          IsTransaction(s.txs[t].req) && Admissible(s.txs[t].req) && s.txs[t].local == Idle)
    && FreshIds(s)
    && s.log == []
  }

  lemma InitialInv(s: Sys)
    requires Initial(s)
    ensures SysInv(s.db, s)
  {
  }
}
