/** Why a claim must be finished within the window: a run in which one key, used
    twice for the same request, places two orders. */
module Overrun {
  import opened Tally
  import opened Schema
  import opened Atomic
  import opened Runs
  import opened Machine
  import opened Steps
  import opened System
  import Liveness
  import opened Buyers
  import opened Idempotency
  import opened Protocol
  import opened ExactlyOnce
  import Serializability

  // ---- Extending runs ----

  ghost predicate Reaches(w0: World, w: World, pool: nat) {
    exists trace, moves :: Protocol.IsRun(trace, moves, pool) && trace[0] == w0 && trace[|moves|] == w
  }

  lemma StartReaches(w: World, pool: nat)
    requires Protocol.Initial(w)
    ensures Reaches(w, w, pool)
  {
    assert Protocol.IsRun([w], [], pool);
  }

  lemma MoveReaches(w0: World, w: World, m: Move, w': World, pool: nat)
    requires Reaches(w0, w, pool) && Protocol.Follows(w, m, w', pool)
    ensures Reaches(w0, w', pool)
  {
    hide Protocol.Follows;
    hide Protocol.Initial;
    var trace, moves :| Protocol.IsRun(trace, moves, pool) && trace[0] == w0 && trace[|moves|] == w;
    assert Protocol.IsRun(trace + [w'], moves + [m], pool) by {
      forall i | 0 <= i < |moves + [m]|
        ensures Protocol.Follows((trace + [w'])[i], (moves + [m])[i], (trace + [w'])[i + 1], pool)
      {
        if i < |moves| { assert Protocol.Follows(trace[i], moves[i], trace[i + 1], pool); }
      }
    }
  }

  lemma ReachedInv(w0: World, w: World, pool: nat)
    requires Reaches(w0, w, pool)
    ensures WorldInv(w0.sys.db, w)
  {
    hide WorldInv;
    var trace, moves :| Protocol.IsRun(trace, moves, pool) && trace[0] == w0 && trace[|moves|] == w;
    AlwaysInv(trace, moves, pool, |moves|);
  }

  lemma ReachedTyped(w0: World, w: World, pool: nat)
    requires Reaches(w0, w, pool)
    ensures WellTyped(w.sys) && Inv(w.sys.db)
  {
    ReachedInv(w0, w, pool);
  }

  // ---- A transaction that has the database to itself ----

  /** Nobody but `i` is running a transaction. */
  ghost predicate Alone(s: Sys, i: Tid) {
    forall t :: t != i ==> !IsActive(s, t)
  }

  /** `w'` is `w` with transaction `i` in local state `l`. */
  ghost predicate Proceeds(w: World, i: Tid, l: Local, w': World) {
    && Protocol.At(w, i)
    && w'.posts == w.posts && w'.keys == w.keys && w'.now == w.now
    && w'.sys.txs == SetLocal(w.sys, i, l)
  }

  lemma AloneIsFree(s: Sys, i: Tid)
    requires Alone(s, i) && IsActive(s, i) && IsTransaction(s.txs[i].req)
    ensures !Blocked(s, i)
  {
  }

  /** What is known of a placement that will succeed. */
  ghost predicate WillPlace(w: World, i: Tid) {
    && WellTyped(w.sys) && Inv(w.sys.db) && Protocol.At(w, i) && Alone(w.sys, i)
    && w.sys.txs[i].req.PlaceEvent? && Execute(w.sys.db, w.sys.txs[i].req).Done?
  }

  lemma PlacementWrites(db: Db, req: Event)
    requires req.PlaceEvent? && Execute(db, req).Done?
    ensures Execute(db, req).db != db
  {
    PlaceEffect(db, req.order, req.user, req.lines);
  }

  /** No statement of it ends it. */
  lemma GoesOn(db: Db, req: Event, l: Local)
    requires Inv(db) && req.PlaceEvent? && Execute(db, req).Done?
    requires l.Active? && l.pc != AtCommit && Matches(req, db, l)
    ensures Step(req, l, db).Active?
  {
    StepGood(req, db, l);
    PlacementWrites(db, req);
    hide Step;
    hide Execute;
    hide Matches;
  }

  lemma LoneStatement(w: World, i: Tid, pool: nat) returns (w': World)
    requires WillPlace(w, i) && IsActive(w.sys, i) && Known(w.sys, i) && w.sys.txs[i].local.pc != AtCommit
    ensures Protocol.Follows(w, Shop(Statement(i)), w', pool)
    ensures Proceeds(w, i, Step(w.sys.txs[i].req, w.sys.txs[i].local, w.sys.db), w')
    ensures WillPlace(w', i) && IsActive(w'.sys, i) && w'.sys.db == w.sys.db
  {
    hide Step;
    hide Execute;
    hide Inv;
    hide Matches;
    hide Blocked;
    hide Alone;
    var req, l := w.sys.txs[i].req, w.sys.txs[i].local;
    GoesOn(w.sys.db, req, l);
    AloneIsFree(w.sys, i);
    StatementAlone(w, i, pool);
    w' := Protocol.Next(w, Shop(Statement(i)), pool);
    hide Protocol.Next;
    hide Protocol.Enabled;
  }

  lemma StatementAlone(w: World, i: Tid, pool: nat)
    requires WellTyped(w.sys) && Protocol.At(w, i) && Alone(w.sys, i)
    requires System.Enabled(w.sys, Statement(i), pool)
    ensures Protocol.Enabled(w, Shop(Statement(i)), pool)
    ensures var w' := Protocol.Next(w, Shop(Statement(i)), pool);
      && Proceeds(w, i, Step(w.sys.txs[i].req, w.sys.txs[i].local, w.sys.db), w')
      && w'.sys.db == w.sys.db && Alone(w'.sys, i) && WellTyped(w'.sys)
  {
    hide Step;
    hide Blocked;
    var w' := Protocol.Next(w, Shop(Statement(i)), pool);
    forall t | t != i ensures !IsActive(w'.sys, t) { assert !IsActive(w.sys, t); }
  }

  lemma LoneCommit(w: World, i: Tid, pool: nat) returns (w': World)
    requires WillPlace(w, i) && IsActive(w.sys, i) && Known(w.sys, i) && w.sys.txs[i].local.pc == AtCommit
    ensures Protocol.Follows(w, Shop(Commit(i)), w', pool)
    ensures Placed(w, i, w')
  {
    hide Inv;
    hide Matches;
    hide Execute;
    hide CommitReply;
    CommitGood(w.sys.txs[i].req, w.sys.db, w.sys.txs[i].local);
    w' := Protocol.Next(w, Shop(Commit(i)), pool);
  }

  /** The transaction has run to its end, and nothing else has happened. */
  ghost predicate Placed(w: World, i: Tid, w': World) {
    && Protocol.At(w, i) && w.sys.txs[i].req.PlaceEvent?
    && var result := Execute(w.sys.db, w.sys.txs[i].req);
       result.Done? && Proceeds(w, i, Finished(Ok(result.reply)), w') && w'.sys.db == result.db
  }

  /** From any point of its run, a placement that has the database to itself and
      that the closed form accepts can be taken to its commit. */
  lemma {:induction false} LoneRun(w0: World, w: World, pool: nat, i: Tid) returns (w': World)
    requires Reaches(w0, w, pool) && WillPlace(w, i) && IsActive(w.sys, i)
    ensures Reaches(w0, w', pool) && Placed(w, i, w')
    decreases Liveness.Remaining(w.sys.txs[i].req, w.sys.txs[i].local, Liveness.MostItems(w.sys))
  {
    hide Reaches;
    hide Execute;
    hide Protocol.Follows;
    hide Inv;
    hide Matches;
    hide Step;
    hide Liveness.Remaining;
    assert Known(w.sys, i) by { ReachedKnown(w0, w, pool, i); }
    var req, l, b := w.sys.txs[i].req, w.sys.txs[i].local, Liveness.MostItems(w.sys);
    Liveness.MostItemsBounds(w.sys);
    Liveness.StatementsRunOut(req, w.sys.db, l, b);
    if l.pc == AtCommit {
      w' := LoneCommit(w, i, pool);
      MoveReaches(w0, w, Shop(Commit(i)), w', pool);
    } else {
      var next := LoneStatement(w, i, pool);
      MoveReaches(w0, w, Shop(Statement(i)), next, pool);
      SameMostItems(w.sys, next.sys);
      w' := LoneRun(w0, next, pool, i);
    }
  }

  lemma SameMostItems(s: Sys, s': Sys)
    requires s'.db == s.db && s'.txs.Keys == s.txs.Keys
    requires forall t :: t in s.txs ==> s'.txs[t].req == s.txs[t].req
    ensures Liveness.MostItems(s') == Liveness.MostItems(s)
  {
    assert Liveness.LineCounts(s') == Liveness.LineCounts(s);
  }

  lemma ReachedKnown(w0: World, w: World, pool: nat, i: Tid)
    requires Reaches(w0, w, pool) && i in w.sys.txs
    ensures WellTyped(w.sys) && Known(w.sys, i)
  {
    ReachedInv(w0, w, pool);
  }

  /** The same, from its beginning. */
  lemma LonePlacement(w0: World, w: World, pool: nat, i: Tid) returns (w': World)
    requires Reaches(w0, w, pool) && pool >= 1
    requires WillPlace(w, i) && w.sys.txs[i].local == Idle && w.posts[i].phase.Claimed?
    ensures Reaches(w0, w', pool) && Placed(w, i, w')
  {
    hide Execute;
    hide Reaches;
    hide Inv;
    hide Start;
    hide Protocol.Follows;
    var next := LoneConnect(w, i, pool);
    MoveReaches(w0, w, Shop(Connect(i)), next, pool);
    w' := LoneRun(w0, next, pool, i);
  }

  lemma LoneConnect(w: World, i: Tid, pool: nat) returns (w': World)
    requires WillPlace(w, i) && pool >= 1 && w.sys.txs[i].local == Idle && w.posts[i].phase.Claimed?
    ensures Protocol.Follows(w, Shop(Connect(i)), w', pool)
    ensures Proceeds(w, i, Start(w.sys.txs[i].req), w')
    ensures WillPlace(w', i) && IsActive(w'.sys, i) && w'.sys.db == w.sys.db
  {
    hide Execute;
    hide Inv;
    hide AfterLocks;
    assert Actives(w.sys) == {} by {
      forall t ensures t !in Actives(w.sys) { assert !IsActive(w.sys, t) || t == i; }
    }
    w' := Protocol.Next(w, Shop(Connect(i)), pool);
    forall t | t != i ensures !IsActive(w'.sys, t) { assert !IsActive(w.sys, t); }
  }

  // ---- Two claims on one key ----

  /** `j` has sent, with the same key, the request that `i` has a claim for. */
  ghost predicate SameRequest(w: World, i: Tid, j: Tid) {
    && i != j && Protocol.At(w, i) && Protocol.At(w, j)
    && w.posts[j].key == w.posts[i].key && w.posts[j].user == w.posts[i].user && w.posts[j].hash == w.posts[i].hash
  }

  /** From any reachable world in which a key's claim has been open for longer than
      the window, a request with the same body is granted the key as well, while
      the first claimant is still at work. */
  lemma SecondClaim(w0: World, w: World, pool: nat, i: Tid, j: Tid) returns (w': World)
    requires Reaches(w0, w, pool) && SameRequest(w, i, j)
    requires w.posts[j].phase.Arrived? && w.posts[i].phase.Claimed?
    requires Mine(w, i)
    requires var rec := w.keys[w.posts[i].key]; rec.response.None? && rec.createdAt + 30_000_000_000 < w.now
    ensures Reaches(w0, w', pool)
    ensures w'.sys == w.sys && w'.now == w.now
    ensures w'.posts == w.posts[j := w.posts[j].(phase := Claimed(w.now))]
    ensures Mine(w', i) && Mine(w', j)
  {
    assert WellTyped(w.sys) by { ReachedTyped(w0, w, pool); }
    hide Reaches;
    hide WellTyped;
    var cutoff := w.now - WINDOW;
    var w1, w2, w3 := SetPhase(w, j, Reading), SetPhase(w, j, Deciding), SetPhase(w, j, Reclaiming(cutoff));
    w' := GrantTo(w3, j);
    FindsKey(w, j, pool);
    assert Protocol.Follows(w1, Read(j), w2, pool);
    assert Protocol.Follows(w2, ReadClock(j), w3, pool);
    TakesOver(w3, j, pool);
    hide Protocol.Follows;
    MoveReaches(w0, w, Insert(j), w1, pool);
    MoveReaches(w0, w1, Read(j), w2, pool);
    MoveReaches(w0, w2, ReadClock(j), w3, pool);
    MoveReaches(w0, w3, Reclaim(j), w', pool);
  }

  lemma FindsKey(w: World, j: Tid, pool: nat)
    requires WellTyped(w.sys) && Protocol.At(w, j) && w.posts[j].phase.Arrived? && w.posts[j].key in w.keys
    ensures Protocol.Follows(w, Insert(j), SetPhase(w, j, Reading), pool)
  {
  }

  lemma TakesOver(w: World, j: Tid, pool: nat)
    requires WellTyped(w.sys) && Protocol.At(w, j) && w.posts[j].phase.Reclaiming? && Mine(w, j)
    requires Stale(w.keys[w.posts[j].key], w.posts[j].user, w.posts[j].phase.cutoff)
    ensures Protocol.Follows(w, Reclaim(j), GrantTo(w, j), pool)
  {
  }

  /** The first request of a fresh system claims its key and is then slow. */
  lemma FirstClaim(w0: World, pool: nat, i: Tid) returns (w: World)
    requires Protocol.Initial(w0) && i in w0.posts
    ensures Reaches(w0, w, pool)
    ensures w.sys == w0.sys && w.now == w0.now + WINDOW + 1
    ensures w.posts == w0.posts[i := w0.posts[i].(phase := Claimed(w0.now))]
    ensures Mine(w, i)
    ensures var rec := w.keys[w.posts[i].key]; rec.response.None? && rec.createdAt + 30_000_000_000 < w.now
  {
    StartReaches(w0, pool);
    var w1 := GrantTo(w0, i);
    w := w1.(now := w1.now + WINDOW + 1);
    assert Protocol.Follows(w0, Insert(i), w1, pool) by { hide Inv; hide FreshIds; }
    assert Protocol.Follows(w1, Tick(WINDOW + 1), w, pool) by { hide Inv; hide FreshIds; }
    hide Protocol.Follows;
    hide Reaches;
    MoveReaches(w0, w0, Insert(i), w1, pool);
    MoveReaches(w0, w1, Tick(WINDOW + 1), w, pool);
  }

  // ---- Two orders for one key ----

  /** Both requests can be served, one after the other. */
  ghost predicate BothFit(w: World, i: Tid, j: Tid) {
    && Protocol.At(w, i) && Protocol.At(w, j)
    && w.sys.txs[i].req.PlaceEvent? && w.sys.txs[j].req.PlaceEvent?
    && Execute(w.sys.db, w.sys.txs[i].req).Done?
    && Execute(After(w.sys.db, w.sys.txs[i].req), w.sys.txs[j].req).Done?
  }

  /** Two claimants of one key place an order each. */
  lemma BothPlace(w0: World, w: World, pool: nat, i: Tid, j: Tid) returns (w': World)
    requires Reaches(w0, w, pool) && pool >= 1
    requires SameRequest(w, i, j) && BothFit(w, i, j)
    requires w.posts[i].phase.Claimed? && w.posts[j].phase.Claimed?
    requires forall t :: t in w.sys.txs ==> w.sys.txs[t].local == Idle
    ensures Reaches(w0, w', pool) && w'.posts == w.posts
    ensures HasOrder(w', i) && HasOrder(w', j)
  {
    hide Reaches;
    hide Execute;
    assert WellTyped(w.sys) && Inv(w.sys.db) by { ReachedTyped(w0, w, pool); }
    var w1 := LonePlacement(w0, w, pool, i);
    assert WellTyped(w1.sys) && Inv(w1.sys.db) by { ReachedTyped(w0, w1, pool); }
    assert Alone(w1.sys, j);
    w' := LonePlacement(w0, w1, pool, j);
    assert w'.sys.txs[i] == w1.sys.txs[i] && w'.sys.txs[j].local.Finished?;
    ReachedHasOrder(w0, w', pool, i);
    ReachedHasOrder(w0, w', pool, j);
  }

  lemma ReachedHasOrder(w0: World, w: World, pool: nat, i: Tid)
    requires Reaches(w0, w, pool) && Protocol.At(w, i) && w.sys.txs[i].req.PlaceEvent?
    requires Succeeded(w.sys.txs[i].local)
    ensures HasOrder(w, i)
  {
    ReachedInv(w0, w, pool);
    hide Reaches;
    Serializability.PlacedIffAnswered(w0.sys.db, w.sys, i);
  }

  /** One key, two requests that claimed it, and both their orders in the tables;
      no response was lost. */
  ghost predicate TwoOrders(w: World, i: Tid, j: Tid) {
    && SameRequest(w, i, j) && HasOrder(w, i) && HasOrder(w, j)
    && forall x :: x in w.posts ==> !w.posts[x].phase.Lost?
  }

  /** The window is needed: from every initial world with two equal requests for one
      key that the shop can both serve, a run leads to both orders being in the
      tables. No response is lost on the way; the first claimant is only slow. */
  lemma WindowIsNeeded(w0: World, pool: nat, i: Tid, j: Tid) returns (w: World)
    requires Protocol.Initial(w0) && pool >= 1
    requires SameRequest(w0, i, j) && BothFit(w0, i, j)
    ensures Reaches(w0, w, pool) && TwoOrders(w, i, j)
  {
    hide Reaches;
    hide Execute;
    hide Inv;
    hide FreshIds;
    var w1 := FirstClaim(w0, pool, i);
    var w2 := SecondClaim(w0, w1, pool, i, j);
    assert BothFit(w2, i, j);
    assert forall t :: t in w2.sys.txs ==> w2.sys.txs[t].local == Idle;
    w := BothPlace(w0, w2, pool, i, j);
  }

  // ---- Such a world ----

  /** A shelf, and one request for a unit of product 7, sent twice with key 3. */
  function SentTwice(db: Db): World {
    var tx0, tx1 := Tx(PlaceEvent(0, 5, [Entry(7, 1)]), Idle), Tx(PlaceEvent(1, 5, [Entry(7, 1)]), Idle);
    var post := Post(3, 5, 9, Arrived);
    World(Sys(db, map[0 := tx0, 1 := tx1], []), map[], 0, map[0 := post, 1 := post], [])
  }

  lemma OneOfTwo(db: Db, p: ProductId, o: OrderId, user: UserId, lines: seq<Entry>)
    requires p in db.products && db.products[p].price == 1 && 1 <= db.products[p].stock <= 2
    requires Fresh(db, o) && Buys(lines, p, 1)
    ensures Execute(db, PlaceEvent(o, user, lines)).Done?
    ensures var after := After(db, PlaceEvent(o, user, lines));
      && p in after.products && after.products[p] == Product(1, db.products[p].stock - 1)
      && forall x :: x != o && Fresh(db, x) ==> Fresh(after, x)
  {
    hide Place;
    BuyVerdict(db, o, user, lines, p, 1);
    BuyEffect(db, o, user, lines, p, 1);
  }

  lemma SentTwiceStarts(db: Db)
    requires Inv(db) && Fresh(db, 0) && Fresh(db, 1)
    ensures Protocol.Initial(SentTwice(db))
  {
    hide Inv;
    hide Fresh;
  }

  lemma BothServed(db: Db)
    requires 7 in db.products && db.products[7] == Product(1, 2) && Fresh(db, 0) && Fresh(db, 1)
    ensures BothFit(SentTwice(db), 0, 1)
  {
    hide Execute;
    hide After;
    var lines := [Entry(7, 1)];
    OneOfTwo(db, 7, 0, 5, lines);
    OneOfTwo(After(db, PlaceEvent(0, 5, lines)), 7, 1, 5, lines);
  }

  /** With two units on the shelf and one connection, one request sent twice with
      one key ends, in some run, with two orders. */
  lemma TwoOrdersForOneKey(db: Db) returns (trace: seq<World>, moves: seq<Move>)
    requires db == EMPTY.(products := map[7 := Product(1, 2)])
    ensures Protocol.IsRun(trace, moves, 1)
    ensures trace[0] == SentTwice(db) && TwoOrders(trace[|moves|], 0, 1)
  {
    var w0 := SentTwice(db);
    SentTwiceStarts(db);
    BothServed(db);
    hide TwoOrders;
    hide BothFit;
    hide Protocol.Initial;
    hide Protocol.Follows;
    var w := WindowIsNeeded(w0, 1, 0, 1);
    trace, moves :| Protocol.IsRun(trace, moves, 1) && trace[0] == w0 && trace[|moves|] == w;
  }
}
