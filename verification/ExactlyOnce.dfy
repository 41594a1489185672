/** What idempotency keys promise over whole runs: claims do not overlap within
    the window, records are immutable, and a retried POST places no second order. */
module ExactlyOnce {
  import opened Schema
  import opened Atomic
  import opened Machine
  import opened System
  import Serializability
  import opened Idempotency
  import opened Protocol

  // ---- Claims over time ----

  /** Any two grants of one key, in any run, are more than 30 seconds apart. */
  lemma ClaimsExclusive(trace: seq<World>, moves: seq<Move>, pool: nat, n: nat, a: nat, b: nat)
    requires Protocol.IsRun(trace, moves, pool) && n <= |moves|
    requires a < b < |trace[n].grants| && trace[n].grants[a].key == trace[n].grants[b].key
    ensures trace[n].grants[a].at + 30_000_000_000 < trace[n].grants[b].at
  {
    AlwaysInv(trace, moves, pool, n);
  }

  /** Once a response is stored for a key, the key is never granted again. */
  lemma NoClaimAfterResponse(trace: seq<World>, moves: seq<Move>, pool: nat, m: nat, n: nat, k: Key)
    requires Protocol.IsRun(trace, moves, pool) && m <= n <= |moves|
    requires k in trace[m].keys && trace[m].keys[k].response.Some?
    ensures trace[m].grants <= trace[n].grants
    ensures forall b :: |trace[m].grants| <= b < |trace[n].grants| ==> trace[n].grants[b].key != k
  {
    AlwaysInv(trace, moves, pool, m);
    AlwaysInv(trace, moves, pool, n);
    RecordsKept(trace, moves, pool, m, n);
    NoNewGrant(trace[m], trace[n], k);
  }

  lemma NoNewGrant(w: World, w': World, k: Key)
    requires GrantsOk(w) && GrantsOk(w') && Later(w, w')
    requires k in w.keys && w.keys[k].response.Some?
    ensures forall b :: |w.grants| <= b < |w'.grants| ==> w'.grants[b].key != k
  {
    assert Granted(w, k);
    var a :| 0 <= a < |w.grants| && w.grants[a].key == k && w.grants[a].at == w.keys[k].createdAt;
    assert w'.grants[a] == w.grants[a];
    forall b | |w.grants| <= b < |w'.grants| ensures w'.grants[b].key != k {
      assert Backed(w', w'.grants[b]);
    }
  }

  /** Of the requests that are about to reclaim one stale claim, whichever is
      first wins, and every other one finds the request in progress. */
  lemma OneReclaimWins(trace: seq<World>, moves: seq<Move>, pool: nat, m: nat, n: nat, i: Tid, j: Tid)
    requires Protocol.IsRun(trace, moves, pool) && m < n <= |moves|
    requires moves[m] == Reclaim(i) && i in trace[m + 1].posts && trace[m + 1].posts[i].phase.Claimed?
    requires i != j && Protocol.At(trace[m], j) && Protocol.At(trace[n], j)
    requires trace[m].posts[j].key == trace[m].posts[i].key
    requires trace[m].posts[j].phase.Reclaiming? && trace[n].posts[j].phase == trace[m].posts[j].phase
    requires trace[n].posts[j].key in trace[n].keys && WellTyped(trace[n].sys)
    ensures Protocol.Next(trace[n], Reclaim(j), pool).posts[j].phase == Replied(InProgress)
  {
    AlwaysInv(trace, moves, pool, m);
    RecordsKept(trace, moves, pool, m + 1, n);
    RecordsKept(trace, moves, pool, m, n);
    assert Protocol.Follows(trace[m], moves[m], trace[m + 1], pool);
    assert PhaseOk(trace[m], j);
    ReclaimRefreshes(trace[m], i, trace[m + 1], pool);
    hide Protocol.Follows;
    hide WorldInv;
    hide PhaseOk;
    var k := trace[m].posts[i].key;
    assert trace[n].keys[k].createdAt >= trace[m].now;
  }

  lemma ReclaimRefreshes(w: World, i: Tid, w': World, pool: nat)
    requires Protocol.Follows(w, Reclaim(i), w', pool) && w'.posts[i].phase.Claimed?
    ensures w.posts[i].key in w'.keys && w'.keys[w.posts[i].key].createdAt == w.now
  {
  }

  /** A mismatch is reported only to a request whose body differs from that of
      every request that was ever granted the key; an unknown key only to another
      user; and a replayed response was saved by a request with the same key, user
      and body. */
  lemma RepliesMean(trace: seq<World>, moves: seq<Move>, pool: nat, n: nat, i: Tid)
    requires Protocol.IsRun(trace, moves, pool) && n <= |moves|
    requires i in trace[n].posts && trace[n].posts[i].phase.Replied?
    ensures var w, p := trace[n], trace[n].posts[i];
      match p.phase.claim
      case Mismatch => forall a :: 0 <= a < |w.grants| && w.grants[a].key == p.key ==>
        && w.grants[a].post in w.posts
        && w.posts[w.grants[a].post].user == p.user && w.posts[w.grants[a].post].hash != p.hash
      case KeyNotFound => forall a :: 0 <= a < |w.grants| && w.grants[a].key == p.key ==>
        w.grants[a].post in w.posts && w.posts[w.grants[a].post].user != p.user
      case Replayed(reply) => exists j :: SavedBy(w, j, p.key, p.user, p.hash, reply)
      case InProgress => exists a :: 0 <= a < |w.grants| && w.grants[a].key == p.key
      case New => false
  {
    AlwaysInv(trace, moves, pool, n);
    hide Protocol.IsRun;
    var w, p := trace[n], trace[n].posts[i];
    assert PhaseOk(w, i);
    assert Granted(w, p.key);
    forall a | 0 <= a < |w.grants| && w.grants[a].key == p.key ensures Mine(w, w.grants[a].post) {
      assert Backed(w, w.grants[a]);
    }
  }

  // ---- At most one order per key ----

  /** The request's claim has been open for longer than 30 seconds, or its order is
      placed and its response will never be saved. */
  predicate Late(w: World, i: Tid)
    requires i in w.posts
  {
    var phase := w.posts[i].phase;
    phase.Lost? || (Live(w, i) && phase.at + 30_000_000_000 < w.now)
  }

  /** No claimant of the key is late. */
  ghost predicate OnTime(w: World, k: Key) {
    forall i :: i in w.posts && w.posts[i].key == k ==> !Late(w, i)
  }

  /** The request has a claim in hand or an order in the tables. */
  predicate Engaged(w: World, i: Tid) {
    Live(w, i) || (i in w.posts && Protocol.Ordered(w, i))
  }

  ghost predicate OneEngaged(w: World, k: Key) {
    forall i, j | i in w.posts && j in w.posts && w.posts[i].key == k && w.posts[j].key == k ::
      Engaged(w, i) && Engaged(w, j) ==> i == j
  }

  /** A live claim is the latest on its key, whose response is open; a placed
      order that is no longer being served has its response in the table. */
  ghost predicate Served(w: World, i: Tid)
    requires i in w.posts
  {
    var p := w.posts[i];
    && (Live(w, i) ==> p.key in w.keys && w.keys[p.key].response.None? && w.keys[p.key].createdAt == p.phase.at)
    && (Engaged(w, i) && !Live(w, i) ==>
          p.phase.Answered? && p.key in w.keys && w.keys[p.key].response == Some(p.phase.reply))
  }

  ghost predicate Once(w: World, k: Key) {
    OneEngaged(w, k) && forall i :: i in w.posts && w.posts[i].key == k ==> Served(w, i)
  }

  // ---- Moves elsewhere ----

  /** Nothing about the key has changed. */
  ghost predicate SameAt(w: World, w': World, k: Key) {
    && SamePosts(w, w')
    && (k in w'.keys <==> k in w.keys) && (k in w.keys ==> w'.keys[k] == w.keys[k])
    && forall i :: i in w.posts && w.posts[i].key == k ==>
         w'.posts[i] == w.posts[i] && (Engaged(w', i) <==> Engaged(w, i))
  }

  lemma SameOnce(w: World, w': World, k: Key)
    requires Once(w, k) && SameAt(w, w', k)
    ensures Once(w', k)
  {
    forall i | i in w'.posts && w'.posts[i].key == k ensures Served(w', i) {
      assert Served(w, i);
    }
  }

  /** A request's own move changes its phase and its key's row at most. */
  lemma OwnMove(w: World, m: Move, w': World, pool: nat)
    requires Protocol.Follows(w, m, w', pool) && !m.Shop? && !m.Tick?
    ensures m.i in w.posts && m.i in w'.posts
    ensures w'.sys == w.sys && w'.posts == w.posts[m.i := w.posts[m.i].(phase := w'.posts[m.i].phase)]
    ensures forall x :: x != w.posts[m.i].key ==>
      (x in w'.keys <==> x in w.keys) && (x in w.keys ==> w'.keys[x] == w.keys[x])
  {
  }

  lemma ElsewhereOnce(w: World, m: Move, w': World, pool: nat, k: Key)
    requires Once(w, k) && Protocol.Follows(w, m, w', pool)
    requires !m.Shop? && !m.Tick? && m.i in w.posts && w.posts[m.i].key != k
    ensures Once(w', k)
  {
    OwnMove(w, m, w', pool);
    hide Protocol.Follows;
    hide Once;
    SameOnce(w, w', k);
  }

  lemma TickOnce(w: World, d: nat, k: Key)
    requires Once(w, k)
    ensures Once(w.(now := w.now + d), k)
  {
    hide Once;
    SameOnce(w, w.(now := w.now + d), k);
  }

  // ---- Grants ----

  /** Nobody is engaged on a key that is about to be granted. */
  lemma NobodyEngaged(db0: Db, w: World, i: Tid, j: Tid)
    requires Protocol.At(w, i) && Grantable(w, i)
    requires WorldInv(db0, w) && OnTime(w, w.posts[i].key) && Once(w, w.posts[i].key)
    requires j in w.posts && w.posts[j].key == w.posts[i].key
    ensures !Engaged(w, j)
  {
    hide SysInv;
    hide GrantsOk;
    hide ResponsesOk;
    assert PhaseOk(w, j) && Served(w, j) && !Late(w, j);
  }

  lemma GrantEngages(w: World, i: Tid, j: Tid)
    requires Protocol.At(w, i) && w.sys.txs[i].local == Idle && j in w.posts && j != i
    ensures Engaged(GrantTo(w, i), j) <==> Engaged(w, j)
    ensures Live(GrantTo(w, i), j) <==> Live(w, j)
    ensures GrantTo(w, i).posts[j] == w.posts[j]
  {
  }

  lemma GrantServes(w: World, i: Tid, j: Tid)
    requires Protocol.At(w, i) && w.sys.txs[i].local == Idle && j in w.posts && Served(w, j)
    requires w.posts[j].key == w.posts[i].key && !Engaged(w, j)
    ensures Served(GrantTo(w, i), j)
  {
    if j != i { GrantEngages(w, i, j); }
  }

  lemma GrantOnce(db0: Db, w: World, i: Tid)
    requires Protocol.At(w, i) && Grantable(w, i) && w.sys.txs[i].local == Idle
    requires WorldInv(db0, w) && OnTime(w, w.posts[i].key) && Once(w, w.posts[i].key)
    ensures Once(GrantTo(w, i), w.posts[i].key)
  {
    var w', k := GrantTo(w, i), w.posts[i].key;
    forall j | j in w.posts && w.posts[j].key == k
      ensures Served(w', j) && (j != i ==> !Engaged(w', j) && w'.posts[j] == w.posts[j])
    {
      NobodyEngaged(db0, w, i, j);
      GrantServes(w, i, j);
      if j != i { GrantEngages(w, i, j); }
    }
    hide WorldInv;
    hide OnTime;
    hide Grantable;
    hide Served;
    hide Engaged;
  }

  // ---- Other moves of the key's requests ----

  /** A move that engages nobody new and leaves the table as it is. */
  lemma QuietOnce(w: World, w': World, k: Key)
    requires Once(w, k) && SamePosts(w, w') && w'.keys == w.keys
    requires forall i :: i in w.posts && w.posts[i].key == k && Engaged(w', i) ==>
      && Engaged(w, i)
      && (Live(w', i) ==> Live(w, i) && w'.posts[i].phase.at == w.posts[i].phase.at)
      && (!Live(w', i) ==> w'.posts[i] == w.posts[i] && !Live(w, i))
    ensures Once(w', k)
  {
    forall i | i in w'.posts && w'.posts[i].key == k ensures Served(w', i) {
      assert Served(w, i);
    }
  }

  lemma SetPhaseOnce(w: World, i: Tid, phase: Phase, k: Key)
    requires Once(w, k) && Protocol.At(w, i)
    requires var w' := SetPhase(w, i, phase);
      Engaged(w', i) ==> Live(w, i) && Live(w', i) && phase.at == w.posts[i].phase.at
    ensures Once(SetPhase(w, i, phase), k)
  {
    hide Once;
    hide Served;
    var w' := SetPhase(w, i, phase);
    assert SamePosts(w, w');
    forall j | j in w.posts && j != i ensures w'.posts[j] == w.posts[j] && (Engaged(w', j) <==> Engaged(w, j)) {
    }
    QuietOnce(w, w', k);
  }

  lemma SaveOnce(w: World, i: Tid, w': World, pool: nat)
    requires WellTyped(w.sys) && Protocol.Enabled(w, Save(i), pool) && PhaseOk(w, i) && Once(w, w.posts[i].key)
    requires w' == Protocol.Next(w, Save(i), pool)
    ensures Once(w', w.posts[i].key)
  {
    SaveFrames(w, i, pool);
    hide Protocol.Next;
    hide KeysGrow;
    hide SavedKept;
    hide PhaseOk;
    hide ResponseOk;
    var k := w.posts[i].key;
    forall j | j in w.posts && j != i ensures Engaged(w', j) <==> Engaged(w, j) {
    }
    assert Engaged(w, i);
    forall j | j in w'.posts && w'.posts[j].key == k ensures Served(w', j) {
      assert Served(w, j);
    }
  }

  lemma PhaseMoveEngages(w: World, m: Move, w': World, pool: nat)
    requires WellTyped(w.sys) && Protocol.Enabled(w, m, pool) && w' == Protocol.Next(w, m, pool)
    requires m.Read? || m.ReadClock? || m.Observe? || m.Crash?
    requires m.i in w.posts && m.i in w.sys.txs && PhaseOk(w, m.i)
    ensures m.i in w'.posts && w' == SetPhase(w, m.i, w'.posts[m.i].phase)
    ensures Engaged(w', m.i) ==> Live(w, m.i) && Live(w', m.i) && w'.posts[m.i].phase.at == w.posts[m.i].phase.at
  {
  }

  lemma PhaseMoveOnce(db0: Db, w: World, m: Move, w': World, pool: nat, k: Key)
    requires WorldInv(db0, w) && Once(w, k)
    requires Protocol.Enabled(w, m, pool) && w' == Protocol.Next(w, m, pool)
    requires m.Read? || m.ReadClock? || m.Observe? || m.Crash?
    ensures Once(w', k)
  {
    var i := m.i;
    assert PhaseOk(w, i);
    hide WorldInv;
    hide Once;
    hide PhaseOk;
    PhaseMoveEngages(w, m, w', pool);
    hide Protocol.Next;
    hide Protocol.Enabled;
    SetPhaseOnce(w, i, w'.posts[i].phase, k);
  }

  lemma InsertOnce(db0: Db, w: World, i: Tid)
    requires Protocol.At(w, i) && w.posts[i].phase.Arrived?
    requires WorldInv(db0, w) && OnTime(w, w.posts[i].key) && Once(w, w.posts[i].key)
    ensures Once(if w.posts[i].key in w.keys then SetPhase(w, i, Reading) else GrantTo(w, i), w.posts[i].key)
  {
    assert PhaseOk(w, i);
    hide WorldInv;
    hide Once;
    hide OnTime;
    if w.posts[i].key in w.keys { SetPhaseOnce(w, i, Reading, w.posts[i].key); } else { GrantOnce(db0, w, i); }
  }

  lemma ReclaimOnce(db0: Db, w: World, i: Tid)
    requires Protocol.At(w, i) && w.posts[i].phase.Reclaiming? && w.posts[i].key in w.keys
    requires WorldInv(db0, w) && OnTime(w, w.posts[i].key) && Once(w, w.posts[i].key)
    ensures Once(if Stale(w.keys[w.posts[i].key], w.posts[i].user, w.posts[i].phase.cutoff)
                 then GrantTo(w, i) else SetPhase(w, i, Replied(InProgress)), w.posts[i].key)
  {
    assert PhaseOk(w, i);
    hide WorldInv;
    hide Once;
    hide OnTime;
    if Stale(w.keys[w.posts[i].key], w.posts[i].user, w.posts[i].phase.cutoff) {
      GrantOnce(db0, w, i);
    } else {
      SetPhaseOnce(w, i, Replied(InProgress), w.posts[i].key);
    }
  }

  // ---- The transaction system ----

  /** A transaction that is neither claimed for nor active does not move. */
  lemma SettledStays(w: World, a: Action, pool: nat, i: Tid)
    requires Protocol.At(w, i) && PhaseOk(w, i) && WellTyped(w.sys) && Protocol.Enabled(w, Shop(a), pool)
    requires !w.posts[i].phase.Claimed?
    ensures i in System.Next(w.sys, a, pool).txs && System.Next(w.sys, a, pool).txs[i] == w.sys.txs[i]
  {
    ActionMovesOne(w.sys, a, pool);
    hide System.Next;
    hide Blocked;
  }

  /** Actions of the transaction system engage nobody: a transaction that succeeds
      belongs to a live claim. */
  lemma ShopEngages(w: World, a: Action, w': World, pool: nat, i: Tid)
    requires WellTyped(w.sys) && Protocol.At(w, i) && PhaseOk(w, i)
    requires Protocol.Enabled(w, Shop(a), pool) && w' == Protocol.Next(w, Shop(a), pool)
    ensures Engaged(w', i) ==> Engaged(w, i)
  {
    hide System.Next;
    hide Blocked;
    if !w.posts[i].phase.Claimed? {
      SettledStays(w, a, pool, i);
    }
  }

  lemma ShopFrames(w: World, a: Action, w': World, pool: nat)
    requires WellTyped(w.sys) && Protocol.Enabled(w, Shop(a), pool) && w' == Protocol.Next(w, Shop(a), pool)
    ensures w'.posts == w.posts && w'.keys == w.keys
  {
  }

  lemma ShopOnce(db0: Db, w: World, a: Action, w': World, pool: nat, k: Key)
    requires WorldInv(db0, w) && Once(w, k)
    requires Protocol.Enabled(w, Shop(a), pool) && w' == Protocol.Next(w, Shop(a), pool)
    ensures Once(w', k)
  {
    hide Protocol.Next;
    hide Protocol.Enabled;
    hide PhaseOk;
    hide Engaged;
    hide Once;
    hide SysInv;
    hide GrantsOk;
    hide ResponsesOk;
    assert WellTyped(w.sys) by { InvTyped(db0, w); }
    ShopFrames(w, a, w', pool);
    forall i | i in w.posts ensures Engaged(w', i) ==> Engaged(w, i) {
      assert Protocol.At(w, i) && PhaseOk(w, i);
      ShopEngages(w, a, w', pool, i);
    }
    QuietOnce(w, w', k);
  }

  lemma InvTyped(db0: Db, w: World)
    requires WorldInv(db0, w)
    ensures WellTyped(w.sys)
  {
  }

  // ---- Whole runs ----

  lemma LoseIsLate(w: World, i: Tid, w': World, pool: nat)
    requires Protocol.Follows(w, Lose(i), w', pool)
    ensures i in w.posts && !OnTime(w', w.posts[i].key)
  {
    assert Late(w', i);
  }

  /** A move of one of the key's own requests. */
  lemma OwnMoveOnce(db0: Db, w: World, m: Move, w': World, pool: nat)
    requires Protocol.Follows(w, m, w', pool) && !m.Shop? && !m.Tick? && m.i in w.posts
    requires WorldInv(db0, w) && Once(w, w.posts[m.i].key)
    requires OnTime(w, w.posts[m.i].key) && OnTime(w', w.posts[m.i].key)
    ensures Once(w', w.posts[m.i].key)
  {
    if m.Save? { assert PhaseOk(w, m.i); }
    hide WorldInv;
    hide Once;
    hide OnTime;
    hide PhaseOk;
    var k := w.posts[m.i].key;
    match m
    case Insert(i) => InsertOnce(db0, w, i);
    case Reclaim(i) => ReclaimOnce(db0, w, i);
    case Save(i) => SaveOnce(w, i, w', pool);
    case Lose(i) => LoseIsLate(w, i, w', pool);
    case _ => PhaseMoveOnce(db0, w, m, w', pool, k);
  }

  /** As long as the key's claimants are on time, every move keeps its orders unique. */
  lemma MoveOnce(db0: Db, w: World, m: Move, w': World, pool: nat, k: Key)
    requires WorldInv(db0, w) && Once(w, k) && OnTime(w, k)
    requires Protocol.Follows(w, m, w', pool) && OnTime(w', k)
    ensures Once(w', k)
  {
    hide WorldInv;
    hide Once;
    hide OnTime;
    hide Protocol.Next;
    hide System.Enabled;
    match m
    case Tick(d) => assert w' == w.(now := w.now + d) by { TickMoves(w, d, w', pool); } TickOnce(w, d, k);
    case Shop(a) => ShopOnce(db0, w, a, w', pool, k);
    case _ =>
      if m.i in w.posts && w.posts[m.i].key == k {
        OwnMoveOnce(db0, w, m, w', pool);
      } else {
        ElsewhereOnce(w, m, w', pool, k);
      }
  }

  lemma TickMoves(w: World, d: nat, w': World, pool: nat)
    requires Protocol.Follows(w, Tick(d), w', pool)
    ensures w' == w.(now := w.now + d)
  {
  }

  ghost predicate AlwaysOnTime(trace: seq<World>, n: nat, k: Key)
    requires n < |trace|
  {
    forall i :: 0 <= i <= n ==> OnTime(trace[i], k)
  }

  lemma {:induction false} OnceAlways(trace: seq<World>, moves: seq<Move>, pool: nat, n: nat, k: Key)
    requires Protocol.IsRun(trace, moves, pool) && n <= |moves| && AlwaysOnTime(trace, n, k)
    ensures Once(trace[n], k)
  {
    hide WorldInv;
    hide Protocol.Follows;
    hide OnTime;
    if n == 0 {
      InitialOnce(trace[0], k);
    } else {
      OnceAlways(trace, moves, pool, n - 1, k);
      AlwaysInv(trace, moves, pool, n - 1);
      MoveOnce(trace[0].sys.db, trace[n - 1], moves[n - 1], trace[n], pool, k);
    }
  }

  lemma InitialOnce(w: World, k: Key)
    requires Protocol.Initial(w)
    ensures Once(w, k)
  {
  }

  /** The request's order is in the committed tables. */
  ghost predicate HasOrder(w: World, i: Tid) {
    Protocol.At(w, i) && w.sys.txs[i].req.PlaceEvent? && w.sys.txs[i].req.order in w.sys.db.orders
  }

  lemma HasOrderEngaged(db0: Db, w: World, i: Tid)
    requires WorldInv(db0, w) && HasOrder(w, i)
    ensures Engaged(w, i)
  {
    hide SysInv;
    hide GrantsOk;
    hide ResponsesOk;
    Serializability.PlacedIffAnswered(db0, w.sys, i);
  }

  /** Exactly once. In every run in which this key's claimants are on time, whatever
      becomes of other keys, at every moment at most one of the orders placed with
      the key is in the tables. */
  lemma OneOrderPerKey(trace: seq<World>, moves: seq<Move>, pool: nat, n: nat, i: Tid, j: Tid)
    requires Protocol.IsRun(trace, moves, pool) && n <= |moves|
    requires HasOrder(trace[n], i) && HasOrder(trace[n], j)
    requires trace[n].posts[i].key == trace[n].posts[j].key
    requires AlwaysOnTime(trace, n, trace[n].posts[i].key)
    ensures i == j
  {
    AlwaysInv(trace, moves, pool, n);
    OnceAlways(trace, moves, pool, n, trace[n].posts[i].key);
    hide Protocol.IsRun;
    hide WorldInv;
    hide Served;
    hide Engaged;
    HasOrderEngaged(trace[0].sys.db, trace[n], i);
    HasOrderEngaged(trace[0].sys.db, trace[n], j);
  }

  /** Read the other way round: a second order for one key means that some claimant
      of that key overran the window or lost its response. */
  lemma SecondOrderMeansLate(trace: seq<World>, moves: seq<Move>, pool: nat, i: Tid, j: Tid)
    requires Protocol.IsRun(trace, moves, pool) && i != j
    requires HasOrder(trace[|moves|], i) && HasOrder(trace[|moves|], j)
    requires trace[|moves|].posts[i].key == trace[|moves|].posts[j].key
    ensures exists n, x | 0 <= n <= |moves| && x in trace[n].posts ::
      trace[n].posts[x].key == trace[|moves|].posts[i].key && Late(trace[n], x)
  {
    hide Late;
    var k := trace[|moves|].posts[i].key;
    if AlwaysOnTime(trace, |moves|, k) {
      OneOrderPerKey(trace, moves, pool, |moves|, i, j);
    } else {
      var n :| 0 <= n <= |moves| && !OnTime(trace[n], k);
      var x :| x in trace[n].posts && trace[n].posts[x].key == k && Late(trace[n], x);
    }
  }

  // ---- Retries ----

  /** The request has not been answered, or was answered with the saved reply. */
  predicate Retrying(w: World, j: Tid, reply: Reply) {
    && Protocol.At(w, j)
    && var phase := w.posts[j].phase;
       phase.Arrived? || phase.Reading? || phase.Crashed? || phase == Replied(Replayed(reply))
  }

  /** The key's row carries the request's user and hash, and this response. */
  predicate Recalls(w: World, j: Tid, reply: Reply) {
    j in w.posts && Mine(w, j) && w.keys[w.posts[j].key].response == Some(reply)
  }

  /** A retry can only move towards the saved reply. */
  lemma RetryMoves(w: World, m: Move, w': World, pool: nat, j: Tid, reply: Reply)
    requires Protocol.Follows(w, m, w', pool) && Retrying(w, j, reply) && Recalls(w, j, reply)
    ensures Retrying(w', j, reply)
  {
    if m.Shop? {
      ActionMovesOne(w.sys, m.a, pool);
      hide System.Next;
      hide System.Enabled;
    } else if !m.Tick? {
      OwnMove(w, m, w', pool);
      if m.i != j { hide Protocol.Follows; }
    }
  }

  /** The saved reply is in the key's row, and is that of the placed order. */
  lemma SavedIsRecalled(trace: seq<World>, moves: seq<Move>, pool: nat, m: nat, n: nat, i: Tid)
    requires Protocol.IsRun(trace, moves, pool) && m <= n <= |moves|
    requires i in trace[m].posts && trace[m].posts[i].phase.Answered?
    requires AlwaysOnTime(trace, n, trace[m].posts[i].key)
    ensures var w, p := trace[n], trace[m].posts[i];
      && p.key in w.keys && w.keys[p.key].user == p.user && w.keys[p.key].hash == p.hash
      && w.keys[p.key].response == Some(p.phase.reply)
      && i in w.sys.txs && w.sys.txs[i].local == Finished(Ok(p.phase.reply))
  {
    var p := trace[m].posts[i];
    assert SavedBy(trace[m], i, p.key, p.user, p.hash, p.phase.reply);
    RecordsKept(trace, moves, pool, m, n);
    AlwaysInv(trace, moves, pool, n);
    OnceAlways(trace, moves, pool, n, p.key);
    hide Protocol.IsRun;
    hide WorldInv;
    hide Once;
    hide AlwaysOnTime;
    SavedLater(trace[m], trace[n], i, p);
    hide Later;
    SavedIsServed(trace[0].sys.db, trace[n], i, p);
  }

  lemma SavedIsServed(db0: Db, w: World, i: Tid, p: Post)
    requires WorldInv(db0, w) && Once(w, p.key)
    requires p.phase.Answered? && SavedBy(w, i, p.key, p.user, p.hash, p.phase.reply)
    ensures p.key in w.keys && w.keys[p.key].user == p.user && w.keys[p.key].hash == p.hash
    ensures w.keys[p.key].response == Some(p.phase.reply)
    ensures i in w.sys.txs && w.sys.txs[i].local == Finished(Ok(p.phase.reply))
  {
    assert PhaseOk(w, i) && Served(w, i);
    hide SysInv;
    hide GrantsOk;
    hide ResponsesOk;
    hide OneEngaged;
  }

  lemma SavedLater(w: World, w': World, i: Tid, p: Post)
    requires Later(w, w') && p.phase.Answered?
    requires SavedBy(w, i, p.key, p.user, p.hash, p.phase.reply)
    ensures SavedBy(w', i, p.key, p.user, p.hash, p.phase.reply)
  {
  }

  /** `j` has sent again the request for which `i` was answered 201. */
  ghost predicate Retry(w: World, i: Tid, j: Tid) {
    && i in w.posts && w.posts[i].phase.Answered?
    && Protocol.At(w, j) && (w.posts[j].phase.Arrived? || w.posts[j].phase.Reading?)
    && w.posts[j].key == w.posts[i].key && w.posts[j].user == w.posts[i].user && w.posts[j].hash == w.posts[i].hash
  }

  lemma {:induction false} RetryStays(trace: seq<World>, moves: seq<Move>, pool: nat, m: nat, n: nat, i: Tid, j: Tid)
    requires Protocol.IsRun(trace, moves, pool) && m <= n <= |moves| && Retry(trace[m], i, j)
    requires AlwaysOnTime(trace, n, trace[m].posts[i].key)
    ensures Retrying(trace[n], j, trace[m].posts[i].phase.reply)
    ensures Recalls(trace[n], j, trace[m].posts[i].phase.reply)
    decreases n - m
  {
    SavedIsRecalled(trace, moves, pool, m, n, i);
    RecordsKept(trace, moves, pool, m, n);
    hide Protocol.Follows;
    hide OnTime;
    if m < n {
      RetryStays(trace, moves, pool, m, n - 1, i, j);
      RetryMoves(trace[n - 1], moves[n - 1], trace[n], pool, j, trace[m].posts[i].phase.reply);
    }
  }

  /** When the key's claimants are on time, a response once saved is the key's
      response forever, and a retry with the same user and body is answered, if at
      all, with it: the reply of the transaction that placed the one order. What is
      left to the retry is to find the key and to read its row. */
  lemma RetryIsReplayed(trace: seq<World>, moves: seq<Move>, pool: nat, m: nat, n: nat, i: Tid, j: Tid)
    requires Protocol.IsRun(trace, moves, pool) && m <= n <= |moves| && Retry(trace[m], i, j)
    requires AlwaysOnTime(trace, n, trace[m].posts[i].key)
    ensures var w, p := trace[n], trace[m].posts[i];
      && p.key in w.keys && w.keys[p.key].response == Some(p.phase.reply)
      && i in w.sys.txs && w.sys.txs[i].local == Finished(Ok(p.phase.reply))
      && Retrying(w, j, p.phase.reply) && WellTyped(w.sys)
      && (w.posts[j].phase.Arrived? ==> Protocol.Enabled(w, Insert(j), pool)
                                        && Protocol.Next(w, Insert(j), pool).posts[j].phase == Reading)
      && (w.posts[j].phase.Reading? ==>
            Protocol.Enabled(w, Read(j), pool)
            && Protocol.Next(w, Read(j), pool).posts[j].phase == Replied(Replayed(p.phase.reply)))
  {
    SavedIsRecalled(trace, moves, pool, m, n, i);
    RetryStays(trace, moves, pool, m, n, i, j);
    AlwaysInv(trace, moves, pool, n);
    hide Protocol.IsRun;
    hide AlwaysOnTime;
    InvTyped(trace[0].sys.db, trace[n]);
  }
}
