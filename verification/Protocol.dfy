/** Any number of POST requests with idempotency keys, each advancing one
    statement at a time, on top of the concurrent transaction system. */
module Protocol {
  import opened Schema
  import opened Atomic
  import opened Machine
  import opened System
  import Serializability
  import opened Idempotency

  /** Where a request is. Its number is also the number of its transaction. */
  datatype Phase =
    | Arrived
    | Reading                                // the key existed
    | Deciding                               // same request, no response yet
    | Reclaiming(cutoff: Time)               // cutoff computed, reclaim to be sent
    | Claimed(at: Time)                      // the handler runs its transaction
    | Saving(at: Time, reply: Reply)         // the order is placed, its response not saved
    | Answered(reply: Reply)                 // 201, with the response saved
    | Replied(claim: Claim)                  // answered without running the handler
    | Declined                               // the handler's transaction did not commit
    | Crashed                                // died before its transaction began
    | Lost(reply: Reply)                     // the order is placed, its response never saved

  datatype Post = Post(key: Key, user: UserId, hash: Hash, phase: Phase)

  /** A granted claim: which request got which key when. */
  datatype Grant = Grant(post: Tid, key: Key, at: Time)

  datatype World = World(sys: Sys, keys: map<Key, Rec>, now: Time, posts: map<Tid, Post>, grants: seq<Grant>)

  datatype Move =
    | Insert(i: Tid)
    | Read(i: Tid)
    | ReadClock(i: Tid)
    | Reclaim(i: Tid)
    | Observe(i: Tid)
    | Save(i: Tid)
    | Lose(i: Tid)
    | Crash(i: Tid)
    | Tick(d: nat)
    | Shop(a: Action)

  predicate At(w: World, i: Tid) {
    i in w.posts && i in w.sys.txs
  }

  /** A request's order is committed. */
  predicate Ordered(w: World, i: Tid) {
    At(w, i) && w.sys.txs[i].local.Finished? && w.sys.txs[i].local.outcome.Ok?
  }

  /** A request holds a claim that it has not finished. */
  predicate Live(w: World, i: Tid) {
    i in w.posts && (w.posts[i].phase.Claimed? || w.posts[i].phase.Saving?)
  }

  ghost predicate Enabled(w: World, m: Move, pool: nat)
    requires WellTyped(w.sys)
  {
    match m
    case Insert(i) => At(w, i) && w.posts[i].phase.Arrived?
    case Read(i) => At(w, i) && w.posts[i].phase.Reading? && w.posts[i].key in w.keys
    case ReadClock(i) => At(w, i) && w.posts[i].phase.Deciding?
    case Reclaim(i) => At(w, i) && w.posts[i].phase.Reclaiming? && w.posts[i].key in w.keys
    case Observe(i) =>
      At(w, i) && w.posts[i].phase.Claimed? && (w.sys.txs[i].local.Finished? || w.sys.txs[i].local.Aborted?)
    case Save(i) => At(w, i) && w.posts[i].phase.Saving? && w.posts[i].key in w.keys
    case Lose(i) => Ordered(w, i) && Live(w, i)
    case Crash(i) =>
      At(w, i) && w.sys.txs[i].local == Idle
      && !(w.posts[i].phase.Replied? || w.posts[i].phase.Declined? || w.posts[i].phase.Crashed?)
    case Tick(_) => true
    case Shop(a) =>
      System.Enabled(w.sys, a, pool)
      && (a.Connect? || a.Abort? ==> a.t in w.posts ==> w.posts[a.t].phase.Claimed?)
  }

  function SetPhase(w: World, i: Tid, phase: Phase): World
    requires i in w.posts
  {
    w.(posts := w.posts[i := w.posts[i].(phase := phase)])
  }

  /** A claim granted now: the row is (re)written and the handler starts. */
  function GrantTo(w: World, i: Tid): World
    requires i in w.posts
  {
    var p := w.posts[i];
    SetPhase(w, i, Claimed(w.now)).(
      keys := w.keys[p.key := Rec(p.user, p.hash, None, w.now)],
      grants := w.grants + [Grant(i, p.key, w.now)])
  }

  function AfterRead(rec: Rec, user: UserId, hash: Hash): Phase {
    match Compare(rec, user, hash)
    case Some(claim) => Replied(claim)
    case None => Deciding
  }

  ghost function Next(w: World, m: Move, pool: nat): World
    requires WellTyped(w.sys) && Enabled(w, m, pool)
  {
    match m
    case Insert(i) => if w.posts[i].key in w.keys then SetPhase(w, i, Reading) else GrantTo(w, i)
    case Read(i) =>
      var p := w.posts[i];
      SetPhase(w, i, AfterRead(w.keys[p.key], p.user, p.hash))
    case ReadClock(i) => SetPhase(w, i, Reclaiming(w.now - WINDOW))
    case Reclaim(i) =>
      var p := w.posts[i];
      if Stale(w.keys[p.key], p.user, p.phase.cutoff) then GrantTo(w, i)
      else SetPhase(w, i, Replied(InProgress))
    case Observe(i) =>
      var l := w.sys.txs[i].local;
      if l.Finished? && l.outcome.Ok? then SetPhase(w, i, Saving(w.posts[i].phase.at, l.outcome.reply))
      else SetPhase(w, i, Declined)
    case Save(i) =>
      var p := w.posts[i];
      var rec := w.keys[p.key];
      if rec.user == p.user
      then SetPhase(w, i, Answered(p.phase.reply)).(keys := w.keys[p.key := rec.(response := Some(p.phase.reply))])
      else SetPhase(w, i, Lost(p.phase.reply))
    case Lose(i) => SetPhase(w, i, Lost(w.sys.txs[i].local.outcome.reply))
    case Crash(i) => SetPhase(w, i, Crashed)
    case Tick(d) => w.(now := w.now + d)
    case Shop(a) => w.(sys := System.Next(w.sys, a, pool))
  }

  ghost predicate Initial(w: World) {
    && System.Initial(w.sys)
    && w.keys == map[] && w.grants == []
    && w.posts.Keys <= w.sys.txs.Keys
    && (forall i :: i in w.posts ==> w.posts[i].phase == Arrived && w.sys.txs[i].req.PlaceEvent?)
  }

  ghost predicate Follows(w: World, m: Move, w': World, pool: nat) {
    WellTyped(w.sys) && Enabled(w, m, pool) && w' == Next(w, m, pool)
  }

  ghost predicate IsRun(trace: seq<World>, moves: seq<Move>, pool: nat) {
    && |trace| == |moves| + 1
    && Initial(trace[0])
    && forall i :: 0 <= i < |moves| ==> Follows(trace[i], moves[i], trace[i + 1], pool)
  }

  // ---- What every run keeps ----

  /** The key's row carries the request's user and hash. */
  predicate Mine(w: World, i: Tid)
    requires i in w.posts
  {
    var p := w.posts[i];
    p.key in w.keys && w.keys[p.key].user == p.user && w.keys[p.key].hash == p.hash
  }

  /** The request saved `reply` as its key's response. */
  predicate SavedBy(w: World, i: Tid, key: Key, user: UserId, hash: Hash, reply: Reply) {
    i in w.posts && w.posts[i] == Post(key, user, hash, Answered(reply))
  }

  /** What a request's phase says about the table and about its transaction. */
  ghost predicate PhaseOk(w: World, i: Tid)
    requires i in w.posts && i in w.sys.txs
  {
    var p, l := w.posts[i], w.sys.txs[i].local;
    match p.phase
    case Arrived => l == Idle
    case Reading => l == Idle && p.key in w.keys
    case Deciding => l == Idle && Mine(w, i)
    case Reclaiming(cutoff) => l == Idle && Mine(w, i) && cutoff + WINDOW <= w.now
    case Claimed(at) => Mine(w, i) && at <= w.keys[p.key].createdAt
    case Saving(at, reply) => Mine(w, i) && at <= w.keys[p.key].createdAt && l == Finished(Ok(reply))
    case Answered(reply) => Mine(w, i) && l == Finished(Ok(reply)) && w.keys[p.key].response.Some?
    case Replied(claim) => (
      && l == Idle && p.key in w.keys
      && match claim
         case KeyNotFound => w.keys[p.key].user != p.user
         case Mismatch => w.keys[p.key].user == p.user && w.keys[p.key].hash != p.hash
         case InProgress => Mine(w, i)
         case Replayed(reply) => Mine(w, i) && exists j :: SavedBy(w, j, p.key, p.user, p.hash, reply)
         case New => false)
    case Declined => (l.Finished? && l.outcome.Err?) || l.Aborted?
    case Crashed => l == Idle
    case Lost(reply) => Mine(w, i) && l == Finished(Ok(reply))
  }

  /** Grants of one key are more than the window apart. */
  ghost predicate Spaced(grants: seq<Grant>) {
    forall a, b :: 0 <= a < b < |grants| && grants[a].key == grants[b].key ==> grants[a].at + WINDOW < grants[b].at
  }

  /** A grant is behind the key's row: its request is the row's request. */
  ghost predicate Backed(w: World, g: Grant) {
    && g.key in w.keys && g.at <= w.keys[g.key].createdAt
    && g.post in w.posts && w.posts[g.post].key == g.key && Mine(w, g.post)
  }

  /** The row's creation time is that of one of its grants. */
  ghost predicate Granted(w: World, k: Key)
    requires k in w.keys
  {
    && w.keys[k].createdAt <= w.now
    && exists a :: 0 <= a < |w.grants| && w.grants[a].key == k && w.grants[a].at == w.keys[k].createdAt
  }

  ghost predicate GrantsOk(w: World) {
    && Spaced(w.grants)
    && (forall a :: 0 <= a < |w.grants| ==> Backed(w, w.grants[a]))
    && (forall k :: k in w.keys ==> Granted(w, k))
  }

  /** A saved response was saved by a request with the row's user and hash. */
  ghost predicate ResponseOk(w: World, k: Key)
    requires k in w.keys
  {
    w.keys[k].response.Some? ==>
      exists j :: SavedBy(w, j, k, w.keys[k].user, w.keys[k].hash, w.keys[k].response.value)
  }

  ghost predicate ResponsesOk(w: World) {
    forall k :: k in w.keys ==> ResponseOk(w, k)
  }

  ghost predicate WorldInv(db0: Db, w: World) {
    && SysInv(db0, w.sys)
    && w.posts.Keys <= w.sys.txs.Keys
    && (forall i :: i in w.posts ==> PhaseOk(w, i))
    && GrantsOk(w)
    && ResponsesOk(w)
  }

  /** A key's user and hash never change, its creation time never decreases, and a
      saved response is never removed. */
  ghost predicate KeysGrow(w: World, w': World) {
    forall k :: k in w.keys ==>
      && k in w'.keys
      && w'.keys[k].user == w.keys[k].user && w'.keys[k].hash == w.keys[k].hash
      && w.keys[k].createdAt <= w'.keys[k].createdAt
      && (w.keys[k].response.Some? ==> w'.keys[k].response.Some? && w'.keys[k].createdAt == w.keys[k].createdAt)
  }

  // ---- Every move keeps it ----

  ghost predicate SavedKept(w: World, w': World) {
    forall i, k, user, hash, reply :: SavedBy(w, i, k, user, hash, reply) ==> SavedBy(w', i, k, user, hash, reply)
  }

  /** A request that does not move keeps what its phase says. */
  lemma PhaseFrame(w: World, w': World, j: Tid)
    requires At(w, j) && At(w', j) && PhaseOk(w, j)
    requires w'.posts[j] == w.posts[j] && w'.sys.txs[j].local == w.sys.txs[j].local
    requires w.now <= w'.now && KeysGrow(w, w') && SavedKept(w, w')
    ensures PhaseOk(w', j)
  {
    var p := w.posts[j];
    if p.phase.Replied? && p.phase.claim.Replayed? {
      var i :| SavedBy(w, i, p.key, p.user, p.hash, p.phase.claim.response);
      assert SavedBy(w', i, p.key, p.user, p.hash, p.phase.claim.response);
    }
  }

  /** Requests keep their key, user and hash. */
  ghost predicate SamePosts(w: World, w': World) {
    && w'.posts.Keys == w.posts.Keys
    && forall i :: i in w.posts ==>
         w'.posts[i].key == w.posts[i].key && w'.posts[i].user == w.posts[i].user && w'.posts[i].hash == w.posts[i].hash
  }

  lemma BackedFrame(w: World, w': World, g: Grant)
    requires Backed(w, g) && KeysGrow(w, w') && SamePosts(w, w')
    ensures Backed(w', g)
  {
  }

  lemma GrantedFrame(w: World, w': World, k: Key)
    requires k in w.keys && k in w'.keys && Granted(w, k)
    requires w'.keys[k].createdAt == w.keys[k].createdAt && w.now <= w'.now
    requires |w.grants| <= |w'.grants| && w'.grants[..|w.grants|] == w.grants
    ensures Granted(w', k)
  {
    var a :| 0 <= a < |w.grants| && w.grants[a].key == k && w.grants[a].at == w.keys[k].createdAt;
    assert w'.grants[a] == w'.grants[..|w.grants|][a];
  }

  lemma ResponseFrame(w: World, w': World, k: Key)
    requires k in w.keys && k in w'.keys && ResponseOk(w, k)
    requires w'.keys[k].user == w.keys[k].user && w'.keys[k].hash == w.keys[k].hash
    requires w'.keys[k].response == w.keys[k].response
    requires SavedKept(w, w')
    ensures ResponseOk(w', k)
  {
    if w.keys[k].response.Some? {
      var j :| SavedBy(w, j, k, w.keys[k].user, w.keys[k].hash, w.keys[k].response.value);
      assert SavedBy(w', j, k, w.keys[k].user, w.keys[k].hash, w.keys[k].response.value);
    }
  }

  lemma PhasesFrame(w: World, w': World, i: Tid)
    requires w.posts.Keys <= w.sys.txs.Keys && w'.sys == w.sys && SamePosts(w, w')
    requires forall j :: j in w.posts ==> PhaseOk(w, j)
    requires forall j :: j in w.posts && j != i ==> w'.posts[j] == w.posts[j]
    requires i in w'.posts ==> PhaseOk(w', i)
    requires w.now <= w'.now && KeysGrow(w, w') && SavedKept(w, w')
    ensures forall j :: j in w'.posts ==> PhaseOk(w', j)
  {
    hide PhaseOk;
    hide KeysGrow;
    hide SavedKept;
    forall j | j in w'.posts ensures PhaseOk(w', j) {
      if j != i { PhaseFrame(w, w', j); }
    }
  }

  /** The key's row, where it has one, already carries the request, and its claim
      has been open for more than the window. */
  ghost predicate Grantable(w: World, i: Tid)
    requires i in w.posts
  {
    var k := w.posts[i].key;
    k in w.keys ==> Mine(w, i) && w.keys[k].response.None? && w.keys[k].createdAt + WINDOW < w.now
  }

  lemma GrantGrows(w: World, i: Tid)
    requires i in w.posts && Grantable(w, i)
    ensures KeysGrow(w, GrantTo(w, i)) && SamePosts(w, GrantTo(w, i))
  {
  }

  lemma GrantSpaced(w: World, i: Tid)
    requires i in w.posts && Grantable(w, i) && GrantsOk(w)
    ensures Spaced(GrantTo(w, i).grants)
  {
    var w' := GrantTo(w, i);
    forall a, b | 0 <= a < b < |w'.grants| && w'.grants[a].key == w'.grants[b].key
      ensures w'.grants[a].at + WINDOW < w'.grants[b].at
    {
      assert w'.grants[a] == w.grants[a] && Backed(w, w.grants[a]);
      if b < |w.grants| { assert w'.grants[b] == w.grants[b]; }
    }
  }

  lemma GrantKeepsGrants(w: World, i: Tid)
    requires i in w.posts && Grantable(w, i) && GrantsOk(w)
    ensures GrantsOk(GrantTo(w, i))
  {
    var w' := GrantTo(w, i);
    var k, n := w.posts[i].key, |w.grants|;
    GrantSpaced(w, i);
    GrantGrows(w, i);
    hide Spaced;
    hide KeysGrow;
    hide SamePosts;
    assert w'.grants[n] == Grant(i, k, w.now);
    assert w'.grants[..n] == w.grants;
    forall a | 0 <= a < |w'.grants| ensures Backed(w', w'.grants[a]) {
      if a < n {
        assert w'.grants[a] == w.grants[a];
        BackedFrame(w, w', w.grants[a]);
      }
    }
    forall x | x in w'.keys ensures Granted(w', x) {
      if x != k { GrantedFrame(w, w', x); }
    }
  }

  lemma GrantKeepsResponses(w: World, i: Tid)
    requires i in w.posts && Grantable(w, i) && ResponsesOk(w)
    requires SavedKept(w, GrantTo(w, i))
    ensures ResponsesOk(GrantTo(w, i))
  {
    hide SavedKept;
    var w' := GrantTo(w, i);
    forall x | x in w'.keys ensures ResponseOk(w', x) {
      if x != w.posts[i].key { ResponseFrame(w, w', x); }
    }
  }

  lemma GrantKeepsSaved(w: World, i: Tid)
    requires i in w.posts && !w.posts[i].phase.Answered?
    ensures SavedKept(w, GrantTo(w, i))
  {
  }

  lemma GrantPhase(w: World, i: Tid)
    requires At(w, i)
    ensures PhaseOk(GrantTo(w, i), i)
  {
  }

  lemma GrantKeepsInv(db0: Db, w: World, i: Tid)
    requires WorldInv(db0, w) && At(w, i) && Grantable(w, i) && !w.posts[i].phase.Answered?
    ensures WorldInv(db0, GrantTo(w, i)) && KeysGrow(w, GrantTo(w, i))
  {
    hide SysInv;
    hide GrantsOk;
    hide ResponsesOk;
    hide KeysGrow;
    hide SavedKept;
    hide PhaseOk;
    GrantGrows(w, i);
    GrantKeepsSaved(w, i);
    GrantKeepsGrants(w, i);
    GrantKeepsResponses(w, i);
    GrantPhase(w, i);
    PhasesFrame(w, GrantTo(w, i), i);
  }

  lemma SetPhaseFrames(w: World, i: Tid, phase: Phase)
    requires i in w.posts && !w.posts[i].phase.Answered?
    ensures var w' := SetPhase(w, i, phase); KeysGrow(w, w') && SamePosts(w, w') && SavedKept(w, w')
  {
  }

  /** Moving one request's phase leaves the table alone. */
  lemma PhaseKeepsInv(db0: Db, w: World, i: Tid, phase: Phase)
    requires WorldInv(db0, w) && At(w, i) && !w.posts[i].phase.Answered?
    requires PhaseOk(SetPhase(w, i, phase), i)
    ensures WorldInv(db0, SetPhase(w, i, phase)) && KeysGrow(w, SetPhase(w, i, phase))
  {
    hide SysInv;
    hide PhaseOk;
    var w' := SetPhase(w, i, phase);
    SetPhaseFrames(w, i, phase);
    PhasesFrame(w, w', i);
    TableUnchanged(w, w');
  }

  /** With the table and the grants as they were, what they say still holds. */
  lemma TableUnchanged(w: World, w': World)
    requires GrantsOk(w) && ResponsesOk(w)
    requires w'.keys == w.keys && w'.grants == w.grants && w.now <= w'.now
    requires KeysGrow(w, w') && SamePosts(w, w') && SavedKept(w, w')
    ensures GrantsOk(w') && ResponsesOk(w')
  {
    hide KeysGrow;
    hide SamePosts;
    hide SavedKept;
    hide Spaced;
    forall a | 0 <= a < |w'.grants| ensures Backed(w', w'.grants[a]) { BackedFrame(w, w', w.grants[a]); }
    forall k | k in w'.keys ensures Granted(w', k) { GrantedFrame(w, w', k); }
    forall k | k in w'.keys ensures ResponseOk(w', k) { ResponseFrame(w, w', k); }
  }

  lemma SaveFrames(w: World, i: Tid, pool: nat)
    requires WellTyped(w.sys) && Enabled(w, Save(i), pool) && PhaseOk(w, i)
    ensures var w', k := Next(w, Save(i), pool), w.posts[i].key;
      && w'.sys == w.sys && w'.now == w.now && w'.grants == w.grants
      && w'.posts == w.posts[i := w.posts[i].(phase := Answered(w.posts[i].phase.reply))]
      && k in w.keys && w'.keys == w.keys[k := w.keys[k].(response := Some(w.posts[i].phase.reply))]
      && KeysGrow(w, w') && SamePosts(w, w') && SavedKept(w, w') && PhaseOk(w', i) && ResponseOk(w', k)
  {
    var w', k := Next(w, Save(i), pool), w.posts[i].key;
    assert SavedBy(w', i, k, w'.keys[k].user, w'.keys[k].hash, w'.keys[k].response.value);
  }

  lemma SavedTable(w: World, w': World, k: Key)
    requires GrantsOk(w) && ResponsesOk(w) && k in w.keys && k in w'.keys
    requires w'.keys == w.keys[k := w'.keys[k]] && w'.keys[k].createdAt == w.keys[k].createdAt
    requires w'.grants == w.grants && w.now == w'.now
    requires KeysGrow(w, w') && SamePosts(w, w') && SavedKept(w, w') && ResponseOk(w', k)
    ensures GrantsOk(w') && ResponsesOk(w')
  {
    hide KeysGrow;
    hide SamePosts;
    hide SavedKept;
    hide Spaced;
    forall a | 0 <= a < |w'.grants| ensures Backed(w', w'.grants[a]) { BackedFrame(w, w', w.grants[a]); }
    forall x | x in w'.keys ensures Granted(w', x) { GrantedFrame(w, w', x); }
    forall x | x in w'.keys ensures ResponseOk(w', x) {
      if x != k { ResponseFrame(w, w', x); }
    }
  }

  lemma SaveKeepsInv(db0: Db, w: World, i: Tid, pool: nat)
    requires WorldInv(db0, w) && Enabled(w, Save(i), pool)
    ensures var w' := Next(w, Save(i), pool); WorldInv(db0, w') && KeysGrow(w, w')
  {
    SaveFrames(w, i, pool);
    var w', k := Next(w, Save(i), pool), w.posts[i].key;
    hide Next;
    hide Enabled;
    hide SysInv;
    hide KeysGrow;
    hide SamePosts;
    hide SavedKept;
    hide GrantsOk;
    hide ResponsesOk;
    hide ResponseOk;
    hide PhaseOk;
    PhasesFrame(w, w', i);
    SavedTable(w, w', k);
  }

  lemma TickKeepsInv(db0: Db, w: World, d: nat)
    requires WorldInv(db0, w)
    ensures var w' := w.(now := w.now + d); WorldInv(db0, w') && KeysGrow(w, w')
  {
    var w' := w.(now := w.now + d);
    assert KeysGrow(w, w') && SamePosts(w, w') && SavedKept(w, w');
    hide SysInv;
    hide KeysGrow;
    hide SavedKept;
    hide PhaseOk;
    forall j | j in w'.posts ensures PhaseOk(w', j) { PhaseFrame(w, w', j); }
    TableUnchanged(w, w');
  }

  /** An action of the transaction system moves at most one transaction. */
  lemma ActionMovesOne(s: Sys, a: Action, pool: nat)
    requires WellTyped(s) && System.Enabled(s, a, pool)
    ensures var s' := System.Next(s, a, pool);
      && s'.txs.Keys == s.txs.Keys
      && (forall t :: t in s.txs && (a.Catalogue? || a.t != t) ==> s'.txs[t] == s.txs[t])
      && (forall t :: t in s.txs ==> s'.txs[t].req == s.txs[t].req)
  {
    hide Step;
    hide CommitReply;
    hide Blocked;
  }

  lemma ShopPhase(w: World, w': World, a: Action, pool: nat, j: Tid)
    requires At(w, j) && PhaseOk(w, j) && WellTyped(w.sys) && Enabled(w, Shop(a), pool)
    requires w' == Next(w, Shop(a), pool)
    requires KeysGrow(w, w') && SavedKept(w, w')
    ensures j in w'.sys.txs && PhaseOk(w', j)
  {
    ActionMovesOne(w.sys, a, pool);
    hide System.Next;
    hide Blocked;
    if a.Catalogue? || a.t != j {
      PhaseFrame(w, w', j);
    }
  }

  lemma ShopKeepsInv(db0: Db, w: World, a: Action, pool: nat)
    requires WorldInv(db0, w) && Enabled(w, Shop(a), pool)
    ensures var w' := Next(w, Shop(a), pool); WorldInv(db0, w') && KeysGrow(w, w')
  {
    var w' := Next(w, Shop(a), pool);
    Serializability.NextKeepsInv(db0, w.sys, a, pool);
    ActionMovesOne(w.sys, a, pool);
    assert KeysGrow(w, w') && SamePosts(w, w') && SavedKept(w, w');
    hide SysInv;
    hide KeysGrow;
    hide SavedKept;
    hide PhaseOk;
    hide System.Next;
    hide System.Enabled;
    forall j | j in w'.posts ensures PhaseOk(w', j) { ShopPhase(w, w', a, pool, j); }
    TableUnchanged(w, w');
  }

  /** Reading the row: the answer it settles, if any, is the row's own. */
  lemma ReadPhase(db0: Db, w: World, i: Tid)
    requires WorldInv(db0, w) && At(w, i) && w.posts[i].phase.Reading? && w.posts[i].key in w.keys
    ensures var p := w.posts[i]; PhaseOk(SetPhase(w, i, AfterRead(w.keys[p.key], p.user, p.hash)), i)
  {
    hide SysInv;
    hide GrantsOk;
    var p := w.posts[i];
    var w' := SetPhase(w, i, AfterRead(w.keys[p.key], p.user, p.hash));
    assert PhaseOk(w, i) && ResponseOk(w, p.key);
    if w'.posts[i].phase.Replied? && w'.posts[i].phase.claim.Replayed? {
      var j :| SavedBy(w, j, p.key, p.user, p.hash, w.keys[p.key].response.value);
      assert SavedBy(w', j, p.key, p.user, p.hash, w.keys[p.key].response.value);
    }
  }

  /** What one move must show: the phases around it are known. */
  lemma InsertKeepsInv(db0: Db, w: World, i: Tid)
    requires WorldInv(db0, w) && At(w, i) && w.posts[i].phase.Arrived?
    ensures var w' := if w.posts[i].key in w.keys then SetPhase(w, i, Reading) else GrantTo(w, i);
      WorldInv(db0, w') && KeysGrow(w, w')
  {
    assert PhaseOk(w, i);
    hide WorldInv;
    hide KeysGrow;
    if w.posts[i].key in w.keys { PhaseKeepsInv(db0, w, i, Reading); } else { GrantKeepsInv(db0, w, i); }
  }

  lemma ReclaimKeepsInv(db0: Db, w: World, i: Tid)
    requires WorldInv(db0, w) && At(w, i) && w.posts[i].phase.Reclaiming? && w.posts[i].key in w.keys
    ensures var w' := if Stale(w.keys[w.posts[i].key], w.posts[i].user, w.posts[i].phase.cutoff)
                      then GrantTo(w, i) else SetPhase(w, i, Replied(InProgress));
      WorldInv(db0, w') && KeysGrow(w, w')
  {
    assert PhaseOk(w, i);
    assert PhaseOk(SetPhase(w, i, Replied(InProgress)), i);
    hide WorldInv;
    hide KeysGrow;
    if Stale(w.keys[w.posts[i].key], w.posts[i].user, w.posts[i].phase.cutoff) {
      GrantKeepsInv(db0, w, i);
    } else {
      PhaseKeepsInv(db0, w, i, Replied(InProgress));
    }
  }

  lemma OtherPhaseOk(w: World, m: Move, pool: nat)
    requires WellTyped(w.sys) && Enabled(w, m, pool)
    requires m.ReadClock? || m.Observe? || m.Lose? || m.Crash?
    requires PhaseOk(w, m.i)
    ensures m.i in w.posts && !w.posts[m.i].phase.Answered? && At(w, m.i)
    ensures var w' := Next(w, m, pool);
      && m.i in w'.posts && w' == SetPhase(w, m.i, w'.posts[m.i].phase) && PhaseOk(w', m.i)
  {
  }

  /** Every move keeps the invariant, and no key loses what it recorded. */
  lemma NextKeepsInv(db0: Db, w: World, m: Move, pool: nat)
    requires WorldInv(db0, w) && Enabled(w, m, pool)
    ensures WorldInv(db0, Next(w, m, pool)) && KeysGrow(w, Next(w, m, pool))
  {
    hide WorldInv;
    hide KeysGrow;
    hide System.Enabled;
    hide System.Next;
    hide PhaseOk;
    match m
    case Insert(i) => InsertKeepsInv(db0, w, i);
    case Read(i) =>
      ReadPhase(db0, w, i);
      PhaseKeepsInv(db0, w, i, AfterRead(w.keys[w.posts[i].key], w.posts[i].user, w.posts[i].hash));
    case Reclaim(i) => ReclaimKeepsInv(db0, w, i);
    case Save(i) => SaveKeepsInv(db0, w, i, pool);
    case Tick(d) => TickKeepsInv(db0, w, d);
    case Shop(a) => ShopKeepsInv(db0, w, a, pool);
    case _ => OtherKeepsInv(db0, w, m, pool);
  }

  lemma OtherKeepsInv(db0: Db, w: World, m: Move, pool: nat)
    requires WorldInv(db0, w) && Enabled(w, m, pool)
    requires m.ReadClock? || m.Observe? || m.Lose? || m.Crash?
    ensures WorldInv(db0, Next(w, m, pool)) && KeysGrow(w, Next(w, m, pool))
  {
    assert PhaseOk(w, m.i);
    OtherPhaseOk(w, m, pool);
    var phase := Next(w, m, pool).posts[m.i].phase;
    hide Next;
    hide Enabled;
    hide WorldInv;
    hide KeysGrow;
    hide PhaseOk;
    PhaseKeepsInv(db0, w, m.i, phase);
  }

  // ---- Whole runs ----

  lemma {:induction false} InitialHolds(w: World)
    requires Initial(w)
    ensures WorldInv(w.sys.db, w)
  {
    System.InitialInv(w.sys);
  }

  /** The invariant holds at every moment of every run. */
  lemma {:induction false} AlwaysInv(trace: seq<World>, moves: seq<Move>, pool: nat, n: nat)
    requires IsRun(trace, moves, pool) && n <= |moves|
    ensures WorldInv(trace[0].sys.db, trace[n])
  {
    hide WorldInv;
    if n == 0 {
      InitialHolds(trace[0]);
    } else {
      AlwaysInv(trace, moves, pool, n - 1);
      assert Follows(trace[n - 1], moves[n - 1], trace[n], pool);
      NextKeepsInv(trace[0].sys.db, trace[n - 1], moves[n - 1], pool);
    }
  }

  /** What stays: the keys' records, the requests, their saved answers, and the
      grants made so far. */
  ghost predicate Later(w: World, w': World) {
    && KeysGrow(w, w') && SamePosts(w, w') && SavedKept(w, w')
    && w.now <= w'.now
    && w.grants <= w'.grants
  }

  lemma LaterTransitive(a: World, b: World, c: World)
    requires Later(a, b) && Later(b, c)
    ensures Later(a, c)
  {
  }

  lemma LaterReflexive(w: World)
    ensures Later(w, w)
  {
  }

  /** A saved answer is final: no move starts from it. */
  lemma MoveKeepsSaved(w: World, m: Move, pool: nat)
    requires WellTyped(w.sys) && Enabled(w, m, pool)
    requires forall i :: i in w.posts && i in w.sys.txs ==> PhaseOk(w, i)
    ensures SavedKept(w, Next(w, m, pool))
  {
    hide System.Next;
    hide System.Enabled;
    if m.Crash? { assert PhaseOk(w, m.i); }
  }

  lemma MoveKeepsPosts(w: World, m: Move, pool: nat)
    requires WellTyped(w.sys) && Enabled(w, m, pool)
    ensures SamePosts(w, Next(w, m, pool)) && w.now <= Next(w, m, pool).now && w.grants <= Next(w, m, pool).grants
  {
    hide System.Next;
    hide System.Enabled;
  }

  lemma MoveLater(db0: Db, w: World, m: Move, w': World, pool: nat)
    requires WorldInv(db0, w) && Follows(w, m, w', pool)
    ensures Later(w, w')
  {
    NextKeepsInv(db0, w, m, pool);
    MoveKeepsSaved(w, m, pool);
    MoveKeepsPosts(w, m, pool);
  }

  /** Between any two moments of a run, no key changes its user or hash, moves its
      creation time back, or loses a saved response; saved answers are final. */
  lemma {:induction false} RecordsKept(trace: seq<World>, moves: seq<Move>, pool: nat, m: nat, n: nat)
    requires IsRun(trace, moves, pool) && m <= n <= |moves|
    ensures Later(trace[m], trace[n])
    decreases n - m
  {
    hide WorldInv;
    hide Initial;
    hide Later;
    hide Follows;
    if m == n {
      LaterReflexive(trace[m]);
    } else {
      RecordsKept(trace, moves, pool, m, n - 1);
      AlwaysInv(trace, moves, pool, n - 1);
      MoveLater(trace[0].sys.db, trace[n - 1], moves[n - 1], trace[n], pool);
      LaterTransitive(trace[m], trace[n - 1], trace[n]);
    }
  }
}
