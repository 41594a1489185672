/** The idempotency-key table and the service that claims keys in it. */
module Idempotency {
  import opened Schema

  type Key = nat
  type Hash = nat

  /** Nanoseconds. */
  type Time = int

  /** `staleClaimTimeout`: 30 seconds. */
  const WINDOW: Time := 30_000_000_000

  /** A key's row. Its response is absent while the first request is being served. */
  datatype Rec = Rec(user: UserId, hash: Hash, response: Option<Reply>, createdAt: Time)

  /** What claiming a key answers. */
  datatype Claim = New | Replayed(response: Reply) | Mismatch | InProgress | KeyNotFound

  /** What reading an existing row settles; `None` means the row has the caller's
      request but no response yet. */
  function Compare(rec: Rec, user: UserId, hash: Hash): Option<Claim> {
    if rec.user != user then Some(KeyNotFound)
    else if rec.hash != hash then Some(Mismatch)
    else if rec.response.Some? then Some(Replayed(rec.response.value))
    else None
  }

  /** The guard of the conditional reclaim. */
  predicate Stale(rec: Rec, user: UserId, cutoff: Time) {
    rec.user == user && rec.response.None? && rec.createdAt < cutoff
  }

  class IdempotencyService {
    var keys: map<Key, Rec>
    var now: Time

    constructor ()
      ensures keys == map[] && now == 0
    {
      keys, now := map[], 0;
    }

    /** Time passes; it never runs backwards. */
    method Clock() returns (t: Time)
      modifies this`now
      ensures old(now) <= t == now
    {
      var d: int := *;
      if d > 0 {
        now := now + d;
      }
      t := now;
    }

    /** INSERT ... ON CONFLICT (key) DO NOTHING. */
    method CreateIdempotency(key: Key, hash: Hash, user: UserId) returns (created: bool)
      modifies this
      ensures old(now) <= now
      ensures created <==> key !in old(keys)
      ensures keys == if created then old(keys)[key := Rec(user, hash, None, now)] else old(keys)
    {
      var t := Clock();
      created := key !in keys;
      if created {
        keys := keys[key := Rec(user, hash, None, t)];
      }
    }

    method GetIdempotencyByUserID(key: Key, user: UserId) returns (row: Option<Rec>)
      ensures row == if key in keys && keys[key].user == user then Some(keys[key]) else None
    {
      if key in keys && keys[key].user == user { row := Some(keys[key]); } else { row := None; }
    }

    /** Computes the cutoff on the server, then takes over a stale claim. The row's
        hash is written without being compared. */
    method ReclaimStaleIdempotency(key: Key, hash: Hash, user: UserId, staleAfter: Time) returns (reclaimed: bool)
      modifies this
      ensures old(now) <= now
      ensures reclaimed ==>
        && key in old(keys) && old(keys)[key].user == user && old(keys)[key].response.None?
        && old(keys)[key].createdAt + staleAfter < now
      ensures (key in old(keys) && old(keys)[key].user == user && old(keys)[key].response.None?
               && old(keys)[key].createdAt + staleAfter < old(now)) ==> reclaimed
      ensures keys == if reclaimed then old(keys)[key := Rec(user, hash, None, now)] else old(keys)
    {
      var cutoff := Clock();
      cutoff := cutoff - staleAfter;
      var t := Clock();
      reclaimed := key in keys && Stale(keys[key], user, cutoff);
      if reclaimed {
        keys := keys[key := Rec(keys[key].user, hash, None, t)];
      }
    }

    method UpdateIdempotency(key: Key, user: UserId, response: Reply) returns (found: bool)
      modifies this`keys
      ensures found <==> key in old(keys) && old(keys)[key].user == user
      ensures keys == if found then old(keys)[key := old(keys)[key].(response := Some(response))] else old(keys)
    {
      found := key in keys && keys[key].user == user;
      if found {
        keys := keys[key := keys[key].(response := Some(response))];
      }
    }

    /** Claims a key, or says what became of the request that claimed it before.
        A claim is granted only on a new key or on one whose claim has been open
        for more than the window; everything else leaves the table alone. */
    method CheckAndClaim(key: Key, hash: Hash, user: UserId) returns (claim: Claim)
      modifies this
      ensures old(now) <= now
      ensures keys == if claim == New then old(keys)[key := Rec(user, hash, None, now)] else old(keys)
      ensures key !in old(keys) ==> claim == New
      ensures key in old(keys) ==>
        var row := old(keys)[key];
        if row.user != user then claim == KeyNotFound
        else if row.hash != hash then claim == Mismatch
        else if row.response.Some? then claim == Replayed(row.response.value)
        else
          && (claim == New || claim == InProgress)
          && (now <= row.createdAt + 30_000_000_000 ==> claim == InProgress)
          && (row.createdAt + 30_000_000_000 < old(now) ==> claim == New)
    {
      var created := CreateIdempotency(key, hash, user);
      if created { return New; }
      var row := GetIdempotencyByUserID(key, user);
      if row.None? { return KeyNotFound; }
      if hash != row.value.hash { return Mismatch; }
      if row.value.response.None? {
        var reclaimed := ReclaimStaleIdempotency(key, hash, user, WINDOW);
        return if reclaimed then New else InProgress;
      }
      return Replayed(row.value.response.value);
    }

    method SaveResponse(key: Key, user: UserId, response: Reply) returns (saved: bool)
      modifies this`keys
      ensures saved <==> key in old(keys) && old(keys)[key].user == user
      ensures keys == if saved then old(keys)[key := old(keys)[key].(response := Some(response))] else old(keys)
    {
      saved := UpdateIdempotency(key, user, response);
    }
  }
}
