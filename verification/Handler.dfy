/** POST /orders: claim the key, place the order, save the response, reply. */
module Handler {
  import opened Tally
  import opened Schema
  import opened Atomic
  import opened Idempotency
  import opened Store

  /** What the client sees. */
  datatype Response =
    | Created(reply: Reply)
    | Replay(reply: Reply)
    | BodyMismatch
    | StillProcessing
    | InvalidRequest
    | Refused(error: Error)
    | ServerError

  class OrderHandler {
    const orders: OrderService
    const idempotency: IdempotencyService

    constructor (orders: OrderService, idempotency: IdempotencyService)
      ensures this.orders == orders && this.idempotency == idempotency
    {
      this.orders, this.idempotency := orders, idempotency;
    }

    /** The handler behind the middleware: it runs with the key claimed. An order
        without lines is turned away before the transaction. A placed order's
        response is saved if it is `storable`, that is if it can be marshalled and
        the table reached; it is answered 201 either way. */
    method CreateOrder(key: Key, user: UserId, lines: seq<Entry>, o: OrderId, storable: bool) returns (r: Response)
      requires key in idempotency.keys && idempotency.keys[key].user == user
      modifies orders.t, idempotency`keys
      ensures var before, after, keys := old(orders.t.Contents()), orders.t.Contents(), old(idempotency.keys);
        if lines == [] then
          r == InvalidRequest && after == before && idempotency.keys == keys
        else match Place(before, o, user, lines)
          case Fail(e) => r == Refused(e) && after == before && idempotency.keys == keys
          case Done(db, reply) =>
            && r == Created(reply) && after == db
            && idempotency.keys == if storable then keys[key := keys[key].(response := Some(reply))] else keys
    {
      if |lines| == 0 { return InvalidRequest; }
      var outcome := orders.CreateOrder(user, lines, o);
      if outcome.Err? { return Refused(outcome.error); }
      if storable {
        var saved := idempotency.SaveResponse(key, user, outcome.reply);
      }
      r := Created(outcome.reply);
    }

    /** The handler ran: the caller had the key. */
    predicate Served(r: Response) {
      r.Created? || r.Refused? || r.InvalidRequest?
    }

    /** The middleware and the handler. Whatever it answers, an order is placed only
        under a fresh claim, and a replay touches nothing. */
    method Post(key: Key, hash: Hash, user: UserId, lines: seq<Entry>, o: OrderId, storable: bool)
      returns (r: Response)
      modifies orders.t, idempotency
      ensures old(idempotency.now) <= idempotency.now
      ensures var before, after := old(orders.t.Contents()), orders.t.Contents();
        match r
        case Created(reply) => lines != [] && Place(before, o, user, lines) == Done(after, reply)
        case Refused(e) => lines != [] && Place(before, o, user, lines) == Fail(e) && after == before
        case InvalidRequest => lines == [] && after == before
        case _ => after == before
      ensures Served(r) ==>
        && key in idempotency.keys
        && old(idempotency.now) <= idempotency.keys[key].createdAt <= idempotency.now
        && idempotency.keys == old(idempotency.keys)[key :=
             Rec(user, hash, if r.Created? && storable then Some(r.reply) else None, idempotency.keys[key].createdAt)]
      ensures !Served(r) ==> idempotency.keys == old(idempotency.keys) && key in idempotency.keys
      ensures key !in old(idempotency.keys) ==> Served(r)
      ensures key in old(idempotency.keys) ==>
        var row := old(idempotency.keys)[key];
        if row.user != user then r == ServerError
        else if row.hash != hash then r == BodyMismatch
        else if row.response.Some? then r == Replay(row.response.value)
        else
          && (Served(r) || r == StillProcessing)
          && (row.createdAt + 30_000_000_000 < old(idempotency.now) ==> Served(r))
          && (Served(r) ==> row.createdAt + 30_000_000_000 < idempotency.keys[key].createdAt)
    {
      hide Place;
      var claim := idempotency.CheckAndClaim(key, hash, user);
      match claim
      case New => r := CreateOrder(key, user, lines, o, storable);
      case Replayed(reply) => r := Replay(reply);
      case Mismatch => r := BodyMismatch;
      case InProgress => r := StillProcessing;
      case KeyNotFound => r := ServerError;
    }

    /** Sending the same request again after it was answered 201 and its response
        saved returns the same order, at any later time, and places none. If the
        response was not saved, nothing more happens within the window either. */
    method PostTwice(key: Key, hash: Hash, user: UserId, lines: seq<Entry>, o: OrderId, o': OrderId, storable: bool)
      returns (first: Response, second: Response)
      modifies orders.t, idempotency
      ensures first.Created? && (storable || idempotency.now <= old(idempotency.now) + 30_000_000_000) ==>
        && second == (if storable then Replay(first.reply) else StillProcessing)
        && Place(old(orders.t.Contents()), o, user, lines) == Done(orders.t.Contents(), first.reply)
    {
      first := Post(key, hash, user, lines, o, storable);
      second := Post(key, hash, user, lines, o', storable);
    }
  }
}
