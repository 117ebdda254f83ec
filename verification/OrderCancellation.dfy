// CANCEL_ORDER: a three-key lookup, business checks and an MFA hook around one status change,
// inside a transaction that rolls back on any exception.
module OrderCancellation {
  import opened Wrappers

  datatype Status = Pending | Confirmed | Shipped | Delivered | Cancelled

  datatype Order = Order(
    tenant: nat, user: nat, status: Status, updatedAt: int, cancellableUntil: Option<int>, deleted: bool)

  /** Id 0 is the nil UUID. */
  datatype Security = Security(tenant: nat, user: nat)

  datatype Error =
    | MissingTenant
    | NotAuthorized
    | NotCancellable
    | WindowExpired
    | MfaFailed
    | MfaUnavailable
    | SystemError

  /** What the MFA provider does: its verdict, or an exception of the application's own
      hierarchy, which is passed on, or of any other kind. */
  datatype Mfa = Verified | Rejected | RaisedOwn | RaisedOther

  /** One call; `readOk` says whether the transaction begins and the lookup succeeds, `writeOk`
      whether flush and commit do. */
  datatype Request = Request(orderId: nat, ctx: Security, now: int, readOk: bool, mfa: Mfa, writeOk: bool)

  type Orders = map<nat, Order>

  predicate Visible(orders: Orders, r: Request) {
    r.orderId in orders && orders[r.orderId].tenant == r.ctx.tenant && orders[r.orderId].user == r.ctx.user
    && !orders[r.orderId].deleted
  }

  predicate Cancellable(s: Status) {
    s.Pending? || s.Confirmed?
  }

  predicate WindowOver(o: Order, now: int) {
    o.cancellableUntil.Some? && now >= o.cancellableUntil.value
  }

  /** The first check that fails, if any. */
  function Refusal(orders: Orders, r: Request): Option<Error> {
    if r.ctx.tenant == 0 then Some(MissingTenant)
    else if r.ctx.user == 0 then Some(NotAuthorized)
    else if !r.readOk then Some(SystemError)
    else if !Visible(orders, r) then Some(NotAuthorized)
    else if !Cancellable(orders[r.orderId].status) then Some(NotCancellable)
    else if WindowOver(orders[r.orderId], r.now) then Some(WindowExpired)
    else match r.mfa
      case Rejected => Some(MfaFailed)
      case RaisedOwn => Some(MfaUnavailable)
      case RaisedOther => Some(SystemError)
      case Verified => if r.writeOk then None else Some(SystemError)
  }

  function CancelledAt(o: Order, now: int): Order {
    o.(status := Cancelled, updatedAt := now)
  }

  class OrderTable {
    var orders: Orders

    constructor (orders: Orders)
      ensures this.orders == orders
    {
      this.orders := orders;
    }

    method ExecuteCancelOrder(r: Request) returns (result: Result<int, Error>)
      modifies this
      ensures Refusal(old(orders), r).Some? ==> result == Err(Refusal(old(orders), r).value) && orders == old(orders)
      ensures Refusal(old(orders), r).None? ==>
                && result == Ok(r.now) && r.orderId in old(orders)
                && orders == old(orders)[r.orderId := old(orders)[r.orderId].(status := Cancelled, updatedAt := r.now)]
                && orders == Step(old(orders), r)
    {
      if r.ctx.tenant == 0 {
        return Err(MissingTenant);
      }
      if r.ctx.user == 0 {
        return Err(NotAuthorized);
      }
      if !r.readOk {
        return Err(SystemError);
      }
      var snapshot := orders;
      if !Visible(orders, r) {
        return Err(NotAuthorized);
      }
      var order := orders[r.orderId];
      if order.user != r.ctx.user {
        return Err(NotAuthorized);
      }
      if !Cancellable(order.status) {
        return Err(NotCancellable);
      }
      if order.cancellableUntil.Some? && r.now >= order.cancellableUntil.value {
        return Err(WindowExpired);
      }
      if r.mfa.RaisedOwn? {
        return Err(MfaUnavailable);
      }
      if r.mfa.RaisedOther? {
        return Err(SystemError);
      }
      if r.mfa.Rejected? {
        return Err(MfaFailed);
      }
      orders := orders[r.orderId := order.(status := Cancelled, updatedAt := r.now)];
      if !r.writeOk {
        orders := snapshot;
        return Err(SystemError);
      }
      return Ok(r.now);
    }
  }

  // ---------- What one call decides ----------

  /** The order a request names, if it exists, is not deleted and belongs to the caller in the
      caller's tenant. */
  function OwnOrder(orders: Orders, r: Request): Option<Order> {
    if r.orderId in orders then
      var o := orders[r.orderId];
      if o.tenant == r.ctx.tenant && o.user == r.ctx.user && !o.deleted then Some(o) else None
    else None
  }

  /** A request is granted if and only if the caller is known, the database answers, the order
      is the caller's own, pending or confirmed and still within its window, MFA verifies and
      the change is committed. */
  lemma GrantedIff(orders: Orders, r: Request)
    ensures Refusal(orders, r).None? <==>
            && r.ctx.tenant != 0 && r.ctx.user != 0 && r.readOk && r.writeOk && r.mfa == Verified
            && OwnOrder(orders, r).Some?
            && var o := OwnOrder(orders, r).value;
            && (o.status == Pending || o.status == Confirmed)
            && (o.cancellableUntil == None || r.now < o.cancellableUntil.value)
  {
  }

  /** Why a request is refused: each error under exactly these circumstances. */
  lemma RefusedBecause(orders: Orders, r: Request)
    ensures var (known, own) := (r.ctx.tenant != 0 && r.ctx.user != 0, OwnOrder(orders, r));
            var open := own.Some? && (own.value.status == Pending || own.value.status == Confirmed);
            var timely := open && !(own.value.cancellableUntil.Some? && r.now >= own.value.cancellableUntil.value);
            && (Refusal(orders, r) == Some(MissingTenant) <==> r.ctx.tenant == 0)
            && (Refusal(orders, r) == Some(NotAuthorized) <==>
                r.ctx.tenant != 0 && (r.ctx.user == 0 || (r.readOk && own.None?)))
            && (Refusal(orders, r) == Some(NotCancellable) <==> known && r.readOk && own.Some? && !open)
            && (Refusal(orders, r) == Some(WindowExpired) <==> known && r.readOk && open && !timely)
            && (Refusal(orders, r) == Some(MfaFailed) <==> known && r.readOk && timely && r.mfa == Rejected)
            && (Refusal(orders, r) == Some(MfaUnavailable) <==> known && r.readOk && timely && r.mfa == RaisedOwn)
            && (Refusal(orders, r) == Some(SystemError) <==>
                known && (!r.readOk || (timely && (r.mfa == RaisedOther || (r.mfa == Verified && !r.writeOk)))))
  {
  }

  // ---------- Runs ----------

  function Step(orders: Orders, r: Request): Orders {
    if Refusal(orders, r).None? then orders[r.orderId := CancelledAt(orders[r.orderId], r.now)] else orders
  }

  function After(orders: Orders, calls: seq<Request>): Orders {
    if calls == [] then orders else Step(After(orders, calls[..|calls| - 1]), calls[|calls| - 1])
  }

  /** How many calls of the run successfully cancelled this order. */
  function Successes(orders: Orders, calls: seq<Request>, id: nat): nat {
    if calls == [] then 0
    else
      var r := calls[|calls| - 1];
      Successes(orders, calls[..|calls| - 1], id)
      + if r.orderId == id && Refusal(After(orders, calls[..|calls| - 1]), r).None? then 1 else 0
  }

  /** Over any sequence of calls each order is cancelled at most once, only from pending or
      confirmed; nothing but its status and timestamp changes, and orders no call succeeded on
      are exactly as they were. */
  lemma {:induction false} OrdersAreCancelledAtMostOnce(orders: Orders, calls: seq<Request>, id: nat)
    ensures After(orders, calls).Keys == orders.Keys
    ensures Successes(orders, calls, id) <= 1
    ensures id in orders ==>
              var (before, after) := (orders[id], After(orders, calls)[id]);
              if Successes(orders, calls, id) == 0 then after == before
              else Cancellable(before.status) && after == before.(status := Cancelled, updatedAt := after.updatedAt)
    ensures id !in orders ==> Successes(orders, calls, id) == 0
  {
    if calls != [] {
      OrdersAreCancelledAtMostOnce(orders, calls[..|calls| - 1], id);
    }
  }

  /** A call only ever changes an order its caller owns, in the caller's tenant. */
  lemma OnlyTheOwnersOrderChanges(orders: Orders, r: Request, id: nat)
    requires id in orders && id in Step(orders, r) && Step(orders, r)[id] != orders[id]
    ensures id == r.orderId && orders[id].tenant == r.ctx.tenant && orders[id].user == r.ctx.user
    ensures r.ctx.tenant != 0 && r.ctx.user != 0 && r.mfa.Verified?
  {
  }
}
