/** order-service: orders, their sagas, the saga handlers and the timeout sweep. */
module OrderSaga {
  import opened Common
  import opened Events

  datatype OrderStatus = PENDING | CONFIRMED | FAILED | CANCELLED | COMPLETED

  datatype SagaStep =
    | STARTED
    | INVENTORY_RESERVE_SENT
    | INVENTORY_RESERVED
    | PAYMENT_CHARGE_SENT
    | PAYMENT_COMPLETED
    | SAGA_COMPLETED
    | COMPENSATING
    | SAGA_FAILED

  datatype SagaStatus = RUNNING | DONE | ABORTED

  datatype Order = Order(user: UserId, status: OrderStatus, lines: seq<Line>, total: Money, key: Option<string>)

  /** user, lines and total are the saga's JSON payload. */
  datatype Saga = Saga(
    step: SagaStep, status: SagaStatus, user: UserId, lines: seq<Line>, total: Money, timeoutAt: Time)

  datatype OrderDb = OrderDb(orders: map<OrderId, Order>, sagas: map<OrderId, Saga>, outbox: seq<Event>)

  const EMPTY := OrderDb(map[], map[], [])

  /** Five minutes, in milliseconds. */
  const SAGA_TIMEOUT: Time := 5 * 60 * 1000
  const SWEEP_SIZE := 20

  datatype Role = ADMIN | CUSTOMER | VENDOR

  datatype CreateResult = Created | Existing(order: OrderId) | DuplicateKey
  datatype CancelResult = Cancelled | NotFound | Forbidden | NotCancellable

  // ---- The effect of each operation on the tables ----

  /** The idempotency lookup is per user; an empty key counts as no key. */
  predicate SameRequest(order: Order, user: UserId, key: Option<string>) {
    key.Some? && key.value != "" && order.user == user && order.key == key
  }

  predicate Seen(db: OrderDb, user: UserId, key: Option<string>) {
    exists o | o in db.orders :: SameRequest(db.orders[o], user, key)
  }

  /** The unique index on the key spans all users and ignores only a missing key. */
  predicate KeyTaken(db: OrderDb, key: Option<string>) {
    key.Some? && exists o | o in db.orders :: db.orders[o].key == key
  }

  function CreateNext(
    db: OrderDb, o: OrderId, user: UserId, lines: seq<Line>, key: Option<string>, now: Time): OrderDb
  {
    if o in db.orders || Seen(db, user, key) || KeyTaken(db, key) then db
    else
      OrderDb(
        db.orders[o := Order(user, PENDING, lines, Total(lines), key)],
        db.sagas[o := Saga(STARTED, RUNNING, user, lines, Total(lines), now + SAGA_TIMEOUT)],
        db.outbox + [OrderCreated(o, user, Total(lines), lines), InventoryReserve(o, Items(lines))])
  }

  predicate Cancellable(db: OrderDb, o: OrderId, user: UserId, role: Role) {
    o in db.orders && (role == ADMIN || db.orders[o].user == user) && db.orders[o].status in {PENDING, CONFIRMED}
  }

  function CancelNext(db: OrderDb, o: OrderId, user: UserId, role: Role): OrderDb {
    if !Cancellable(db, o, user, role) then db
    else
      db.(orders := db.orders[o := db.orders[o].(status := CANCELLED)],
          outbox := db.outbox + [OrderCancelled(o, db.orders[o].user)])
  }

  predicate Running(db: OrderDb, o: OrderId) {
    o in db.sagas && db.sagas[o].status == RUNNING
  }

  /** The common shape of the handlers: move the saga, set the order's status, append to the outbox. */
  function Move(
    db: OrderDb, o: OrderId, step: SagaStep, status: SagaStatus, order: OrderStatus, emit: seq<Event>): OrderDb
    requires o in db.sagas
  {
    OrderDb(
      if o in db.orders then db.orders[o := db.orders[o].(status := order)] else db.orders,
      db.sagas[o := db.sagas[o].(step := step, status := status)],
      db.outbox + emit)
  }

  function ReservedNext(db: OrderDb, o: OrderId): OrderDb {
    if !Running(db, o) then db
    else Move(db, o, PAYMENT_CHARGE_SENT, RUNNING, CONFIRMED, [PaymentCharge(o, db.sagas[o].user, db.sagas[o].total)])
  }

  function PaidNext(db: OrderDb, o: OrderId): OrderDb {
    if !Running(db, o) then db
    else Move(db, o, SAGA_COMPLETED, DONE, COMPLETED, [OrderCompleted(o)])
  }

  function PaymentFailedNext(db: OrderDb, o: OrderId, reason: string): OrderDb {
    if !Running(db, o) then db
    else
      Move(db, o, COMPENSATING, ABORTED, FAILED,
           [InventoryRelease(o, Items(db.sagas[o].lines)), OrderFailed(o, reason)])
  }

  /** Used for failed reservations and for timeouts; it releases nothing. */
  function FailNext(db: OrderDb, o: OrderId, reason: string): OrderDb {
    if !Running(db, o) then db
    else Move(db, o, SAGA_FAILED, ABORTED, FAILED, [OrderFailed(o, reason)])
  }

  /** Failing every listed saga in turn, whatever happened to it since the list was read; bad ones are rolled back. */
  function SweepNext(db: OrderDb, list: seq<OrderId>, bad: set<OrderId>): OrderDb {
    if list == [] then db
    else
      var before, last := SweepNext(db, list[..|list| - 1], bad), list[|list| - 1];
      if last in bad then before else OrderNext(before, Timeout(last))
  }

  datatype OrderOp =
    | Create(order: OrderId, user: UserId, lines: seq<Line>, key: Option<string>, now: Time)
    | Cancel(order: OrderId, user: UserId, role: Role)
    | OnInventoryReserved(order: OrderId)
    | OnInventoryFailed(order: OrderId, reason: string)
    | OnPaymentCompleted(order: OrderId)
    | OnPaymentFailed(order: OrderId, reason: string)
    | Timeout(order: OrderId)

  function OrderNext(db: OrderDb, op: OrderOp): OrderDb {
    match op
    case Create(o, user, lines, key, now) => CreateNext(db, o, user, lines, key, now)
    case Cancel(o, user, role) => CancelNext(db, o, user, role)
    case OnInventoryReserved(o) => ReservedNext(db, o)
    case OnInventoryFailed(o, reason) => FailNext(db, o, reason)
    case OnPaymentCompleted(o) => PaidNext(db, o)
    case OnPaymentFailed(o, reason) => PaymentFailedNext(db, o, reason)
    case Timeout(o) => FailNext(db, o, "saga_timeout")
  }

  function OrderRun(db: OrderDb, ops: seq<OrderOp>): OrderDb {
    if ops == [] then db
    else OrderNext(OrderRun(db, ops[..|ops| - 1]), ops[|ops| - 1])
  }

  predicate Expired(db: OrderDb, o: OrderId, now: Time) {
    Running(db, o) && db.sagas[o].timeoutAt < now
  }

  /** What the query of the sweep may return: expired sagas, 20 at most, and all of them when there are fewer. */
  ghost predicate QueryOk(db: OrderDb, now: Time, list: seq<OrderId>) {
    && |list| <= SWEEP_SIZE
    && (forall i | 0 <= i < |list| :: Expired(db, list[i], now))
    && (forall i, j | 0 <= i < j < |list| :: list[i] != list[j])
    && (|list| < SWEEP_SIZE ==> forall o | Expired(db, o, now) :: o in list)
  }

  /** The command names the order and has each line's own product and quantity, in the same place. */
  predicate CarriesItems(e: Event, o: OrderId, lines: seq<Line>) {
    (e.InventoryReserve? || e.InventoryRelease?) && e.order == o && |e.items| == |lines| &&
    forall k | 0 <= k < |lines| ::
      e.items[k].product == lines[k].product && e.items[k].quantity == lines[k].quantity
  }

  // ---- The service ----

  class OrderService {
    var orders: map<OrderId, Order>
    var sagas: map<OrderId, Saga>
    var outbox: seq<Event>

    constructor ()
      ensures Db() == EMPTY
    {
      orders, sagas, outbox := map[], map[], [];
    }

    ghost function Db(): OrderDb
      reads this
    {
      OrderDb(orders, sagas, outbox)
    }

    /** o stands for the fresh id the database generates on insert. */
    method CreateOrder(o: OrderId, user: UserId, lines: seq<Line>, key: Option<string>, now: Time)
      returns (res: CreateResult)
      requires o !in orders
      modifies this
      ensures Db() == CreateNext(old(Db()), o, user, lines, key, now)
      ensures res.Existing? <==>
        (key.Some? && key.value != "" && exists f | f in old(orders) ::
           old(orders)[f].user == user && old(orders)[f].key == key)
      ensures res.Existing? ==>
        res.order in old(orders) && old(orders)[res.order].user == user && old(orders)[res.order].key == key
      ensures res.DuplicateKey? <==>
        (!res.Existing? && key.Some? && exists f | f in old(orders) :: old(orders)[f].key == key)
      ensures !res.Created? ==> unchanged(this)
      ensures res.Created? ==>
        && orders == old(orders)[o := Order(user, PENDING, lines, Total(lines), key)]
        && sagas == old(sagas)[o := Saga(STARTED, RUNNING, user, lines, Total(lines), now + 5 * 60 * 1000)]
        && |outbox| == |old(outbox)| + 2 && old(outbox) <= outbox
        && outbox[|old(outbox)|] == OrderCreated(o, user, Total(lines), lines)
        && CarriesItems(outbox[|old(outbox)| + 1], o, lines) && outbox[|old(outbox)| + 1].InventoryReserve?
    {
      if key.Some? && key.value != "" {
        if found :| found in orders && SameRequest(orders[found], user, key) {
          return Existing(found);
        }
      }
      var total := Total(lines);
      if key.Some? && exists other | other in orders :: orders[other].key == key {
        return DuplicateKey; // the INSERT violates the unique index and the transaction rolls back
      }
      orders := orders[o := Order(user, PENDING, lines, total, key)];
      sagas := sagas[o := Saga(STARTED, RUNNING, user, lines, total, now + SAGA_TIMEOUT)];
      outbox := outbox + [OrderCreated(o, user, total, lines)];
      outbox := outbox + [InventoryReserve(o, Items(lines))];
      return Created;
    }

    method CancelOrder(o: OrderId, user: UserId, role: Role) returns (res: CancelResult)
      modifies this
      ensures Db() == CancelNext(old(Db()), o, user, role)
      ensures res == NotFound <==> o !in old(orders)
      ensures res == Forbidden <==> o in old(orders) && role != ADMIN && old(orders)[o].user != user
      ensures res == NotCancellable <==>
        o in old(orders) && res != Forbidden && old(orders)[o].status != PENDING && old(orders)[o].status != CONFIRMED
      ensures res == Cancelled ==>
        && orders == old(orders)[o := old(orders)[o].(status := CANCELLED)] && sagas == old(sagas)
        && outbox == old(outbox) + [OrderCancelled(o, old(orders)[o].user)]
      ensures res != Cancelled ==> unchanged(this)
    {
      if o !in orders {
        return NotFound;
      }
      var order := orders[o];
      if role != ADMIN && order.user != user {
        return Forbidden;
      }
      if order.status !in {PENDING, CONFIRMED} {
        return NotCancellable;
      }
      orders := orders[o := order.(status := CANCELLED)];
      outbox := outbox + [OrderCancelled(o, order.user)];
      return Cancelled;
    }

    method SetOrderStatus(o: OrderId, status: OrderStatus)
      modifies this`orders
      ensures orders == if o in old(orders) then old(orders)[o := old(orders)[o].(status := status)] else old(orders)
    {
      if o in orders { // the UPDATE touches no row when the order is unknown
        orders := orders[o := orders[o].(status := status)];
      }
    }

    method HandleInventoryReserved(o: OrderId)
      modifies this
      ensures Db() == ReservedNext(old(Db()), o)
      ensures Running(Db(), o) <==> Running(old(Db()), o)
      ensures o in old(sagas) && old(sagas)[o].status == RUNNING ==>
        && sagas == old(sagas)[o := old(sagas)[o].(step := PAYMENT_CHARGE_SENT)]
        && (orders == if o in old(orders) then old(orders)[o := old(orders)[o].(status := CONFIRMED)] else old(orders))
        && outbox == old(outbox) + [PaymentCharge(o, old(sagas)[o].user, old(sagas)[o].total)]
      ensures !(o in old(sagas) && old(sagas)[o].status == RUNNING) ==> unchanged(this)
    {
      if o !in sagas || sagas[o].status != RUNNING {
        return;
      }
      var saga := sagas[o];
      sagas := sagas[o := saga.(step := INVENTORY_RESERVED)];
      SetOrderStatus(o, CONFIRMED);
      outbox := outbox + [PaymentCharge(o, saga.user, saga.total)];
      sagas := sagas[o := sagas[o].(step := PAYMENT_CHARGE_SENT)];
    }

    method HandlePaymentCompleted(o: OrderId)
      modifies this
      ensures Db() == PaidNext(old(Db()), o)
      ensures !Running(Db(), o)
      ensures o in old(sagas) && old(sagas)[o].status == RUNNING ==>
        && sagas == old(sagas)[o := old(sagas)[o].(step := SAGA_COMPLETED, status := DONE)]
        && (orders == if o in old(orders) then old(orders)[o := old(orders)[o].(status := COMPLETED)] else old(orders))
        && outbox == old(outbox) + [OrderCompleted(o)]
      ensures !(o in old(sagas) && old(sagas)[o].status == RUNNING) ==> unchanged(this)
    {
      if o !in sagas || sagas[o].status != RUNNING {
        return;
      }
      sagas := sagas[o := sagas[o].(step := SAGA_COMPLETED, status := DONE)];
      SetOrderStatus(o, COMPLETED);
      outbox := outbox + [OrderCompleted(o)];
    }

    method HandlePaymentFailed(o: OrderId, reason: string)
      modifies this
      ensures Db() == PaymentFailedNext(old(Db()), o, reason)
      ensures !Running(Db(), o)
      ensures o in old(sagas) && old(sagas)[o].status == RUNNING ==>
        && sagas == old(sagas)[o := old(sagas)[o].(step := COMPENSATING, status := ABORTED)]
        && (orders == if o in old(orders) then old(orders)[o := old(orders)[o].(status := FAILED)] else old(orders))
        && |outbox| == |old(outbox)| + 2 && old(outbox) <= outbox
        && CarriesItems(outbox[|old(outbox)|], o, old(sagas)[o].lines) && outbox[|old(outbox)|].InventoryRelease?
        && outbox[|old(outbox)| + 1] == OrderFailed(o, reason)
      ensures !(o in old(sagas) && old(sagas)[o].status == RUNNING) ==> unchanged(this)
    {
      if o !in sagas || sagas[o].status != RUNNING {
        return;
      }
      var saga := sagas[o];
      sagas := sagas[o := saga.(step := COMPENSATING, status := ABORTED)];
      outbox := outbox + [InventoryRelease(o, Items(saga.lines))];
      SetOrderStatus(o, FAILED);
      outbox := outbox + [OrderFailed(o, reason)];
    }

    /** An error in the transaction is logged and rolled back. */
    method FailSaga(o: OrderId, reason: string, throws: bool)
      modifies this
      ensures Db() == if throws then old(Db()) else FailNext(old(Db()), o, reason)
      ensures !throws ==> !Running(Db(), o)
      ensures !throws && o in old(sagas) && old(sagas)[o].status == RUNNING ==>
        && sagas == old(sagas)[o := old(sagas)[o].(step := SAGA_FAILED, status := ABORTED)]
        && (orders == if o in old(orders) then old(orders)[o := old(orders)[o].(status := FAILED)] else old(orders))
        && outbox == old(outbox) + [OrderFailed(o, reason)]
      ensures throws || !(o in old(sagas) && old(sagas)[o].status == RUNNING) ==> unchanged(this)
    {
      if o !in sagas || sagas[o].status != RUNNING || throws {
        return;
      }
      sagas := sagas[o := sagas[o].(step := SAGA_FAILED, status := ABORTED)];
      SetOrderStatus(o, FAILED);
      outbox := outbox + [OrderFailed(o, reason)];
    }

    /** The query of the sweep: at most 20 expired running sagas, in no particular order. */
    method FindExpired(now: Time) returns (list: seq<OrderId>)
      ensures QueryOk(Db(), now, list)
      ensures |list| <= 20
      ensures forall o | o in list :: o in sagas && sagas[o].status == RUNNING && sagas[o].timeoutAt < now
      ensures forall i, j | 0 <= i < j < |list| :: list[i] != list[j]
      ensures |list| < 20 ==>
        forall o | o in sagas && sagas[o].status == RUNNING && sagas[o].timeoutAt < now :: o in list
    {
      list := [];
      var rest := set o | o in sagas && sagas[o].status == RUNNING && sagas[o].timeoutAt < now;
      while rest != {} && |list| < SWEEP_SIZE
        invariant |list| <= SWEEP_SIZE
        invariant forall i | 0 <= i < |list| :: Expired(Db(), list[i], now) && list[i] !in rest
        invariant forall i, j | 0 <= i < j < |list| :: list[i] != list[j]
        invariant forall o | o in rest :: Expired(Db(), o, now)
        invariant forall o | Expired(Db(), o, now) :: o in rest || o in list
        decreases |rest|
      {
        var o :| o in rest;
        rest := rest - {o};
        list := list + [o];
      }
    }

    /** The loop over a list that may be out of date by the time it runs. bad: the sagas whose failing errors. */
    method FailListed(list: seq<OrderId>, bad: set<OrderId>)
      modifies this
      ensures Db() == SweepNext(old(Db()), list, bad)
    {
      var i := 0;
      while i < |list|
        invariant i <= |list|
        invariant Db() == SweepNext(old(Db()), list[..i], bad)
      {
        assert list[..i + 1][..i] == list[..i];
        FailSaga(list[i], "saga_timeout", list[i] in bad);
        i := i + 1;
      }
      assert list[..|list|] == list;
    }

    method CheckTimeouts(now: Time, bad: set<OrderId>) returns (list: seq<OrderId>)
      modifies this
      ensures QueryOk(old(Db()), now, list)
      ensures Db() == SweepNext(old(Db()), list, bad)
    {
      list := FindExpired(now);
      FailListed(list, bad);
    }
  }

  /** Exactly the listed good sagas that are still running are failed; everything else keeps its saga and order. */
  lemma {:induction false} SweepFailsExactlyRunning(db: OrderDb, list: seq<OrderId>, bad: set<OrderId>, o: OrderId)
    requires db.orders.Keys == db.sagas.Keys && o in db.sagas
    ensures var db' := SweepNext(db, list, bad);
            && db'.orders.Keys == db'.sagas.Keys == db.sagas.Keys
            && (if o in list && o !in bad && db.sagas[o].status == RUNNING
                then db'.sagas[o] == db.sagas[o].(step := SAGA_FAILED, status := ABORTED)
                  && db'.orders[o] == db.orders[o].(status := FAILED)
                else db'.sagas[o] == db.sagas[o] && db'.orders[o] == db.orders[o])
    decreases |list|
  {
    if list != [] {
      SweepFailsExactlyRunning(db, list[..|list| - 1], bad, o);
      assert o in list <==> o in list[..|list| - 1] || o == list[|list| - 1];
    }
  }

  lemma {:induction false} RunsAfterSweep(db: OrderDb, list: seq<OrderId>, bad: set<OrderId>, o: OrderId)
    ensures Running(SweepNext(db, list, bad), o) <==> Running(db, o) && !(o in list && o !in bad)
    decreases |list|
  {
    if list != [] {
      RunsAfterSweep(db, list[..|list| - 1], bad, o);
      assert o in list <==> o in list[..|list| - 1] || o == list[|list| - 1];
    }
  }

  /** A sweep reports each saga it fails once, as timed out, however often it is listed, and emits nothing else. */
  lemma {:induction false} SweepReports(db: OrderDb, list: seq<OrderId>, bad: set<OrderId>, e: Event)
    ensures var outbox := SweepNext(db, list, bad).outbox;
            && db.outbox <= outbox
            && multiset(outbox[|db.outbox|..])[e] ==
                 if e.OrderFailed? && e.failure == "saga_timeout" && e.order in list && e.order !in bad &&
                    e.order in db.sagas && db.sagas[e.order].status == RUNNING
                 then 1 else 0
    decreases |list|
  {
    if list != [] {
      var front, last := list[..|list| - 1], list[|list| - 1];
      SweepReports(db, front, bad, e);
      RunsAfterSweep(db, front, bad, last);
      var before, after := SweepNext(db, front, bad).outbox, SweepNext(db, list, bad).outbox;
      if after != before {
        var emitted := OrderFailed(last, "saga_timeout");
        assert after[|db.outbox|..] == before[|db.outbox|..] + [emitted];
      }
      assert forall o | o in list :: o in front || o == last;
    }
  }

  // ---- What every run of the service keeps, whatever the other services send ----

  predicate IsSagaEvent(e: Event, o: OrderId) {
    && (e.OrderCreated? || e.InventoryReserve? || e.InventoryRelease? || e.OrderCompleted? || e.OrderFailed?)
    && e.order == o
  }

  /** The events about o other than charges and cancellations, in order. */
  function Log(outbox: seq<Event>, o: OrderId): seq<Event> {
    if outbox == [] then []
    else
      var n := |outbox| - 1;
      Log(outbox[..n], o) + if IsSagaEvent(outbox[n], o) then [outbox[n]] else []
  }

  lemma {:induction false} LogAppend(a: seq<Event>, b: seq<Event>, o: OrderId)
    ensures Log(a + b, o) == Log(a, o) + Log(b, o)
    decreases |b|
  {
    if b == [] {
      assert a + b == a;
    } else {
      assert (a + b)[..|a + b| - 1] == a + b[..|b| - 1];
      LogAppend(a, b[..|b| - 1], o);
    }
  }

  lemma {:induction false} LogShort(x: Event, y: Event, o: OrderId)
    ensures Log([x], o) == if IsSagaEvent(x, o) then [x] else []
    ensures Log([x, y], o) == Log([x], o) + Log([y], o)
  {
    assert [x][..0] == [] && [y][..0] == [] && [x, y][..1] == [x];
  }

  /** The (step, status) pairs of a committed saga, the order statuses each allows, and what it has emitted since. */
  predicate SagaShape(order: Order, saga: Saga, o: OrderId, outcome: seq<Event>) {
    match (saga.step, saga.status)
    case (STARTED, RUNNING) => order.status in {PENDING, CANCELLED} && outcome == []
    case (PAYMENT_CHARGE_SENT, RUNNING) => order.status in {CONFIRMED, CANCELLED} && outcome == []
    case (SAGA_COMPLETED, DONE) => order.status == COMPLETED && outcome == [OrderCompleted(o)]
    case (COMPENSATING, ABORTED) =>
      && order.status == FAILED && |outcome| == 2
      && outcome[0] == InventoryRelease(o, Items(order.lines))
      && outcome[1].OrderFailed? && outcome[1].order == o
    case (SAGA_FAILED, ABORTED) =>
      order.status == FAILED && |outcome| == 1 && outcome[0].OrderFailed? && outcome[0].order == o
    case _ => false
  }

  function Opening(o: OrderId, order: Order): seq<Event> {
    [OrderCreated(o, order.user, order.total, order.lines), InventoryReserve(o, Items(order.lines))]
  }

  /** An order, its saga and the log of its events agree. */
  predicate RecordOk(o: OrderId, order: Order, saga: Saga, log: seq<Event>) {
    && order.total == Total(order.lines)
    && saga.lines == order.lines && saga.total == order.total && saga.user == order.user
    && |log| >= 2 && log[..2] == Opening(o, order)
    && SagaShape(order, saga, o, log[2..])
  }

  predicate OrderOk(db: OrderDb, o: OrderId)
    requires o in db.orders && o in db.sagas
  {
    RecordOk(o, db.orders[o], db.sagas[o], Log(db.outbox, o))
  }

  ghost predicate OrderInv(db: OrderDb) {
    && db.orders.Keys == db.sagas.Keys
    && (forall o | o in db.orders :: OrderOk(db, o))
    && (forall o: OrderId | o !in db.orders :: Log(db.outbox, o) == [])
    && UniqueKeys(db.orders)
  }

  /** The unique index on the idempotency key. */
  predicate UniqueKeys(orders: map<OrderId, Order>) {
    forall a, b | a in orders && b in orders && orders[a].key.Some? && orders[a].key == orders[b].key :: a == b
  }

  /** What a handler appends to the outbox. */
  function Emitted(db: OrderDb, op: OrderOp): seq<Event> {
    OrderNext(db, op).outbox[|db.outbox|..]
  }

  /** Its part about order o. */
  function Added(db: OrderDb, op: OrderOp, o: OrderId): seq<Event> {
    Log(Emitted(db, op), o)
  }

  lemma {:induction false} LogOfOthers(events: seq<Event>, o: OrderId)
    requires forall i | 0 <= i < |events| :: !IsSagaEvent(events[i], o)
    ensures Log(events, o) == []
    decreases |events|
  {
    if events != [] {
      LogOfOthers(events[..|events| - 1], o);
    }
  }

  lemma {:induction false} OutboxGrows(db: OrderDb, op: OrderOp)
    ensures OrderNext(db, op).outbox == db.outbox + Emitted(db, op)
  {
  }

  lemma {:induction false} EmitsOwnEvents(db: OrderDb, op: OrderOp)
    ensures forall e | e in Emitted(db, op) ::
              (IsSagaEvent(e, op.order) || e.PaymentCharge? || e.OrderCancelled?) && e.order == op.order
  {
  }

  lemma {:induction false} LogGrows(db: OrderDb, op: OrderOp, o: OrderId)
    ensures Log(OrderNext(db, op).outbox, o) == Log(db.outbox, o) + Added(db, op, o)
    ensures o != op.order ==> Added(db, op, o) == []
  {
    OutboxGrows(db, op);
    LogAppend(db.outbox, Emitted(db, op), o);
    if o != op.order {
      EmitsOwnEvents(db, op);
      LogOfOthers(Emitted(db, op), o);
    }
  }

  lemma {:induction false} AddedByMove(db: OrderDb, op: OrderOp)
    requires Running(db, op.order) && !op.Create? && !op.Cancel?
    ensures Added(db, op, op.order) ==
            (match op
             case OnInventoryReserved(o) => []
             case OnPaymentCompleted(o) => [OrderCompleted(o)]
             case OnPaymentFailed(o, reason) => [InventoryRelease(o, Items(db.sagas[o].lines)), OrderFailed(o, reason)]
             case OnInventoryFailed(o, reason) => [OrderFailed(o, reason)]
             case Timeout(o) => [OrderFailed(o, "saga_timeout")]
             case _ => [])
  {
    var emit := Emitted(db, op);
    if |emit| == 1 {
      LogShort(emit[0], emit[0], op.order);
      assert emit == [emit[0]];
    } else {
      LogShort(emit[0], emit[1], op.order);
      LogShort(emit[1], emit[1], op.order);
      assert emit == [emit[0], emit[1]];
    }
  }

  /** An operation touches only its own order's rows. */
  lemma {:induction false} OtherRowsSame(db: OrderDb, op: OrderOp, o: OrderId)
    requires o != op.order
    ensures o in OrderNext(db, op).orders <==> o in db.orders
    ensures o in OrderNext(db, op).sagas <==> o in db.sagas
    ensures o in db.orders ==> OrderNext(db, op).orders[o] == db.orders[o]
    ensures o in db.sagas ==> OrderNext(db, op).sagas[o] == db.sagas[o]
  {
  }

  lemma {:induction false} OtherOrderUntouched(db: OrderDb, op: OrderOp, o: OrderId)
    requires o in db.orders && o in db.sagas && OrderOk(db, o) && o != op.order
    ensures o in OrderNext(db, op).orders && o in OrderNext(db, op).sagas && OrderOk(OrderNext(db, op), o)
  {
    OtherRowsSame(db, op, o);
    LogGrows(db, op, o);
    assert Log(db.outbox, o) + [] == Log(db.outbox, o);
  }

  lemma {:induction false} NewOrderOk(db: OrderDb, op: OrderOp)
    requires op.order !in db.orders && op.order !in db.sagas && Log(db.outbox, op.order) == []
    requires op.order in OrderNext(db, op).orders
    ensures op.order in OrderNext(db, op).sagas && OrderOk(OrderNext(db, op), op.order)
  {
    assert op.Create?;
    var o, db' := op.order, OrderNext(db, op);
    var opening := Opening(o, db'.orders[o]);
    assert db'.outbox == db.outbox + opening;
    LogAppend(db.outbox, opening, o);
    LogShort(opening[0], opening[1], o);
    LogShort(opening[1], opening[1], o);
    assert Log(db'.outbox, o) == opening;
  }

  lemma {:induction false} CancelledOrderOk(db: OrderDb, op: OrderOp)
    requires op.order in db.orders && op.order in db.sagas && OrderOk(db, op.order) && (op.Cancel? || op.Create?)
    ensures op.order in OrderNext(db, op).orders && op.order in OrderNext(db, op).sagas
    ensures OrderOk(OrderNext(db, op), op.order)
  {
    var o, db' := op.order, OrderNext(db, op);
    if db' != db {
      var e := OrderCancelled(o, db.orders[o].user);
      assert db'.outbox == db.outbox + [e];
      LogAppend(db.outbox, [e], o);
      LogShort(e, e, o);
      assert Log(db'.outbox, o) == Log(db.outbox, o);
      CancelledRecord(o, db.orders[o], db.sagas[o], Log(db.outbox, o));
    }
  }

  lemma {:induction false} CancelledRecord(o: OrderId, order: Order, saga: Saga, log: seq<Event>)
    requires RecordOk(o, order, saga, log) && order.status in {PENDING, CONFIRMED}
    ensures RecordOk(o, order.(status := CANCELLED), saga, log)
  {
  }

  /** A running saga may take any of the four moves. */
  lemma {:induction false} RecordMoves(
    o: OrderId, order: Order, saga: Saga, log: seq<Event>, order': Order, saga': Saga, added: seq<Event>)
    requires RecordOk(o, order, saga, log) && saga.status == RUNNING
    requires order' == order.(status := order'.status) && saga' == saga.(step := saga'.step, status := saga'.status)
    requires SagaShape(order', saga', o, added)
    ensures RecordOk(o, order', saga', log + added)
  {
    assert log[2..] == [];
    assert (log + added)[..2] == log[..2] && (log + added)[2..] == added;
  }

  lemma {:induction false} MovedShape(db: OrderDb, op: OrderOp)
    requires Running(db, op.order) && op.order in db.orders && !op.Create? && !op.Cancel?
    requires db.sagas[op.order].lines == db.orders[op.order].lines
    ensures var db' := OrderNext(db, op);
            && op.order in db'.orders && op.order in db'.sagas
            && SagaShape(db'.orders[op.order], db'.sagas[op.order], op.order, Added(db, op, op.order))
  {
    AddedByMove(db, op);
  }

  lemma {:induction false} MovedOrderOk(db: OrderDb, op: OrderOp)
    requires op.order in db.orders && op.order in db.sagas && OrderOk(db, op.order) && !op.Create? && !op.Cancel?
    ensures op.order in OrderNext(db, op).orders && op.order in OrderNext(db, op).sagas
    ensures OrderOk(OrderNext(db, op), op.order)
  {
    var o, db' := op.order, OrderNext(db, op);
    if Running(db, o) {
      LogGrows(db, op, o);
      MovedShape(db, op);
      RecordMoves(o, db.orders[o], db.sagas[o], Log(db.outbox, o), db'.orders[o], db'.sagas[o], Added(db, op, o));
    }
  }

  /** Keys do not change, and a new order brings a key nobody has. */
  lemma {:induction false} KeyStays(db: OrderDb, op: OrderOp, o: OrderId)
    requires o in OrderNext(db, op).orders
    ensures var order := OrderNext(db, op).orders[o];
            if o in db.orders then order.key == db.orders[o].key
            else o == op.order && !KeyTaken(db, order.key)
  {
    if o != op.order { OtherRowsSame(db, op, o); }
  }

  lemma {:induction false} KeysStayUnique(db: OrderDb, op: OrderOp)
    requires UniqueKeys(db.orders)
    ensures UniqueKeys(OrderNext(db, op).orders)
  {
    var orders := OrderNext(db, op).orders;
    forall a, b | a in orders && b in orders && orders[a].key.Some? && orders[a].key == orders[b].key
      ensures a == b
    {
      KeyStays(db, op, a);
      KeyStays(db, op, b);
    }
  }

  lemma {:induction false} StepOrderOk(db: OrderDb, op: OrderOp, o: OrderId)
    requires OrderInv(db) && o in OrderNext(db, op).orders
    ensures o in OrderNext(db, op).sagas && OrderOk(OrderNext(db, op), o)
  {
    if o != op.order { OtherRowsSame(db, op, o); }
    assert o in db.orders ==> o in db.sagas && OrderOk(db, o);
    assert o !in db.orders ==> o !in db.sagas && Log(db.outbox, o) == [];
    if o != op.order {
      OtherOrderUntouched(db, op, o);
    } else if o !in db.orders {
      NewOrderOk(db, op);
    } else if op.Create? || op.Cancel? {
      CancelledOrderOk(db, op);
    } else {
      MovedOrderOk(db, op);
    }
  }

  lemma {:induction false} OwnRowsTogether(db: OrderDb, op: OrderOp)
    requires op.order in db.orders <==> op.order in db.sagas
    ensures op.order in OrderNext(db, op).orders <==> op.order in OrderNext(db, op).sagas
    ensures op.order !in OrderNext(db, op).orders ==> OrderNext(db, op) == db
  {
  }

  lemma {:induction false} StepTables(db: OrderDb, op: OrderOp, o: OrderId)
    requires db.orders.Keys == db.sagas.Keys
    ensures o in OrderNext(db, op).orders <==> o in OrderNext(db, op).sagas
    ensures o !in OrderNext(db, op).orders ==> o !in db.orders && Log(OrderNext(db, op).outbox, o) == Log(db.outbox, o)
  {
    OwnRowsTogether(db, op);
    if o != op.order {
      OtherRowsSame(db, op, o);
      LogGrows(db, op, o);
    }
  }

  lemma {:induction false} OrderStepKeepsInv(db: OrderDb, op: OrderOp)
    requires OrderInv(db)
    ensures OrderInv(OrderNext(db, op))
  {
    var db' := OrderNext(db, op);
    forall o { StepTables(db, op, o); }
    assert db'.orders.Keys == db'.sagas.Keys;
    forall o | o in db'.orders ensures OrderOk(db', o) {
      StepOrderOk(db, op, o);
    }
    forall o: OrderId | o !in db'.orders ensures Log(db'.outbox, o) == [] {
      StepTables(db, op, o);
    }
    KeysStayUnique(db, op);
  }

  /**
   * For every sequence of handler calls, cancellations and timeouts, in any order and repeated at will:
   * five (step, status) pairs only, one completion or failure event exactly when the saga has ended,
   * one release command exactly when it is compensating, and one order per idempotency key.
   */
  lemma {:induction false} OrderRunKeepsInv(ops: seq<OrderOp>)
    ensures OrderInv(OrderRun(EMPTY, ops))
    decreases |ops|
  {
    if ops != [] {
      OrderRunKeepsInv(ops[..|ops| - 1]);
      OrderStepKeepsInv(OrderRun(EMPTY, ops[..|ops| - 1]), ops[|ops| - 1]);
    }
  }

  lemma {:induction false} HowManyInLog(outbox: seq<Event>, o: OrderId, f: Event -> bool)
    requires forall e :: f(e) ==> IsSagaEvent(e, o)
    ensures HowMany(outbox, f) == HowMany(Log(outbox, o), f)
    decreases |outbox|
  {
    if outbox != [] {
      var n := |outbox| - 1;
      HowManyInLog(outbox[..n], o, f);
      if IsSagaEvent(outbox[n], o) {
        HowManySnoc(Log(outbox[..n], o), outbox[n], f);
      } else {
        assert Log(outbox[..n], o) + [] == Log(outbox[..n], o);
      }
    }
  }

  /** How many events of a log of at most four satisfy f. */
  lemma {:induction false} HowManyShort(log: seq<Event>, f: Event -> bool)
    requires 2 <= |log| <= 4
    ensures HowMany(log, f) == (if f(log[0]) then 1 else 0) + (if f(log[1]) then 1 else 0) +
                               (if |log| > 2 && f(log[2]) then 1 else 0) + (if |log| > 3 && f(log[3]) then 1 else 0)
  {
    var first := log[..1];
    assert first == [] + [log[0]] && log[..2] == first + [log[1]];
    HowManySnoc([], log[0], f);
    HowManySnoc(first, log[1], f);
    if |log| > 2 {
      assert log[..3] == log[..2] + [log[2]];
      HowManySnoc(log[..2], log[2], f);
    }
    if |log| > 3 {
      assert log == log[..3] + [log[3]];
      HowManySnoc(log[..3], log[3], f);
    }
    assert log[..|log|] == log;
  }

  /** In every run, what a saga's step and status say about its order. */
  lemma {:induction false} SagaAndOrder(ops: seq<OrderOp>, o: OrderId)
    requires o in OrderRun(EMPTY, ops).orders
    ensures var db := OrderRun(EMPTY, ops);
            && o in db.sagas
            && (var order, saga := db.orders[o], db.sagas[o];
                && saga.user == order.user && saga.lines == order.lines
                && saga.total == order.total == Total(order.lines)
                && match saga.status
                   case RUNNING =>
                     || (saga.step == STARTED && (order.status == PENDING || order.status == CANCELLED))
                     || (saga.step == PAYMENT_CHARGE_SENT && (order.status == CONFIRMED || order.status == CANCELLED))
                   case DONE => saga.step == SAGA_COMPLETED && order.status == COMPLETED
                   case ABORTED =>
                     (saga.step == COMPENSATING || saga.step == SAGA_FAILED) && order.status == FAILED)
    ensures var orders := OrderRun(EMPTY, ops).orders;
            forall p | p in orders && orders[p].key != None && orders[p].key == orders[o].key :: p == o
  {
    OrderRunKeepsInv(ops);
    assert OrderOk(OrderRun(EMPTY, ops), o);
  }

  /** In every run each order was created and reserved for once, and its end was announced once, when it came. */
  lemma {:induction false} AnnouncedOnce(ops: seq<OrderOp>, o: OrderId)
    requires o in OrderRun(EMPTY, ops).orders && o in OrderRun(EMPTY, ops).sagas
    ensures var db := OrderRun(EMPTY, ops);
            var saga := db.sagas[o];
            && HowMany(db.outbox, (e: Event) => e.OrderCreated? && e.order == o) == 1
            && HowMany(db.outbox, (e: Event) => e.InventoryReserve? && e.order == o) == 1
            && HowMany(db.outbox, (e: Event) => e.OrderCompleted? && e.order == o) ==
                 (if saga.status == DONE then 1 else 0)
            && HowMany(db.outbox, (e: Event) => e.OrderFailed? && e.order == o) ==
                 (if saga.status == ABORTED then 1 else 0)
            && HowMany(db.outbox, (e: Event) => e.InventoryRelease? && e.order == o) ==
                 (if saga.step == COMPENSATING then 1 else 0)
  {
    OrderRunKeepsInv(ops);
    var db := OrderRun(EMPTY, ops);
    assert OrderOk(db, o);
    AnnouncedIs(db, o, (e: Event) => e.OrderCreated? && e.order == o);
    AnnouncedIs(db, o, (e: Event) => e.InventoryReserve? && e.order == o);
    AnnouncedIs(db, o, (e: Event) => e.OrderCompleted? && e.order == o);
    AnnouncedIs(db, o, (e: Event) => e.OrderFailed? && e.order == o);
    AnnouncedIs(db, o, (e: Event) => e.InventoryRelease? && e.order == o);
  }

  lemma {:induction false} AnnouncedIs(db: OrderDb, o: OrderId, f: Event -> bool)
    requires o in db.orders && o in db.sagas && OrderOk(db, o) && forall e :: f(e) ==> IsSagaEvent(e, o)
    ensures var log := Log(db.outbox, o);
            && 2 <= |log| <= 4 && log[0].OrderCreated? && log[1].InventoryReserve? && log[0].order == log[1].order == o
            && HowMany(db.outbox, f) == (if f(log[0]) then 1 else 0) + (if f(log[1]) then 1 else 0) +
                 (if |log| > 2 && f(log[2]) then 1 else 0) + (if |log| > 3 && f(log[3]) then 1 else 0)
            && (|log| > 2 ==> log[2] == log[2..][0]) && (|log| > 3 ==> log[3] == log[2..][1])
  {
    var log := Log(db.outbox, o);
    assert log[..2][0] == log[0] && log[..2][1] == log[1];
    HowManyInLog(db.outbox, o, f);
    HowManyShort(log, f);
  }

  /** Each command about an order carries its lines, item by item. */
  lemma {:induction false} CommandsCarryItems(ops: seq<OrderOp>, o: OrderId, e: Event)
    requires e in OrderRun(EMPTY, ops).outbox && (e.InventoryReserve? || e.InventoryRelease?) && e.order == o
    ensures o in OrderRun(EMPTY, ops).orders && CarriesItems(e, o, OrderRun(EMPTY, ops).orders[o].lines)
  {
    OrderRunKeepsInv(ops);
    InLog(OrderRun(EMPTY, ops).outbox, o, e);
    LoggedCommands(OrderRun(EMPTY, ops), o, e);
  }

  lemma {:induction false} LoggedCommands(db: OrderDb, o: OrderId, e: Event)
    requires if o in db.orders && o in db.sagas then OrderOk(db, o) else Log(db.outbox, o) == []
    requires e in Log(db.outbox, o) && (e.InventoryReserve? || e.InventoryRelease?) && e.order == o
    ensures o in db.orders && CarriesItems(e, o, db.orders[o].lines)
  {
    var log := Log(db.outbox, o);
    if o in db.orders && o in db.sagas {
      assert log == log[..2] + log[2..];
    }
  }

  lemma {:induction false} InLog(outbox: seq<Event>, o: OrderId, e: Event)
    requires e in outbox && IsSagaEvent(e, o)
    ensures e in Log(outbox, o)
    decreases |outbox|
  {
    if e != outbox[|outbox| - 1] {
      assert e in outbox[..|outbox| - 1];
      InLog(outbox[..|outbox| - 1], o, e);
    }
  }

  /** o is the same in both: its order, its saga and what was emitted about it. */
  predicate Frozen(before: OrderDb, after: OrderDb, o: OrderId)
    requires o in before.orders && o in before.sagas
  {
    && o in after.orders && o in after.sagas
    && after.orders[o] == before.orders[o] && after.sagas[o] == before.sagas[o]
    && Log(after.outbox, o) == Log(before.outbox, o)
  }

  lemma {:induction false} EndedStep(db: OrderDb, op: OrderOp, o: OrderId)
    requires OrderInv(db) && o in db.orders && !Running(db, o)
    ensures Frozen(db, OrderNext(db, op), o)
  {
    assert OrderOk(db, o);
    if op.order == o {
      assert OrderNext(db, op) == db;
    } else {
      OtherRowsSame(db, op, o);
      LogGrows(db, op, o);
    }
  }

  /** An ended saga and its order never change again. */
  lemma {:induction false} EndedIsFinal(db: OrderDb, ops: seq<OrderOp>, o: OrderId)
    requires OrderInv(db) && o in db.orders && !Running(db, o)
    ensures OrderInv(OrderRun(db, ops))
    ensures var db' := OrderRun(db, ops);
            && o in db'.orders && db'.orders[o] == db.orders[o]
            && o in db'.sagas && db'.sagas[o] == db.sagas[o]
            && Log(db'.outbox, o) == Log(db.outbox, o)
    decreases |ops|
  {
    if ops != [] {
      var n := |ops| - 1;
      EndedIsFinal(db, ops[..n], o);
      EndedStep(OrderRun(db, ops[..n]), ops[n], o);
      OrderStepKeepsInv(OrderRun(db, ops[..n]), ops[n]);
    }
  }

  /** No operation alters what was ordered, and a compensating saga stays one. */
  lemma {:induction false} StepKeepsOrder(db: OrderDb, op: OrderOp, o: OrderId)
    requires OrderInv(db) && o in db.orders
    ensures var db' := OrderNext(db, op);
            && o in db'.orders && o in db'.sagas
            && db'.orders[o].lines == db.orders[o].lines
            && db'.orders[o].user == db.orders[o].user
            && db'.orders[o].total == db.orders[o].total
            && (db.sagas[o].step == COMPENSATING ==> db'.sagas[o].step == COMPENSATING)
  {
    assert OrderOk(db, o);
    if op.order != o { OtherRowsSame(db, op, o); }
  }

  /** CANCELLED is never an end state: the saga is still running, and each way it can go on overwrites the status. */
  lemma {:induction false} CancelledIsNotFinal(ops: seq<OrderOp>, o: OrderId, reason: string)
    requires var db := OrderRun(EMPTY, ops); o in db.orders && db.orders[o].status == CANCELLED
    ensures var db := OrderRun(EMPTY, ops);
            && Running(db, o)
            && OrderNext(db, OnInventoryReserved(o)).orders[o].status == CONFIRMED
            && OrderNext(db, OnPaymentCompleted(o)).orders[o].status == COMPLETED
            && OrderNext(db, OnPaymentFailed(o, reason)).orders[o].status == FAILED
            && OrderNext(db, OnInventoryFailed(o, reason)).orders[o].status == FAILED
            && OrderNext(db, Timeout(o)).orders[o].status == FAILED
  {
    SagaAndOrder(ops, o);
    RunningMoves(OrderRun(EMPTY, ops), o, reason);
  }

  /** Where each handler takes the order of a running saga, whatever the order's status. */
  lemma {:induction false} RunningMoves(db: OrderDb, o: OrderId, reason: string)
    requires o in db.orders && Running(db, o)
    ensures OrderNext(db, OnInventoryReserved(o)).orders == db.orders[o := db.orders[o].(status := CONFIRMED)]
    ensures OrderNext(db, OnPaymentCompleted(o)).orders == db.orders[o := db.orders[o].(status := COMPLETED)]
    ensures OrderNext(db, OnPaymentFailed(o, reason)).orders == db.orders[o := db.orders[o].(status := FAILED)]
    ensures OrderNext(db, OnInventoryFailed(o, reason)).orders == db.orders[o := db.orders[o].(status := FAILED)]
    ensures OrderNext(db, Timeout(o)).orders == db.orders[o := db.orders[o].(status := FAILED)]
  {
  }

  /** CANCELLED is reached. */
  lemma {:induction false} CancelledIsReached(lines: seq<Line>)
    ensures var db := OrderRun(EMPTY, [Create(1, 4, lines, None, 0), Cancel(1, 4, CUSTOMER)]);
            1 in db.orders && db.orders[1].status == CANCELLED && Running(db, 1)
  {
    var ops := [Create(1, 4, lines, None, 0), Cancel(1, 4, CUSTOMER)];
    assert ops[..1] == [Create(1, 4, lines, None, 0)] && ops[..1][..0] == [];
    assert OrderRun(EMPTY, ops[..1][..0]) == EMPTY;
    var created := OrderRun(EMPTY, ops[..1]);
    assert ops[..1][0] == Create(1, 4, lines, None, 0);
    assert created == OrderNext(EMPTY, Create(1, 4, lines, None, 0));
    assert 1 in created.orders && created.orders[1].status == PENDING;
  }

  /**
   * Placing the same request again changes nothing. After the first attempt at most one order answers it, and one
   * does exactly when the user had one already or the key was free.
   */
  lemma {:induction false} CreateIsIdempotent(
    ops: seq<OrderOp>, first: OrderId, again: OrderId, user: UserId,
    lines: seq<Line>, lines': seq<Line>, key: string, now: Time, later: Time)
    requires key != "" && first !in OrderRun(EMPTY, ops).orders
    ensures var before := OrderRun(EMPTY, ops);
            var db := CreateNext(before, first, user, lines, Some(key), now);
            && CreateNext(db, again, user, lines', Some(key), later) == db
            && (forall a, b | a in db.orders && b in db.orders
                  && SameRequest(db.orders[a], user, Some(key)) && SameRequest(db.orders[b], user, Some(key)) :: a == b)
            && (Seen(db, user, Some(key)) <==> Seen(before, user, Some(key)) || !KeyTaken(before, Some(key)))
  {
    OrderRunKeepsInv(ops);
    var before := OrderRun(EMPTY, ops);
    var db := CreateNext(before, first, user, lines, Some(key), now);
    OrderStepKeepsInv(before, Create(first, user, lines, Some(key), now));
    if db != before {
      assert SameRequest(db.orders[first], user, Some(key));
    }
  }
}
